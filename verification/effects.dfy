/** What individual plays do to the rest of the state: the turn counter,
    the discard and pickup bookkeeping, where going out is credited, and
    the shape of `get_scores`. */
module Effects {
  import opened Cards
  import opened Outcomes
  import DrawPiles
  import Hands
  import Boards
  import Turns
  import opened Plays
  import opened Engine
  import opened Modular
  import Safety

  /** Only a discard or a go-out passes the turn, to the next seat round
      the table, counting one more turn; every other play leaves the
      counter alone. */
  lemma TurnPassesOnlyOnDiscard(g: Game, p: Play)
    requires WellFormed(g) && Execute(g, p).Ok?
    ensures var g' := Execute(g, p).value;
      if p.Discard? || p.GoOut? then
        && Current(g') == (Current(g) + 1) % g.Seats()
        && g'.turn.totalTurns == g.turn.totalTurns + 1
      else g'.turn == g.turn
  {
    ExecuteBookkeeping(g, p);
    AdvanceIsNextSeat(g);
  }

  /** With two or more teams, the seat after any seat sits on another
      team. */
  lemma NextSeatOtherTeam(g: Game, s: nat)
    requires WellFormed(g) && g.teamsCount >= 2 && s < g.Seats()
    ensures Team(g, (s + 1) % g.Seats()) != Team(g, s)
  {
    var n := g.Seats();
    var m := g.teamsCount;
    ModBelowTwice(s + 1, n);
    if s + 1 < n {
      ModSucc(s, m);
      ModBelowTwice(s % m + 1, m);
    } else {
      assert n == (g.playersPerTeam - 1) * m + m;
      ModUnique(s, m, g.playersPerTeam - 1, m - 1);
      ModBelowTwice(0, m);
    }
  }

  /** A draw from a non-empty pile: the last card of the draw pile moves
      into the acting hand and the seat has drawn; the hand is not empty
      afterwards, so the game does not finish and no board changes; the
      other hands, the discard pile, the turn and the freeze stay as they
      were. */
  lemma DrawEffects(g: Game)
    requires WellFormed(g) && g.drawPile != []
    ensures Execute(g, Draw).Ok?
    ensures var g' := Execute(g, Draw).value;
      var cur := Current(g);
      var top := g.drawPile[|g.drawPile| - 1];
      && g'.drawn
      && g'.drawPile + [top] == g.drawPile
      && g'.hands[cur] == Hands.Add(g.hands[cur], top, 1)
      && (forall o :: 0 <= o < g.Seats() && o != cur ==> g'.hands[o] == g.hands[o])
      && g'.discardPile == g.discardPile && g'.boards == g.boards
      && g'.turn == g.turn && g'.frozen == g.frozen && g'.finished == g.finished
  {
    var cur := Current(g);
    ExecuteBookkeeping(g, Draw);
    var a := Act(g, Draw).value.game;
    var top := g.drawPile[|g.drawPile| - 1];
    Hands.SizeAdd(g.hands[cur], top, 1);
    Hands.IsEmptyIffSizeZero(a.hands[cur]);
    var g' := Execute(g, Draw).value;
    assert g'.boards == a.boards by {
      forall t | 0 <= t < |a.boards| ensures g'.boards[t] == a.boards[t] {
        assert g'.boards[t].piles == a.boards[t].piles;
      }
    }
  }

  /** A discard: one copy leaves the hand for the top of the discard
      pile; the seat has not drawn any more; the pile freezes exactly when
      the card is a wildcard; the game finishes when the draw pile is
      empty. Nothing else in the hand, no other hand, the draw pile and no
      meld changes; the turn passes on. */
  lemma DiscardEffects(g: Game, card: Card)
    requires WellFormed(g) && Execute(g, Discard(card)).Ok?
    ensures var g' := Execute(g, Discard(card)).value;
      && Hands.Get(g'.hands[Current(g)], card) + 1 == Hands.Get(g.hands[Current(g)], card)
      && g'.discardPile == g.discardPile + [card]
      && !g'.drawn
      && g'.frozen == (g.frozen || card == Joker || card == Two)
      && (g.drawPile == [] ==> g'.finished)
      && (g'.finished <==> g.finished || g.drawPile == [] || Hands.IsEmpty(g'.hands[Current(g)]))
    ensures var g' := Execute(g, Discard(card)).value;
      var cur := Current(g);
      var next := Team(g, (cur + 1) % g.Seats());
      var empty := Hands.IsEmpty(g'.hands[cur]);
      && (forall c :: c != card ==> Hands.Get(g'.hands[cur], c) == Hands.Get(g.hands[cur], c))
      && (forall o :: 0 <= o < g.Seats() && o != cur ==> g'.hands[o] == g.hands[o])
      && g'.drawPile == g.drawPile
      && g'.turn == Turns.Advance(g.turn)
      && (forall u :: 0 <= u < g.teamsCount ==>
            && g'.boards[u].piles == g.boards[u].piles && g'.boards[u].down == g.boards[u].down
            && g'.boards[u].wentOut == (g.boards[u].wentOut || (empty && u == next)))
  {
    ExecuteBookkeeping(g, Discard(card));
    AdvanceIsNextSeat(g);
  }

  /** A pickup: the seat has drawn, the discard pile is emptied and
      unfrozen, and the hand gains every card of the pile except the top
      card and the naturals it melds. The acting team's meld of the top
      card becomes `PickedMeld`; other hands, other teams' melds and the
      turn are unchanged. */
  lemma PickupEffects(g: Game)
    requires WellFormed(g) && Execute(g, PickupPile).Ok?
    ensures var g' := Execute(g, PickupPile).value;
      && g'.drawn && !g'.frozen && g'.discardPile == []
      && g'.drawPile == g.drawPile
      && forall c :: c != Top(g.discardPile) && c != Joker && c != Two ==>
           Hands.Get(g'.hands[Current(g)], c) == Hands.Get(g.hands[Current(g)], c) + DrawPiles.Count(g.discardPile, c)
    ensures var g' := Execute(g, PickupPile).value;
      var cur := Current(g);
      var t := Team(g, cur);
      var hand := g.hands[cur];
      var top := Top(g.discardPile);
      var empty := Hands.IsEmpty(g'.hands[cur]);
      && MeldBecomes(g.boards[t].(wentOut := g'.boards[t].wentOut), g'.boards[t], top,
                     PickedMeld(hand, g.boards[t], top, WildOf(hand), g.frozen))
      && (forall c :: Hands.Get(g'.hands[cur], c) + (if c == top then 1 else 0)
                        + PickupTaken(hand, g.boards[t], top, WildOf(hand), g.frozen, c)
                      == Hands.Get(hand, c) + DrawPiles.Count(g.discardPile, c))
      && (forall u :: 0 <= u < g.teamsCount ==>
            g'.boards[u].wentOut == (g.boards[u].wentOut || (empty && u == t)))
      && (forall u :: 0 <= u < g.teamsCount && u != t ==>
            g'.boards[u].piles == g.boards[u].piles && g'.boards[u].down == g.boards[u].down)
      && (forall o :: 0 <= o < g.Seats() && o != cur ==> g'.hands[o] == g.hands[o])
      && g'.turn == g.turn && g'.finished == (g.finished || empty)
  {
    ExecuteBookkeeping(g, PickupPile);
    ActPickupLands(g);
  }

  /** `PickupEffects` before the empty-hand check: the acting team's meld
      of the top card and the acting hand, with every other hand and board,
      the turn and `finished` as they were. */
  lemma ActPickupLands(g: Game)
    requires WellFormed(g) && ActPickup(g).Ok?
    ensures var a := ActPickup(g).value.game;
      var cur := Current(g);
      var t := Team(g, cur);
      var hand := g.hands[cur];
      var top := Top(g.discardPile);
      && MeldBecomes(g.boards[t], a.boards[t], top, PickedMeld(hand, g.boards[t], top, WildOf(hand), g.frozen))
      && (forall c :: Hands.Get(a.hands[cur], c) + (if c == top then 1 else 0)
                        + PickupTaken(hand, g.boards[t], top, WildOf(hand), g.frozen, c)
                      == Hands.Get(hand, c) + DrawPiles.Count(g.discardPile, c))
      && (forall u :: 0 <= u < g.teamsCount && u != t ==> a.boards[u] == g.boards[u])
      && (forall o :: 0 <= o < g.Seats() && o != cur ==> a.hands[o] == g.hands[o])
      && a.turn == g.turn && a.finished == g.finished
  {
    var cur := Current(g);
    var t := Team(g, cur);
    var hand := g.hands[cur];
    var top := Top(g.discardPile);
    var m := PickupMeld(hand, g.boards[t], top, WildOf(hand), g.frozen).value;
    var h := Hands.Take(Hands.AddAll(m.hand, g.discardPile), top, 1);
    assert ActPickup(g).value.game.hands[cur] == h;
    forall c ensures Hands.Get(h, c) + (if c == top then 1 else 0)
                       + PickupTaken(hand, g.boards[t], top, WildOf(hand), g.frozen, c)
                     == Hands.Get(hand, c) + DrawPiles.Count(g.discardPile, c)
    {
      assert Hands.Get(m.hand, c) + PickupTaken(hand, g.boards[t], top, WildOf(hand), g.frozen, c) == Hands.Get(hand, c);
    }
  }

  /** A legal wildcard placement puts one wildcard, the joker if the hand
      has one, on the existing meld of `card`, leaving it with no more
      wildcards than naturals. Everything else but the empty-hand check's
      bookkeeping is unchanged. */
  lemma PlaceWildEffects(g: Game, card: PlayableCard)
    requires WellFormed(g) && CheckLegal(g, PlaceWild(card))
    ensures Execute(g, PlaceWild(card)).Ok?
    ensures var g' := Execute(g, PlaceWild(card)).value;
      var s := Boards.Get(CurrentBoard(g), card);
      var s' := Boards.Get(g'.boards[Team(g, Current(g))], card);
      var w := WildOf(CurrentHand(g));
      && s.Some? && s'.Some?
      && s'.value.naturals == s.value.naturals
      && s'.value.jokers == s.value.jokers + (if w == Joker then 1 else 0)
      && s'.value.twos == s.value.twos + (if w == Two then 1 else 0)
      && s'.value.jokers + s'.value.twos <= s'.value.naturals
      && Hands.Get(g'.hands[Current(g)], w) + 1 == Hands.Get(CurrentHand(g), w)
    ensures var g' := Execute(g, PlaceWild(card)).value;
      var cur := Current(g);
      var t := Team(g, cur);
      var w := WildOf(CurrentHand(g));
      var empty := Hands.IsEmpty(g'.hands[cur]);
      && (forall i :: 0 <= i < RankCount && i != Index(card) ==> g'.boards[t].piles[i] == g.boards[t].piles[i])
      && (forall u :: 0 <= u < g.teamsCount ==>
            && g'.boards[u].down == g.boards[u].down
            && g'.boards[u].wentOut == (g.boards[u].wentOut || (empty && u == t)))
      && (forall u :: 0 <= u < g.teamsCount && u != t ==> g'.boards[u].piles == g.boards[u].piles)
      && (forall c :: c != w ==> Hands.Get(g'.hands[cur], c) == Hands.Get(g.hands[cur], c))
      && (forall o :: 0 <= o < g.Seats() && o != cur ==> g'.hands[o] == g.hands[o])
      && g'.drawPile == g.drawPile && g'.discardPile == g.discardPile
      && g'.drawn == g.drawn && g'.frozen == g.frozen && g'.turn == g.turn
      && g'.finished == (g.finished || empty)
  {
    Safety.NoPanic(g, PlaceWild(card));
    ExecuteBookkeeping(g, PlaceWild(card));
  }

  /** A play: the meld of `card` on the acting team's board becomes
      `PlayedMeld` (one more natural on an existing meld, else a new meld
      of three naturals, else of two naturals and the joker, else the two),
      the board is down, and its other melds stay as they were. No other
      hand, meld, pile, flag or the turn changes, except that a play that
      empties the hand finishes the game and marks the acting team. */
  lemma PlayEffects(g: Game, card: PlayableCard)
    requires WellFormed(g) && Execute(g, Play(card)).Ok?
    ensures var g' := Execute(g, Play(card)).value;
      var cur := Current(g);
      var t := Team(g, cur);
      var empty := Hands.IsEmpty(g'.hands[cur]);
      && MeldBecomes(g.boards[t].(wentOut := g'.boards[t].wentOut), g'.boards[t], card,
                     PlayedMeld(g.hands[cur], g.boards[t], card))
      && (forall u :: 0 <= u < g.teamsCount ==>
            g'.boards[u].wentOut == (g.boards[u].wentOut || (empty && u == t)))
      && (forall u :: 0 <= u < g.teamsCount && u != t ==> g'.boards[u].piles == g.boards[u].piles && g'.boards[u].down == g.boards[u].down)
      && (forall o :: 0 <= o < g.Seats() && o != cur ==> g'.hands[o] == g.hands[o])
      && g'.drawPile == g.drawPile && g'.discardPile == g.discardPile
      && g'.turn == g.turn && g'.drawn == g.drawn && g'.frozen == g.frozen
      && g'.finished == (g.finished || empty)
  {
    ExecuteBookkeeping(g, Play(card));
  }

  /** A legal go-out, with at least two seats: the card discarded is the
      acting seat's only card besides its threes, and the seat keeps those
      threes; the seat after it loses all of its threes and nothing else;
      and `went_out` is set on the board of that next seat's team, which
      with two or more teams is not the team that went out. The card goes
      on the discard pile, freezing it if it is wild; the draw pile, the
      melds and the other hands are unchanged. */
  lemma GoOutEffects(g: Game)
    requires WellFormed(g) && CheckLegal(g, GoOut) && g.Seats() >= 2
    ensures Execute(g, GoOut).Ok?
    ensures var g' := Execute(g, GoOut).value;
      var cur := Current(g);
      var next := (cur + 1) % g.Seats();
      && g'.finished && !g'.drawn
      && Hands.Get(g'.hands[cur], Three) == Hands.Get(g.hands[cur], Three)
      && Hands.Size(g'.hands[cur]) == Hands.Get(g.hands[cur], Three)
      && Hands.Get(g'.hands[next], Three) == 0
      && (forall c :: c != Three ==> Hands.Get(g'.hands[next], c) == Hands.Get(g.hands[next], c))
      && g'.boards[Team(g, next)].wentOut
      && (g.teamsCount >= 2 ==> g'.boards[Team(g, cur)].wentOut == g.boards[Team(g, cur)].wentOut)
    ensures var g' := Execute(g, GoOut).value;
      var cur := Current(g);
      var next := (cur + 1) % g.Seats();
      && |g'.discardPile| == |g.discardPile| + 1
      && var d := g'.discardPile[|g.discardPile|];
      && g'.discardPile == g.discardPile + [d]
      && d != Three && Hands.Get(g.hands[cur], d) == 1
      && (forall j :: 0 <= j < Index(d) ==> g.hands[cur][j] != 1)
      && (forall c :: Hands.Get(g'.hands[cur], c) == Hands.Get(g.hands[cur], c) - (if c == d then 1 else 0))
      && g'.frozen == (g.frozen || d == Joker || d == Two)
      && g'.drawPile == g.drawPile
      && g'.turn == Turns.Advance(g.turn)
      && (forall o :: 0 <= o < g.Seats() && o != cur && o != next ==> g'.hands[o] == g.hands[o])
      && (forall u :: 0 <= u < g.teamsCount ==>
            && g'.boards[u].piles == g.boards[u].piles && g'.boards[u].down == g.boards[u].down
            && g'.boards[u].wentOut == (g.boards[u].wentOut || u == Team(g, next)))
  {
    var cur := Current(g);
    Safety.NoPanic(g, GoOut);
    ExecuteBookkeeping(g, GoOut);
    AdvanceIsNextSeat(g);
    var card := FirstSingleFrom(g.hands[cur], 0).value;
    assert card != Three;
    Hands.SizeTake(g.hands[cur], card, 1);
    if g.teamsCount >= 2 {
      NextSeatOtherTeam(g, cur);
    }
  }

  /** A legal go-out at a one-seat table: the seat after the actor is the
      actor itself, so it discards its single card, then throws away its
      own threes; its hand is empty, the game is finished and its own
      team's board is marked. */
  lemma GoOutAloneEffects(g: Game)
    requires WellFormed(g) && CheckLegal(g, GoOut) && g.Seats() == 1
    ensures Execute(g, GoOut).Ok?
    ensures var g' := Execute(g, GoOut).value;
      && g'.finished && !g'.drawn && Current(g') == 0
      && Hands.Size(g'.hands[0]) == 0
      && g'.boards[0].wentOut
    ensures var g' := Execute(g, GoOut).value;
      && |g'.discardPile| == |g.discardPile| + 1
      && var d := g'.discardPile[|g.discardPile|];
      && g'.discardPile == g.discardPile + [d]
      && d != Three && Hands.Get(g.hands[0], d) == 1
      && (forall j :: 0 <= j < Index(d) ==> g.hands[0][j] != 1)
      && g'.frozen == (g.frozen || d == Joker || d == Two)
      && g'.drawPile == g.drawPile
      && g'.turn == Turns.Advance(g.turn)
      && (forall u :: 0 <= u < g.teamsCount ==>
            g'.boards[u].piles == g.boards[u].piles && g'.boards[u].down == g.boards[u].down)
  {
    Safety.NoPanic(g, GoOut);
    ExecuteBookkeeping(g, GoOut);
    AdvanceIsNextSeat(g);
    var card := FirstSingleFrom(g.hands[0], 0).value;
    assert card != Three;
    var h1 := Hands.Take(g.hands[0], card, 1);
    Hands.SizeTake(g.hands[0], card, 1);
    Hands.SizeTake(h1, Three, Hands.Get(h1, Three));
  }

  /** A legal discard of the last card finishes the game, but marks
      `went_out` on the board of the next seat's team rather than on the
      discarding team's own. */
  lemma LastDiscardCreditsNextTeam(g: Game, card: Card)
    requires WellFormed(g) && CheckLegal(g, Discard(card)) && Hands.Size(CurrentHand(g)) == 1
    ensures Execute(g, Discard(card)).Ok?
    ensures var g' := Execute(g, Discard(card)).value;
      var cur := Current(g);
      && g'.finished
      && g'.boards[Team(g, (cur + 1) % g.Seats())].wentOut
      && (g.teamsCount >= 2 ==> g'.boards[Team(g, cur)].wentOut == g.boards[Team(g, cur)].wentOut)
  {
    var cur := Current(g);
    Safety.NoPanic(g, Discard(card));
    ExecuteBookkeeping(g, Discard(card));
    AdvanceIsNextSeat(g);
    var h' := Execute(g, Discard(card)).value.hands[cur];
    Hands.SizeTake(g.hands[cur], card, 1);
    Hands.IsEmptyIffSizeZero(h');
    if g.teamsCount >= 2 {
      NextSeatOtherTeam(g, cur);
    }
  }

  /** Each of `get_scores`' entries repeats every `playersPerTeam` seats. */
  lemma ScoresRepeatEveryBlock(g: Game, k: nat)
    requires WellFormed(g) && k + g.playersPerTeam < g.Seats()
    ensures Scores(g)[k + g.playersPerTeam] == Scores(g)[k]
  {
    ModUnique(k + g.playersPerTeam, g.playersPerTeam, k / g.playersPerTeam + 1, k % g.playersPerTeam);
  }

  /** With one seat per team every entry of `get_scores` is the same: team
      0's board score less every hand's penalty. */
  lemma ScoresWithOneSeatPerTeam(g: Game, k: nat)
    requires WellFormed(g) && g.playersPerTeam == 1 && k < g.Seats()
    ensures Scores(g)[k] == Boards.Score(g.boards[0]) - PenaltyBelow(g, 0, g.teamsCount)
  {
    ModBelowTwice(0, g.teamsCount);
  }

  /** With every hand empty, each entry of `get_scores` is the board
      score of the team of the entry's seat within the first block. */
  lemma ScoresWithEmptyHands(g: Game, k: nat)
    requires WellFormed(g) && k < g.Seats()
    requires forall s :: 0 <= s < g.Seats() ==> Hands.IsEmpty(g.hands[s])
    ensures Scores(g)[k] == Boards.Score(g.boards[Team(g, k % g.playersPerTeam)])
  {
    PenaltyWithEmptyHands(g, k % g.playersPerTeam, g.teamsCount);
  }

  lemma {:induction false} PenaltyWithEmptyHands(g: Game, i: nat, m: nat)
    requires WellFormed(g) && i < g.playersPerTeam && m <= g.teamsCount
    requires forall s :: 0 <= s < g.Seats() ==> Hands.IsEmpty(g.hands[s])
    ensures PenaltyBelow(g, i, m) == 0
  {
    if m > 0 {
      PenaltyWithEmptyHands(g, i, m - 1);
      SeatInRange(g, i, m - 1);
      var h := g.hands[i + (m - 1) * g.playersPerTeam];
      Hands.IsEmptyIffSizeZero(h);
      EmptyScoresZero(h);
    }
  }

  lemma EmptyScoresZero(h: Hands.Hand)
    requires Hands.Size(h) == 0
    ensures Hands.Score(h) == 0
  {
    Hands.ScoreVersusFaceValue(h);
    forall i | 0 <= i < RankCount ensures h[i] == 0 {
      Hands.SlotAtMostSize(h, i, RankCount);
    }
    Hands.FaceBelowSingle(h, 0, RankCount);
  }
}
