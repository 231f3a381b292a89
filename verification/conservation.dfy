/** Card conservation: no play creates or destroys a card, except that
    going out throws away the threes of the seat after the one going out. */
module Conservation {
  import opened Cards
  import opened Outcomes
  import DrawPiles
  import Hands
  import Boards
  import Turns
  import opened Plays
  import opened Engine
  import Safety

  /** Every action except going out keeps the number of copies of every
      rank in play. */
  lemma ActConserves(g: Game, p: Play, c: Card)
    requires WellFormed(g) && Act(g, p).Ok? && !p.GoOut?
    ensures TotalCount(Act(g, p).value.game, c) == TotalCount(g, c)
  {
    match p
    case Draw => DrawConserves(g, c);
    case Discard(card) => DiscardConserves(g, card, c);
    case PlaceWild(card) => PlaceWildConserves(g, card, c);
    case Play(card) => PlayConserves(g, card, c);
    case PickupPile => PickupConserves(g, c);
  }

  /** How the count of a rank changes when one seat's hand, one team's
      board and the two piles are replaced. */
  lemma Replace(g: Game, g': Game, seat: nat, h: Hands.Hand, t: nat, b: Boards.Board, c: Card)
    requires seat < |g.hands| && t < |g.boards|
    requires g'.hands == g.hands[seat := h] && g'.boards == g.boards[t := b]
    ensures TotalCount(g', c) + Hands.Get(g.hands[seat], c) + Boards.CardCount(g.boards[t], c)
            + DrawPiles.Count(g.drawPile, c) + DrawPiles.Count(g.discardPile, c)
         == TotalCount(g, c) + Hands.Get(h, c) + Boards.CardCount(b, c)
            + DrawPiles.Count(g'.drawPile, c) + DrawPiles.Count(g'.discardPile, c)
  {
    Hands.TotalOfUpdate(g.hands, seat, h, c);
    Boards.TotalOfUpdate(g.boards, t, b, c);
  }

  lemma DrawConserves(g: Game, c: Card)
    requires WellFormed(g) && ActDraw(g).Ok?
    ensures TotalCount(ActDraw(g).value.game, c) == TotalCount(g, c)
  {
    var cur := Current(g);
    var t := Team(g, cur);
    var top := Top(g.drawPile);
    var g' := ActDraw(g).value.game;
    var h := Hands.Add(g.hands[cur], top, 1);
    assert g'.hands == g.hands[cur := h] && g'.boards == g.boards[t := g.boards[t]];
    assert g.drawPile == g'.drawPile + [top] && g'.discardPile == g.discardPile;
    DrawPiles.CountPush(g'.drawPile, top, c);
    Replace(g, g', cur, h, t, g.boards[t], c);
  }

  lemma DiscardConserves(g: Game, card: Card, c: Card)
    requires WellFormed(g) && ActDiscard(g, card).Ok?
    ensures TotalCount(ActDiscard(g, card).value.game, c) == TotalCount(g, c)
  {
    var cur := Current(g);
    var t := Team(g, cur);
    var g' := ActDiscard(g, card).value.game;
    var h := Hands.Take(g.hands[cur], card, 1);
    assert g'.hands == g.hands[cur := h] && g'.boards == g.boards[t := g.boards[t]];
    assert g'.drawPile == g.drawPile && g'.discardPile == g.discardPile + [card];
    DrawPiles.CountPush(g.discardPile, card, c);
    Replace(g, g', cur, h, t, g.boards[t], c);
  }

  lemma PlaceWildConserves(g: Game, card: PlayableCard, c: Card)
    requires WellFormed(g) && ActPlaceWild(g, card).Ok?
    ensures TotalCount(ActPlaceWild(g, card).value.game, c) == TotalCount(g, c)
  {
    var cur := Current(g);
    var t := Team(g, cur);
    var wild := WildOf(g.hands[cur]);
    var g' := ActPlaceWild(g, card).value.game;
    var h := Hands.Take(g.hands[cur], wild, 1);
    var b := if wild == Joker then Boards.PlaceJoker(g.boards[t], card) else Boards.PlaceTwo(g.boards[t], card);
    assert g'.hands == g.hands[cur := h] && g'.boards == g.boards[t := b];
    assert g'.drawPile == g.drawPile && g'.discardPile == g.discardPile;
    if wild == Joker {
      Boards.PlaceJokerCount(g.boards[t], card, c);
    } else {
      Boards.PlaceTwoCount(g.boards[t], card, c);
    }
    assert Boards.CardCount(b, c) == Boards.CardCount(g.boards[t], c) + (if c == wild then 1 else 0);
    Replace(g, g', cur, h, t, b, c);
  }

  lemma PlayConserves(g: Game, card: PlayableCard, c: Card)
    requires WellFormed(g) && ActPlay(g, card).Ok?
    ensures TotalCount(ActPlay(g, card).value.game, c) == TotalCount(g, c)
  {
    var cur := Current(g);
    var t := Team(g, cur);
    var m := PlayMeld(g.hands[cur], g.boards[t], card).value;
    var g' := ActPlay(g, card).value.game;
    assert g'.hands == g.hands[cur := m.hand] && g'.boards == g.boards[t := m.board];
    assert g'.drawPile == g.drawPile && g'.discardPile == g.discardPile;
    assert Hands.Get(m.hand, c) + Boards.CardCount(m.board, c) == Hands.Get(g.hands[cur], c) + Boards.CardCount(g.boards[t], c);
    Replace(g, g', cur, m.hand, t, m.board, c);
  }

  lemma PickupConserves(g: Game, c: Card)
    requires WellFormed(g) && ActPickup(g).Ok?
    ensures TotalCount(ActPickup(g).value.game, c) == TotalCount(g, c)
  {
    var cur := Current(g);
    var t := Team(g, cur);
    var top := Top(g.discardPile);
    var m := PickupMeld(g.hands[cur], g.boards[t], top, WildOf(g.hands[cur]), g.frozen).value;
    var h := Hands.Take(Hands.AddAll(m.hand, g.discardPile), top, 1);
    var g' := ActPickup(g).value.game;
    assert g'.hands == g.hands[cur := h] && g'.boards == g.boards[t := m.board];
    assert g'.drawPile == g.drawPile && g'.discardPile == [];
    var top1 := if c == top then 1 else 0;
    assert Hands.Get(m.hand, c) + Boards.CardCount(m.board, c)
           == Hands.Get(g.hands[cur], c) + Boards.CardCount(g.boards[t], c) + top1;
    assert Hands.Get(h, c) + top1 == Hands.Get(m.hand, c) + DrawPiles.Count(g.discardPile, c);
    assert DrawPiles.Count(g'.discardPile, c) == 0;
    Replace(g, g', cur, h, t, m.board, c);
  }

  /** Going out with more than one seat keeps every rank in play except
      the threes, which lose exactly the threes the next seat held. */
  lemma GoOutLosesNextThrees(g: Game, c: Card)
    requires WellFormed(g) && Act(g, GoOut).Ok? && g.Seats() >= 2
    ensures var next := (Current(g) + 1) % g.Seats();
      TotalCount(Act(g, GoOut).value.game, c) + (if c == Three then Hands.Get(g.hands[next], Three) else 0)
      == TotalCount(g, c)
  {
    var cur := Current(g);
    AdvanceIsNextSeat(g);
    var next := (cur + 1) % g.Seats();
    var card := FirstSingleFrom(g.hands[cur], 0).value;
    var h1 := Hands.Take(g.hands[cur], card, 1);
    var hands1 := g.hands[cur := h1];
    var h2 := Hands.Take(hands1[next], Three, Hands.Get(hands1[next], Three));
    var tn := Team(g, next);
    var b := g.boards[tn].(wentOut := true);
    var g' := Act(g, GoOut).value.game;
    assert g'.hands == hands1[next := h2] && g'.boards == g.boards[tn := b];
    assert g'.drawPile == g.drawPile && g'.discardPile == g.discardPile + [card];
    assert cur != next;
    assert hands1[next] == g.hands[next];
    DrawPiles.CountPush(g.discardPile, card, c);
    assert Boards.CardCount(b, c) == Boards.CardCount(g.boards[tn], c);
    assert Hands.Get(h1, c) + (if card == c then 1 else 0) == Hands.Get(g.hands[cur], c);
    assert Hands.Get(h2, c) + (if c == Three then Hands.Get(g.hands[next], Three) else 0) == Hands.Get(g.hands[next], c);
    var g1 := g.(hands := hands1, discardPile := g.discardPile + [card]);
    Replace(g, g1, cur, h1, tn, g.boards[tn], c);
    Replace(g1, g', next, h2, tn, b, c);
  }

  /** `Execute` keeps every rank in play for every play except going out. */
  lemma ExecuteConserves(g: Game, p: Play, c: Card)
    requires WellFormed(g) && Execute(g, p).Ok? && !p.GoOut?
    ensures TotalCount(Execute(g, p).value, c) == TotalCount(g, c)
  {
    ExecuteBookkeeping(g, p);
    ActConserves(g, p, c);
  }

  /** `Execute` of a go-out throws away the next seat's threes and keeps
      everything else. */
  lemma ExecuteGoOutLosesNextThrees(g: Game, c: Card)
    requires WellFormed(g) && Execute(g, GoOut).Ok? && g.Seats() >= 2
    ensures var next := (Current(g) + 1) % g.Seats();
      TotalCount(Execute(g, GoOut).value, c) + (if c == Three then Hands.Get(g.hands[next], Three) else 0)
      == TotalCount(g, c)
  {
    ExecuteBookkeeping(g, GoOut);
    GoOutLosesNextThrees(g, c);
  }

  /** A legal go-out at a one-seat table: the seat after the actor is the
      actor itself, so the actor throws away all of its own threes, and
      every other rank stays in play. */
  lemma GoOutAloneLosesOwnThrees(g: Game, c: Card)
    requires WellFormed(g) && CheckLegal(g, GoOut) && g.Seats() == 1
    ensures Execute(g, GoOut).Ok?
    ensures TotalCount(Execute(g, GoOut).value, c) + (if c == Three then Hands.Get(g.hands[0], Three) else 0)
            == TotalCount(g, c)
  {
    Safety.NoPanic(g, GoOut);
    ExecuteBookkeeping(g, GoOut);
    var card := FirstSingleFrom(g.hands[0], 0).value;
    assert card != Three;
    ActGoOutAlone(g, card, c);
  }

  /** The action half of `GoOutAloneLosesOwnThrees`, for the card the
      go-out discards. */
  lemma ActGoOutAlone(g: Game, card: Card, c: Card)
    requires WellFormed(g) && g.Seats() == 1 && Act(g, GoOut).Ok?
    requires card == FirstSingleFrom(g.hands[0], 0).value && card != Three
    ensures TotalCount(Act(g, GoOut).value.game, c) + (if c == Three then Hands.Get(g.hands[0], Three) else 0)
            == TotalCount(g, c)
  {
    AdvanceIsNextSeat(g);
    var h1 := Hands.Take(g.hands[0], card, 1);
    var h2 := Hands.Take(h1, Three, Hands.Get(h1, Three));
    var b := g.boards[0].(wentOut := true);
    var g' := Act(g, GoOut).value.game;
    assert g'.hands == g.hands[0 := h2] && g'.boards == g.boards[0 := b];
    assert g'.drawPile == g.drawPile && g'.discardPile == g.discardPile + [card];
    DrawPiles.CountPush(g.discardPile, card, c);
    assert Boards.CardCount(b, c) == Boards.CardCount(g.boards[0], c);
    assert Hands.Get(h1, Three) == Hands.Get(g.hands[0], Three);
    assert Hands.Get(h1, c) + (if card == c then 1 else 0) == Hands.Get(g.hands[0], c);
    assert Hands.Get(h2, c) + (if c == Three then Hands.Get(h1, Three) else 0) == Hands.Get(h1, c);
    Replace(g, g', 0, h2, 0, b, c);
  }

  /** The deal moves the whole fresh pile into the hands, the draw pile and
      the upcard: every rank is in play exactly `decks` times its count in
      one deck. */
  lemma NewGameCounts(teamsCount: nat, playersPerTeam: nat, decks: nat, handSize: nat, order: seq<Card>, c: Card)
    requires teamsCount > 0 && playersPerTeam > 0
    requires DrawPiles.IsShuffleOf(order, DrawPiles.FreshPile(decks))
    requires NewGame(teamsCount, playersPerTeam, decks, handSize, order).Ok?
    ensures TotalCount(NewGame(teamsCount, playersPerTeam, decks, handSize, order).value, c)
            == decks * DrawPiles.PerDeck(c)
  {
    var g := NewGame(teamsCount, playersPerTeam, decks, handSize, order).value;
    var dealt := Deal(order, playersPerTeam * teamsCount, handSize).value;
    assert g == Opening(teamsCount, playersPerTeam, dealt.0, dealt.1, dealt.2);
    OpeningCounts(teamsCount, playersPerTeam, dealt.0, dealt.1, dealt.2, c);
    DrawPiles.ShuffleCounts(order, DrawPiles.FreshPile(decks));
  }

  lemma OpeningCounts(teamsCount: nat, playersPerTeam: nat, hands: seq<Hands.Hand>, drawPile: seq<Card>, up: Card, c: Card)
    requires teamsCount > 0 && playersPerTeam > 0
    requires |hands| == playersPerTeam * teamsCount
    ensures TotalCount(Opening(teamsCount, playersPerTeam, hands, drawPile, up), c)
            == DrawPiles.Count(drawPile + [up], c) + Hands.TotalOf(hands, c)
  {
    var g := Opening(teamsCount, playersPerTeam, hands, drawPile, up);
    Boards.TotalOfNew(g.boards, c);
    DrawPiles.CountPush(drawPile, up, c);
    DrawPiles.CountPush([], up, c);
    assert [] + [up] == [up];
  }
}
