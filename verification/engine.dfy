/** The game engine (canastautil.rs `Game`): the deal, the legality
    predicate `check_legal`, the step `execute_play` and `get_scores`.
    The state is immutable: `Execute` returns the next state, or the fault
    at which the source would panic. */
module Engine {
  import opened Cards
  import opened Outcomes
  import DrawPiles
  import Hands
  import Boards
  import Turns
  import opened Plays
  import opened Knowledge
  import opened Modular

  /** `Game`. Each `Player` of the source is split into its hand
      (`hands[i]`) and its knowledge (`knowledge[i]`); the board it shares
      with its team is `boards[i % teamsCount]`. */
  datatype Game = Game(
    drawPile: seq<Card>,
    discardPile: seq<Card>,
    hands: seq<Hands.Hand>,
    knowledge: seq<seq<RankDelta>>,
    boards: seq<Boards.Board>,
    playersPerTeam: nat,
    teamsCount: nat,
    finished: bool,
    frozen: bool,
    turn: Turns.TurnCounter,
    drawn: bool)
  {
    /** Number of seats. */
    function Seats(): nat {
      playersPerTeam * teamsCount
    }
  }

  /** The shape every state keeps. */
  predicate WellFormed(g: Game) {
    && g.teamsCount > 0 && g.playersPerTeam > 0
    && |g.hands| == g.Seats()
    && Shaped(g.knowledge, g.Seats())
    && |g.boards| == g.teamsCount
    && (forall t :: 0 <= t < |g.boards| ==> Boards.Valid(g.boards[t]))
    && g.turn.Valid() && g.turn.playersCount == g.Seats()
  }

  /** The team, and so the board, of a seat: `i % teams_count`
      (canastautil.rs:698). */
  function Team(g: Game, seat: nat): (t: nat)
    requires g.teamsCount > 0
    ensures t < g.teamsCount
  {
    seat % g.teamsCount
  }

  /** Seat on turn (`get_curr_player`). */
  function Current(g: Game): nat {
    g.turn.turn
  }

  function CurrentHand(g: Game): Hands.Hand
    requires WellFormed(g)
  {
    g.hands[Current(g)]
  }

  function CurrentBoard(g: Game): Boards.Board
    requires WellFormed(g)
  {
    g.boards[Team(g, Current(g))]
  }

  /** The wildcard the engine reaches for: a joker if the hand has one,
      else a two. */
  function WildOf(h: Hands.Hand): WildCard {
    if Hands.Get(h, Joker) > 0 then Joker else Two
  }

  function Top(pile: seq<Card>): Card
    requires pile != []
  {
    pile[|pile| - 1]
  }

  // ---------------------------------------------------------------------
  // Game::new
  // ---------------------------------------------------------------------

  /** Draws `k` cards one by one into `h`; fails when the pile runs out. */
  function DealHand(pile: seq<Card>, h: Hands.Hand, k: nat): (r: Result<(Hands.Hand, seq<Card>)>)
    ensures r.Ok? <==> k <= |pile|
    ensures r.Fail? ==> r.fault == NotEnoughCards
    ensures r.Ok? ==> |r.value.1| + k == |pile| && Hands.Size(r.value.0) == Hands.Size(h) + k
    ensures r.Ok? ==> forall c :: DrawPiles.Count(r.value.1, c) + Hands.Get(r.value.0, c)
                                 == DrawPiles.Count(pile, c) + Hands.Get(h, c)
  {
    if k == 0 then Ok((h, pile))
    else
      match DrawPiles.DrawTop(pile)
      case None => Fail(NotEnoughCards)
      case Some((c, rest)) =>
        Hands.SizeAdd(h, c, 1);
        DealHand(rest, Hands.Add(h, c, 1), k - 1)
  }

  /** Deals `k` cards to each of `m` seats in seat order. */
  function DealSeats(pile: seq<Card>, m: nat, k: nat): (r: Result<(seq<Hands.Hand>, seq<Card>)>)
    ensures r.Ok? <==> m * k <= |pile|
    ensures r.Fail? ==> r.fault == NotEnoughCards
    ensures r.Ok? ==> |r.value.0| == m && |r.value.1| + m * k == |pile|
    ensures r.Ok? ==> forall s :: 0 <= s < m ==> Hands.Size(r.value.0[s]) == k
    ensures r.Ok? ==> forall c :: DrawPiles.Count(r.value.1, c) + Hands.TotalOf(r.value.0, c)
                                 == DrawPiles.Count(pile, c)
  {
    if m == 0 then Ok(([], pile))
    else
      var dealt := DealSeats(pile, m - 1, k);
      assert (m - 1) * k + k == m * k;
      if dealt.Fail? then Fail(NotEnoughCards)
      else
        var hands := dealt.value.0;
        var rest := dealt.value.1;
        var one := DealHand(rest, Hands.Empty(), k);
        if one.Fail? then Fail(NotEnoughCards)
        else
          var h := one.value.0;
          forall c ensures DrawPiles.Count(one.value.1, c) + Hands.TotalOf(hands + [h], c) == DrawPiles.Count(pile, c) {
            Hands.TotalOfAppend(hands, h, c);
          }
          assert forall s :: 0 <= s < m ==> Hands.Size((hands + [h])[s]) == k by {
            Hands.IsEmptyIffSizeZero(Hands.Empty());
            assert Hands.IsEmpty(Hands.Empty());
          }
          Ok((hands + [h], one.value.1))
  }

  /** `Game::new(teams_count, players_per_team, decks, hand_size)`, with the
      shuffled draw pile given as `order`: deals `handSize` cards to every
      seat, then turns up one card to start the discard pile, which is
      frozen if that card is a wildcard. Fails exactly when the cards run
      out. */
  function NewGame(teamsCount: nat, playersPerTeam: nat, decks: nat, handSize: nat, order: seq<Card>): (r: Result<Game>)
    requires teamsCount > 0 && playersPerTeam > 0
    requires DrawPiles.IsShuffleOf(order, DrawPiles.FreshPile(decks))
    ensures r.Ok? <==> playersPerTeam * teamsCount * handSize < 52 * decks
    ensures r.Fail? ==> r.fault == NotEnoughCards
    ensures r.Ok? ==> WellFormed(r.value)
    ensures r.Ok? ==> |r.value.drawPile| + playersPerTeam * teamsCount * handSize + 1 == 52 * decks
    ensures r.Ok? ==> |r.value.discardPile| == 1 && r.value.frozen == IsWild(Top(r.value.discardPile))
    ensures r.Ok? ==> !r.value.finished && !r.value.drawn && Current(r.value) == 0 && r.value.turn.totalTurns == 0
    ensures r.Ok? ==> forall s :: 0 <= s < |r.value.hands| ==> Hands.Size(r.value.hands[s]) == handSize
  {
    DrawPiles.ShuffleCounts(order, DrawPiles.FreshPile(decks));
    var dealt :- Deal(order, playersPerTeam * teamsCount, handSize);
    Ok(Opening(teamsCount, playersPerTeam, dealt.0, dealt.1, dealt.2))
  }

  /** Deals `k` cards to each of `m` seats, then turns up the next card of
      the pile; fails when the pile runs out first. */
  function Deal(order: seq<Card>, m: nat, k: nat): (r: Result<(seq<Hands.Hand>, seq<Card>, Card)>)
    ensures r.Ok? <==> m * k < |order|
    ensures r.Fail? ==> r.fault == NotEnoughCards
    ensures r.Ok? ==> |r.value.0| == m && |r.value.1| + m * k + 1 == |order|
    ensures r.Ok? ==> forall s :: 0 <= s < m ==> Hands.Size(r.value.0[s]) == k
    ensures r.Ok? ==> forall c :: DrawPiles.Count(r.value.1 + [r.value.2], c) + Hands.TotalOf(r.value.0, c)
                                 == DrawPiles.Count(order, c)
  {
    var dealt := DealSeats(order, m, k);
    if dealt.Fail? then Fail(NotEnoughCards)
    else
      var up := DrawPiles.DrawTop(dealt.value.1);
      if up.None? then Fail(NotEnoughCards)
      else Ok((dealt.value.0, up.value.1, up.value.0))
  }

  /** The state right after the deal: nobody has drawn, seat 0 is on turn. */
  function Opening(teamsCount: nat, playersPerTeam: nat, hands: seq<Hands.Hand>, drawPile: seq<Card>, up: Card): (g: Game)
    requires teamsCount > 0 && playersPerTeam > 0
    requires |hands| == playersPerTeam * teamsCount
    ensures WellFormed(g)
    ensures g.hands == hands && g.drawPile == drawPile && g.discardPile == [up]
    ensures g.frozen == IsWild(up) && !g.finished && !g.drawn
    ensures Current(g) == 0 && g.turn.totalTurns == 0
    ensures forall t :: 0 <= t < |g.boards| ==> g.boards[t] == Boards.New()
  {
    var n := playersPerTeam * teamsCount;
    Game(drawPile, [up], hands, Fresh(n), seq(teamsCount, _ => Boards.New()),
         playersPerTeam, teamsCount, false, IsWild(up), Turns.New(n), false)
  }

  /** Advancing the turn moves to the next seat round the table. */
  lemma AdvanceIsNextSeat(g: Game)
    requires WellFormed(g)
    ensures Turns.Advance(g.turn).turn == (Current(g) + 1) % g.Seats()
  {
    ModBelowTwice(Current(g) + 1, g.Seats());
  }

  // ---------------------------------------------------------------------
  // Game::check_legal
  // ---------------------------------------------------------------------

  /** `Game::check_legal`: whether the seat on turn may make play `p`. */
  predicate CheckLegal(g: Game, p: Play)
    requires WellFormed(g)
  {
    var hand := CurrentHand(g);
    var size := Hands.Size(hand);
    var board := CurrentBoard(g);
    var canastas := Boards.NumCanastas(board);
    match p
    case GoOut =>
      var threes := Hands.Get(hand, Three);
      && g.drawn
      && canastas >= 2
      && size - threes == 1
      && (threes >= 3 || threes == 0)
    case PickupPile =>
      var wild := WildOf(hand);
      if g.discardPile == [] then false
      else
        var top := Top(g.discardPile);
        var len := |g.discardPile|;
        if g.drawn then false
        else if Boards.Get(board, top).Some? && size + len - 1 >= 2 && !g.frozen then true
        else if size <= 3 && len == 1 then false
        else if size <= 2 && len == 2 then false
        else if top == Joker || top == Two || top == Three then false
        else if g.frozen || !board.down then Hands.Get(hand, top) >= 2
        else !g.frozen && Hands.Get(hand, wild) >= 1 && Hands.Get(hand, top) >= 2
    case PlaceWild(card) =>
      var wild := WildOf(hand);
      var stack := Boards.Get(board, card);
      if !g.drawn then false
      else if size <= 2 && canastas < 2 then
        && canastas == 1
        && stack.Some?
        && stack.value.Total() == 6
        && size == 2
        && Hands.Get(hand, wild) >= 1
        && stack.value.twos + stack.value.jokers + 1 <= stack.value.naturals
      else
        && stack.Some?
        && Hands.Get(hand, wild) >= 1
        && stack.value.twos + stack.value.jokers + 1 <= stack.value.naturals
    case Draw =>
      !g.drawn
    case Discard(card) =>
      && g.drawn
      && Hands.Get(hand, card) != 0
      && (canastas >= 2 || size > 1)
    case Play(card) =>
      var stack := Boards.Get(board, card);
      var held := Hands.Get(hand, card);
      if || held == 0
         || !g.drawn
         || size == 1
         || (&& size == 2
             && canastas < 2
             && !(canastas == 1 && stack.Some? && stack.value.Total() == 6))
      then false
      else if stack.Some? then true
      else if held >= 3 || (held == 2 && Hands.Get(hand, Joker) + Hands.Get(hand, Two) >= 1) then
        size >= 5 || (size >= 4 && canastas >= 2)
      else false
  }

  /** `GameState::actions`: the legal plays, in `Play::iterator` order. */
  function LegalPlays(g: Game): (r: seq<Play>)
    requires WellFormed(g)
    ensures forall p :: p in r <==> CheckLegal(g, p)
    ensures InListOrder(r)
  {
    PlayListIsPermutation();
    forall p ensures p in PlayList() {
      assert PlayList()[ListPosition(p)] == p;
    }
    FilterLegal(g, PlayList())
  }

  /** The plays appear in strictly increasing `Play::iterator` position, so
      in iterator order and each at most once. */
  predicate InListOrder(plays: seq<Play>) {
    forall i, j :: 0 <= i < j < |plays| ==> ListPosition(plays[i]) < ListPosition(plays[j])
  }

  /** The loop of `actions`: keeps the legal plays of `plays`, in order. */
  function FilterLegal(g: Game, plays: seq<Play>): (r: seq<Play>)
    requires WellFormed(g)
    ensures forall p :: p in r <==> p in plays && CheckLegal(g, p)
    ensures |r| <= |plays|
    ensures InListOrder(plays) ==> InListOrder(r)
  {
    if plays == [] then []
    else
      var front := plays[..|plays| - 1];
      var r := FilterLegal(g, front);
      var p := plays[|plays| - 1];
      assert plays == front + [p];
      if CheckLegal(g, p) then
        assert InListOrder(plays) ==> InListOrder(r + [p]) by {
          if InListOrder(plays) {
            assert InListOrder(front);
            forall i | 0 <= i < |r| ensures ListPosition(r[i]) < ListPosition(p) {
              assert r[i] in front;
            }
          }
        }
        r + [p]
      else r
  }

  /** The legal plays in iterator order are the only list that holds each
      legal play and nothing else, in iterator order: `LegalPlays` is
      exactly the list `actions` builds. */
  lemma LegalPlaysUnique(g: Game, r: seq<Play>)
    requires WellFormed(g)
    requires forall p :: p in r <==> CheckLegal(g, p)
    requires InListOrder(r)
    ensures r == LegalPlays(g)
  {
    OrderedUnique(r, LegalPlays(g));
  }

  /** Two lists in iterator order with the same members are equal. */
  lemma {:induction false} OrderedUnique(a: seq<Play>, b: seq<Play>)
    requires InListOrder(a) && InListOrder(b)
    requires forall p :: p in a <==> p in b
    ensures a == b
    decreases |a|
  {
    EmptyTogether(a, b);
    if a != [] && b != [] {
      HeadsAgree(a, b);
      TailsAgree(a, b);
      TailInOrder(a);
      TailInOrder(b);
      OrderedUnique(a[1..], b[1..]);
      assert a == [a[0]] + a[1..] && b == [b[0]] + b[1..];
    }
  }

  /** Two non-empty lists in iterator order with the same members start
      with the same play: each head comes no later than the other. */
  lemma HeadsAgree(a: seq<Play>, b: seq<Play>)
    requires InListOrder(a) && InListOrder(b) && a != [] && b != []
    requires forall p :: p in a <==> p in b
    ensures a[0] == b[0]
  {
    assert a[0] in b;
    assert b[0] in a;
    var k :| 0 <= k < |b| && b[k] == a[0];
    var m :| 0 <= m < |a| && a[m] == b[0];
    assert ListPosition(b[0]) <= ListPosition(a[0]);
    assert ListPosition(a[0]) <= ListPosition(b[0]);
  }

  /** With equal heads, the tails have the same members too. */
  lemma TailsAgree(a: seq<Play>, b: seq<Play>)
    requires InListOrder(a) && InListOrder(b) && a != [] && b != [] && a[0] == b[0]
    requires forall p :: p in a <==> p in b
    ensures forall p :: p in a[1..] <==> p in b[1..]
  {
    forall p ensures p in a[1..] <==> p in b[1..] {
      if p in a[1..] {
        var i :| 1 <= i < |a| && a[i] == p;
        assert ListPosition(a[0]) < ListPosition(a[i]);
        assert p in b;
        var j :| 0 <= j < |b| && b[j] == p;
        assert j != 0;
        assert b[1..][j - 1] == p;
      }
      if p in b[1..] {
        var j :| 1 <= j < |b| && b[j] == p;
        assert ListPosition(b[0]) < ListPosition(b[j]);
        assert p in a;
        var i :| 0 <= i < |a| && a[i] == p;
        assert i != 0;
        assert a[1..][i - 1] == p;
      }
    }
  }

  /** The tail of a list in iterator order is in iterator order. */
  lemma TailInOrder(a: seq<Play>)
    requires InListOrder(a) && a != []
    ensures InListOrder(a[1..])
  {
    forall i, j | 0 <= i < j < |a[1..]| ensures ListPosition(a[1..][i]) < ListPosition(a[1..][j]) {
      assert a[1..][i] == a[i + 1] && a[1..][j] == a[j + 1];
    }
  }

  /** Two lists with the same members are empty together. */
  lemma EmptyTogether(a: seq<Play>, b: seq<Play>)
    requires forall p :: p in a <==> p in b
    ensures a == [] <==> b == []
  {
    if a != [] {
      assert a[0] in b;
    }
    if b != [] {
      assert b[0] in a;
    }
  }

  // ---------------------------------------------------------------------
  // Game::execute_play
  // ---------------------------------------------------------------------

  /** The state after the action proper, with the acting seat's net card
      flow (`knowledge_update`). */
  datatype Step = Step(game: Game, delta: RankDelta)

  /** A hand, a board and a card flow produced by one meld move. */
  datatype Move = Move(hand: Hands.Hand, board: Boards.Board, delta: RankDelta)

  /** The move's card flow is exactly the change of the hand. */
  predicate Records(hand: Hands.Hand, m: Move) {
    forall c :: Hands.Get(m.hand, c) == Hands.Get(hand, c) + m.delta[Index(c)]
  }

  /** The move only moves cards from the hand to the board, plus the
      `extra` card that comes from outside (the top of the discard pile). */
  predicate Flows(hand: Hands.Hand, board: Boards.Board, m: Move, extra: Option<Card>) {
    && m.board.wentOut == board.wentOut
    && forall c :: Hands.Get(m.hand, c) + Boards.CardCount(m.board, c)
                   == Hands.Get(hand, c) + Boards.CardCount(board, c) + (if extra == Some(c) then 1 else 0)
  }

  /** What the action proper keeps: the shape, the seats and the
      knowledge, which only the broadcast changes. */
  predicate Keeps(g: Game, g': Game) {
    && WellFormed(g')
    && g'.playersPerTeam == g.playersPerTeam
    && g'.teamsCount == g.teamsCount
    && g'.knowledge == g.knowledge
  }

  /** First rank, in `Card::iterator` order, held exactly once. */
  function FirstSingleFrom(h: Hands.Hand, i: nat): (r: Result<Card>)
    requires i <= RankCount
    ensures r.Ok? ==> Hands.Get(h, r.value) == 1 && i <= Index(r.value)
    ensures r.Ok? ==> forall j :: i <= j < Index(r.value) ==> h[j] != 1
    ensures r.Fail? ==> r.fault == NoCardToGoOut && forall j :: i <= j < RankCount ==> h[j] != 1
    decreases RankCount - i
  {
    if i == RankCount then Fail(NoCardToGoOut)
    else if h[i] == 1 then Ok(FromIndex(i))
    else FirstSingleFrom(h, i + 1)
  }

  /** GoOut (canastautil.rs:912-939). The turn advances BEFORE the threes
      are read and removed and before `went_out` is set, so those two
      effects fall on the seat after the one going out. */
  function ActGoOut(g: Game): (r: Result<Step>)
    requires WellFormed(g)
    ensures r.Ok? <==> exists i :: 0 <= i < RankCount && g.hands[Current(g)][i] == 1
    ensures r.Fail? ==> r.fault == NoCardToGoOut
    ensures r.Ok? ==> Keeps(g, r.value.game)
  {
    var cur := Current(g);
    var card :- FirstSingleFrom(g.hands[cur], 0);
    var hands1 := g.hands[cur := Hands.Take(g.hands[cur], card, 1)];
    var turn := Turns.Advance(g.turn);
    var next := turn.turn;
    var h2 := Hands.Take(hands1[next], Three, Hands.Get(hands1[next], Three));
    var t := Team(g, next);
    Ok(Step(g.(discardPile := g.discardPile + [card],
               hands := hands1[next := h2],
               turn := turn,
               drawn := false,
               frozen := g.frozen || IsWild(card),
               finished := true,
               boards := g.boards[t := g.boards[t].(wentOut := true)]),
            Bump(Zero(), card, -1)))
  }

  /** The meld of `top` after a pickup: without a meld of its rank, or on a
      frozen pile, two more naturals from a held pair plus the top card,
      else one natural, the top card and the wildcard `wild`; otherwise
      the top card alone as one more natural. */
  function PickedMeld(hand: Hands.Hand, board: Boards.Board, top: Card, wild: WildCard, frozen: bool): Boards.Stack {
    var j := Boards.JokersAt(board, top);
    var t := Boards.TwosAt(board, top);
    var n := Boards.NaturalsAt(board, top);
    if Boards.Get(board, top).None? || frozen then
      if Hands.Get(hand, top) >= 2 then Boards.Stack(top, j, t, n + 3)
      else Boards.Stack(top, j + (if wild == Joker then 1 else 0), t + (if wild == Two then 1 else 0), n + 2)
    else Boards.Stack(top, j, t, n + 1)
  }

  /** How many copies of `c` the pickup's meld takes from the hand: two of
      a held pair, or one natural and one wildcard, or none when the top
      card just extends a meld. */
  function PickupTaken(hand: Hands.Hand, board: Boards.Board, top: Card, wild: WildCard, frozen: bool, c: Card): nat {
    if Boards.Get(board, top).None? || frozen then
      if Hands.Get(hand, top) >= 2 then (if c == top then 2 else 0)
      else (if c == top then 1 else 0) + (if c == wild then 1 else 0)
    else 0
  }

  /** The meld half of PickupPile (canastautil.rs:951-998). Without a meld
      of the top card's rank, or on a frozen pile, a pair from the hand and
      the top card start a meld of three, or one natural, one wildcard and
      the top card a meld of three; otherwise the top card alone extends
      the meld. */
  function PickupMeld(hand: Hands.Hand, board: Boards.Board, top: Card, wild: WildCard, frozen: bool): (r: Result<Move>)
    ensures r.Ok? <==>
      || (Boards.Get(board, top).Some? && !frozen)
      || Hands.Get(hand, top) >= 2
      || (Hands.Get(hand, top) == 1 && wild != top && Hands.Get(hand, wild) >= 1)
    ensures r.Fail? ==> r.fault == HandUnderflow
    ensures r.Ok? ==> (Boards.Valid(board) ==> Boards.Valid(r.value.board))
    ensures r.Ok? ==> Records(hand, r.value)
    ensures r.Ok? ==> Flows(hand, board, r.value, Some(top))
    ensures r.Ok? ==> (Boards.Sound(board) ==> Boards.Sound(r.value.board))
    ensures r.Ok? ==> Hands.Size(r.value.hand) + (if Boards.Get(board, top).None? || frozen then 2 else 0) == Hands.Size(hand)
    ensures r.Ok? ==> MeldBecomes(board, r.value.board, top, PickedMeld(hand, board, top, wild, frozen))
    ensures r.Ok? ==> forall c :: Hands.Get(r.value.hand, c) + PickupTaken(hand, board, top, wild, frozen, c) == Hands.Get(hand, c)
  {
    if Boards.Get(board, top).None? || frozen then
      if Hands.Get(hand, top) >= 2 then Ok(PickupPairMeld(hand, board, top))
      else PickupWildMeld(hand, board, top, wild)
    else
      Ok(PickupExtend(hand, board, top))
  }

  /** The pickup meld from a held pair: the pair and the top card make a
      meld of three. */
  function PickupPairMeld(hand: Hands.Hand, board: Boards.Board, top: Card): (m: Move)
    requires Hands.Get(hand, top) >= 2
    ensures Boards.Valid(board) ==> Boards.Valid(m.board)
    ensures Records(hand, m) && Flows(hand, board, m, Some(top))
    ensures Boards.Sound(board) ==> Boards.Sound(m.board)
    ensures Hands.Size(m.hand) + 2 == Hands.Size(hand)
    ensures MeldBecomes(board, m.board, top,
      Boards.Stack(top, Boards.JokersAt(board, top), Boards.TwosAt(board, top), Boards.NaturalsAt(board, top) + 3))
    ensures forall c :: Hands.Get(m.hand, c) + (if c == top then 2 else 0) == Hands.Get(hand, c)
  {
    var m := Move(Hands.Take(hand, top, 2), Boards.PlaceCard(board, top, 3), Bump(Zero(), top, -2));
    Hands.SizeTake(hand, top, 2);
    forall c ensures Hands.Get(m.hand, c) == Hands.Get(hand, c) + m.delta[Index(c)] {
      BumpAt(Zero(), top, -2, c);
    }
    forall c ensures Hands.Get(m.hand, c) + Boards.CardCount(m.board, c)
                     == Hands.Get(hand, c) + Boards.CardCount(board, c) + (if c == top then 1 else 0) {
      Boards.PlaceCardCount(board, top, 3, c);
    }
    Boards.PlaceCardSound(board, top, 3);
    m
  }

  /** The top card alone extends the team's meld of its rank. */
  function PickupExtend(hand: Hands.Hand, board: Boards.Board, top: Card): (m: Move)
    requires Boards.Get(board, top).Some?
    ensures Boards.Valid(board) ==> Boards.Valid(m.board)
    ensures Records(hand, m) && Flows(hand, board, m, Some(top))
    ensures Boards.Sound(board) ==> Boards.Sound(m.board)
    ensures m.hand == hand
    ensures MeldBecomes(board, m.board, top,
      Boards.Stack(top, Boards.JokersAt(board, top), Boards.TwosAt(board, top), Boards.NaturalsAt(board, top) + 1))
  {
    var m := Move(hand, Boards.PlaceCard(board, top, 1), Zero());
    forall c ensures Hands.Get(m.hand, c) + Boards.CardCount(m.board, c)
                     == Hands.Get(hand, c) + Boards.CardCount(board, c) + (if c == top then 1 else 0) {
      Boards.PlaceCardCount(board, top, 1, c);
    }
    Boards.PlaceCardSound(board, top, 1);
    m
  }

  /** The pickup meld from a single held copy of `top`: that copy and one
      wildcard leave the hand, and with the top card they make the meld. */
  function PickupWildMeld(hand: Hands.Hand, board: Boards.Board, top: Card, wild: WildCard): (r: Result<Move>)
    ensures r.Ok? <==> Hands.Get(hand, top) >= 1 && Hands.Get(hand, wild) >= (if wild == top then 2 else 1)
    ensures r.Fail? ==> r.fault == HandUnderflow
    ensures r.Ok? ==> (Boards.Valid(board) ==> Boards.Valid(r.value.board))
    ensures r.Ok? ==> forall c :: Hands.Get(r.value.hand, c) + (if c == top then 1 else 0) + (if c == wild then 1 else 0)
                                 == Hands.Get(hand, c)
    ensures r.Ok? ==> Records(hand, r.value)
    ensures r.Ok? ==> Flows(hand, board, r.value, Some(top))
    ensures r.Ok? ==> (Boards.Sound(board) ==> Boards.Sound(r.value.board))
    ensures r.Ok? ==> Hands.Size(r.value.hand) + 2 == Hands.Size(hand)
    ensures r.Ok? ==> MeldBecomes(board, r.value.board, top,
      Boards.Stack(top, Boards.JokersAt(board, top) + (if wild == Joker then 1 else 0),
                   Boards.TwosAt(board, top) + (if wild == Two then 1 else 0), Boards.NaturalsAt(board, top) + 2))
  {
    var h1 :- Hands.Remove(hand, top, 1);
    var h2 :- Hands.Remove(h1, wild, 1);
    Hands.SizeTake(hand, top, 1);
    Hands.SizeTake(h1, wild, 1);
    var b := Boards.PlaceCard(board, top, 2);
    var b' := if wild == Joker then Boards.PlaceJoker(b, top) else Boards.PlaceTwo(b, top);
    var delta := Bump(Bump(Zero(), top, -1), wild, -1);
    forall c ensures delta[Index(c)] + (if c == top then 1 else 0) + (if c == wild then 1 else 0) == 0 {
      BumpAt(Zero(), top, -1, c);
      BumpAt(Bump(Zero(), top, -1), wild, -1, c);
    }
    forall c ensures Hands.Get(h2, c) + Boards.CardCount(b', c)
                     == Hands.Get(hand, c) + Boards.CardCount(board, c) + (if c == top then 1 else 0) {
      Boards.PlaceCardCount(board, top, 2, c);
      if wild == Joker {
        Boards.PlaceJokerCount(b, top, c);
      } else {
        Boards.PlaceTwoCount(b, top, c);
      }
    }
    Boards.SoundAfterSlot(board, b', top);
    PickupWildLands(board, top, wild);
    Ok(Move(h2, b', delta))
  }

  /** The two naturals and the wildcard of `PickupWildMeld` all land on
      the meld of `top`, and the board is down. */
  lemma PickupWildLands(board: Boards.Board, top: Card, wild: WildCard)
    ensures var b := Boards.PlaceCard(board, top, 2);
      MeldBecomes(board, if wild == Joker then Boards.PlaceJoker(b, top) else Boards.PlaceTwo(b, top), top,
        Boards.Stack(top, Boards.JokersAt(board, top) + (if wild == Joker then 1 else 0),
                     Boards.TwosAt(board, top) + (if wild == Two then 1 else 0), Boards.NaturalsAt(board, top) + 2))
  {
  }

  /** PickupPile (canastautil.rs:940-1011): the meld, then the whole
      discard pile into the hand except the top card, which is on the
      board; the pile is emptied and unfrozen and the seat has drawn. */
  function ActPickup(g: Game): (r: Result<Step>)
    requires WellFormed(g)
    ensures g.discardPile == [] ==> r == Fail(EmptyDiscardPile)
    ensures r.Ok? ==> Keeps(g, r.value.game)
  {
    var cur := Current(g);
    var t := Team(g, cur);
    var hand := g.hands[cur];
    var wild := WildOf(hand);
    if g.discardPile == [] then Fail(EmptyDiscardPile)
    else
      var top := Top(g.discardPile);
      var m :- PickupMeld(hand, g.boards[t], top, wild, g.frozen);
      assert DrawPiles.Count(g.discardPile, top) >= 1 by {
        assert DrawPiles.DrawTop(g.discardPile).value.0 == top;
      }
      var h := Hands.Take(Hands.AddAll(m.hand, g.discardPile), top, 1);
      var delta := Bump(BumpAll(m.delta, g.discardPile), top, -1);
      Ok(Step(g.(drawn := true,
                 hands := g.hands[cur := h],
                 boards := g.boards[t := m.board],
                 frozen := false,
                 discardPile := []),
              delta))
  }

  /** PlaceWild (canastautil.rs:1012-1037): one wildcard from the hand onto
      the meld of `card`. */
  function ActPlaceWild(g: Game, card: PlayableCard): (r: Result<Step>)
    requires WellFormed(g)
    ensures r.Ok? <==> Hands.Get(g.hands[Current(g)], Joker) + Hands.Get(g.hands[Current(g)], Two) >= 1
    ensures r.Fail? ==> r.fault == HandUnderflow
    ensures r.Ok? ==> Keeps(g, r.value.game)
  {
    var cur := Current(g);
    var t := Team(g, cur);
    var wild := WildOf(g.hands[cur]);
    var h :- Hands.Remove(g.hands[cur], wild, 1);
    var b := if wild == Joker then Boards.PlaceJoker(g.boards[t], card) else Boards.PlaceTwo(g.boards[t], card);
    Ok(Step(g.(hands := g.hands[cur := h], boards := g.boards[t := b]), Bump(Zero(), wild, -1)))
  }

  /** Draw (canastautil.rs:1038-1043): the top of the draw pile into the
      hand; panics on an empty pile. */
  function ActDraw(g: Game): (r: Result<Step>)
    requires WellFormed(g)
    ensures r.Ok? <==> g.drawPile != []
    ensures r.Fail? ==> r.fault == EmptyDrawPile
    ensures r.Ok? ==> Keeps(g, r.value.game)
    ensures r.Ok? ==>
      var s := r.value.game;
      var cur := Current(g);
      var top := g.drawPile[|g.drawPile| - 1];
      && s.drawn
      && s.drawPile + [top] == g.drawPile
      && s.hands[cur] == Hands.Add(g.hands[cur], top, 1)
      && (forall o :: 0 <= o < |g.hands| && o != cur ==> s.hands[o] == g.hands[o])
      && s.discardPile == g.discardPile && s.boards == g.boards && s.turn == g.turn
      && s.frozen == g.frozen && s.finished == g.finished
  {
    var cur := Current(g);
    match DrawPiles.DrawTop(g.drawPile)
    case None => Fail(EmptyDrawPile)
    case Some((card, rest)) =>
      Ok(Step(g.(drawn := true, drawPile := rest, hands := g.hands[cur := Hands.Add(g.hands[cur], card, 1)]),
              Bump(Zero(), card, 1)))
  }

  /** Discard (canastautil.rs:1044-1056): the card onto the discard pile,
      ending the turn; a wildcard freezes the pile and an empty draw pile
      finishes the game. */
  function ActDiscard(g: Game, card: Card): (r: Result<Step>)
    requires WellFormed(g)
    ensures r.Ok? <==> Hands.Get(g.hands[Current(g)], card) >= 1
    ensures r.Fail? ==> r.fault == HandUnderflow
    ensures r.Ok? ==> Keeps(g, r.value.game)
  {
    var cur := Current(g);
    var h :- Hands.Remove(g.hands[cur], card, 1);
    Ok(Step(g.(hands := g.hands[cur := h],
               discardPile := g.discardPile + [card],
               drawn := false,
               turn := Turns.Advance(g.turn),
               frozen := g.frozen || card == Joker || card == Two,
               finished := g.finished || DrawPiles.IsEmpty(g.drawPile)),
            Bump(Zero(), card, -1)))
  }

  /** `b'` is `board` with the meld of `card` now `s`, marked down, and
      every other slot and `went_out` as they were. */
  predicate MeldBecomes(board: Boards.Board, b': Boards.Board, card: Card, s: Boards.Stack) {
    && b'.down && b'.wentOut == board.wentOut
    && Boards.Get(b', card) == Some(s)
    && forall i :: 0 <= i < RankCount && i != Index(card) ==> b'.piles[i] == board.piles[i]
  }

  /** The meld of `card` after a Play: one more natural on an existing
      meld; otherwise a new meld of three naturals when three are held,
      else of two naturals and a joker when one is held, else of two
      naturals and a two. */
  function PlayedMeld(hand: Hands.Hand, board: Boards.Board, card: Card): Boards.Stack {
    if Boards.Get(board, card).Some? then
      Boards.Stack(card, Boards.JokersAt(board, card), Boards.TwosAt(board, card), Boards.NaturalsAt(board, card) + 1)
    else if Hands.Get(hand, card) >= 3 then Boards.Stack(card, 0, 0, 3)
    else if Hands.Get(hand, Joker) >= 1 then Boards.Stack(card, 1, 0, 2)
    else Boards.Stack(card, 0, 1, 2)
  }

  /** The meld half of Play (canastautil.rs:1058-1118): one natural onto an
      existing meld; otherwise three naturals, or a joker (else a two) and
      two naturals, start one. */
  function PlayMeld(hand: Hands.Hand, board: Boards.Board, card: PlayableCard): (r: Result<Move>)
    ensures r.Ok? <==>
      if Boards.Get(board, card).Some? then Hands.Get(hand, card) >= 1
      else Hands.Get(hand, card) >= 3 || (Hands.Get(hand, card) == 2 && Hands.Get(hand, Joker) + Hands.Get(hand, Two) >= 1)
    ensures r.Fail? ==>
      (r.fault == NoWildToPlay <==>
         Boards.Get(board, card).None? && Hands.Get(hand, card) < 3 && Hands.Get(hand, Joker) + Hands.Get(hand, Two) == 0)
    ensures r.Fail? && r.fault != NoWildToPlay ==> r.fault == HandUnderflow
    ensures r.Ok? ==> (Boards.Valid(board) ==> Boards.Valid(r.value.board))
    ensures r.Ok? ==> Records(hand, r.value) && Flows(hand, board, r.value, None)
    ensures r.Ok? ==> (Boards.Sound(board) ==> Boards.Sound(r.value.board))
    ensures r.Ok? ==> Hands.Size(r.value.hand) + (if Boards.Get(board, card).Some? then 1 else 3) == Hands.Size(hand)
    ensures r.Ok? ==> MeldBecomes(board, r.value.board, card, PlayedMeld(hand, board, card))
  {
    if Boards.Get(board, card).Some? then ExtendMeld(hand, board, card)
    else if Hands.Get(hand, card) >= 3 then Ok(NaturalMeld(hand, board, card))
    else if Hands.Get(hand, Joker) >= 1 then WildMeld(hand, board, card, Joker)
    else if Hands.Get(hand, Two) >= 1 then WildMeld(hand, board, card, Two)
    else Fail(NoWildToPlay)
  }

  /** One natural from the hand onto the existing meld of `card`. */
  function ExtendMeld(hand: Hands.Hand, board: Boards.Board, card: Card): (r: Result<Move>)
    requires Boards.Get(board, card).Some?
    ensures r.Ok? <==> Hands.Get(hand, card) >= 1
    ensures r.Fail? ==> r.fault == HandUnderflow
    ensures r.Ok? ==> (Boards.Valid(board) ==> Boards.Valid(r.value.board))
    ensures r.Ok? ==> Records(hand, r.value) && Flows(hand, board, r.value, None)
    ensures r.Ok? ==> (Boards.Sound(board) ==> Boards.Sound(r.value.board))
    ensures r.Ok? ==> Hands.Size(r.value.hand) + 1 == Hands.Size(hand)
    ensures r.Ok? ==> MeldBecomes(board, r.value.board, card,
      Boards.Stack(card, Boards.JokersAt(board, card), Boards.TwosAt(board, card), Boards.NaturalsAt(board, card) + 1))
  {
    var b := Boards.PlaceCard(board, card, 1);
    var h :- Hands.Remove(hand, card, 1);
    var m := Move(h, b, Bump(Zero(), card, -1));
    forall c ensures Hands.Get(m.hand, c) == Hands.Get(hand, c) + m.delta[Index(c)] {
      BumpAt(Zero(), card, -1, c);
    }
    forall c ensures Hands.Get(m.hand, c) + Boards.CardCount(m.board, c) == Hands.Get(hand, c) + Boards.CardCount(board, c) {
      Boards.PlaceCardCount(board, card, 1, c);
    }
    Boards.PlaceCardSound(board, card, 1);
    Hands.SizeTake(hand, card, 1);
    Ok(m)
  }

  /** Three naturals from the hand start a meld. */
  function NaturalMeld(hand: Hands.Hand, board: Boards.Board, card: Card): (m: Move)
    requires Hands.Get(hand, card) >= 3
    ensures Boards.Valid(board) ==> Boards.Valid(m.board)
    ensures Records(hand, m) && Flows(hand, board, m, None)
    ensures Boards.Sound(board) ==> Boards.Sound(m.board)
    ensures Hands.Size(m.hand) + 3 == Hands.Size(hand)
    ensures MeldBecomes(board, m.board, card,
      Boards.Stack(card, Boards.JokersAt(board, card), Boards.TwosAt(board, card), Boards.NaturalsAt(board, card) + 3))
  {
    var m := Move(Hands.Take(hand, card, 3), Boards.PlaceCard(board, card, 3), Bump(Zero(), card, -3));
    forall c ensures Hands.Get(m.hand, c) == Hands.Get(hand, c) + m.delta[Index(c)] {
      BumpAt(Zero(), card, -3, c);
    }
    forall c ensures Hands.Get(m.hand, c) + Boards.CardCount(m.board, c) == Hands.Get(hand, c) + Boards.CardCount(board, c) {
      Boards.PlaceCardCount(board, card, 3, c);
    }
    Boards.PlaceCardSound(board, card, 3);
    Hands.SizeTake(hand, card, 3);
    m
  }

  /** Wildcard `w` and two naturals from the hand start a meld; the
      wildcard is placed first. */
  function WildMeld(hand: Hands.Hand, board: Boards.Board, card: PlayableCard, w: WildCard): (r: Result<Move>)
    requires Hands.Get(hand, w) >= 1
    ensures r.Ok? <==> Hands.Get(hand, card) >= 2
    ensures r.Fail? ==> r.fault == HandUnderflow
    ensures r.Ok? ==> (Boards.Valid(board) ==> Boards.Valid(r.value.board))
    ensures r.Ok? ==> Records(hand, r.value) && Flows(hand, board, r.value, None)
    ensures r.Ok? ==> (Boards.Sound(board) ==> Boards.Sound(r.value.board))
    ensures r.Ok? ==> Hands.Size(r.value.hand) + 3 == Hands.Size(hand)
    ensures r.Ok? ==> MeldBecomes(board, r.value.board, card,
      Boards.Stack(card, Boards.JokersAt(board, card) + (if w == Joker then 1 else 0),
                   Boards.TwosAt(board, card) + (if w == Two then 1 else 0), Boards.NaturalsAt(board, card) + 2))
  {
    var h1 := Hands.Take(hand, w, 1);
    var b1 := if w == Joker then Boards.PlaceJoker(board, card) else Boards.PlaceTwo(board, card);
    var h2 :- Hands.Remove(h1, card, 2);
    var b2 := Boards.PlaceCard(b1, card, 2);
    var d1 := Bump(Zero(), w, -1);
    var m := Move(h2, b2, Bump(d1, card, -2));
    forall c ensures Hands.Get(m.hand, c) == Hands.Get(hand, c) + m.delta[Index(c)] {
      BumpAt(Zero(), w, -1, c);
      BumpAt(d1, card, -2, c);
    }
    forall c ensures Hands.Get(m.hand, c) + Boards.CardCount(m.board, c) == Hands.Get(hand, c) + Boards.CardCount(board, c) {
      if w == Joker {
        Boards.PlaceJokerCount(board, card, c);
      } else {
        Boards.PlaceTwoCount(board, card, c);
      }
      Boards.PlaceCardCount(b1, card, 2, c);
    }
    Boards.SoundAfterSlot(board, b2, card);
    Hands.SizeTake(hand, w, 1);
    Hands.SizeTake(h1, card, 2);
    WildMeldLands(board, card, w);
    Ok(m)
  }

  /** The wildcard and the two naturals of `WildMeld` all land on the meld
      of `card`. */
  lemma WildMeldLands(board: Boards.Board, card: Card, w: WildCard)
    ensures var b1 := if w == Joker then Boards.PlaceJoker(board, card) else Boards.PlaceTwo(board, card);
      MeldBecomes(board, Boards.PlaceCard(b1, card, 2), card,
        Boards.Stack(card, Boards.JokersAt(board, card) + (if w == Joker then 1 else 0),
                     Boards.TwosAt(board, card) + (if w == Two then 1 else 0), Boards.NaturalsAt(board, card) + 2))
  {
  }

  function ActPlay(g: Game, card: PlayableCard): (r: Result<Step>)
    requires WellFormed(g)
    ensures r.Ok? ==> Keeps(g, r.value.game)
  {
    var cur := Current(g);
    var t := Team(g, cur);
    var m :- PlayMeld(g.hands[cur], g.boards[t], card);
    Ok(Step(g.(hands := g.hands[cur := m.hand], boards := g.boards[t := m.board]), m.delta))
  }

  /** The `match play` of `execute_play`. */
  function Act(g: Game, p: Play): (r: Result<Step>)
    requires WellFormed(g)
    ensures r.Ok? ==> Keeps(g, r.value.game)
  {
    match p
    case GoOut => ActGoOut(g)
    case PickupPile => ActPickup(g)
    case PlaceWild(card) => ActPlaceWild(g, card)
    case Draw => ActDraw(g)
    case Discard(card) => ActDiscard(g, card)
    case Play(card) => ActPlay(g, card)
  }

  /** `Game::execute_play`: the action, then the knowledge broadcast from
      the seat that acted, then the empty-hand check. The check looks at
      the seat that acted but marks the board of the seat now on turn. */
  function Execute(g: Game, p: Play): (r: Result<Game>)
    requires WellFormed(g)
    ensures r.Ok? ==> WellFormed(r.value)
  {
    var st :- Act(g, p);
    Ok(Conclude(g, st))
  }

  /** The end of `execute_play` after the action proper: the broadcast of
      the step's card flow, then the empty-hand check, which finishes the
      game and marks the board of the seat now on turn. Nothing else
      changes, and no card moves. */
  function Conclude(g: Game, st: Step): (r: Game)
    requires WellFormed(g) && Keeps(g, st.game)
    ensures WellFormed(r)
    ensures var a := st.game;
      var empty := Hands.IsEmpty(a.hands[Current(g)]);
      && r.drawPile == a.drawPile && r.discardPile == a.discardPile
      && r.hands == a.hands && r.turn == a.turn
      && r.drawn == a.drawn && r.frozen == a.frozen
      && r.finished == (a.finished || empty)
      && r.knowledge == Broadcast(g.knowledge, g.Seats(), Current(g), st.delta)
      && |r.boards| == |a.boards|
      && (forall t :: 0 <= t < |a.boards| ==>
            && r.boards[t].piles == a.boards[t].piles
            && r.boards[t].down == a.boards[t].down
            && r.boards[t].wentOut == (a.boards[t].wentOut || (empty && t == Team(g, a.turn.turn))))
      && (forall c :: Boards.TotalOf(r.boards, c) == Boards.TotalOf(a.boards, c))
  {
    var cur := Current(g);
    var a := st.game;
    var g1 := a.(knowledge := Broadcast(a.knowledge, g.Seats(), cur, st.delta));
    if Hands.IsEmpty(g1.hands[cur]) then
      var t := Team(g1, Current(g1));
      var marked := g1.boards[t].(wentOut := true);
      forall c ensures Boards.TotalOf(g1.boards[t := marked], c) == Boards.TotalOf(a.boards, c) {
        Boards.TotalOfUpdate(g1.boards, t, marked, c);
      }
      g1.(finished := true, boards := g1.boards[t := marked])
    else
      g1
  }

  // ---------------------------------------------------------------------
  // Game::get_scores
  // ---------------------------------------------------------------------

  /** The hand penalties the score of entry `i` subtracts: the hands of
      seats `i + j * playersPerTeam` for `j` below `m`. */
  function PenaltyBelow(g: Game, i: nat, m: nat): int
    requires WellFormed(g) && i < g.playersPerTeam && m <= g.teamsCount
  {
    if m == 0 then 0
    else
      SeatInRange(g, i, m - 1);
      PenaltyBelow(g, i, m - 1) + Hands.Score(g.hands[i + (m - 1) * g.playersPerTeam])
  }

  lemma SeatInRange(g: Game, i: nat, j: nat)
    requires WellFormed(g) && i < g.playersPerTeam && j < g.teamsCount
    ensures i + j * g.playersPerTeam < g.Seats()
  {
    BlockBound(i, j, g.playersPerTeam, g.teamsCount);
  }

  /** Entry `i` of the first block of `get_scores`: the board of seat `i`
      minus the penalties. */
  function BaseScore(g: Game, i: nat): int
    requires WellFormed(g) && i < g.playersPerTeam
  {
    Boards.Score(g.boards[Team(g, i)]) - PenaltyBelow(g, i, g.teamsCount)
  }

  /** `Game::get_scores`: `playersPerTeam` entries, then that block
      repeated once for each further team; every seat's entry is the
      entry of its position within the first block. */
  function Scores(g: Game): (r: seq<int>)
    requires WellFormed(g)
    ensures |r| == g.Seats()
    ensures forall k :: 0 <= k < |r| ==> r[k] == BaseScore(g, k % g.playersPerTeam)
  {
    var base := seq(g.playersPerTeam, i requires 0 <= i < g.playersPerTeam => BaseScore(g, i));
    Repeated(base, g.teamsCount)
  }

  /** `k` copies of `block` one after another. */
  function Repeated(block: seq<int>, k: nat): (r: seq<int>)
    requires k > 0
    ensures |r| == k * |block|
    ensures forall j :: 0 <= j < |r| ==> r[j] == block[j % |block|]
  {
    var n := |block|;
    if k == 1 then
      forall j | 0 <= j < n ensures j % n == j {
        ModBelowTwice(j, n);
      }
      block
    else
      var prev := Repeated(block, k - 1);
      var r := prev + block;
      forall j | (k - 1) * n <= j < k * n ensures r[j] == block[j % n] {
        ModUnique(j, n, k - 1, j - (k - 1) * n);
      }
      r
  }

  // ---------------------------------------------------------------------
  // Cards in play
  // ---------------------------------------------------------------------

  /** Copies of `c` in the draw pile, the discard pile, the hands and the
      melds together. */
  function TotalCount(g: Game, c: Card): nat {
    DrawPiles.Count(g.drawPile, c) + DrawPiles.Count(g.discardPile, c)
    + Hands.TotalOf(g.hands, c) + Boards.TotalOf(g.boards, c)
  }

  /** What `Execute` adds to the action proper: the knowledge broadcast,
      and the empty-hand check, which finishes the game and marks the
      board of the seat now on turn. */
  lemma ExecuteBookkeeping(g: Game, p: Play)
    requires WellFormed(g)
    ensures Execute(g, p).Ok? <==> Act(g, p).Ok?
    ensures Execute(g, p).Ok? ==>
      var g' := Execute(g, p).value;
      var a := Act(g, p).value.game;
      var empty := Hands.IsEmpty(a.hands[Current(g)]);
      && g'.drawPile == a.drawPile && g'.discardPile == a.discardPile
      && g'.hands == a.hands && g'.turn == a.turn
      && g'.drawn == a.drawn && g'.frozen == a.frozen
      && g'.finished == (a.finished || empty)
      && g'.knowledge == Broadcast(g.knowledge, g.Seats(), Current(g), Act(g, p).value.delta)
      && |g'.boards| == |a.boards|
      && (forall t :: 0 <= t < |a.boards| ==>
            && g'.boards[t].piles == a.boards[t].piles
            && g'.boards[t].down == a.boards[t].down
            && g'.boards[t].wentOut == (a.boards[t].wentOut || (empty && t == Team(g, a.turn.turn))))
      && (forall c :: Boards.TotalOf(g'.boards, c) == Boards.TotalOf(a.boards, c))
  {
    if Execute(g, p).Ok? {
      assert Execute(g, p).value == Conclude(g, Act(g, p).value);
    }
  }
}
