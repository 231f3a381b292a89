/** Two table rules the legality check upholds: a meld never holds more
    wildcards than naturals, and a seat empties its hand only once its team
    has two canastas. */
module MeldRules {
  import opened Cards
  import opened Outcomes
  import DrawPiles
  import Hands
  import Boards
  import opened Plays
  import opened Engine
  import Safety
  import Turns

  /** Every team's melds are sound. */
  predicate AllSound(g: Game) {
    forall t :: 0 <= t < |g.boards| ==> Boards.Sound(g.boards[t])
  }

  /** A legal wildcard placement leaves its meld with no more wildcards
      than naturals. */
  lemma PlaceWildSound(g: Game, card: PlayableCard)
    requires WellFormed(g) && Boards.Sound(CurrentBoard(g)) && CheckLegal(g, PlaceWild(card))
    ensures ActPlaceWild(g, card).Ok?
    ensures Boards.Sound(ActPlaceWild(g, card).value.game.boards[Team(g, Current(g))])
  {
    var b := CurrentBoard(g);
    var b' := ActPlaceWild(g, card).value.game.boards[Team(g, Current(g))];
    Boards.SoundAfterSlot(b, b', card);
  }

  /** Every play keeps all melds sound; a wildcard placement needs to be
      legal for that, the other plays do not. */
  lemma ExecuteKeepsSound(g: Game, p: Play)
    requires WellFormed(g) && AllSound(g) && Execute(g, p).Ok?
    requires p.PlaceWild? ==> CheckLegal(g, p)
    ensures AllSound(Execute(g, p).value)
  {
    ExecuteBookkeeping(g, p);
    ActKeepsSound(g, p);
    var a := Act(g, p).value.game;
    var g' := Execute(g, p).value;
    forall u | 0 <= u < |g'.boards| ensures Boards.Sound(g'.boards[u]) {
      assert g'.boards[u].piles == a.boards[u].piles;
      assert Boards.Sound(a.boards[u]);
    }
  }

  /** The action itself keeps all melds sound. */
  lemma ActKeepsSound(g: Game, p: Play)
    requires WellFormed(g) && AllSound(g) && Act(g, p).Ok?
    requires p.PlaceWild? ==> CheckLegal(g, p)
    ensures AllSound(Act(g, p).value.game)
  {
    var cur := Current(g);
    var t := Team(g, cur);
    var a := Act(g, p).value.game;
    match p
    case PlaceWild(card) =>
      PlaceWildSound(g, card);
      assert a.boards == g.boards[t := a.boards[t]];
      SoundUpdate(g.boards, t, a.boards[t], a.boards);
    case Play(card) =>
      var m := PlayMeld(g.hands[cur], g.boards[t], card).value;
      assert a.boards == g.boards[t := m.board];
      SoundUpdate(g.boards, t, m.board, a.boards);
    case PickupPile =>
      var m := PickupMeld(g.hands[cur], g.boards[t], Top(g.discardPile), WildOf(g.hands[cur]), g.frozen).value;
      assert a.boards == g.boards[t := m.board];
      SoundUpdate(g.boards, t, m.board, a.boards);
    case GoOut =>
      var tn := Team(g, Turns.Advance(g.turn).turn);
      var b := g.boards[tn].(wentOut := true);
      assert a.boards == g.boards[tn := b];
      SoundUpdate(g.boards, tn, b, a.boards);
    case Draw =>
      assert a.boards == g.boards;
    case Discard(_) =>
      assert a.boards == g.boards;
  }

  /** Putting a sound board in place of one board keeps all boards sound. */
  lemma SoundUpdate(boards: seq<Boards.Board>, t: nat, b: Boards.Board, boards': seq<Boards.Board>)
    requires t < |boards| && Boards.Sound(b) && boards' == boards[t := b]
    requires forall u :: 0 <= u < |boards| ==> Boards.Sound(boards[u])
    ensures forall u :: 0 <= u < |boards'| ==> Boards.Sound(boards'[u])
  {
  }

  // ---------------------------------------------------------------------
  // Going out needs two canastas
  // ---------------------------------------------------------------------

  lemma PickupKeepsCard(g: Game)
    requires WellFormed(g) && CheckLegal(g, PickupPile)
    ensures Hands.Size(ActPickup(g).value.game.hands[Current(g)]) >= 1
  {
    Safety.PickupSucceeds(g);
    var cur := Current(g);
    var hand := g.hands[cur];
    var top := Top(g.discardPile);
    var m := PickupMeld(hand, g.boards[Team(g, cur)], top, WildOf(hand), g.frozen).value;
    Hands.SizeTake(Hands.AddAll(m.hand, g.discardPile), top, 1);
    Hands.SlotAtMostSize(hand, Index(top), RankCount);
  }

  lemma PlayKeepsCard(g: Game, card: PlayableCard)
    requires WellFormed(g) && CheckLegal(g, Play(card))
    ensures Hands.Size(ActPlay(g, card).value.game.hands[Current(g)]) >= 1
  {
    Safety.PlaySucceeds(g, card);
    var hand := CurrentHand(g);
    var m := PlayMeld(hand, CurrentBoard(g), card);
    Hands.SlotAtMostSize(hand, Index(card), RankCount);
  }

  /** Without two canastas, no legal play empties the acting seat's hand. */
  lemma ActKeepsCard(g: Game, p: Play)
    requires WellFormed(g) && CheckLegal(g, p) && Act(g, p).Ok?
    requires Boards.NumCanastas(CurrentBoard(g)) < 2
    ensures Hands.Size(Act(g, p).value.game.hands[Current(g)]) >= 1
  {
    var hand := CurrentHand(g);
    match p
    case Draw =>
      Hands.SizeAdd(hand, DrawPiles.DrawTop(g.drawPile).value.0, 1);
    case Discard(card) =>
      Hands.SizeTake(hand, card, 1);
    case PlaceWild(card) =>
      Hands.SizeTake(hand, WildOf(hand), 1);
    case Play(card) =>
      PlayKeepsCard(g, card);
    case PickupPile =>
      PickupKeepsCard(g);
  }

  /** A legal play that leaves the acting seat with no cards was made with
      two canastas on its team's board. */
  lemma EmptyHandNeedsTwoCanastas(g: Game, p: Play)
    requires WellFormed(g) && CheckLegal(g, p) && Execute(g, p).Ok?
    requires Hands.IsEmpty(Execute(g, p).value.hands[Current(g)])
    ensures Boards.NumCanastas(CurrentBoard(g)) >= 2
  {
    ExecuteBookkeeping(g, p);
    Hands.IsEmptyIffSizeZero(Execute(g, p).value.hands[Current(g)]);
    if Boards.NumCanastas(CurrentBoard(g)) < 2 {
      ActKeepsCard(g, p);
      assert false;
    }
  }
}
