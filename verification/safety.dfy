/** When `execute_play` can panic: never on a legal play, except a draw
    from an empty draw pile, which legality does not exclude but which a
    game that is not finished never reaches. */
module Safety {
  import opened Cards
  import opened Outcomes
  import DrawPiles
  import Hands
  import Boards
  import opened Plays
  import opened Engine

  /** A legal go-out always finds its card to discard. */
  lemma GoOutFindsCard(g: Game)
    requires WellFormed(g) && CheckLegal(g, GoOut)
    ensures ActGoOut(g).Ok?
  {
    var h := CurrentHand(g);
    Hands.SingleBesides(h, Three);
    var i :| 0 <= i < RankCount && i != Index(Three) && h[i] == 1;
    assert FirstSingleFrom(h, 0).Ok?;
  }

  /** In a legal pickup the frozen or meld-less case always holds a pair
      of the top card: the branch that takes one natural and a wildcard is
      never reached. */
  lemma PickupWildBranchUnreachable(g: Game)
    requires WellFormed(g) && CheckLegal(g, PickupPile)
    ensures g.discardPile != []
    ensures Boards.Get(CurrentBoard(g), Top(g.discardPile)).None? || g.frozen
            ==> Hands.Get(CurrentHand(g), Top(g.discardPile)) >= 2
  {
  }

  lemma PickupSucceeds(g: Game)
    requires WellFormed(g) && CheckLegal(g, PickupPile)
    ensures ActPickup(g).Ok?
  {
    PickupWildBranchUnreachable(g);
  }

  lemma PlaySucceeds(g: Game, card: PlayableCard)
    requires WellFormed(g) && CheckLegal(g, Play(card))
    ensures ActPlay(g, card).Ok?
  {
  }

  /** A legal play never panics, provided a draw has a card to draw. */
  lemma NoPanic(g: Game, p: Play)
    requires WellFormed(g) && CheckLegal(g, p)
    requires p.Draw? ==> g.drawPile != []
    ensures Execute(g, p).Ok?
  {
    ExecuteBookkeeping(g, p);
    match p
    case GoOut => GoOutFindsCard(g);
    case PickupPile => PickupSucceeds(g);
    case Play(card) => PlaySucceeds(g, card);
    case _ =>
  }

  /** Legality does not look at the draw pile: with it empty a draw is
      still legal before the seat has drawn, and panics. */
  lemma LegalDrawCanPanic(g: Game)
    requires WellFormed(g) && !g.drawn && g.drawPile == []
    ensures CheckLegal(g, Draw)
    ensures Execute(g, Draw) == Fail(EmptyDrawPile)
  {
  }

  /** The seat on turn can still draw if it has to. */
  predicate DrawReady(g: Game) {
    !g.finished && !g.drawn ==> g.drawPile != []
  }

  /** A deal that leaves a card to draw starts ready. */
  lemma NewGameDrawReady(teamsCount: nat, playersPerTeam: nat, decks: nat, handSize: nat, order: seq<Card>)
    requires teamsCount > 0 && playersPerTeam > 0
    requires DrawPiles.IsShuffleOf(order, DrawPiles.FreshPile(decks))
    requires playersPerTeam * teamsCount * handSize + 1 < 52 * decks
    ensures NewGame(teamsCount, playersPerTeam, decks, handSize, order).Ok?
    ensures DrawReady(NewGame(teamsCount, playersPerTeam, decks, handSize, order).value)
  {
  }

  /** Every step keeps the draw ready: the discard that empties the draw
      pile finishes the game. */
  lemma ExecuteKeepsDrawReady(g: Game, p: Play)
    requires WellFormed(g) && DrawReady(g) && Execute(g, p).Ok?
    ensures DrawReady(Execute(g, p).value)
  {
    ExecuteBookkeeping(g, p);
  }

  /** While the game runs, no legal play panics. */
  lemma NoPanicWhileRunning(g: Game, p: Play)
    requires WellFormed(g) && DrawReady(g) && !g.finished && CheckLegal(g, p)
    ensures Execute(g, p).Ok?
  {
    NoPanic(g, p);
  }
}
