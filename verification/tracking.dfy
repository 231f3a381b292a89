/** The knowledge broadcast is exact: the card flow `execute_play`
    broadcasts is precisely the change in the acting seat's hand, so every
    other seat's counters about the actor follow that hand. */
module Tracking {
  import opened Cards
  import opened Outcomes
  import DrawPiles
  import Hands
  import Boards
  import opened Plays
  import opened Knowledge
  import opened Engine
  import Safety

  /** The per-rank change from hand `h` to hand `h'`. */
  function HandChange(h: Hands.Hand, h': Hands.Hand): (d: RankDelta)
    ensures forall c :: Hands.Get(h', c) == Hands.Get(h, c) + d[Index(c)]
  {
    seq(RankCount, i requires 0 <= i < RankCount => (h'[i] as int) - (h[i] as int))
  }

  /** A flow that explains every rank's change is the hand change. */
  lemma FlowIsHandChange(h: Hands.Hand, h': Hands.Hand, d: RankDelta)
    requires forall c :: Hands.Get(h', c) == Hands.Get(h, c) + d[Index(c)]
    ensures d == HandChange(h, h')
  {
    forall i | 0 <= i < RankCount ensures d[i] == HandChange(h, h')[i] {
      var c := FromIndex(i);
      assert Hands.Get(h', c) == Hands.Get(h, c) + d[Index(c)];
    }
  }

  lemma PickupDelta(g: Game, c: Card)
    requires WellFormed(g) && ActPickup(g).Ok?
    ensures var st := ActPickup(g).value;
      Hands.Get(st.game.hands[Current(g)], c) == Hands.Get(g.hands[Current(g)], c) + st.delta[Index(c)]
  {
    var cur := Current(g);
    var top := Top(g.discardPile);
    var m := PickupMeld(g.hands[cur], g.boards[Team(g, cur)], top, WildOf(g.hands[cur]), g.frozen).value;
    assert Hands.Get(m.hand, c) == Hands.Get(g.hands[cur], c) + m.delta[Index(c)];
    BumpAt(BumpAll(m.delta, g.discardPile), top, -1, c);
  }

  /** Every action's broadcast flow is the change in the acting seat's
      hand; for a go-out this needs a second seat, since with one seat the
      threes the turn advance throws away are the actor's own. */
  lemma ActDeltaIsHandChange(g: Game, p: Play, c: Card)
    requires WellFormed(g) && Act(g, p).Ok?
    requires p.GoOut? ==> g.Seats() >= 2
    ensures var st := Act(g, p).value;
      Hands.Get(st.game.hands[Current(g)], c) == Hands.Get(g.hands[Current(g)], c) + st.delta[Index(c)]
  {
    var cur := Current(g);
    match p
    case Draw =>
      BumpAt(Zero(), DrawPiles.DrawTop(g.drawPile).value.0, 1, c);
    case Discard(card) =>
      BumpAt(Zero(), card, -1, c);
    case PlaceWild(card) =>
      BumpAt(Zero(), WildOf(g.hands[cur]), -1, c);
    case GoOut =>
      AdvanceIsNextSeat(g);
      BumpAt(Zero(), FirstSingleFrom(g.hands[cur], 0).value, -1, c);
    case Play(card) =>
      var m := PlayMeld(g.hands[cur], g.boards[Team(g, cur)], card).value;
      assert Hands.Get(m.hand, c) == Hands.Get(g.hands[cur], c) + m.delta[Index(c)];
    case PickupPile =>
      PickupDelta(g, c);
  }

  /** After any play, the actor's own knowledge is unchanged and every
      other seat has added the change in the actor's hand to the one row
      it keeps about the actor. */
  lemma KnowledgeTracksHand(g: Game, p: Play)
    requires WellFormed(g) && Execute(g, p).Ok?
    ensures var g' := Execute(g, p).value;
      var cur := Current(g);
      && g'.knowledge[cur] == g.knowledge[cur]
      && forall o :: 0 <= o < g.Seats() && o != cur ==>
           g'.knowledge[o] == Observed(g.knowledge, g.Seats(), cur, o, HandChange(g.hands[cur], g'.hands[cur]))
  {
    var cur := Current(g);
    ExecuteBookkeeping(g, p);
    var st := Act(g, p).value;
    if !p.GoOut? || g.Seats() >= 2 {
      forall c ensures Hands.Get(st.game.hands[cur], c) == Hands.Get(g.hands[cur], c) + st.delta[Index(c)] {
        ActDeltaIsHandChange(g, p, c);
      }
      FlowIsHandChange(g.hands[cur], st.game.hands[cur], st.delta);
    }
    BroadcastSpec(g.knowledge, g.Seats(), cur, st.delta);
  }

  /** At a one-seat table the update a legal go-out broadcasts leaves the
      threes alone, although the actor has just thrown all of them away:
      this is why `ActDeltaIsHandChange` needs a second seat. */
  lemma LoneGoOutHidesThrees(g: Game)
    requires WellFormed(g) && CheckLegal(g, GoOut) && g.Seats() == 1
    requires Hands.Get(g.hands[0], Three) >= 3
    ensures Act(g, GoOut).Ok?
    ensures var st := Act(g, GoOut).value;
      && st.delta[Index(Three)] == 0
      && Hands.Get(st.game.hands[0], Three) == 0 < Hands.Get(g.hands[0], Three)
  {
    Safety.NoPanic(g, GoOut);
    AdvanceIsNextSeat(g);
    var card := FirstSingleFrom(g.hands[0], 0).value;
    assert card != Three;
    BumpAt(Zero(), card, -1, Three);
  }
}
