/** The turn counter (canastautil.rs `TurnCounter`): the seat on turn and
    the number of turns taken so far. */
module Turns {
  import opened Modular

  /** `turn` is a `u8` and `total_turns` a `u16` in the source; see README. */
  datatype TurnCounter = TurnCounter(turn: nat, playersCount: nat, totalTurns: nat) {

    /** There is a seat, and the seat on turn is one of them. */
    predicate Valid() {
      0 < playersCount && turn < playersCount
    }
  }

  /** `TurnCounter::new`: seat 0 is on turn and no turn has been taken. */
  function New(playersCount: nat): (t: TurnCounter)
    requires playersCount > 0
    ensures t.Valid() && t.playersCount == playersCount
    ensures t.turn == 0 && t.totalTurns == 0
  {
    TurnCounter(0, playersCount, 0)
  }

  /** `TurnCounter::add`: the next seat, wrapping after the last one, and
      one more turn taken. */
  function Advance(t: TurnCounter): (r: TurnCounter)
    requires t.Valid()
    ensures r.Valid() && r.playersCount == t.playersCount
    ensures r.totalTurns == t.totalTurns + 1
    ensures r.turn == if t.turn == t.playersCount - 1 then 0 else t.turn + 1
  {
    TurnCounter((t.turn + 1) % t.playersCount, t.playersCount, t.totalTurns + 1)
  }

  /** `k` turns in a row. */
  function AdvanceBy(t: TurnCounter, k: nat): (r: TurnCounter)
    requires t.Valid()
    ensures r.Valid() && r.playersCount == t.playersCount
  {
    if k == 0 then t else Advance(AdvanceBy(t, k - 1))
  }

  /** After `k` turns the seat on turn is `k` seats further round the table
      and exactly `k` turns have been counted; in particular a full round of
      `playersCount` turns comes back to the same seat. */
  lemma {:induction false} AdvanceByRotates(t: TurnCounter, k: nat)
    requires t.Valid()
    ensures AdvanceBy(t, k).turn == (t.turn + k) % t.playersCount
    ensures AdvanceBy(t, k).totalTurns == t.totalTurns + k
  {
    if k > 0 {
      AdvanceByRotates(t, k - 1);
      var n := t.playersCount;
      var p := (t.turn + k - 1) % n;
      assert (t.turn + k) % n == (p + 1) % n by {
        ModSucc(t.turn + k - 1, n);
      }
    }
  }

  lemma {:induction false} FullRoundReturns(t: TurnCounter)
    requires t.Valid()
    ensures AdvanceBy(t, t.playersCount).turn == t.turn
    ensures AdvanceBy(t, t.playersCount).totalTurns == t.totalTurns + t.playersCount
  {
    var n := t.playersCount;
    AdvanceByRotates(t, n);
    ModUnique(t.turn + n, n, 1, t.turn);
  }
}
