/** What each seat has seen of the others (canastautil.rs `Player::knowledge`
    and the broadcast at the end of `Game::execute_play`). Every seat keeps
    one row of fourteen signed counters per other seat; an action's net card
    flow for the acting seat is added to the row each observer keeps about
    it. The source stores `i8` counters; see README. */
module Knowledge {
  import opened Cards
  import DrawPiles
  import opened Modular

  /** A signed counter per rank (`[i8; 14]`). */
  type RankDelta = d: seq<int> | |d| == RankCount witness seq(RankCount, _ => 0)

  function Zero(): (d: RankDelta)
    ensures forall i :: 0 <= i < RankCount ==> d[i] == 0
  {
    seq(RankCount, _ => 0)
  }

  /** `knowledge_update[c.get_index()] += k`. */
  function Bump(d: RankDelta, c: Card, k: int): (r: RankDelta)
    ensures r[Index(c)] == d[Index(c)] + k
    ensures forall i :: 0 <= i < RankCount && i != Index(c) ==> r[i] == d[i]
  {
    d[Index(c) := d[Index(c)] + k]
  }

  /** `Bump` read back at any rank. */
  lemma BumpAt(d: RankDelta, x: Card, k: int, c: Card)
    ensures Bump(d, x, k)[Index(c)] == d[Index(c)] + (if c == x then k else 0)
  {
    IndexInjective(x, c);
  }

  /** One `+= 1` per card of `cards` (the pickup of the discard pile). */
  function BumpAll(d: RankDelta, cards: seq<Card>): (r: RankDelta)
    ensures forall c :: r[Index(c)] == d[Index(c)] + DrawPiles.Count(cards, c)
  {
    if cards == [] then d
    else
      var r := Bump(BumpAll(d, cards[..|cards| - 1]), cards[|cards| - 1], 1);
      forall c ensures r[Index(c)] == d[Index(c)] + DrawPiles.Count(cards, c) {
        IndexInjective(c, cards[|cards| - 1]);
      }
      r
  }

  /** The inner `for j in 0..14` loop: entrywise sum. */
  function Plus(a: RankDelta, b: RankDelta): (r: RankDelta)
    ensures forall j :: 0 <= j < RankCount ==> r[j] == a[j] + b[j]
  {
    seq(RankCount, j requires 0 <= j < RankCount => a[j] + b[j])
  }

  /** Adds `delta` to row `s`. */
  function AddToRow(rows: seq<RankDelta>, s: nat, delta: RankDelta): (r: seq<RankDelta>)
    requires s < |rows|
    ensures |r| == |rows|
  {
    rows[s := Plus(rows[s], delta)]
  }

  /** All seats' knowledge: `n` seats, each with a row per other seat. */
  predicate Shaped(k: seq<seq<RankDelta>>, n: nat) {
    |k| == n && forall o :: 0 <= o < n ==> |k[o]| == n - 1
  }

  /** Fresh knowledge (`Player::new`): all counters zero. */
  function Fresh(n: nat): (k: seq<seq<RankDelta>>)
    requires n > 0
    ensures Shaped(k, n)
    ensures forall o, r :: 0 <= o < n && 0 <= r < n - 1 ==> k[o][r] == Zero()
  {
    seq(n, _ => seq(n - 1, _ => Zero()))
  }

  /** The row index the source writes for loop step `i`, for `i` in
      `cur + 1 .. cur + n - 1`: `n + cur + 1 - 2 - i`. It always names one of
      the `n - 1` rows. */
  function Slot(n: nat, cur: nat, i: nat): (s: nat)
    requires cur + 1 <= i < cur + n
    ensures s <= n - 2
  {
    n + cur + 1 - 2 - i
  }

  /** How many seats after `cur` seat `o` sits, going round the table. */
  function Offset(n: nat, cur: nat, o: nat): nat
    requires cur < n && o < n
  {
    if o >= cur then o - cur else o + n - cur
  }

  /** The broadcast loop, from step `i` on: the observer of step `i` is seat
      `i % n`, which adds `delta` to its row `Slot(n, cur, i)`. */
  function BroadcastFrom(k: seq<seq<RankDelta>>, n: nat, cur: nat, i: nat, delta: RankDelta): (r: seq<seq<RankDelta>>)
    requires Shaped(k, n) && cur < n && cur + 1 <= i <= cur + n
    ensures Shaped(r, n)
    decreases cur + n - i
  {
    if i == cur + n then k
    else
      var o := i % n;
      var s := Slot(n, cur, i);
      BroadcastFrom(k[o := AddToRow(k[o], s, delta)], n, cur, i + 1, delta)
  }

  /** The broadcast after the seat `cur` acted. */
  function Broadcast(k: seq<seq<RankDelta>>, n: nat, cur: nat, delta: RankDelta): (r: seq<seq<RankDelta>>)
    requires Shaped(k, n) && cur < n
    ensures Shaped(r, n)
  {
    BroadcastFrom(k, n, cur, cur + 1, delta)
  }

  /** What observer `o` ends up with: its row about the actor, the one at
      distance `n - 1 - Offset`, gains `delta`. */
  function Observed(k: seq<seq<RankDelta>>, n: nat, cur: nat, o: nat, delta: RankDelta): seq<RankDelta>
    requires Shaped(k, n) && cur < n && o < n && o != cur
  {
    AddToRow(k[o], n - 1 - Offset(n, cur, o), delta)
  }

  /** Step `i` of the loop serves the seat `Offset` = `i - cur` seats on. */
  lemma StepObserver(n: nat, cur: nat, i: nat)
    requires cur < n && cur + 1 <= i < cur + n
    ensures i % n < n && i % n != cur
    ensures Offset(n, cur, i % n) == i - cur
    ensures Slot(n, cur, i) == n - 1 - Offset(n, cur, i % n)
  {
    ModBelowTwice(i, n);
  }

  lemma {:induction false} BroadcastFromSpec(k: seq<seq<RankDelta>>, n: nat, cur: nat, i: nat, delta: RankDelta)
    requires Shaped(k, n) && cur < n && cur + 1 <= i <= cur + n
    ensures forall o :: 0 <= o < n ==>
      BroadcastFrom(k, n, cur, i, delta)[o]
        == if o != cur && Offset(n, cur, o) >= i - cur then Observed(k, n, cur, o, delta) else k[o]
    decreases cur + n - i
  {
    if i < cur + n {
      var o := i % n;
      var s := Slot(n, cur, i);
      StepObserver(n, cur, i);
      var k' := k[o := AddToRow(k[o], s, delta)];
      BroadcastFromSpec(k', n, cur, i + 1, delta);
      forall o' | 0 <= o' < n
        ensures BroadcastFrom(k, n, cur, i, delta)[o']
          == if o' != cur && Offset(n, cur, o') >= i - cur then Observed(k, n, cur, o', delta) else k[o']
      {
        if o' != o && o' != cur {
          assert Offset(n, cur, o') != i - cur;
        }
      }
    }
  }

  /** The broadcast gives every seat other than the actor `delta` in
      exactly the row it keeps about the actor, and changes nothing else;
      the actor's own knowledge is untouched. */
  lemma BroadcastSpec(k: seq<seq<RankDelta>>, n: nat, cur: nat, delta: RankDelta)
    requires Shaped(k, n) && cur < n
    ensures Broadcast(k, n, cur, delta)[cur] == k[cur]
    ensures forall o :: 0 <= o < n && o != cur ==> Broadcast(k, n, cur, delta)[o] == Observed(k, n, cur, o, delta)
  {
    BroadcastFromSpec(k, n, cur, cur + 1, delta);
  }

  /** The row the broadcast writes depends only on where the actor sits
      relative to the observer: observer `o` records actor `a` in row
      `Offset(n, o, a) - 1`, and row `k` of any seat `o` always describes
      seat `(o + k + 1) % n`. */
  lemma RowOfActor(n: nat, a: nat, o: nat)
    requires a < n && o < n && a != o
    ensures n - 1 - Offset(n, a, o) == Offset(n, o, a) - 1
    ensures (o + (n - 1 - Offset(n, a, o)) + 1) % n == a
  {
    ModBelowTwice(o + Offset(n, o, a), n);
  }

  /** Two different seats are at different distances from the actor, so no
      two observers share a loop step. */
  lemma OffsetInjective(n: nat, cur: nat, o: nat, o': nat)
    requires cur < n && o < n && o' < n
    ensures Offset(n, cur, o) == Offset(n, cur, o') <==> o == o'
    ensures 1 <= Offset(n, cur, o) < n || o == cur
  {
  }
}
