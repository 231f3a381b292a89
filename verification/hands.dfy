/** A player's hand (canastautil.rs `Hand`): fourteen card counts indexed by
    `Index`. */
module Hands {
  import opened Cards
  import opened Outcomes
  import DrawPiles

  /** One count per rank. The source stores `u8` counts; see README. */
  type Hand = h: seq<nat> | |h| == RankCount witness seq(RankCount, _ => 0)

  /** `Hand::new`. */
  function Empty(): (h: Hand)
    ensures forall c :: Get(h, c) == 0
  {
    seq(RankCount, _ => 0)
  }

  /** `Hand::get`. */
  function Get(h: Hand, c: Card): nat {
    h[Index(c)]
  }

  /** `Hand::add`: `k` more copies of `c`, nothing else changes. */
  function Add(h: Hand, c: Card, k: nat): (r: Hand)
    ensures Get(r, c) == Get(h, c) + k
    ensures forall d :: d != c ==> Get(r, d) == Get(h, d)
  {
    var r := h[Index(c) := h[Index(c)] + k];
    forall d | d != c ensures Get(r, d) == Get(h, d) {
      IndexInjective(c, d);
    }
    r
  }

  /** `Hand::remove` where it cannot underflow: `k` fewer copies of `c`,
      nothing else changes. */
  function Take(h: Hand, c: Card, k: nat): (r: Hand)
    requires k <= Get(h, c)
    ensures Get(r, c) + k == Get(h, c)
    ensures forall d :: d != c ==> Get(r, d) == Get(h, d)
  {
    var r := h[Index(c) := h[Index(c)] - k];
    forall d | d != c ensures Get(r, d) == Get(h, d) {
      IndexInjective(c, d);
    }
    r
  }

  /** `Hand::remove`: panics when fewer than `k` copies of `c` are held;
      otherwise `k` fewer copies of `c` and nothing else changes. */
  function Remove(h: Hand, c: Card, k: nat): (r: Result<Hand>)
    ensures r.Ok? <==> k <= Get(h, c)
    ensures r.Fail? ==> r.fault == HandUnderflow
    ensures r.Ok? ==> r.value == Take(h, c, k)
  {
    if h[Index(c)] < k then Fail(HandUnderflow) else Ok(Take(h, c, k))
  }

  /** Adds every card of `cards`, one at a time (the pickup of the discard
      pile, and the deal). */
  function AddAll(h: Hand, cards: seq<Card>): (r: Hand)
    ensures forall c :: Get(r, c) == Get(h, c) + DrawPiles.Count(cards, c)
    ensures Size(r) == Size(h) + |cards|
  {
    if cards == [] then h
    else
      var h' := AddAll(h, cards[..|cards| - 1]);
      SizeAdd(h', cards[|cards| - 1], 1);
      Add(h', cards[|cards| - 1], 1)
  }

  /** Sum of the counts in the slots below `n`. */
  function SumBelow(h: Hand, n: nat): nat
    requires n <= RankCount
  {
    if n == 0 then 0 else SumBelow(h, n - 1) + h[n - 1]
  }

  /** `Hand::get_hand_size`. */
  function Size(h: Hand): nat {
    SumBelow(h, RankCount)
  }

  /** Changing one slot changes a prefix sum by the difference, if the slot
      is inside the prefix. */
  lemma {:induction false} SumBelowUpdate(h: Hand, h': Hand, j: RankIndex, n: nat)
    requires n <= RankCount
    requires forall i :: 0 <= i < RankCount && i != j ==> h'[i] == h[i]
    ensures SumBelow(h', n) + (if j < n then h[j] else 0) == SumBelow(h, n) + (if j < n then h'[j] else 0)
  {
    if n > 0 {
      SumBelowUpdate(h, h', j, n - 1);
    }
  }

  lemma SizeAdd(h: Hand, c: Card, k: nat)
    ensures Size(Add(h, c, k)) == Size(h) + k
  {
    SumBelowUpdate(h, Add(h, c, k), Index(c), RankCount);
  }

  lemma SizeTake(h: Hand, c: Card, k: nat)
    requires k <= Get(h, c)
    ensures Size(Take(h, c, k)) + k == Size(h)
  {
    var r := Take(h, c, k);
    forall i | 0 <= i < RankCount && i != Index(c) ensures r[i] == h[i] {
      assert Get(r, FromIndex(i)) == Get(h, FromIndex(i));
    }
    SumBelowUpdate(h, r, Index(c), RankCount);
  }

  /** No rank other than `j` held exactly once: then the cards besides
      rank `j` never number exactly one. */
  lemma {:induction false} NoSingleSum(h: Hand, j: RankIndex, n: nat)
    requires n <= RankCount
    requires forall i :: 0 <= i < n && i != j ==> h[i] != 1
    ensures SumBelow(h, n) != (if j < n then h[j] else 0) + 1
  {
    if n > 0 {
      NoSingleSum(h, j, n - 1);
      if j < n - 1 {
        SlotAtMostSize(h, j, n - 1);
      }
    }
  }

  /** A hand holding exactly one card besides its copies of `x` holds some
      other rank exactly once. */
  lemma SingleBesides(h: Hand, x: Card)
    requires Size(h) == Get(h, x) + 1
    ensures exists i :: 0 <= i < RankCount && i != Index(x) && h[i] == 1
  {
    if forall i :: 0 <= i < RankCount && i != Index(x) ==> h[i] != 1 {
      NoSingleSum(h, Index(x), RankCount);
      assert false;
    }
  }

  /** A slot holds at most the whole hand. */
  lemma {:induction false} SlotAtMostSize(h: Hand, i: RankIndex, n: nat)
    requires i < n <= RankCount
    ensures h[i] <= SumBelow(h, n)
  {
    if i < n - 1 {
      SlotAtMostSize(h, i, n - 1);
    }
  }

  /** True when no slot at or above `i` holds a card: the scan of
      `Hand::is_empty`, which stops at the first non-zero slot. */
  predicate EmptyFrom(h: Hand, i: nat)
    requires i <= RankCount
    decreases RankCount - i
  {
    if i == RankCount then true
    else if h[i] > 0 then false
    else EmptyFrom(h, i + 1)
  }

  /** `Hand::is_empty`. */
  predicate IsEmpty(h: Hand) {
    EmptyFrom(h, 0)
  }

  /** The scan agrees with the size: a hand is empty exactly when it holds
      no card at all. */
  lemma {:induction false} IsEmptyIffSizeZero(h: Hand)
    ensures IsEmpty(h) <==> Size(h) == 0
  {
    if IsEmpty(h) {
      EmptyFromAllZero(h, 0);
      AllZeroSum(h, RankCount);
    } else {
      var i := FirstNonZero(h, 0);
      SlotAtMostSize(h, i, RankCount);
    }
  }

  lemma {:induction false} EmptyFromAllZero(h: Hand, i: nat)
    requires i <= RankCount && EmptyFrom(h, i)
    ensures forall j :: i <= j < RankCount ==> h[j] == 0
    decreases RankCount - i
  {
    if i < RankCount {
      EmptyFromAllZero(h, i + 1);
    }
  }

  lemma {:induction false} AllZeroSum(h: Hand, n: nat)
    requires n <= RankCount
    requires forall j :: 0 <= j < RankCount ==> h[j] == 0
    ensures SumBelow(h, n) == 0
  {
    if n > 0 {
      AllZeroSum(h, n - 1);
    }
  }

  /** A non-zero slot at or above `i`, when the scan from `i` fails. */
  function FirstNonZero(h: Hand, i: nat): (j: RankIndex)
    requires i <= RankCount && !EmptyFrom(h, i)
    ensures i <= j && h[j] > 0
    decreases RankCount - i
  {
    if h[i] > 0 then i else FirstNonZero(h, i + 1)
  }

  /** `Hand::get_score`: each slot `i` priced with `get_card(i)`. */
  function Score(h: Hand): nat {
    ScoreBelow(h, RankCount)
  }

  function ScoreBelow(h: Hand, n: nat): nat
    requires n <= RankCount
  {
    if n == 0 then 0 else ScoreBelow(h, n - 1) + h[n - 1] * Value(ScoreCard(n - 1))
  }

  /** What the hand is worth at face value: each rank at its own value. */
  function FaceValue(h: Hand): nat {
    FaceBelow(h, RankCount)
  }

  function FaceBelow(h: Hand, n: nat): nat
    requires n <= RankCount
  {
    if n == 0 then 0 else FaceBelow(h, n - 1) + h[n - 1] * Value(FromIndex(n - 1))
  }

  /** The penalty a hand costs is NOT its face value: threes are charged 15
      points too much, eights 5 and aces 10 points too little. */
  lemma ScoreVersusFaceValue(h: Hand)
    ensures Score(h) + 5 * Get(h, Eight) + 10 * Get(h, Ace) == FaceValue(h) + 15 * Get(h, Three)
  {
    ScoreBelowShift(h, RankCount);
  }

  lemma {:induction false} ScoreBelowShift(h: Hand, n: nat)
    requires n <= RankCount
    ensures ScoreBelow(h, n) + (if n > 7 then 5 * h[7] else 0) + (if n > 13 then 10 * h[13] else 0)
         == FaceBelow(h, n) + (if n > 2 then 15 * h[2] else 0)
  {
    if n > 0 {
      ScoreBelowShift(h, n - 1);
      SlotShift(h[n - 1], n - 1);
    }
  }

  /** `ScoreCardShift` for `x` cards in slot `i`. */
  lemma SlotShift(x: nat, i: RankIndex)
    ensures x * Value(ScoreCard(i)) + (if i == 7 then 5 * x else 0) + (if i == 13 then 10 * x else 0)
         == x * Value(FromIndex(i)) + (if i == 2 then 15 * x else 0)
  {
    if i != 2 && i != 7 && i != 13 {
      ScoreCardShift(i);
      assert Value(ScoreCard(i)) == Value(FromIndex(i));
    }
  }

  /** A hand holding one three costs 20 points, not the three's value 5. */
  lemma LoneThreeCostsTwenty()
    ensures Score(Add(Empty(), Three, 1)) == 20
    ensures Value(Three) == 5
  {
    var h := Add(Empty(), Three, 1);
    ScoreVersusFaceValue(h);
    forall i | 0 <= i < RankCount && i != Index(Three) ensures h[i] == 0 {
      assert Get(h, FromIndex(i)) == 0;
    }
    FaceBelowSingle(h, Index(Three), RankCount);
  }

  lemma {:induction false} FaceBelowSingle(h: Hand, j: RankIndex, n: nat)
    requires n <= RankCount
    requires forall i :: 0 <= i < RankCount && i != j ==> h[i] == 0
    ensures FaceBelow(h, n) == if j < n then h[j] * Value(FromIndex(j)) else 0
  {
    if n > 0 {
      FaceBelowSingle(h, j, n - 1);
    }
  }

  /** How many cards of rank `c` all the hands of `hands` hold together. */
  function TotalOf(hands: seq<Hand>, c: Card): nat {
    if hands == [] then 0 else TotalOf(hands[..|hands| - 1], c) + Get(hands[|hands| - 1], c)
  }

  lemma {:induction false} TotalOfAppend(hands: seq<Hand>, h: Hand, c: Card)
    ensures TotalOf(hands + [h], c) == TotalOf(hands, c) + Get(h, c)
  {
    assert (hands + [h])[..|hands|] == hands;
  }

  /** Replacing one hand changes the total by the difference. */
  lemma {:induction false} TotalOfUpdate(hands: seq<Hand>, i: nat, h: Hand, c: Card)
    requires i < |hands|
    ensures TotalOf(hands[i := h], c) + Get(hands[i], c) == TotalOf(hands, c) + Get(h, c)
  {
    var n := |hands|;
    if i < n - 1 {
      assert hands[i := h][..n - 1] == hands[..n - 1][i := h];
      TotalOfUpdate(hands[..n - 1], i, h, c);
    } else {
      assert hands[i := h][..n - 1] == hands[..n - 1];
    }
  }
}
