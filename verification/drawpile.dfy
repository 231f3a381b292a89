/** The draw pile (canastautil.rs `DrawPile`) and card counting over card
    sequences. A pile is a sequence whose LAST element is the top card, as
    with the `Vec` the source pops from. */
module DrawPiles {
  import opened Cards
  import opened Outcomes

  /** Number of copies of `c` in `s`. */
  function Count(s: seq<Card>, c: Card): nat {
    if s == [] then 0
    else Count(s[..|s| - 1], c) + (if s[|s| - 1] == c then 1 else 0)
  }

  lemma {:induction false} CountAppend(s: seq<Card>, t: seq<Card>, c: Card)
    ensures Count(s + t, c) == Count(s, c) + Count(t, c)
    decreases |t|
  {
    if t == [] {
      assert s + t == s;
    } else {
      assert (s + t)[..|s + t| - 1] == s + t[..|t| - 1];
      CountAppend(s, t[..|t| - 1], c);
    }
  }

  /** One card on top of a pile adds one to its own rank's count. */
  lemma CountPush(s: seq<Card>, x: Card, c: Card)
    ensures Count(s + [x], c) == Count(s, c) + (if x == c then 1 else 0)
  {
    assert (s + [x])[..|s|] == s;
  }

  /** `n` copies of `c`. */
  function Repeat(c: Card, n: nat): (r: seq<Card>)
    ensures |r| == n
    ensures forall i :: 0 <= i < n ==> r[i] == c
  {
    seq(n, _ => c)
  }

  lemma {:induction false} CountRepeat(x: Card, n: nat, c: Card)
    ensures Count(Repeat(x, n), c) == if x == c then n else 0
  {
    if n > 0 {
      assert Repeat(x, n)[..n - 1] == Repeat(x, n - 1);
      CountRepeat(x, n - 1, c);
    }
  }

  /** Four copies of each rank with index below `n`, except the joker and
      the three, in index order: the two, then four through ace, as the
      source pushes them. */
  function FourOfEach(n: nat): (r: seq<Card>)
    requires n <= RankCount
    ensures |r| == 4 * (n - (if n > 0 then 1 else 0) - (if n > 2 then 1 else 0))
  {
    if n == 0 then []
    else if n - 1 == Index(Joker) || n - 1 == Index(Three) then FourOfEach(n - 1)
    else FourOfEach(n - 1) + Repeat(FromIndex(n - 1), 4)
  }

  lemma {:induction false} CountFourOfEach(n: nat, c: Card)
    requires n <= RankCount
    ensures Count(FourOfEach(n), c) == if Index(c) < n && Index(c) != Index(Joker) && Index(c) != Index(Three) then 4 else 0
  {
    if n > 0 {
      var x := FromIndex(n - 1);
      var prev := FourOfEach(n - 1);
      var i := Index(c);
      CountFourOfEach(n - 1, c);
      if n - 1 != Index(Joker) && n - 1 != Index(Three) {
        assert FourOfEach(n) == prev + Repeat(x, 4);
        CountAppend(prev, Repeat(x, 4), c);
        CountRepeat(x, 4, c);
        IndexInjective(c, x);
        if i == n - 1 {
          assert Count(prev, c) == 0;
          assert Count(FourOfEach(n), c) == 4;
        } else {
          assert Count(FourOfEach(n), c) == Count(prev, c);
        }
      } else {
        assert FourOfEach(n) == prev;
      }
    }
  }

  /** The cards one deck contributes (canastautil.rs:328-353): four of each
      of twelve ranks, two jokers and two threes. */
  function Deck(): seq<Card> {
    FourOfEach(RankCount) + [Joker, Joker, Three, Three]
  }

  /** How many copies of a rank one deck holds. */
  function PerDeck(c: Card): nat {
    if c == Joker || c == Three then 2 else 4
  }

  lemma DeckCounts(c: Card)
    ensures Count(Deck(), c) == PerDeck(c)
  {
    var tail := [Joker, Joker, Three, Three];
    CountAppend(FourOfEach(RankCount), tail, c);
    CountFourOfEach(RankCount, c);
    ExtrasCount(c);
    IndexInjective(c, Joker);
    IndexInjective(c, Three);
  }

  /** The two jokers and two threes each deck adds. */
  lemma ExtrasCount(c: Card)
    ensures Count([Joker, Joker, Three, Three], c) == if c == Joker || c == Three then 2 else 0
  {
    var t1 := [] + [Joker];
    var t2 := t1 + [Joker];
    var t3 := t2 + [Three];
    CountPush([], Joker, c);
    CountPush(t1, Joker, c);
    CountPush(t2, Three, c);
    CountPush(t3, Three, c);
    assert t3 + [Three] == [Joker, Joker, Three, Three];
  }

  lemma DeckSize()
    ensures |Deck()| == 52
  {
    assert |FourOfEach(RankCount)| == 48;
  }

  /** `DrawPile::new(decks)` before shuffling: `decks` decks one after the
      other. */
  function FreshPile(decks: nat): (r: seq<Card>)
    ensures |r| == 52 * decks
    ensures forall c :: Count(r, c) == decks * PerDeck(c)
  {
    if decks == 0 then []
    else
      var r := FreshPile(decks - 1) + Deck();
      forall c ensures Count(r, c) == decks * PerDeck(c) {
        CountAppend(FreshPile(decks - 1), Deck(), c);
        DeckCounts(c);
      }
      DeckSize();
      r
  }

  /** A shuffle of a pile: a permutation of it. */
  predicate IsShuffleOf(order: seq<Card>, pile: seq<Card>) {
    multiset(order) == multiset(pile)
  }

  /** `Count` is the multiplicity in the multiset of the sequence. */
  lemma {:induction false} CountIsMultiplicity(s: seq<Card>, c: Card)
    ensures Count(s, c) == multiset(s)[c]
  {
    if s != [] {
      CountIsMultiplicity(s[..|s| - 1], c);
      assert s == s[..|s| - 1] + [s[|s| - 1]];
    }
  }

  /** A shuffle keeps the length and the number of copies of every rank. */
  lemma ShuffleCounts(order: seq<Card>, pile: seq<Card>)
    requires IsShuffleOf(order, pile)
    ensures |order| == |pile|
    ensures forall c :: Count(order, c) == Count(pile, c)
  {
    assert |multiset(order)| == |multiset(pile)|;
    forall c ensures Count(order, c) == Count(pile, c) {
      CountIsMultiplicity(order, c);
      CountIsMultiplicity(pile, c);
    }
  }

  /** `DrawPile::draw`: pops the top card, or nothing from an empty pile. */
  function DrawTop(pile: seq<Card>): (r: Option<(Card, seq<Card>)>)
    ensures r.None? <==> pile == []
    ensures r.Some? ==> pile == r.value.1 + [r.value.0]
    ensures r.Some? ==> forall c :: Count(r.value.1, c) + (if r.value.0 == c then 1 else 0) == Count(pile, c)
  {
    if pile == [] then None
    else
      var rest := pile[..|pile| - 1];
      assert pile == rest + [pile[|pile| - 1]];
      Some((pile[|pile| - 1], rest))
  }

  /** `DrawPile::is_empty`. */
  predicate IsEmpty(pile: seq<Card>) {
    pile == []
  }
}
