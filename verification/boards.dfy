/** A team's melds (canastautil.rs `BoardStack` and `Board`): one optional
    meld per rank, plus the `down` and `went_out` flags. */
module Boards {
  import opened Cards
  import opened Outcomes

  /** `BoardStack`; `naturals` is the source's `card_count`. */
  datatype Stack = Stack(cardType: Card, jokers: nat, twos: nat, naturals: nat) {

    /** `BoardStack::get_score`: the cards' own points. */
    function Score(): nat {
      jokers * 50 + twos * 20 + naturals * Value(cardType)
    }

    /** `BoardStack::get_total_count`. */
    function Total(): nat {
      jokers + twos + naturals
    }

    /** `BoardStack::is_canasta`. */
    predicate IsCanasta() {
      Total() >= 7
    }

    /** `BoardStack::is_dirty`: holds a wildcard. */
    predicate IsDirty() {
      jokers > 0 || twos > 0
    }
  }

  /** One slot per rank, indexed by `Index`. */
  type Piles = ps: seq<Option<Stack>> | |ps| == RankCount witness seq(RankCount, _ => None)

  datatype Board = Board(piles: Piles, down: bool, wentOut: bool)

  /** Every meld sits in the slot of its own rank. */
  predicate Valid(b: Board) {
    forall i :: 0 <= i < RankCount && b.piles[i].Some? ==> b.piles[i].value.cardType == FromIndex(i)
  }

  /** `Board::new`. */
  function New(): (b: Board)
    ensures Valid(b) && !b.down && !b.wentOut
    ensures forall c :: Get(b, c).None?
  {
    Board(seq(RankCount, _ => None), false, false)
  }

  /** `Board::get`. */
  function Get(b: Board, c: Card): Option<Stack> {
    b.piles[Index(c)]
  }

  function JokersAt(b: Board, c: Card): nat {
    if Get(b, c).Some? then Get(b, c).value.jokers else 0
  }

  function TwosAt(b: Board, c: Card): nat {
    if Get(b, c).Some? then Get(b, c).value.twos else 0
  }

  function NaturalsAt(b: Board, c: Card): nat {
    if Get(b, c).Some? then Get(b, c).value.naturals else 0
  }

  /** `Board::place_card`: `k` more naturals on the meld of `c`, which is
      started if absent; marks the board down; no other slot changes. */
  function PlaceCard(b: Board, c: Card, k: nat): (r: Board)
    ensures r.down && r.wentOut == b.wentOut
    ensures Get(r, c) == Some(Stack(c, JokersAt(b, c), TwosAt(b, c), NaturalsAt(b, c) + k))
    ensures forall i :: 0 <= i < RankCount && i != Index(c) ==> r.piles[i] == b.piles[i]
    ensures Valid(b) ==> Valid(r)
  {
    IndexRoundTrip(c);
    var s := Stack(c, JokersAt(b, c), TwosAt(b, c), NaturalsAt(b, c) + k);
    Board(b.piles[Index(c) := Some(s)], true, b.wentOut)
  }

  /** `Board::place_joker`: one more joker on the meld of `c`; `down` is
      left as it was; no other slot changes. */
  function PlaceJoker(b: Board, c: Card): (r: Board)
    ensures r.down == b.down && r.wentOut == b.wentOut
    ensures Get(r, c) == Some(Stack(c, JokersAt(b, c) + 1, TwosAt(b, c), NaturalsAt(b, c)))
    ensures forall i :: 0 <= i < RankCount && i != Index(c) ==> r.piles[i] == b.piles[i]
    ensures Valid(b) ==> Valid(r)
  {
    IndexRoundTrip(c);
    var s := Stack(c, JokersAt(b, c) + 1, TwosAt(b, c), NaturalsAt(b, c));
    b.(piles := b.piles[Index(c) := Some(s)])
  }

  /** `Board::place_two`: one more two on the meld of `c`; `down` is left as
      it was; no other slot changes. */
  function PlaceTwo(b: Board, c: Card): (r: Board)
    ensures r.down == b.down && r.wentOut == b.wentOut
    ensures Get(r, c) == Some(Stack(c, JokersAt(b, c), TwosAt(b, c) + 1, NaturalsAt(b, c)))
    ensures forall i :: 0 <= i < RankCount && i != Index(c) ==> r.piles[i] == b.piles[i]
    ensures Valid(b) ==> Valid(r)
  {
    IndexRoundTrip(c);
    var s := Stack(c, JokersAt(b, c), TwosAt(b, c) + 1, NaturalsAt(b, c));
    b.(piles := b.piles[Index(c) := Some(s)])
  }

  /** A meld the rules allow: at least three cards, and no more wildcards
      than naturals. */
  predicate StackSound(s: Stack) {
    s.jokers + s.twos <= s.naturals && s.Total() >= 3
  }

  /** Every meld on the board is sound. */
  predicate Sound(b: Board) {
    forall i :: 0 <= i < RankCount && b.piles[i].Some? ==> StackSound(b.piles[i].value)
  }

  /** Replacing one slot of a sound board by a sound meld keeps it sound. */
  lemma SoundAfterSlot(b: Board, b': Board, c: Card)
    requires forall i :: 0 <= i < RankCount && i != Index(c) ==> b'.piles[i] == b.piles[i]
    requires Sound(b) ==> Get(b', c).Some? && StackSound(Get(b', c).value)
    ensures Sound(b) ==> Sound(b')
  {
  }

  /** Natural cards alone keep a sound board sound, whether they extend a
      meld or start one with three. */
  lemma PlaceCardSound(b: Board, c: Card, k: nat)
    requires Get(b, c).Some? || k >= 3
    ensures Sound(b) ==> Sound(PlaceCard(b, c, k))
  {
    if Sound(b) {
      SoundAfterSlot(b, PlaceCard(b, c, k), c);
    }
  }

  /** `Board::get_num_canastas`: the loop over the slots. */
  function NumCanastas(b: Board): nat {
    CanastasBelow(b.piles, RankCount)
  }

  function CanastasBelow(piles: Piles, n: nat): nat
    requires n <= RankCount
  {
    if n == 0 then 0
    else CanastasBelow(piles, n - 1) + (if piles[n - 1].Some? && piles[n - 1].value.IsCanasta() then 1 else 0)
  }

  /** What one slot adds to the board score in `Board::get_score`. */
  function SlotScore(p: Option<Stack>): nat {
    match p
    case None => 0
    case Some(s) => s.Score() + (if s.IsCanasta() then (if s.IsDirty() then 300 else 500) else 0)
  }

  function ScoreBelow(piles: Piles, n: nat): nat
    requires n <= RankCount
  {
    if n == 0 then 0 else ScoreBelow(piles, n - 1) + SlotScore(piles[n - 1])
  }

  /** `Board::get_score`: 100 for going out, then the slots. */
  function Score(b: Board): nat {
    (if b.wentOut then 100 else 0) + ScoreBelow(b.piles, RankCount)
  }

  /** An independent tally of the board: the melds' card points, the clean
      and the dirty canastas. */
  function CardPointsBelow(piles: Piles, n: nat): nat
    requires n <= RankCount
  {
    if n == 0 then 0
    else CardPointsBelow(piles, n - 1) + (if piles[n - 1].Some? then piles[n - 1].value.Score() else 0)
  }

  function CleanBelow(piles: Piles, n: nat): nat
    requires n <= RankCount
  {
    if n == 0 then 0
    else
      var clean := piles[n - 1].Some? && piles[n - 1].value.IsCanasta() && !piles[n - 1].value.IsDirty();
      CleanBelow(piles, n - 1) + (if clean then 1 else 0)
  }

  function DirtyBelow(piles: Piles, n: nat): nat
    requires n <= RankCount
  {
    if n == 0 then 0
    else
      var dirty := piles[n - 1].Some? && piles[n - 1].value.IsCanasta() && piles[n - 1].value.IsDirty();
      DirtyBelow(piles, n - 1) + (if dirty then 1 else 0)
  }

  /** The board score is the melds' card points, plus 500 per clean canasta,
      300 per dirty canasta and 100 for going out; and every canasta is
      either clean or dirty. */
  lemma ScoreDecomposes(b: Board)
    ensures Score(b) == (if b.wentOut then 100 else 0) + CardPointsBelow(b.piles, RankCount)
                        + 500 * CleanBelow(b.piles, RankCount) + 300 * DirtyBelow(b.piles, RankCount)
    ensures NumCanastas(b) == CleanBelow(b.piles, RankCount) + DirtyBelow(b.piles, RankCount)
  {
    ScoreBelowDecomposes(b.piles, RankCount);
  }

  lemma {:induction false} ScoreBelowDecomposes(piles: Piles, n: nat)
    requires n <= RankCount
    ensures ScoreBelow(piles, n) == CardPointsBelow(piles, n) + 500 * CleanBelow(piles, n) + 300 * DirtyBelow(piles, n)
    ensures CanastasBelow(piles, n) == CleanBelow(piles, n) + DirtyBelow(piles, n)
  {
    if n > 0 {
      ScoreBelowDecomposes(piles, n - 1);
    }
  }

  /** The canasta scoring of a meld of seven: clean it scores its cards plus
      500; with a joker in place of one natural it scores six naturals, the
      joker's 50 and the dirty bonus of 300. */
  lemma CanastaScoring(c: Card)
    ensures SlotScore(Some(Stack(c, 0, 0, 7))) == 7 * Value(c) + 500
    ensures SlotScore(Some(Stack(c, 1, 0, 6))) == 6 * Value(c) + 50 + 300
  {
  }

  /** How many cards of rank `c` slot `i` holds: its naturals if it is the
      slot of `c`, and its jokers or twos counted under their own rank. */
  function SlotCount(p: Option<Stack>, i: RankIndex, c: Card): nat {
    match p
    case None => 0
    case Some(s) =>
      (if i == Index(c) then s.naturals else 0)
      + (if c == Joker then s.jokers else 0)
      + (if c == Two then s.twos else 0)
  }

  function CountBelow(piles: Piles, n: nat, c: Card): nat
    requires n <= RankCount
  {
    if n == 0 then 0 else CountBelow(piles, n - 1, c) + SlotCount(piles[n - 1], n - 1, c)
  }

  /** How many cards of rank `c` lie on the board. */
  function CardCount(b: Board, c: Card): nat {
    CountBelow(b.piles, RankCount, c)
  }

  lemma {:induction false} CountBelowUpdate(piles: Piles, piles': Piles, j: RankIndex, n: nat, c: Card)
    requires n <= RankCount
    requires forall i :: 0 <= i < RankCount && i != j ==> piles'[i] == piles[i]
    ensures CountBelow(piles', n, c) + (if j < n then SlotCount(piles[j], j, c) else 0)
         == CountBelow(piles, n, c) + (if j < n then SlotCount(piles'[j], j, c) else 0)
  {
    if n > 0 {
      CountBelowUpdate(piles, piles', j, n - 1, c);
    }
  }

  /** `place_card(x, k)` puts `k` cards of rank `x` on the board. */
  lemma PlaceCardCount(b: Board, x: Card, k: nat, c: Card)
    ensures CardCount(PlaceCard(b, x, k), c) == CardCount(b, c) + (if x == c then k else 0)
  {
    var j := Index(x);
    var b' := PlaceCard(b, x, k);
    IndexInjective(x, c);
    SlotGrow(b.piles[j], Get(b', x).value, j, c, k, 0, 0);
    CountBelowUpdate(b.piles, b'.piles, j, RankCount, c);
  }

  /** `place_joker(x)` puts one joker on the board. */
  lemma PlaceJokerCount(b: Board, x: Card, c: Card)
    ensures CardCount(PlaceJoker(b, x), c) == CardCount(b, c) + (if c == Joker then 1 else 0)
  {
    var j := Index(x);
    var b' := PlaceJoker(b, x);
    SlotGrow(b.piles[j], Get(b', x).value, j, c, 0, 1, 0);
    CountBelowUpdate(b.piles, b'.piles, j, RankCount, c);
  }

  /** `place_two(x)` puts one two on the board. */
  lemma PlaceTwoCount(b: Board, x: Card, c: Card)
    ensures CardCount(PlaceTwo(b, x), c) == CardCount(b, c) + (if c == Two then 1 else 0)
  {
    var j := Index(x);
    var b' := PlaceTwo(b, x);
    SlotGrow(b.piles[j], Get(b', x).value, j, c, 0, 0, 1);
    CountBelowUpdate(b.piles, b'.piles, j, RankCount, c);
  }

  /** A slot grown by `dn` naturals, `dj` jokers and `dt` twos counts that
      many more cards of each kind. */
  lemma SlotGrow(p: Option<Stack>, s: Stack, j: RankIndex, c: Card, dn: nat, dj: nat, dt: nat)
    requires s.naturals == (if p.Some? then p.value.naturals else 0) + dn
    requires s.jokers == (if p.Some? then p.value.jokers else 0) + dj
    requires s.twos == (if p.Some? then p.value.twos else 0) + dt
    ensures SlotCount(Some(s), j, c)
         == SlotCount(p, j, c) + (if j == Index(c) then dn else 0) + (if c == Joker then dj else 0) + (if c == Two then dt else 0)
  {
  }

  /** How many cards of rank `c` the boards of `boards` hold together. */
  function TotalOf(boards: seq<Board>, c: Card): nat {
    if boards == [] then 0 else TotalOf(boards[..|boards| - 1], c) + CardCount(boards[|boards| - 1], c)
  }

  /** Replacing one board changes the total by the difference. */
  lemma {:induction false} TotalOfUpdate(boards: seq<Board>, i: nat, b: Board, c: Card)
    requires i < |boards|
    ensures TotalOf(boards[i := b], c) + CardCount(boards[i], c) == TotalOf(boards, c) + CardCount(b, c)
  {
    var n := |boards|;
    if i < n - 1 {
      assert boards[i := b][..n - 1] == boards[..n - 1][i := b];
      TotalOfUpdate(boards[..n - 1], i, b, c);
    } else {
      assert boards[i := b][..n - 1] == boards[..n - 1];
    }
  }

  /** Empty boards hold no card. */
  lemma {:induction false} TotalOfNew(boards: seq<Board>, c: Card)
    requires forall t :: 0 <= t < |boards| ==> boards[t] == New()
    ensures TotalOf(boards, c) == 0
  {
    if boards != [] {
      TotalOfNew(boards[..|boards| - 1], c);
      EmptyBoardCount(RankCount, c);
    }
  }

  lemma {:induction false} EmptyBoardCount(n: nat, c: Card)
    requires n <= RankCount
    ensures CountBelow(New().piles, n, c) == 0
  {
    if n > 0 {
      EmptyBoardCount(n - 1, c);
    }
  }
}
