/** Card ranks, their dense index and their point values
    (canastautil.rs, `Card`, `PlayableCardSubset`, `WildCardSubset`). */
module Cards {

  /** The fourteen ranks, in the order of their dense index. */
  datatype Card =
    | Joker | Two | Three | Four | Five | Six | Seven
    | Eight | Nine | Ten | Jack | Queen | King | Ace

  /** Number of ranks: every hand and every board has one slot per rank. */
  const RankCount: nat := 14

  /** A slot number of a hand or a board. */
  type RankIndex = i: nat | i < RankCount

  /** The wildcards (`WildCardSubset`): a joker or a two. */
  predicate IsWild(c: Card) {
    c == Joker || c == Two
  }

  /** The meldable ranks (`PlayableCardSubset`): four through ace. */
  predicate IsPlayable(c: Card) {
    !(c == Joker || c == Two || c == Three)
  }

  /** `PlayableCardSubset`; `Card::from` on it is the inclusion. */
  type PlayableCard = c: Card | IsPlayable(c) witness Four

  /** `WildCardSubset`; `Card::from` on it is the inclusion. */
  type WildCard = c: Card | IsWild(c) witness Joker

  /** `Card::get_index`. */
  function Index(c: Card): RankIndex {
    match c
    case Joker => 0
    case Two => 1
    case Three => 2
    case Four => 3
    case Five => 4
    case Six => 5
    case Seven => 6
    case Eight => 7
    case Nine => 8
    case Ten => 9
    case Jack => 10
    case Queen => 11
    case King => 12
    case Ace => 13
  }

  /** `Card::from_index`; the source panics outside 0..13, which the
      argument type rules out. */
  function FromIndex(i: RankIndex): (c: Card)
    ensures Index(c) == i
  {
    match i
    case 0 => Joker
    case 1 => Two
    case 2 => Three
    case 3 => Four
    case 4 => Five
    case 5 => Six
    case 6 => Seven
    case 7 => Eight
    case 8 => Nine
    case 9 => Ten
    case 10 => Jack
    case 11 => Queen
    case 12 => King
    case _ => Ace
  }

  /** The dense index is a bijection between the ranks and 0..13. */
  lemma IndexRoundTrip(c: Card)
    ensures FromIndex(Index(c)) == c
  {
  }

  lemma IndexInjective(c: Card, d: Card)
    ensures Index(c) == Index(d) <==> c == d
  {
    IndexRoundTrip(c);
    IndexRoundTrip(d);
  }

  /** `Card::get_value`. */
  function Value(c: Card): nat {
    match c
    case Joker => 50
    case Two => 20
    case Three => 5
    case Four => 5
    case Five => 5
    case Six => 5
    case Seven => 5
    case Eight => 10
    case Nine => 10
    case Ten => 10
    case Jack => 10
    case Queen => 10
    case King => 10
    case Ace => 20
  }

  /** The free function `get_card`, used only to price hands. Its order is
      NOT the dense index order: slot 1 maps to an ace and slots 2..13 are
      shifted by one rank. */
  function ScoreCard(i: RankIndex): Card {
    match i
    case 0 => Joker
    case 1 => Ace
    case 2 => Two
    case 3 => Three
    case 4 => Four
    case 5 => Five
    case 6 => Six
    case 7 => Seven
    case 8 => Eight
    case 9 => Nine
    case 10 => Ten
    case 11 => Jack
    case 12 => Queen
    case _ => King
  }

  /** `get_card` disagrees with `Card::from_index` on every slot except the
      joker's, and on the slots of the three, the eight and the ace it even
      assigns a different point value. */
  lemma ScoreCardMisordered(i: RankIndex)
    ensures ScoreCard(i) == FromIndex(i) <==> i == 0
    ensures Value(ScoreCard(i)) != Value(FromIndex(i)) <==> i == 2 || i == 7 || i == 13
  {
  }

  /** The exact difference `get_card` makes to a slot's price: +15 on the
      three's slot, -5 on the eight's and -10 on the ace's. */
  lemma ScoreCardShift(i: RankIndex)
    ensures Value(ScoreCard(i)) + (if i == 7 then 5 else 0) + (if i == 13 then 10 else 0)
         == Value(FromIndex(i)) + (if i == 2 then 15 else 0)
  {
  }
}
