/** The actions a seat can take (canastautil.rs `Play`), their fixed list
    (`Play::iterator`) and the 39-slot one-hot action encoding with its
    argmax decoder (`From<Action> for [f32; 39]`, `From<[f32; 39]> for
    Action`). The float vectors are modelled as integer vectors. */
module Plays {
  import opened Cards
  import opened Outcomes

  datatype Play =
    | Discard(card: Card)
    | Draw
    | PickupPile
    | PlaceWild(rank: PlayableCard)
    | Play(rank: PlayableCard)
    | GoOut

  /** Width of the action encoding. */
  const ActionCount: nat := 39

  /** The slot of a play in the one-hot encoding: discards by rank index in
      0..13, then draw 14, pickup 15, go-out 16, place-wild four..ace in
      17..27 and play four..ace in 28..38. */
  function ActionIndex(p: Play): (i: nat)
    ensures i < ActionCount
  {
    match p
    case Discard(c) => Index(c)
    case Draw => 14
    case PickupPile => 15
    case GoOut => 16
    case PlaceWild(c) => 14 + Index(c)
    case Play(c) => 25 + Index(c)
  }

  /** The `match max_index` of the decoder; any index past 38 panics. */
  function PlayOfIndex(i: nat): (r: Option<Play>)
    ensures r.Some? <==> i < ActionCount
  {
    if i < 14 then Some(Discard(FromIndex(i)))
    else if i == 14 then Some(Draw)
    else if i == 15 then Some(PickupPile)
    else if i == 16 then Some(GoOut)
    else if i < 28 then Some(PlaceWild(FromIndex(i - 14)))
    else if i < ActionCount then Some(Play(FromIndex(i - 25)))
    else None
  }

  /** The index table is a bijection between the 39 plays and 0..38. */
  lemma IndexOfPlayRoundTrip(p: Play)
    ensures PlayOfIndex(ActionIndex(p)) == Some(p)
  {
    match p
    case Discard(c) => IndexRoundTrip(c);
    case PlaceWild(c) => IndexRoundTrip(c);
    case Play(c) => IndexRoundTrip(c);
    case _ =>
  }

  lemma PlayOfIndexRoundTrip(i: nat)
    requires i < ActionCount
    ensures ActionIndex(PlayOfIndex(i).value) == i
  {
  }

  /** `From<Action> for [f32; 39]`: 1 at the play's slot, 0 elsewhere. */
  function OneHot(p: Play): (v: seq<int>)
    ensures |v| == ActionCount
    ensures forall i :: 0 <= i < ActionCount ==> v[i] == if i == ActionIndex(p) then 1 else 0
  {
    seq(ActionCount, i => if i == ActionIndex(p) then 1 else 0)
  }

  /** `max_by(partial_cmp)` over the first `n` entries: the LAST position of
      the largest value, since `max_by` keeps the later of two equal
      elements. */
  function ArgMax(v: seq<int>, n: nat): (k: nat)
    requires 0 < n <= |v|
    ensures k < n
    ensures forall j :: 0 <= j < n ==> v[j] <= v[k]
    ensures forall j :: k < j < n ==> v[j] < v[k]
  {
    if n == 1 then 0
    else
      var k := ArgMax(v, n - 1);
      if v[k] <= v[n - 1] then n - 1 else k
  }

  /** `From<[f32; 39]> for Action`: the play of the largest entry. */
  function Decode(v: seq<int>): Play
    requires |v| == ActionCount
  {
    PlayOfIndex(ArgMax(v, ActionCount)).value
  }

  /** Decoding the encoding of a play returns that play. */
  lemma DecodeOneHot(p: Play)
    ensures Decode(OneHot(p)) == p
  {
    var v := OneHot(p);
    var k := ArgMax(v, ActionCount);
    var i := ActionIndex(p);
    assert v[i] == 1;
    assert k == i;
    IndexOfPlayRoundTrip(p);
  }

  /** `Play::iterator`: all 39 plays, in the order discards by rank, go-out,
      pickup, play four..ace, place-wild four..ace, draw. */
  function PlayList(): (r: seq<Play>)
    ensures |r| == ActionCount
  {
    seq(14, i requires 0 <= i < 14 => Discard(FromIndex(i)))
      + [GoOut, PickupPile]
      + seq(11, i requires 0 <= i < 11 => Play(FromIndex(i + 3)))
      + seq(11, i requires 0 <= i < 11 => PlaceWild(FromIndex(i + 3)))
      + [Draw]
  }

  /** Where a play sits in `PlayList`. */
  function ListPosition(p: Play): nat {
    match p
    case Discard(c) => Index(c)
    case GoOut => 14
    case PickupPile => 15
    case Play(c) => 13 + Index(c)
    case PlaceWild(c) => 24 + Index(c)
    case Draw => 38
  }

  /** `PlayList` lists every play exactly once: the position map and the
      list are inverse to each other. */
  lemma PlayListIsPermutation()
    ensures forall p :: ListPosition(p) < ActionCount && PlayList()[ListPosition(p)] == p
    ensures forall i :: 0 <= i < ActionCount ==> ListPosition(PlayList()[i]) == i
  {
    var l := PlayList();
    forall p ensures ListPosition(p) < ActionCount && l[ListPosition(p)] == p {
      match p
      case Discard(c) => IndexRoundTrip(c);
      case PlaceWild(c) => IndexRoundTrip(c);
      case Play(c) => IndexRoundTrip(c);
      case _ =>
    }
  }
}
