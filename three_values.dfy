/** The slot selector `Item` and the `ThreeValues` trait: three independently addressable
    `f64` slots, read with `get_item`, written with `set_item`, and two provided methods,
    `is_default` and `sum`, built only from `get_item`. */
module ThreeValues {

  /** `enum Item`: names one of the three slots. */
  datatype Item = First | Second | Third

  /** `Item::index`: the position of the slot in a three-element array. */
  function Index(item: Item): (i: nat)
    ensures i < 3
  {
    match item
    case First => 0
    case Second => 1
    case Third => 2
  }

  /** The slot at position `i`; the inverse of `Index`. */
  function ItemAt(i: nat): (item: Item)
    requires i < 3
    ensures Index(item) == i
  {
    if i == 0 then First else if i == 1 then Second else Third
  }

  /** Distinct slots address distinct array positions. */
  lemma IndexInjective(a: Item, b: Item)
    ensures Index(a) == Index(b) <==> a == b
  {
  }

  /** `Index` is a bijection from the slots onto 0, 1, 2. */
  lemma IndexBijective()
    ensures forall i: nat :: i < 3 ==> Index(ItemAt(i)) == i
    ensures forall item: Item :: ItemAt(Index(item)) == item
  {
  }

  /** What an implementor's `get_item` answers for each slot, in one state. The trait's
      provided methods are written once here, so every implementor shares them. */
  datatype Reading = Reading(first: real, second: real, third: real) {

    function Get(item: Item): real {
      match item
      case First => first
      case Second => second
      case Third => third
    }

    /** The reading after `set_item(item, v)` on a slot that keeps `v` exactly. */
    function With(item: Item, v: real): (r: Reading)
      ensures r.Get(item) == v
      ensures forall other: Item :: other != item ==> r.Get(other) == Get(other)
    {
      match item
      case First => this.(first := v)
      case Second => this.(second := v)
      case Third => this.(third := v)
    }

    /** `is_default`: every slot reads 0.0. */
    predicate IsDefault()
      ensures IsDefault() <==> forall item: Item :: Get(item) == 0.0
    {
      Get(First) == 0.0 && Get(Second) == 0.0 && Get(Third) == 0.0
    }

    /** `sum`: the three slots added in the order First, Second, Third, which is the
        order of their indices. */
    function Sum(): (r: real)
      ensures r == Get(ItemAt(0)) + Get(ItemAt(1)) + Get(ItemAt(2))
    {
      Get(First) + Get(Second) + Get(Third)
    }
  }

  /** The reading of a container fresh from `default_values`. */
  const Zero := Reading(0.0, 0.0, 0.0)

  /** `is_default` holds exactly for the reading of a default container. */
  lemma IsDefaultIffAllZero(r: Reading)
    ensures r.IsDefault() <==> r == Zero
  {
  }

  /** A default container sums to 0.0. */
  lemma DefaultSum(r: Reading)
    requires r.IsDefault()
    ensures r.Sum() == 0.0
  {
  }

  /** Overwriting one slot changes the sum by exactly the change in that slot. */
  lemma WithSum(r: Reading, item: Item, v: real)
    ensures r.With(item, v).Sum() == r.Sum() - r.Get(item) + v
  {
  }

  /** Writing the same value to the same slot twice is the same as writing it once. */
  lemma WithIdempotent(r: Reading, item: Item, v: real)
    ensures r.With(item, v).With(item, v) == r.With(item, v)
  {
  }

  /** Writes to different slots commute. */
  lemma WithCommutes(r: Reading, a: Item, u: real, b: Item, v: real)
    requires a != b
    ensures r.With(a, u).With(b, v) == r.With(b, v).With(a, u)
  {
  }

  /** After any slot is set to a non-zero value the container is no longer default. */
  lemma WithNonZeroNotDefault(r: Reading, item: Item, v: real)
    requires v != 0.0
    ensures !r.With(item, v).IsDefault()
  {
  }
}
