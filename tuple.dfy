/** `struct Tuple(u32, f32, f64)` and its `ThreeValues` implementation: each slot is a
    field of its own type, read widened to `f64` and written narrowed with an `as` cast. */
module TupleImpl {
  import opened Casts
  import opened ThreeValues

  /** What a tuple slot keeps of a written `f64`, as `get_item` widens it back: the `u32`
      cast for First, the `f32` cast for Second, the value itself for Third. */
  function Stored(item: Item, value: real): (r: real)
    ensures item == First ==> r == r.Floor as real && 0.0 <= r <= U32_MAX as real
    ensures item == First && 0.0 <= value < (U32_MAX + 1) as real ==> r <= value < r + 1.0
    ensures item == Third ==> r == value
  {
    match item
    case First => ToU32(value) as real
    case Second => RoundF32(value)
    case Third => value
  }

  /** Whole numbers below 2^24 survive every slot's narrowing, so for them `set_item`
      followed by `get_item` gives the written value back on all three slots. */
  lemma StoredExact(item: Item, n: nat)
    requires n < 0x100_0000
    ensures Stored(item, n as real) == n as real
  {
    match item
    case First => ToU32OfWidened(n);
    case Second => RoundF32Exact(n);
    case Third =>
  }

  /** Writing back what was read from the First slot changes nothing: the `u32` cast is
      exact on values that came out of a `u32`. */
  lemma StoredFirstStable(value: real)
    ensures Stored(First, Stored(First, value)) == Stored(First, value)
  {
  }

  class Tuple {
    var first: U32
    var second: real
    var third: real

    /** `default_values`: `Self(0, 0.0, 0.0)`. */
    constructor DefaultValues()
      ensures first == 0 && second == 0.0 && third == 0.0
      ensures Read() == Zero
    {
      first, second, third := 0, 0.0, 0.0;
    }

    /** `get_item`: the field behind the slot, widened to `f64` (exactly, for both narrower
        field types). */
    function GetItem(item: Item): (r: real)
      reads this
      ensures item == First ==> r == r.Floor as real && 0.0 <= r <= U32_MAX as real
    {
      match item
      case First => first as real
      case Second => second
      case Third => third
    }

    function Read(): Reading
      reads this
    {
      Reading(GetItem(First), GetItem(Second), GetItem(Third))
    }

    /** `set_item`: assigns exactly the field behind the slot, narrowing the value to the
        field's type; the other two fields keep their values. */
    method SetItem(item: Item, value: real)
      modifies this
      ensures first == (if item == First then ToU32(value) else old(first))
      ensures second == (if item == Second then RoundF32(value) else old(second))
      ensures third == (if item == Third then value else old(third))
      ensures Read() == old(Read()).With(item, Stored(item, value))
    {
      match item
      case First => first := ToU32(value);
      case Second => second := RoundF32(value);
      case Third => third := value;
    }

    /** `is_default`, the trait's provided method: every slot reads 0.0. */
    predicate IsDefault()
      reads this
      ensures IsDefault() <==> forall item: Item :: GetItem(item) == 0.0
      ensures IsDefault() <==> first == 0 && second == 0.0 && third == 0.0
    {
      Read().IsDefault()
    }

    /** `sum`, the trait's provided method: the three fields, widened, added in order. */
    function Sum(): (r: real)
      reads this
      ensures r == first as real + second + third
    {
      Read().Sum()
    }
  }
}
