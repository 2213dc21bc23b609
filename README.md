# Three-slot containers behind one accessor trait

A Dafny model of the Rust crate `generics_and_traits` (`src/lib.rs`). The crate defines a
selector `Item` (`First`, `Second`, `Third`) with `Item::index` mapping it to 0, 1, 2, and a
trait `ThreeValues` with three required operations (`default_values`, `get_item`,
`set_item`) and two provided ones built from `get_item` (`is_default`, `sum`). Two structs
implement it:

- `Tuple(u32, f32, f64)`: one field per slot. `get_item` widens the field to `f64`.
  `set_item` narrows the `f64` with an `as` cast: a saturating, truncating cast into the
  `u32`, a round-to-nearest cast into the `f32`, and no cast for the `f64`.
- `Array([f64; 3])`: three `f64` elements addressed through `Item::index`.

Files and modules:

- `casts.dfy`, module `Casts`: the two lossy `as` casts. `f64` is a `real`. `ToU32` is
  `value as u32`. `RoundF32` is `value as f32` read back as `f64`: round to the nearest
  multiple of the `f32` spacing at the value's magnitude, ties to even. The spacing is
  2^(e-23) for the binade exponent e, clamped to [-126, 127], so subnormals use 2^-149.
- `three_values.dfy`, module `ThreeValues`: `Item`, `Index` and its inverse `ItemAt`.
  Also `Reading`, the three `get_item` answers of a container in one state. The trait's
  provided methods `is_default` and `sum` are defined once, on `Reading`. `Reading.With`
  is the reading after one slot is overwritten.
- `tuple.dfy`, module `TupleImpl`: class `Tuple` with fields `first: U32`,
  `second: real` and `third: real`. `set_item` assigns one field in place. `Stored` gives
  what a slot keeps of a written value.
- `array.dfy`, module `ArrayImpl`: class `Array` over an `array<real>` of length 3.
  `set_item` writes one element in place.
- `tests.dfy`, module `Tests`: the crate's unit tests as client methods. Each test's
  assertion is a postcondition.

The trait has no Dafny counterpart of its own. Each class provides `DefaultValues`,
`GetItem`, `SetItem`, `IsDefault` and `Sum`, plus `Read()`, its `Reading`. `IsDefault`
and `Sum` delegate to the single definitions on `Reading`. Every `SetItem` states its new
`Read()` as `old(Read()).With(item, stored value)`. So the lemmas
about `Reading` hold for both implementors.

The crate compares against the literal `0.0` in `is_default` (src/lib.rs:64-68). It does
not compare slot by slot against a fresh default. The model follows the code. For both
implementors the two readings agree, because `default_values` reads 0.0 on every slot.

## Model

| member | source | states |
|---|---|---|
| ThreeValues.Index | src/lib.rs:8-14 | every selector maps to a position below 3 |
| ThreeValues.ItemAt | src/lib.rs:8-14 | every position 0, 1, 2 is the index of some selector |
| ThreeValues.IndexInjective | src/lib.rs:8-14 | two selectors have the same index exactly when they are the same selector |
| ThreeValues.IndexBijective | src/lib.rs:8-14 | `Index` and `ItemAt` are inverse both ways, so `Index` is a bijection onto 0..2 and every selector addresses a valid, distinct array element |
| ThreeValues.Reading.With | src/lib.rs:32-38 | after a write, the written slot reads the new value and every other slot reads what it read before |
| ThreeValues.Reading.IsDefault | src/lib.rs:64-68 | the single `is_default`: true iff every slot reads 0.0 |
| ThreeValues.Reading.Sum | src/lib.rs:70-72 | the single `sum`: the slots added in the order of their indices 0, 1, 2 |
| ThreeValues.IsDefaultIffAllZero | src/lib.rs:64-68 | `is_default` holds exactly for the reading of a default container |
| ThreeValues.DefaultSum | src/lib.rs:64-72 | a default container sums to 0.0 |
| ThreeValues.WithSum | src/lib.rs:70-72 | overwriting one slot changes `sum` by exactly the change in that slot |
| ThreeValues.WithIdempotent | src/lib.rs:32-54 | writing the same value to the same slot twice leaves the state of a single write |
| ThreeValues.WithCommutes | src/lib.rs:32-38 | writes to different slots can be done in either order |
| ThreeValues.WithNonZeroNotDefault | src/lib.rs:64-68 | after any slot is set to a non-zero value, `is_default` is false |
| Casts.ToU32 | src/lib.rs:34 | `as u32` gives 0 below zero and `u32::MAX` at 2^32 and above; in between, the whole number whose unit interval holds the value (truncation) |
| Casts.ToU32OfWidened | src/lib.rs:26-34 | a `u32` widened to `f64` and cast back is unchanged |
| Casts.ToU32Monotone | src/lib.rs:34 | the `u32` cast never maps a larger value to a smaller integer |
| Casts.ExponentFrom | src/lib.rs:35 | the binade exponent used for `f32` rounding is the largest in range whose power of two does not exceed the value, else the lower clamp |
| Casts.RoundTiesEven | src/lib.rs:35 | the result is an integer within 1/2 of the input, and an exact tie goes to the even integer |
| Casts.RoundToMultiple | src/lib.rs:35 | the result is a whole multiple of the step, within half a step of the input, the even multiple on an exact tie, and not negative for a non-negative input |
| Casts.RoundF32 | src/lib.rs:35 | the `f32` cast keeps zero at zero and never flips the sign of a value |
| Casts.RoundF32Nearest | src/lib.rs:35 | the `f32` cast lands on the `f32` grid at the value's magnitude, moves the value by at most half the spacing, and on an exact tie picks the even multiple |
| Casts.RoundF32Odd | src/lib.rs:35 | the `f32` cast is symmetric about zero |
| Casts.RoundF32Exact | src/lib.rs:35 | every integer below 2^24 in magnitude, 0.0 and 1.0 among them, passes through the `f32` cast unchanged |
| TupleImpl.Stored | src/lib.rs:24-38 | the First slot keeps a whole number in `u32` range, the truncation of an in-range value; the Third slot keeps the value exactly |
| TupleImpl.StoredExact | src/lib.rs:24-38 | whole numbers below 2^24 read back unchanged from every tuple slot |
| TupleImpl.StoredFirstStable | src/lib.rs:26-34 | writing back what the First slot reads changes nothing |
| TupleImpl.Tuple.DefaultValues | src/lib.rs:20-22 | all three fields are zero and every slot reads 0.0 |
| TupleImpl.Tuple.GetItem | src/lib.rs:24-30 | the First slot always reads a whole number in `u32` range |
| TupleImpl.Tuple.SetItem | src/lib.rs:32-38 | exactly the field behind the slot is assigned, with the narrowed value; the reading changes only in that slot, which reads the stored value back |
| TupleImpl.Tuple.IsDefault | src/lib.rs:64-68 | true iff every slot reads 0.0, iff all three fields are zero |
| TupleImpl.Tuple.Sum | src/lib.rs:70-72 | the three fields, widened to `f64`, added in the order First, Second, Third |
| ArrayImpl.Array.DefaultValues | src/lib.rs:44-46 | a fresh three-element array of zeros; every slot reads 0.0 |
| ArrayImpl.Array.SetItem | src/lib.rs:52-54 | exactly the element at the slot's index changes, to the written value; that slot then reads the value back exactly, and the other two are unchanged |
| ArrayImpl.Array.GetItem | src/lib.rs:48-50 | a slot reads the array element at the position that the selector indexes |
| ArrayImpl.Array.IsDefault | src/lib.rs:64-68 | true iff every slot reads 0.0, iff the array holds three zeros |
| ArrayImpl.Array.Sum | src/lib.rs:70-72 | the three elements added in array order |
| Tests.AllValuesZero | src/lib.rs:103-108 | the test's check agrees with `is_default`, and holds exactly for the reading of a default container |
| Tests.CheckSetArray | src/lib.rs:110-119 | after setting every slot of an `Array` to 1.0, every slot reads 1.0; the container is left reading 1.0 in every slot |
| Tests.CheckSetTuple | src/lib.rs:110-119 | after setting every slot of a `Tuple` to 1.0, every slot reads 1.0; the container is left reading 1.0 in every slot |
| Tests.SetValuesAndCalcSumArray | src/lib.rs:125-130 | an `Array` with every slot set to 1.0 sums to 3.0, and is left reading 1.0 in every slot |
| Tests.SetValuesAndCalcSumTuple | src/lib.rs:125-130 | a `Tuple` with every slot set to 1.0 sums to 3.0, and is left reading 1.0 in every slot |
| Tests.TestSum | src/lib.rs:80-83 | both implementors, from defaults, sum to 3.0 after the three writes |
| Tests.TestDefaultValues | src/lib.rs:86-89 | both implementors are default after `default_values` |
| Tests.TestSet | src/lib.rs:92-95 | `check_set` succeeds on both implementors |
| Tests.TestGet | src/lib.rs:98-101 | every slot of both default implementors reads 0.0 |

## Left out

- IEEE-754 detail: `f64` is a `real`, so NaN, infinities, signed zero and rounding in
  `sum` are not modelled. Without signed zero, `is_default`'s `-0.0 == 0.0` case does not
  arise.
- Casts.ToU32: a NaN input, which Rust casts to 0, has no counterpart among the reals.
- Casts.RoundF32: Rust gives infinity when the value rounds to 2^128 or more in
  magnitude. The model has no infinity and returns the rounded real instead.
- TupleImpl.Tuple: nothing proves that `second` always holds an `f32` value. That would
  need `RoundF32` to be idempotent, which is not proved. So writing back what the Second
  slot reads is not shown to be a no-op; `TupleImpl.StoredFirstStable` covers only First.
- Trait dispatch: the `impl ThreeValues` parameters of the test helpers (src/lib.rs:103-130)
  become one method per implementor.
- Direct construction of `Tuple` and `Array` from field values is not modelled. Inside
  the crate only `default_values` constructs them.
