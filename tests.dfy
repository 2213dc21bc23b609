/** The crate's unit tests as client code: each helper runs on either implementor, and
    each test's assertion is the helper's postcondition. */
module Tests {
  import opened Casts
  import opened ThreeValues
  import opened TupleImpl
  import opened ArrayImpl

  /** `all_values_zero`: every `get_item` answers 0.0; the same test as `is_default`. */
  predicate AllValuesZero(r: Reading)
    ensures AllValuesZero(r) <==> r.IsDefault()
    ensures AllValuesZero(r) <==> r == Zero
  {
    0.0 == r.Get(First) && 0.0 == r.Get(Second) && 0.0 == r.Get(Third)
  }

  /** `check_set` on an `Array`: after writing 1.0 to every slot, every slot reads 1.0. */
  method CheckSetArray(x: Array) returns (ok: bool)
    requires x.Valid()
    modifies x.slots
    ensures ok
    ensures x.Read() == Reading(1.0, 1.0, 1.0)
  {
    x.SetItem(First, 1.0);
    x.SetItem(Second, 1.0);
    x.SetItem(Third, 1.0);
    ok := 1.0 == x.GetItem(First) && 1.0 == x.GetItem(Second) && 1.0 == x.GetItem(Third);
  }

  /** `check_set` on a `Tuple`: 1.0 survives the `u32` and `f32` casts. */
  method CheckSetTuple(x: Tuple) returns (ok: bool)
    modifies x
    ensures ok
    ensures x.Read() == Reading(1.0, 1.0, 1.0)
  {
    x.SetItem(First, 1.0);
    x.SetItem(Second, 1.0);
    x.SetItem(Third, 1.0);
    StoredExact(First, 1);
    StoredExact(Second, 1);
    ok := 1.0 == x.GetItem(First) && 1.0 == x.GetItem(Second) && 1.0 == x.GetItem(Third);
  }

  /** `set_values_and_calc_sum` on an `Array`. */
  method SetValuesAndCalcSumArray(x: Array) returns (s: real)
    requires x.Valid()
    modifies x.slots
    ensures s == 3.0
    ensures x.Read() == Reading(1.0, 1.0, 1.0)
  {
    x.SetItem(First, 1.0);
    x.SetItem(Second, 1.0);
    x.SetItem(Third, 1.0);
    s := x.Sum();
  }

  /** `set_values_and_calc_sum` on a `Tuple`. */
  method SetValuesAndCalcSumTuple(x: Tuple) returns (s: real)
    modifies x
    ensures s == 3.0
    ensures x.Read() == Reading(1.0, 1.0, 1.0)
  {
    x.SetItem(First, 1.0);
    x.SetItem(Second, 1.0);
    x.SetItem(Third, 1.0);
    StoredExact(First, 1);
    StoredExact(Second, 1);
    s := x.Sum();
  }

  /** `test_sum`: both implementors sum to 3.0 after every slot is set to 1.0. */
  method TestSum() returns (arraySum: real, tupleSum: real)
    ensures arraySum == 3.0 && tupleSum == 3.0
  {
    var a := new Array.DefaultValues();
    arraySum := SetValuesAndCalcSumArray(a);
    var t := new Tuple.DefaultValues();
    tupleSum := SetValuesAndCalcSumTuple(t);
  }

  /** `test_default_values`: both implementors start out default. */
  method TestDefaultValues() returns (arrayDefault: bool, tupleDefault: bool)
    ensures arrayDefault && tupleDefault
  {
    var a := new Array.DefaultValues();
    arrayDefault := a.IsDefault();
    var t := new Tuple.DefaultValues();
    tupleDefault := t.IsDefault();
  }

  /** `test_set`. */
  method TestSet() returns (arrayOk: bool, tupleOk: bool)
    ensures arrayOk && tupleOk
  {
    var a := new Array.DefaultValues();
    arrayOk := CheckSetArray(a);
    var t := new Tuple.DefaultValues();
    tupleOk := CheckSetTuple(t);
  }

  /** `test_get`. */
  method TestGet() returns (arrayZero: bool, tupleZero: bool)
    ensures arrayZero && tupleZero
  {
    var a := new Array.DefaultValues();
    arrayZero := AllValuesZero(a.Read());
    var t := new Tuple.DefaultValues();
    tupleZero := AllValuesZero(t.Read());
  }
}
