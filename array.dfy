/** `struct Array([f64; 3])` and its `ThreeValues` implementation: the slots are the
    elements of a three-element `f64` array, addressed through `Item::index`. */
module ArrayImpl {
  import opened ThreeValues

  class Array {
    const slots: array<real>

    /** The array always has exactly three elements (`[f64; 3]`). */
    ghost predicate Valid() {
      slots.Length == 3
    }

    /** `default_values`: `Self([0.0; 3])`. */
    constructor DefaultValues()
      ensures Valid() && fresh(slots)
      ensures slots[..] == [0.0, 0.0, 0.0]
      ensures Read() == Zero
    {
      slots := new real[3](_ => 0.0);
    }

    /** `get_item`: the element at the slot's index; position `i` of the array is what
        the slot `ItemAt(i)` reads. */
    function GetItem(item: Item): (r: real)
      requires Valid()
      reads slots
      ensures forall i: nat :: i < 3 && ItemAt(i) == item ==> r == slots[i]
    {
      slots[Index(item)]
    }

    function Read(): Reading
      requires Valid()
      reads slots
    {
      Reading(GetItem(First), GetItem(Second), GetItem(Third))
    }

    /** `set_item`: overwrites the element at the slot's index in place and nothing else;
        the slot then reads back exactly the written value. */
    method SetItem(item: Item, value: real)
      requires Valid()
      modifies slots
      ensures slots[..] == old(slots[..])[Index(item) := value]
      ensures Read() == old(Read()).With(item, value)
    {
      slots[Index(item)] := value;
    }

    /** `is_default`, the trait's provided method: every element is 0.0. */
    predicate IsDefault()
      requires Valid()
      reads slots
      ensures IsDefault() <==> forall item: Item :: GetItem(item) == 0.0
      ensures IsDefault() <==> slots[..] == [0.0, 0.0, 0.0]
    {
      assert slots[..] == [slots[0], slots[1], slots[2]];
      Read().IsDefault()
    }

    /** `sum`, the trait's provided method: the elements added in array order. */
    function Sum(): (r: real)
      requires Valid()
      reads slots
      ensures r == slots[0] + slots[1] + slots[2]
    {
      Read().Sum()
    }
  }
}
