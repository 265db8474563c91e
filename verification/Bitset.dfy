/** The set of replicas behind `full` and `majority`: flags and a count. */
module Bitset {
  import opened Quorums

  const MAX_CAPACITY := 8

  function Ones(bits: seq<bool>): set<nat> {
    set i: nat | i < |bits| && bits[i]
  }

  class DynamicBitset {
    const bits: array<bool>
    const capacity: nat
    var size: nat

    /** The count is the number of flags set. */
    ghost predicate Valid()
      reads this, bits
    {
      bits.Length == MAX_CAPACITY && capacity <= MAX_CAPACITY && size == |Ones(bits[..])|
    }

    constructor (capacity: nat)
      requires capacity <= MAX_CAPACITY
      ensures Valid() && this.capacity == capacity && fresh(bits) && Ones(bits[..]) == {}
    {
      this.capacity, size := capacity, 0;
      bits := new bool[MAX_CAPACITY](_ => false);
      new;
      assert Ones(bits[..]) == {};
    }

    /** False if it was set before, and then nothing changes. */
    method Set(index: nat) returns (isNew: bool)
      requires Valid() && index < MAX_CAPACITY
      modifies this`size, bits
      ensures Valid() && isNew == (index !in old(Ones(bits[..])))
      ensures Ones(bits[..]) == old(Ones(bits[..])) + {index}
    {
      if bits[index] {
        assert index in Ones(bits[..]);
        assert Ones(bits[..]) == old(Ones(bits[..])) + {index};
        return false;
      }
      ghost var before := Ones(bits[..]);
      bits[index] := true;
      assert Ones(bits[..]) == before + {index} && index !in before;
      size := size + 1;
      isNew := true;
    }

    predicate Full()
      reads this
    {
      size == capacity
    }

    predicate Majority()
      reads this
    {
      size >= capacity / 2 + 1
    }
  }

  /** As long as only indices below the capacity were set, full means that all of them were, and
      two majorities share an index. */
  lemma FullIsEveryone(a: DynamicBitset)
    requires a.Valid() && forall i: nat :: i in Ones(a.bits[..]) ==> i < a.capacity
    ensures a.Full() <==> Ones(a.bits[..]) == Group(a.capacity)
  {
    assert Ones(a.bits[..]) <= Group(a.capacity);
    GroupSize(a.capacity);
    SubsetSize(Ones(a.bits[..]), Group(a.capacity));
  }

  lemma MajoritiesMeet(a: DynamicBitset, b: DynamicBitset)
    requires a.Valid() && b.Valid() && a.capacity == b.capacity && a.Majority() && b.Majority()
    requires forall i: nat :: i in Ones(a.bits[..]) || i in Ones(b.bits[..]) ==> i < a.capacity
    ensures exists i :: i in Ones(a.bits[..]) && i in Ones(b.bits[..])
  {
    var i := Intersect(a.capacity, Ones(a.bits[..]), Ones(b.bits[..]));
  }
}
