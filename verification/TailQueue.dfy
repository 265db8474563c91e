/** The preallocated queue of bounded size: a ring in which positions only grow. */
module TailQueue {
  import opened Buffers
  import opened Options
  import TailMap

  class VectorTailQueue<T> {
    const tail: nat
    const slots: array<Option<T>>
    var head: nat
    var next: nat
    /** From the oldest to the newest. */
    ghost var items: seq<T>

    function Slot(p: nat): (j: nat)
      requires tail > 0
      ensures j < tail
    {
      p % tail
    }

    ghost predicate Valid()
      reads this, slots
    {
      && tail > 0 && slots.Length == tail && head + |items| == next && |items| <= tail
      && forall p: nat :: head <= p < next ==> slots[Slot(p)] == Some(items[p - head])
    }

    constructor (tail: nat)
      requires tail > 0
      ensures Valid() && items == [] && this.tail == tail && fresh(slots)
    {
      this.tail := tail;
      slots := new Option<T>[tail](_ => None);
      head, next, items := 0, 0, [];
    }

    /** Positions less than `tail` apart have slots of their own. */
    lemma Apart(p: nat, q: nat)
      requires tail > 0 && p != q && p < q + tail && q < p + tail
      ensures Slot(p) != Slot(q)
    {
      if p < q {
        TailMap.Residues(p, q, tail);
      } else {
        TailMap.Residues(q, p, tail);
      }
    }

    /** Onto a full queue, the oldest entry makes room. */
    method EmplaceBack(x: T)
      requires Valid()
      modifies this`head, this`next, this`items, slots
      ensures Valid() && items == Push(old(items), tail, x)
    {
      hide Slot;
      var dest := next;
      next := next + 1;
      if head + tail == dest {
        head := head + 1;
      }
      slots[dest % tail] := Some(x);
      items := Push(items, tail, x);
      forall p: nat | head <= p < next ensures slots[Slot(p)] == Some(items[p - head]) {
        IsSlot(dest);
        if p < dest {
          Apart(p, dest);
        }
      }
    }

    lemma IsSlot(p: nat)
      requires tail > 0
      ensures Slot(p) == p % tail < tail
    {}

    method PopFront() returns (x: T)
      requires Valid() && items != []
      modifies this`head, this`items, slots
      ensures Valid() && [x] + items == old(items)
    {
      hide Slot;
      IsSlot(head);
      x := slots[head % tail].value;
      slots[head % tail] := None;
      items := items[1..];
      head := head + 1;
      forall p: nat | head <= p < next ensures slots[Slot(p)] == Some(items[p - head]) {
        Apart(head - 1, p);
      }
    }

    method Clear()
      requires Valid()
      modifies this`head, this`items, slots
      ensures Valid() && items == []
    {
      var p := head;
      while p != next
        invariant head <= p <= next && slots.Length == tail
        decreases next - p
      {
        slots[p % tail] := None;
        p := p + 1;
      }
      head, items := next, [];
    }

    /** `back` does not wrap around: it reads the newest entry as long as no more were ever added than
        there are slots, and beyond the slots (None) from then on. */
    method Back() returns (x: Option<T>)
      requires Valid() && items != []
      ensures x.Some? <==> next <= tail
      ensures x.Some? ==> x.value == items[|items| - 1]
    {
      if next - 1 >= slots.Length {
        return None;
      }
      assert Slot(next - 1) == next - 1;
      x := slots[next - 1];
    }
  }
}
