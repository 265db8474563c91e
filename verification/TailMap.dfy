/** The two forms of the tail map: a ring of linked slots, and an ordered tree. Both are
    proved against one ordered window of entries. */
module TailMap {
  import opened Options

  datatype Entry<+V> = Entry(key: nat, value: V)

  // ---------- The window of entries that both forms implement ----------

  ghost predicate Ordered<V>(items: seq<Entry<V>>) {
    forall i, j :: 0 <= i < j < |items| ==> items[i].key < items[j].key
  }

  /** All keys lie within one window of size `tail`. */
  ghost predicate Fits<V>(items: seq<Entry<V>>, tail: nat) {
    items != [] ==> items[|items| - 1].key < items[0].key + tail
  }

  function Last<V>(items: seq<Entry<V>>): nat
    requires items != []
  {
    items[|items| - 1].key
  }

  /** What an insertion of `key` leaves of the entries: those less than `tail` behind it. */
  function Keep<V>(items: seq<Entry<V>>, tail: nat, key: nat): (r: seq<Entry<V>>)
    ensures r == [] || r[0].key + tail > key
    ensures |r| <= |items| && r == items[|items| - |r|..]
    ensures forall i :: 0 <= i < |items| - |r| ==> items[i].key + tail <= key
  {
    if items != [] && key >= items[0].key + tail then Keep(items[1..], tail, key) else items
  }

  function Has<V>(items: seq<Entry<V>>, key: nat): bool {
    exists i :: 0 <= i < |items| && items[i].key == key
  }

  /** A fresh key at or above the last one goes to the end of the window. */
  function Insert<V>(items: seq<Entry<V>>, tail: nat, key: nat, value: V): seq<Entry<V>> {
    Keep(items, tail, key) + [Entry(key, value)]
  }

  lemma SuffixKeeps<V>(items: seq<Entry<V>>, tail: nat, n: nat)
    requires Ordered(items) && Fits(items, tail) && n <= |items|
    ensures Ordered(items[n..]) && Fits(items[n..], tail)
  {
    var kept := items[n..];
    forall i, j | 0 <= i < j < |kept| ensures kept[i].key < kept[j].key {
      assert kept[i] == items[n + i] && kept[j] == items[n + j];
    }
    assert n < |items| ==> items[0].key <= items[n].key;
  }

  lemma AppendKeeps<V>(items: seq<Entry<V>>, tail: nat, key: nat, value: V)
    requires Ordered(items) && tail > 0 && (items != [] ==> Last(items) < key < items[0].key + tail)
    ensures Ordered(items + [Entry(key, value)]) && Fits(items + [Entry(key, value)], tail)
  {
    hide Keep, Has;
    forall i | 0 <= i < |items| ensures items[i].key < key {
      assert items[i].key <= Last(items);
    }
  }

  /** Different keys of one window fall in different slots. */
  lemma Residues(a: nat, b: nat, tail: nat)
    requires a < b < a + tail
    ensures a % tail != b % tail
  {
    DivMod(a, tail);
    DivMod(b, tail);
    if a / tail == b / tail {
    } else {
      MulGap(a / tail, b / tail, tail);
    }
  }

  lemma DivMod(a: nat, t: nat)
    requires t > 0
    ensures a == t * (a / t) + a % t && 0 <= a % t < t
  {}

  lemma MulGap(p: nat, q: nat, t: nat)
    requires p != q
    ensures p < q ==> t * p + t <= t * q
    ensures q < p ==> t * q + t <= t * p
  {
    assert p < q ==> t * (p + 1) <= t * q;
    assert q < p ==> t * (q + 1) <= t * p;
  }

  // ---------- The ring of linked slots ----------

  datatype Node<+V> = Node(key: nat, value: V, next: Option<nat>)

  /** What `tryEmplace` returns: a new entry, the entry already there, or the exception. */
  datatype Emplaced = Inserted(slot: nat) | Present(slot: nat) | Past

  function NodeOf<V>(items: seq<Entry<V>>, tail: nat, i: nat): Node<V>
    requires i < |items| && tail > 0
  {
    Node(items[i].key, items[i].value, if i + 1 < |items| then Some(items[i + 1].key % tail) else None)
  }

  /** Every entry is in its slot and points to the next one; other slots are empty. */
  ghost predicate Linked<V>(slots: seq<Option<Node<V>>>, items: seq<Entry<V>>)
    requires |slots| > 0
  {
    && (forall i: nat :: i < |items| ==> slots[items[i].key % |slots|] == Some(NodeOf(items, |slots|, i)))
    && (forall j: nat :: j < |slots| && slots[j].Some? ==> exists i: nat :: i < |items| && items[i].key % |slots| == j)
  }

  /** No two entries share a slot. */
  lemma SlotsDiffer<V>(items: seq<Entry<V>>, tail: nat, i: nat, j: nat)
    requires tail > 0 && Ordered(items) && Fits(items, tail) && i < j < |items|
    ensures items[i].key % tail != items[j].key % tail
  {
    assert items[0].key <= items[i].key && items[j].key <= items[|items| - 1].key;
    Residues(items[i].key, items[j].key, tail);
  }

  lemma NodeShift<V>(items: seq<Entry<V>>, tail: nat, i: nat)
    requires i + 1 < |items| && tail > 0
    ensures NodeOf(items[1..], tail, i) == NodeOf(items, tail, i + 1)
  {}

  lemma PopEntry<V>(slots: seq<Option<Node<V>>>, items: seq<Entry<V>>, i: nat)
    requires |slots| > 0 && Linked(slots, items) && i + 1 < |items| && Ordered(items) && Fits(items, |slots|)
    ensures slots[items[0].key % |slots| := None][items[i + 1].key % |slots|] == Some(NodeOf(items[1..], |slots|, i))
  {
    SlotsDiffer(items, |slots|, 0, i + 1);
    assert slots[items[i + 1].key % |slots|] == Some(NodeOf(items, |slots|, i + 1));
    NodeShift(items, |slots|, i);
  }

  lemma PopLinked<V>(slots: seq<Option<Node<V>>>, items: seq<Entry<V>>)
    requires |slots| > 0 && Linked(slots, items) && items != [] && Ordered(items) && Fits(items, |slots|)
    ensures Linked(slots[items[0].key % |slots| := None], items[1..])
  {
    var n, rest := |slots|, items[1..];
    var slots' := slots[items[0].key % n := None];
    forall i: nat | i < |rest| ensures slots'[rest[i].key % n] == Some(NodeOf(rest, n, i)) {
      PopEntry(slots, items, i);
    }
    forall j: nat | j < n && slots'[j].Some? ensures exists i: nat :: i < |rest| && rest[i].key % n == j {
      PopOccupied(slots, items, j);
    }
    hide Ordered, Fits, NodeOf;
  }

  lemma PopOccupied<V>(slots: seq<Option<Node<V>>>, items: seq<Entry<V>>, j: nat)
    requires |slots| > 0 && Linked(slots, items) && items != [] && j < |slots| && slots[items[0].key % |slots| := None][j].Some?
    ensures exists i: nat :: i < |items[1..]| && items[1..][i].key % |slots| == j
  {
    var i: nat :| i < |items| && items[i].key % |slots| == j;
    assert i != 0;
    assert items[1..][i - 1] == items[i];
  }

  /** A fresh key behind the last one finds its slot empty. */
  lemma FreeSlot<V>(slots: seq<Option<Node<V>>>, items: seq<Entry<V>>, key: nat)
    requires |slots| > 0 && Linked(slots, items) && Ordered(items)
    requires items != [] ==> Last(items) < key < items[0].key + |slots|
    ensures slots[key % |slots|].None?
    ensures forall i: nat :: i < |items| ==> items[i].key % |slots| != key % |slots|
  {
    forall i: nat | i < |items| ensures items[i].key % |slots| != key % |slots| {
      assert items[0].key <= items[i].key <= Last(items);
      Residues(items[i].key, key, |slots|);
    }
  }

  /** The slots after an insertion: the new node, and the link from the one before it. */
  function Extended<V>(slots: seq<Option<Node<V>>>, items: seq<Entry<V>>, key: nat, value: V): seq<Option<Node<V>>>
    requires |slots| > 0
  {
    var it := key % |slots|;
    var written := slots[it := Some(Node(key, value, None))];
    if items == [] then written
    else
      var last := Last(items);
      written[last % |slots| := Some(Node(last, items[|items| - 1].value, Some(it)))]
  }

  lemma ExtendLinked<V>(slots: seq<Option<Node<V>>>, items: seq<Entry<V>>, key: nat, value: V)
    requires |slots| > 0 && Linked(slots, items) && Ordered(items) && Fits(items, |slots|)
    requires items != [] ==> Last(items) < key < items[0].key + |slots|
    ensures Linked(Extended(slots, items, key, value), items + [Entry(key, value)])
  {
    var n, all := |slots|, items + [Entry(key, value)];
    var slots' := Extended(slots, items, key, value);
    FreeSlot(slots, items, key);
    forall i: nat | i < |all| ensures slots'[all[i].key % n] == Some(NodeOf(all, n, i)) {
      if i + 1 < |items| {
        SlotsDiffer(items, n, i, |items| - 1);
        assert slots[items[i].key % n] == Some(NodeOf(items, n, i));
      }
    }
    forall j: nat | j < n && slots'[j].Some? ensures exists i: nat :: i < |all| && all[i].key % n == j {
      if j == key % n {
        assert all[|items|].key % n == j;
      } else if items != [] && j == Last(items) % n {
        assert all[|items| - 1].key % n == j;
      } else {
        var i: nat :| i < |items| && items[i].key % n == j;
        assert all[i] == items[i];
      }
    }
  }

  /** Following the links n times. */
  function Walk<V>(slots: seq<Option<Node<V>>>, at: Option<nat>, n: nat): Option<nat>
    decreases n
  {
    if n == 0 || at.None? || at.value >= |slots| || slots[at.value].None? then at
    else Walk(slots, slots[at.value].value.next, n - 1)
  }

  /** An entry linked to itself is followed forever: iteration, `size` and `clear` do not end. */
  lemma {:induction false} SelfLinkNeverEnds<V>(slots: seq<Option<Node<V>>>, at: nat, n: nat)
    requires at < |slots| && slots[at].Some? && slots[at].value.next == Some(at)
    ensures Walk(slots, Some(at), n) == Some(at)
  {
    if n > 0 {
      SelfLinkNeverEnds(slots, at, n - 1);
    }
  }

  lemma WalkStep<V>(slots: seq<Option<Node<V>>>, at: nat, n: nat)
    ensures n == 0 ==> Walk(slots, Some(at), n) == Some(at)
    ensures n > 0 && at < |slots| && slots[at].Some? ==> Walk(slots, Some(at), n) == Walk(slots, slots[at].value.next, n - 1)
  {}

  lemma WalkEnds<V>(slots: seq<Option<Node<V>>>)
    ensures Walk(slots, None, 0) == None
  {}

  lemma LinkedAt<V>(slots: seq<Option<Node<V>>>, items: seq<Entry<V>>, i: nat)
    requires |slots| > 0 && Linked(slots, items) && i < |items|
    ensures var at := items[i].key % |slots|;
            at < |slots| && slots[at].Some? && slots[at].value.next == if i + 1 < |items| then Some(items[i + 1].key % |slots|) else None
  {}

  /** The chain from the head visits exactly the entries, in order, and then ends. */
  lemma {:induction false} WalkVisits<V>(slots: seq<Option<Node<V>>>, items: seq<Entry<V>>, from: nat, n: nat)
    requires |slots| > 0 && Linked(slots, items) && from + n <= |items| && from < |items|
    ensures Walk(slots, Some(items[from].key % |slots|), n) ==
            if from + n < |items| then Some(items[from + n].key % |slots|) else None
    decreases n
  {
    hide *;
    var at := items[from].key % |slots|;
    WalkStep(slots, at, n);
    if n > 0 {
      LinkedAt(slots, items, from);
      if from + 1 < |items| {
        WalkVisits(slots, items, from + 1, n - 1);
      } else {
        WalkEnds(slots);
      }
    }
  }

  class VectorTailMap<V> {
    const tail: nat
    const slots: array<Option<Node<V>>>
    var head: Option<nat>
    var back: Option<nat>
    var min: nat
    /** The entries in the order of the chain. */
    ghost var items: seq<Entry<V>>

    ghost predicate Valid()
      reads this, slots
    {
      && Core() && (items != [] ==> Last(items) == min)
    }

    /** Everything but `min`, which an insertion changes first. */
    ghost predicate Core()
      reads this, slots
    {
      && tail > 0 && slots.Length == tail
      && Ordered(items) && Fits(items, tail)
      && head == (if items == [] then None else Some(items[0].key % tail))
      && back == (if items == [] then None else Some(Last(items) % tail))
      && Linked(slots[..], items)
    }

    constructor (tail: nat)
      requires tail > 0
      ensures Valid() && fresh(slots) && this.tail == tail && items == [] && min == 0
    {
      this.tail := tail;
      slots := new Option<Node<V>>[tail](_ => None);
      head, back, min := None, None, 0;
      items := [];
    }

    predicate Empty()
      reads this
    {
      head == None
    }

    method Find(key: nat) returns (slot: Option<nat>)
      requires Valid()
      ensures slot.Some? <==> Has(items, key)
      ensures slot.Some? ==> slot.value == key % tail && slots[slot.value].Some? && slots[slot.value].value.key == key
      ensures slot.Some? ==> Entry(key, slots[slot.value].value.value) in items
    {
      var j := key % tail;
      if slots[j].Some? && slots[j].value.key == key {
        ghost var i: nat :| i < |items| && items[i].key % tail == j;
        assert slots[j] == Some(NodeOf(items, tail, i));
        slot := Some(j);
      } else {
        slot := None;
        assert forall i: nat :: i < |items| ==> slots[items[i].key % tail] == Some(NodeOf(items, tail, i));
      }
    }

    method PopFront() returns (ok: bool)
      requires Core()
      modifies this`head, this`back, this`items, slots
      ensures Core() && ok == (old(items) != []) && items == (if ok then old(items)[1..] else [])
    {
      if head == None {
        return false;
      }
      var first := head.value;
      assert slots[first] == Some(NodeOf(items, tail, 0));
      PopLinked(slots[..], items);
      SuffixKeeps(items, tail, 1);
      ghost var was := slots[..];
      if |items| > 1 {
        SlotsDiffer(items, tail, 0, |items| - 1);
      }
      hide Linked, Has;
      if head == back {
        back := None;
      }
      var next := slots[first].value.next;
      slots[first] := None;
      assert slots[..] == was[first := None];
      head := next;
      items := items[1..];
      ok := true;
    }

    function FrontKey(): (k: nat)
      requires Core() && head != None
      reads this, slots
      ensures items != [] && k == items[0].key
    {
      assert slots[head.value] == Some(NodeOf(items, tail, 0));
      slots[head.value].value.key
    }

    /** The loop that drops what the insertion of `key` leaves behind. */
    method DropBehind(key: nat)
      requires Core()
      modifies this`head, this`back, this`items, slots
      ensures Core() && items == Keep(old(items), tail, key)
    {
      while head != None && key >= FrontKey() + tail
        invariant Core() && Keep(items, tail, key) == Keep(old(items), tail, key)
        decreases |items|
      {
        var ok := PopFront();
      }
    }

    /** The slot of `key` is written and becomes the end of the chain; `items` is updated
        only if the key is fresh. */
    method Append(key: nat, value: V)
      requires Core() && (items != [] ==> Last(items) <= key < items[0].key + tail)
      modifies this`head, this`back, this`items, slots
      ensures back == Some(key % tail)
      ensures old(items) == [] || Last(old(items)) < key ==> Core() && items == old(items) + [Entry(key, value)]
      ensures old(items) != [] && Last(old(items)) == key ==> slots[key % tail] == Some(Node(key, value, Some(key % tail)))
    {
      var it := key % tail;
      ghost var was, before := slots[..], items;
      if items != [] {
        assert slots[back.value] == Some(NodeOf(items, tail, |items| - 1));
      }
      if items == [] || Last(items) < key {
        FreeSlot(slots[..], items, key);
        ExtendLinked(slots[..], items, key, value);
        AppendKeeps(items, tail, key, value);
        if items != [] {
          Residues(Last(items), key, tail);
        }
      }
      hide Linked, Has, Ordered, Fits;
      slots[it] := Some(Node(key, value, None));
      if head == None {
        head := Some(it);
      } else {
        slots[back.value] := Some(slots[back.value].value.(next := Some(it)));
      }
      back := Some(it);
      if before == [] || Last(before) < key {
        assert slots[..] == Extended(was, before, key, value);
        items := items + [Entry(key, value)];
      }
    }

    /** `tryEmplace`. A key at or above the last one given is appended, and what it leaves
        behind is dropped, if and only if it is not the key of the last entry: that one is
        overwritten and linked to itself. */
    method TryEmplace(key: nat, value: V) returns (r: Emplaced)
      requires Valid()
      modifies this, slots
      ensures key < old(min) ==> Valid() && items == old(items) && min == old(min)
      ensures key < old(min) ==> r == if Has(old(items), key) then Present(key % tail) else Past
      ensures key >= old(min) ==> r == Inserted(key % tail) && min == key
      ensures key >= old(min) && !(old(items) != [] && Last(old(items)) == key) ==>
                Valid() && items == Insert(old(items), tail, key, value)
      ensures key >= old(min) && old(items) != [] && Last(old(items)) == key ==>
                !Valid() && slots[key % tail] == Some(Node(key, value, Some(key % tail)))
    {
      hide Linked, Has, Ordered, Fits, Keep;
      if key < min {
        var it := Find(key);
        return if it.None? then Past else Present(it.value);
      }
      min := key;
      DropBehind(key);
      KeepLast(old(items), tail, key);
      Append(key, value);
      r := Inserted(key % tail);
      if old(items) != [] && Last(old(items)) == key {
        EndOfChain();
      }
    }

    /** The last entry of a valid map has no successor. */
    lemma EndOfChain()
      ensures Valid() && back.Some? ==> back.value < tail && slots[back.value].Some? && slots[back.value].value.next.None?
    {
      if Valid() && items != [] {
        assert slots[back.value] == Some(NodeOf(items, tail, |items| - 1));
      }
    }

    /** `popFront`, between two insertions. */
    method PopFirst() returns (ok: bool)
      requires Valid()
      modifies this`head, this`back, this`items, slots
      ensures Valid() && ok == (old(items) != []) && items == (if ok then old(items)[1..] else [])
    {
      hide Linked, Has, Ordered, Fits, Keep;
      ok := PopFront();
    }

    method Clear()
      requires Valid()
      modifies this, slots
      ensures Valid() && items == [] && min == 0
    {
      hide Linked, Has, Ordered, Fits, Keep;
      while head != None
        invariant Core()
        decreases |items|
      {
        var ok := PopFront();
      }
      min := 0;
    }

    method Size() returns (count: nat)
      requires Valid()
      ensures count == |items|
    {
      count := 0;
      var it := head;
      while it != None
        invariant count <= |items|
        invariant it == (if count < |items| then Some(items[count].key % tail) else None)
        decreases |items| - count
      {
        assert slots[items[count].key % tail] == Some(NodeOf(items, tail, count));
        it := slots[it.value].value.next;
        count := count + 1;
      }
    }

    method Front() returns (value: Option<V>)
      requires Valid()
      ensures value == if items == [] then None else Some(items[0].value)
    {
      if head == None {
        return None;
      }
      assert slots[head.value] == Some(NodeOf(items, tail, 0));
      value := Some(slots[head.value].value.value);
    }
  }

  /** The last entry is kept, or nothing is. */
  lemma {:induction false} KeepLast<V>(items: seq<Entry<V>>, tail: nat, key: nat)
    requires items != [] ==> Last(items) <= key
    ensures Keep(items, tail, key) != [] ==> Last(Keep(items, tail, key)) == Last(items)
    ensures items != [] && Last(items) == key && tail > 0 ==> Keep(items, tail, key) != []
  {
    if items != [] && key >= items[0].key + tail {
      if |items| > 1 {
        KeepLast(items[1..], tail, key);
      }
    }
  }

  // ---------- The tree ----------

  /** `TreeTailMap`; the ordered tree is its entries in order. */
  class TreeTailMap<V> {
    const tail: nat
    var entries: seq<Entry<V>>
    var min: nat

    ghost predicate Valid()
      reads this
    {
      tail > 0 && Ordered(entries) && (entries != [] ==> Last(entries) <= min)
    }

    constructor (tail: nat)
      requires tail > 0
      ensures Valid() && this.tail == tail && entries == [] && min == 0
    {
      this.tail := tail;
      entries, min := [], 0;
    }

    /** `tryEmplace`. With no entry, the source reads the key of the tree's end, modelled
        as an arbitrary `garbage`: if it looks old enough, the front of an empty map is
        dropped, which throws (`ok` is false). An entry that is there already stays. */
    method TryEmplace(key: nat, value: V, garbage: nat) returns (ok: bool, inserted: bool)
      requires Valid()
      modifies this
      ensures ok ==> Valid()
      ensures key < old(min) ==> ok && !inserted && entries == old(entries) && min == old(min)
      ensures key >= old(min) ==> (ok <==> Keep(old(entries), tail, key) != [] || key < garbage + tail)
      ensures key >= old(min) && ok ==> min == key && (inserted <==> !(old(entries) != [] && Last(old(entries)) == key))
      ensures key >= old(min) && ok && inserted ==> entries == Insert(old(entries), tail, key, value)
      ensures key >= old(min) && ok && !inserted ==> entries == Keep(old(entries), tail, key)
    {
      hide Keep, Has, Ordered;
      if key < min {
        return true, false;
      }
      min := key;
      KeepLast(entries, tail, key);
      ok := DropOld(key, garbage);
      if ok {
        inserted := entries == [] || Last(entries) != key;
        if inserted {
          AppendOrdered(entries, key, value);
          entries := entries + [Entry(key, value)];
        }
      } else {
        inserted := false;
      }
    }

    /** The loop that drops what the insertion of `key` leaves behind. */
    method DropOld(key: nat, garbage: nat) returns (ok: bool)
      requires Ordered(entries)
      modifies this`entries
      ensures Ordered(entries) && entries == Keep(old(entries), tail, key)
      ensures ok <==> entries != [] || key < garbage + tail
    {
      hide Keep, Has;
      while (if entries == [] then garbage else entries[0].key) + tail <= key
        invariant Ordered(entries) && Keep(entries, tail, key) == Keep(old(entries), tail, key)
        decreases |entries|
      {
        if entries == [] {
          KeepEnd(entries, tail, key);
          return false;
        }
        SuffixOrdered(entries);
        KeepStep(entries, tail, key);
        entries := entries[1..];
      }
      KeepEnd(entries, tail, key);
      ok := true;
    }

    method PopFront() returns (ok: bool)
      requires Valid()
      modifies this`entries
      ensures Valid() && ok == (old(entries) != []) && entries == (if ok then old(entries)[1..] else [])
    {
      if entries == [] {
        return false;
      }
      SuffixOrdered(entries);
      entries := entries[1..];
      ok := true;
    }

    method Clear()
      requires Valid()
      modifies this
      ensures Valid() && entries == [] && min == 0
    {
      while entries != []
        invariant Ordered(entries)
        decreases |entries|
      {
        SuffixOrdered(entries);
        entries := entries[1..];
      }
      min := 0;
    }
  }

  lemma KeepStep<V>(items: seq<Entry<V>>, tail: nat, key: nat)
    requires items != [] && key >= items[0].key + tail
    ensures Keep(items, tail, key) == Keep(items[1..], tail, key)
  {}

  lemma KeepEnd<V>(items: seq<Entry<V>>, tail: nat, key: nat)
    requires items == [] || key < items[0].key + tail
    ensures Keep(items, tail, key) == items
  {}

  lemma SuffixOrdered<V>(items: seq<Entry<V>>)
    requires Ordered(items) && items != []
    ensures Ordered(items[1..]) && (|items| > 1 ==> Last(items[1..]) == Last(items))
  {}

  lemma AppendOrdered<V>(items: seq<Entry<V>>, key: nat, value: V)
    requires Ordered(items) && (items != [] ==> Last(items) < key)
    ensures Ordered(items + [Entry(key, value)])
  {}

  // ---------- Agreement ----------

  datatype Op<+V> = Emplace(key: nat, value: V) | Pop | Wipe

  datatype Window<+V> = Window(items: seq<Entry<V>>, min: nat)

  function Apply<V>(w: Window<V>, tail: nat, op: Op<V>): Window<V> {
    match op
    case Emplace(key, value) => if key < w.min then w else Window(Insert(w.items, tail, key, value), key)
    case Pop => w.(items := if w.items == [] then [] else w.items[1..])
    case Wipe => Window([], 0)
  }

  function Run<V>(tail: nat, ops: seq<Op<V>>): Window<V> {
    if ops == [] then Window([], 0) else Apply(Run(tail, ops[..|ops| - 1]), tail, ops[|ops| - 1])
  }

  /** The operation at which ring and tree part: the last key is given once more, or nothing is
      left and what the tree reads beyond an empty map looks old enough to be dropped. */
  predicate Parts<V>(w: Window<V>, tail: nat, garbage: nat, op: Op<V>) {
    && op.Emplace? && op.key >= w.min
    && ((w.items != [] && Last(w.items) == op.key) || (Keep(w.items, tail, op.key) == [] && op.key >= garbage + tail))
  }

  method EmplaceBoth<V>(ring: VectorTailMap<V>, tree: TreeTailMap<V>, key: nat, value: V, garbage: nat) returns (together: bool)
    requires ring.Valid() && tree.Valid() && ring.tail == tree.tail
    requires ring.items == tree.entries && ring.min == tree.min
    modifies ring, ring.slots, tree
    ensures together <==> !Parts(old(Window(ring.items, ring.min)), ring.tail, garbage, Emplace(key, value))
    ensures together ==> ring.Valid() && tree.Valid()
    ensures together ==> Window(ring.items, ring.min) == Window(tree.entries, tree.min) == Apply(old(Window(ring.items, ring.min)), ring.tail, Emplace(key, value))
  {
    hide Keep, Has, Insert, Ordered, Fits, VectorTailMap.Valid, TreeTailMap.Valid, Last;
    var past := key < tree.min;
    var r := ring.TryEmplace(key, value);
    var ok, inserted := tree.TryEmplace(key, value, garbage);
    together := ok && (past || inserted);
  }

  method StepBoth<V>(ring: VectorTailMap<V>, tree: TreeTailMap<V>, op: Op<V>, garbage: nat) returns (together: bool)
    requires ring.Valid() && tree.Valid() && ring.tail == tree.tail
    requires ring.items == tree.entries && ring.min == tree.min
    modifies ring, ring.slots, tree
    ensures together <==> !Parts(old(Window(ring.items, ring.min)), ring.tail, garbage, op)
    ensures together ==> ring.Valid() && tree.Valid()
    ensures together ==> Window(ring.items, ring.min) == Window(tree.entries, tree.min) == Apply(old(Window(ring.items, ring.min)), ring.tail, op)
  {
    hide Keep, Has, Insert, Ordered, Fits, VectorTailMap.Valid, TreeTailMap.Valid, Last;
    together := true;
    match op
    case Emplace(key, value) =>
      hide Parts, Apply;
      together := EmplaceBoth(ring, tree, key, value, garbage);
    case Pop =>
      var a := ring.PopFirst();
      var b := tree.PopFront();
    case Wipe =>
      ring.Clear();
      tree.Clear();
  }

  lemma RunNext<V>(tail: nat, ops: seq<Op<V>>, i: nat)
    requires i < |ops|
    ensures Run(tail, ops[..i + 1]) == Apply(Run(tail, ops[..i]), tail, ops[i])
  {
    assert ops[..i + 1][..i] == ops[..i];
  }

  /** The two do not part in the first `steps` operations; `garbage` is what the tree reads beyond an
      empty map each time. */
  ghost predicate Together<V>(tail: nat, ops: seq<Op<V>>, garbage: nat -> nat, steps: nat)
    requires steps <= |ops|
  {
    forall i: nat :: i < steps ==> !Parts(Run(tail, ops[..i]), tail, garbage(i), ops[i])
  }

  lemma OneMoreTogether<V>(tail: nat, ops: seq<Op<V>>, garbage: nat -> nat, steps: nat)
    requires steps < |ops| && Together(tail, ops, garbage, steps)
    ensures Together(tail, ops, garbage, steps + 1) <==> !Parts(Run(tail, ops[..steps]), tail, garbage(steps), ops[steps])
  {
    hide Parts, Run;
  }

  /** Run on the same operations, the ring and the tree hold the same entries in the same order,
      those of the window, exactly up to the first operation at which they part. */
  method RunInStep<V>(tail: nat, ops: seq<Op<V>>, garbage: nat -> nat) returns (ring: VectorTailMap<V>, tree: TreeTailMap<V>, steps: nat)
    requires tail > 0
    ensures steps <= |ops| && Together(tail, ops, garbage, steps)
    ensures steps == |ops| ==> ring.Valid() && tree.Valid() && Window(ring.items, ring.min) == Window(tree.entries, tree.min) == Run(tail, ops)
    ensures steps < |ops| ==> Parts(Run(tail, ops[..steps]), tail, garbage(steps), ops[steps])
  {
    hide Parts, Apply, Ordered, Fits, VectorTailMap.Valid, TreeTailMap.Valid;
    ring := new VectorTailMap(tail);
    tree := new TreeTailMap(tail);
    steps := 0;
    assert Together(tail, ops, garbage, 0);
    hide Together;
    while steps < |ops|
      invariant steps <= |ops| && Together(tail, ops, garbage, steps)
      invariant fresh(ring) && fresh(ring.slots) && fresh(tree) && ring.tail == tail && tree.tail == tail
      invariant ring.Valid() && tree.Valid()
      invariant Window(ring.items, ring.min) == Window(tree.entries, tree.min) == Run(tail, ops[..steps])
    {
      RunNext(tail, ops, steps);
      OneMoreTogether(tail, ops, garbage, steps);
      var together := StepBoth(ring, tree, ops[steps], garbage(steps));
      if !together {
        return;
      }
      steps := steps + 1;
    }
    assert ops[..|ops|] == ops;
  }
}
