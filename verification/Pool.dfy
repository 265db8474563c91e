/** The pool allocator: chunks of a buffer, aligned and linked into a free list, and the arena
    that cuts a buffer into pools. Addresses are unbounded. */
module Pool {
  import opened Options

  /** A chunk holds a link and, `header` bytes on, an object: `size` bytes in all. */
  datatype Chunk = Chunk(header: nat, size: nat) {
    predicate Valid() { header < size }
  }

  predicate IsPowerOf2(n: nat) {
    n == 1 || (n > 0 && n % 2 == 0 && IsPowerOf2(n / 2))
  }

  /** For a power of two, masking with -alignment clears the remainder. */
  function RoundUp(n: nat, alignment: nat): nat
    requires alignment > 0
  {
    var m := n + alignment - 1;
    m - m % alignment
  }

  lemma RoundUpIsLeast(n: nat, alignment: nat)
    requires alignment > 0
    ensures n <= RoundUp(n, alignment) < n + alignment && RoundUp(n, alignment) % alignment == 0
  {
    var m := n + alignment - 1;
    var q := m / alignment;
    assert m == q * alignment + m % alignment;
    MultipleOf(q, alignment);
  }

  lemma Times(a: nat, i: nat, j: nat)
    requires i <= j
    ensures a * i <= a * j && (i < j ==> a * i + a <= a * j)
  {
    var d := j - i;
    Distributes(a, i, d);
    if d > 0 {
      Distributes(a, 1, d - 1);
      assert a * (d - 1) >= 0;
    }
  }

  lemma Distributes(a: nat, i: nat, d: nat)
    ensures a * (i + d) == a * i + a * d && a * d >= 0
  {}

  lemma RoundUpBounds(n: nat, alignment: nat)
    requires alignment > 0
    ensures n <= RoundUp(n, alignment) < n + alignment
  {
    RoundUpIsLeast(n, alignment);
  }

  lemma PowersArePositive(n: nat)
    requires IsPowerOf2(n)
    ensures n > 0
  {}

  lemma MultipleOf(q: nat, a: nat)
    requires a > 0
    ensures (q * a) % a == 0
  {
    var m := q * a;
    var d, r := m / a, m % a;
    assert m == d * a + r;
    if d < q {
      Times(a, d, q);
    } else if q < d {
      Times(a, q, d);
    }
  }

  function Stride(k: Chunk, alignment: nat): nat
    requires alignment > 0
  {
    RoundUp(k.size, alignment)
  }

  function TrueStart(k: Chunk, start: nat, alignment: nat): int
    requires alignment > 0
  {
    RoundUp(start + k.header, alignment) - k.header
  }

  function ChunkStart(start: int, i: nat, stride: nat): int {
    start + stride * i
  }

  /** The last byte in use. */
  function TrueEnd(k: Chunk, start: int, maxObjects: nat, stride: nat): int {
    if maxObjects == 0 then start else ChunkStart(start, maxObjects - 1, stride) + k.size - 1
  }

  function SpaceRequired(k: Chunk, alignment: nat, maxObjects: nat): int
    requires alignment > 0
  {
    if maxObjects == 0 then 0 else TrueEnd(k, 0, maxObjects, Stride(k, alignment)) + 1
  }

  function AlignedSpaceRequirement(k: Chunk, alignment: nat, maxObjects: nat): int
    requires alignment > 0
  {
    SpaceRequired(k, alignment, maxObjects) + alignment + k.header
  }

  /** Where the constructor does not throw. */
  predicate Fits(k: Chunk, start: nat, size: nat, maxObjects: nat, alignment: nat) {
    && IsPowerOf2(alignment)
    && TrueStart(k, start, alignment) < start + size
    && TrueEnd(k, TrueStart(k, start, alignment), maxObjects, Stride(k, alignment)) < start + size
  }

  lemma {:induction false} AlignedSum(base: nat, stride: nat, i: nat, alignment: nat)
    requires alignment > 0 && base % alignment == 0 && stride % alignment == 0
    ensures (base + stride * i) % alignment == 0
  {
    if i > 0 {
      AlignedSum(base, stride, i - 1, alignment);
      var x := base + stride * (i - 1);
      assert base + stride * i == x + stride;
      var p, q := x / alignment, stride / alignment;
      assert x == p * alignment && stride == q * alignment;
      assert x + stride == (p + q) * alignment;
      MultipleOf(p + q, alignment);
    }
  }

  /** The advertised space suffices at any address. */
  lemma AdvertisedSpaceSuffices(k: Chunk, start: nat, maxObjects: nat, alignment: nat)
    requires k.Valid() && IsPowerOf2(alignment)
    ensures AlignedSpaceRequirement(k, alignment, maxObjects) >= 0
    ensures Fits(k, start, AlignedSpaceRequirement(k, alignment, maxObjects), maxObjects, alignment)
  {
    hide RoundUp, ChunkStart;
    PowersArePositive(alignment);
    hide IsPowerOf2;
    RoundUpBounds(start + k.header, alignment);
    var s, stride := TrueStart(k, start, alignment), Stride(k, alignment);
    if maxObjects > 0 {
      ShiftedEnd(k, s, maxObjects, stride);
    }
  }

  /** The space needed does not depend on where the chunks start. */
  lemma ShiftedEnd(k: Chunk, start: int, maxObjects: nat, stride: nat)
    requires k.Valid() && maxObjects > 0
    ensures TrueEnd(k, start, maxObjects, stride) == start + TrueEnd(k, 0, maxObjects, stride)
    ensures TrueEnd(k, 0, maxObjects, stride) >= 0
  {
    Times(stride, 0, maxObjects - 1);
  }

  /** At an aligned start, exactly the space required suffices. */
  lemma SpaceRequiredExactly(k: Chunk, start: nat, size: nat, maxObjects: nat, alignment: nat)
    requires k.Valid() && IsPowerOf2(alignment) && alignment > 0 && (start + k.header) % alignment == 0 && maxObjects > 0
    ensures Fits(k, start, size, maxObjects, alignment) <==> SpaceRequired(k, alignment, maxObjects) <= size
  {
    hide ChunkStart;
    RoundUpIsLeast(start + k.header, alignment);
    AlignedStays(start + k.header, alignment);
    RoundUpBounds(k.size, alignment);
    ShiftedEnd(k, start, maxObjects, Stride(k, alignment));
    hide RoundUp, IsPowerOf2;
  }

  lemma AlignedStays(n: nat, alignment: nat)
    requires alignment > 0 && n % alignment == 0
    ensures RoundUp(n, alignment) == n
  {
    RoundUpIsLeast(n, alignment);
    hide RoundUp;
    var m := RoundUp(n, alignment);
    OneMultiple(alignment, n / alignment, m / alignment, n, m);
  }

  lemma OneMultiple(a: nat, p: nat, q: nat, n: nat, m: nat)
    requires n == a * p && m == a * q && n <= m < n + a
    ensures n == m
  {
    if p < q {
      Times(a, p, q);
    } else {
      Times(a, q, p);
    }
  }

  /** A pool uses the bytes from its start to its true end, inside the buffer. */
  lemma PoolBounds(k: Chunk, start: nat, size: nat, maxObjects: nat, alignment: nat)
    requires k.Valid() && Fits(k, start, size, maxObjects, alignment)
    ensures var s, stride := TrueStart(k, start, alignment), Stride(k, alignment);
            var end := TrueEnd(k, s, maxObjects, stride);
            && k.size <= stride && start <= s <= end + 1 <= start + size
            && forall i: nat :: i < maxObjects ==> start <= ChunkStart(s, i, stride) && ChunkStart(s, i, stride) + k.size <= end + 1
  {
    hide RoundUp, ChunkStart;
    PowersArePositive(alignment);
    hide IsPowerOf2;
    var s, stride := TrueStart(k, start, alignment), Stride(k, alignment);
    RoundUpBounds(start + k.header, alignment);
    RoundUpBounds(k.size, alignment);
    EndOf(k, s, maxObjects, stride);
    if maxObjects > 0 {
      ChunksAscend(s, stride, 0, maxObjects - 1);
      forall i: nat | i < maxObjects ensures s <= ChunkStart(s, i, stride) <= ChunkStart(s, maxObjects - 1, stride) {
        ChunksAscend(s, stride, 0, i);
        ChunksAscend(s, stride, i, maxObjects - 1);
      }
    }
  }

  lemma EndOf(k: Chunk, start: int, maxObjects: nat, stride: nat)
    ensures TrueEnd(k, start, maxObjects, stride) == if maxObjects == 0 then start else ChunkStart(start, maxObjects - 1, stride) + k.size - 1
  {}

  lemma ChunksAscend(start: int, stride: nat, i: nat, j: nat)
    requires i <= j
    ensures ChunkStart(start, 0, stride) == start && ChunkStart(start, i, stride) <= ChunkStart(start, j, stride)
  {
    Times(stride, i, j);
  }

  /** Objects are aligned, chunks lie in the buffer, and two chunks do not overlap. */
  lemma ChunksAreGood(k: Chunk, start: nat, size: nat, maxObjects: nat, alignment: nat, i: nat, j: nat)
    requires k.Valid() && Fits(k, start, size, maxObjects, alignment) && i < j <= maxObjects
    ensures var s, stride := TrueStart(k, start, alignment), Stride(k, alignment);
            && (ChunkStart(s, i, stride) + k.header) % alignment == 0
            && start <= ChunkStart(s, i, stride)
            && ChunkStart(s, i, stride) + k.size <= start + size
            && ChunkStart(s, i, stride) + k.size <= ChunkStart(s, j, stride)
  {
    hide RoundUp, TrueEnd;
    var s, stride := TrueStart(k, start, alignment), Stride(k, alignment);
    RoundUpIsLeast(start + k.header, alignment);
    RoundUpIsLeast(k.size, alignment);
    PoolBounds(k, start, size, maxObjects, alignment);
    Times(stride, i, j);
    var base := RoundUp(start + k.header, alignment);
    AlignedSum(base, stride, i, alignment);
    assert ChunkStart(s, i, stride) + k.header == base + stride * i;
  }

  // ---------- The free list ----------

  /** Following the links from `next` visits exactly these chunks, and ends. */
  ghost predicate Chain(links: map<int, Option<int>>, next: Option<int>, free: seq<int>)
    decreases |free|
  {
    if free == [] then next.None?
    else next == Some(free[0]) && free[0] in links && Chain(links, links[free[0]], free[1..])
  }

  ghost predicate Unique(s: seq<int>) {
    forall i, j :: 0 <= i < j < |s| ==> s[i] != s[j]
  }

  /** Writing a link outside of the list leaves it as it is. */
  lemma {:induction false} ChainStays(links: map<int, Option<int>>, next: Option<int>, free: seq<int>, at: int, link: Option<int>)
    requires Chain(links, next, free) && at !in free
    ensures Chain(links[at := link], next, free)
    decreases |free|
  {
    if free != [] {
      ChainStays(links, links[free[0]], free[1..], at, link);
    }
  }

  class PoolAllocator {
    const k: Chunk
    const bufStart: int
    const maxObjects: nat
    const stride: nat
    var next: Option<int>
    /** The link field of every chunk. */
    var links: map<int, Option<int>>
    ghost var free: seq<int>
    ghost var live: set<int>

    ghost function Chunks(): set<int> {
      set i: nat | i < maxObjects :: ChunkStart(bufStart, i, stride)
    }

    /** Free and live chunks are all the chunks; the free list is acyclic. */
    ghost predicate Valid()
      reads this
    {
      && Chain(links, next, free) && Unique(free)
      && (forall x :: x in Chunks() <==> x in free || x in live)
      && (forall x :: x in free ==> x !in live)
    }

    /** The chunks in order, the last one without a successor. */
    constructor (k: Chunk, bufStart: int, maxObjects: nat, stride: nat)
      requires k.Valid() && stride >= k.size
      ensures this.k == k && this.bufStart == bufStart && this.maxObjects == maxObjects && this.stride == stride
      ensures Valid() && live == {} && |free| == maxObjects
    {
      this.k, this.bufStart, this.maxObjects, this.stride := k, bufStart, maxObjects, stride;
      next, links, free, live := None, map[], [], {};
      new;
      if maxObjects == 0 {
        return;
      }
      hide ChunkStart;
      next := Some(ChunkStart(bufStart, 0, stride));
      links := map[ChunkStart(bufStart, maxObjects - 1, stride) := None];
      var i := 0;
      while i < maxObjects - 1
        invariant 0 <= i <= maxObjects - 1
        invariant ChunkStart(bufStart, maxObjects - 1, stride) in links && links[ChunkStart(bufStart, maxObjects - 1, stride)] == None
        invariant forall j: nat :: j < i ==> Linked(links, j)
        invariant next == Some(ChunkStart(bufStart, 0, stride)) && live == {}
      {
        forall j: nat | j != i ensures ChunkStart(bufStart, j, stride) != ChunkStart(bufStart, i, stride) {
          Apart(j, i);
        }
        ghost var before := links;
        links := links[ChunkStart(bufStart, i, stride) := Some(ChunkStart(bufStart, i + 1, stride))];
        forall j: nat | j < i + 1 ensures Linked(links, j) {
          assert j < i ==> Linked(before, j) && ChunkStart(bufStart, j, stride) != ChunkStart(bufStart, i, stride);
        }
        i := i + 1;
      }
      free := From(0);
      ChainFrom(0);
      UniqueFrom();
    }

    /** Chunk j links to the next one. */
    predicate Linked(links: map<int, Option<int>>, j: nat) {
      ChunkStart(bufStart, j, stride) in links && links[ChunkStart(bufStart, j, stride)] == Some(ChunkStart(bufStart, j + 1, stride))
    }

    ghost function From(i: nat): (r: seq<int>)
      requires i <= maxObjects
      ensures |r| == maxObjects - i
      decreases maxObjects - i
    {
      if i == maxObjects then [] else [ChunkStart(bufStart, i, stride)] + From(i + 1)
    }

    lemma {:induction false} AtFrom(i: nat, j: nat)
      requires i <= j < maxObjects
      ensures From(i)[j - i] == ChunkStart(bufStart, j, stride)
      decreases maxObjects - i
    {
      if i < j {
        AtFrom(i + 1, j);
      }
    }

    lemma {:induction false} ChainFrom(i: nat)
      requires i < maxObjects
      requires ChunkStart(bufStart, maxObjects - 1, stride) in links && links[ChunkStart(bufStart, maxObjects - 1, stride)] == None
      requires forall j: nat :: j < maxObjects - 1 ==> Linked(links, j)
      ensures Chain(links, Some(ChunkStart(bufStart, i, stride)), From(i))
      decreases maxObjects - i
    {
      if i < maxObjects - 1 {
        assert Linked(links, i);
        ChainFrom(i + 1);
      } else {
        assert From(i)[1..] == [];
      }
    }

    lemma Apart(i: nat, j: nat)
      requires stride > 0 && i != j
      ensures ChunkStart(bufStart, i, stride) != ChunkStart(bufStart, j, stride)
    {
      if i < j {
        Times(stride, i, j);
      } else {
        Times(stride, j, i);
      }
    }

    lemma UniqueFrom()
      requires stride > 0
      ensures Unique(From(0)) && forall x :: x in Chunks() <==> x in From(0)
    {
      forall i, j | 0 <= i < j < maxObjects ensures From(0)[i] != From(0)[j] {
        AtFrom(0, i);
        AtFrom(0, j);
        Apart(i, j);
      }
      forall i: nat | i < maxObjects ensures From(0)[i] == ChunkStart(bufStart, i, stride) {
        AtFrom(0, i);
      }
    }

    /** The first free chunk becomes live; there is none exactly if all are live. */
    method Create() returns (obj: Option<int>)
      requires Valid()
      modifies this`next, this`free, this`live
      ensures Valid()
      ensures obj.None? <==> old(live) == Chunks()
      ensures obj.None? ==> free == old(free) && live == old(live)
      ensures obj.Some? ==> old(free) != [] && obj.value == old(free)[0] + k.header && live == old(live) + {old(free)[0]} && free == old(free)[1..]
    {
      if next.None? {
        assert free == [];
        assert forall x :: x in Chunks() <==> x in live;
        return None;
      }
      var storeAt := next.value;
      next := links[storeAt];
      live := live + {storeAt};
      assert free == [free[0]] + free[1..];
      assert storeAt in Chunks() && storeAt !in old(live);
      free := free[1..];
      obj := Some(storeAt + k.header);
    }

    /** A live object goes back to the front of the list. */
    method Destroy(obj: int)
      requires Valid() && obj - k.header in live
      modifies this`next, this`links, this`free, this`live
      ensures Valid() && free == [obj - k.header] + old(free) && live == old(live) - {obj - k.header}
    {
      var chunk := obj - k.header;
      ChainStays(links, next, free, chunk, next);
      links := links[chunk := next];
      next := Some(chunk);
      free, live := [chunk] + free, live - {chunk};
      assert free[1..] == old(free);
    }
  }

  // ---------- Pools of an arena ----------

  /** Where the next pool may start. */
  function Remaining(k: Chunk, start: nat, maxObjects: nat, alignment: nat): int
    requires alignment > 0
  {
    TrueEnd(k, TrueStart(k, start, alignment), maxObjects, Stride(k, alignment)) + 1
  }

  datatype Request = Request(k: Chunk, maxObjects: nat, alignment: nat) {
    predicate Valid() { k.Valid() && IsPowerOf2(alignment) && alignment > 0 }
  }

  function Needs(r: Request): int
    requires r.alignment > 0
  {
    AlignedSpaceRequirement(r.k, r.alignment, r.maxObjects)
  }

  predicate AllValid(requests: seq<Request>) {
    forall i :: 0 <= i < |requests| ==> requests[i].Valid()
  }

  /** What is advertised for several pools. */
  function NeedAll(requests: seq<Request>): int
    requires AllValid(requests)
  {
    if requests == [] then 0 else Needs(requests[0]) + NeedAll(requests[1..])
  }

  /** Pools are created one after the other, each where the one before it ends. */
  ghost predicate CreateAll(requests: seq<Request>, start: nat, size: nat)
    requires AllValid(requests)
    decreases |requests|
  {
    requests == [] ||
    var r := requests[0];
    var next := Remaining(r.k, start, r.maxObjects, r.alignment);
    Fits(r.k, start, size, r.maxObjects, r.alignment) && start <= next <= start + size && CreateAll(requests[1..], next, start + size - next)
  }

  /** A pool takes no more than is advertised. */
  lemma TakesAdvertised(r: Request, start: nat, size: nat)
    requires r.Valid() && Needs(r) <= size
    ensures 0 <= Needs(r) && Fits(r.k, start, size, r.maxObjects, r.alignment)
    ensures start <= Remaining(r.k, start, r.maxObjects, r.alignment) <= start + Needs(r)
  {
    hide Stride, TrueStart, TrueEnd, AlignedSpaceRequirement;
    AdvertisedSpaceSuffices(r.k, start, r.maxObjects, r.alignment);
    PoolBounds(r.k, start, Needs(r), r.maxObjects, r.alignment);
  }

  /** In a buffer of the size advertised for all of them together, all pools are created. */
  lemma {:induction false} AllAreCreated(requests: seq<Request>, start: nat, size: nat)
    requires AllValid(requests) && NeedAll(requests) <= size
    ensures CreateAll(requests, start, size)
    decreases |requests|
  {
    if requests != [] {
      hide Needs, Fits, Remaining;
      var r := requests[0];
      NeedsNoLess(requests[1..]);
      TakesAdvertised(r, start, size);
      var next := Remaining(r.k, start, r.maxObjects, r.alignment);
      AllAreCreated(requests[1..], next, start + size - next);
    }
  }

  lemma {:induction false} NeedsNoLess(requests: seq<Request>)
    requires AllValid(requests)
    ensures NeedAll(requests) >= 0
  {
    if requests != [] {
      NeedsNoLess(requests[1..]);
      TakesAdvertised(requests[0], 0, if Needs(requests[0]) < 0 then 0 else Needs(requests[0]));
    }
  }

  /** The bytes [low, high) of a pool. */
  datatype Range = Range(low: int, high: int)

  class Arena {
    const bufStart: nat
    const bufEnd: nat
    var bufNext: nat
    var bufSize: nat
    ghost var pools: seq<Range>

    /** Pools follow one another inside the buffer. */
    ghost predicate Valid()
      reads this
    {
      && bufStart <= bufNext && bufNext + bufSize == bufEnd
      && (forall i :: 0 <= i < |pools| ==> bufStart <= pools[i].low <= pools[i].high <= bufNext)
      && forall i, j :: 0 <= i < j < |pools| ==> pools[i].high <= pools[j].low
    }

    constructor (start: nat, size: nat)
      ensures Valid() && bufStart == start && bufEnd == start + size && pools == []
    {
      bufStart, bufEnd := start, start + size;
      bufNext, bufSize, pools := start, size, [];
    }

    /** `createPool`: none where the pool's constructor throws. */
    method CreatePool(k: Chunk, maxObjects: nat, alignment: nat) returns (pool: PoolAllocator?)
      requires Valid() && k.Valid()
      modifies this`bufNext, this`bufSize, this`pools
      ensures Valid()
      ensures pool != null <==> Fits(k, old(bufNext), old(bufSize), maxObjects, alignment)
      ensures pool == null ==> bufNext == old(bufNext) && bufSize == old(bufSize) && pools == old(pools)
      ensures pool != null ==>
                && fresh(pool) && pool.Valid() && pool.live == {} && pool.k == k && pool.maxObjects == maxObjects
                && pool.bufStart == TrueStart(k, old(bufNext), alignment) && pool.stride == Stride(k, alignment)
                && pools == old(pools) + [Range(old(bufNext), bufNext)]
                && bufNext == Remaining(k, old(bufNext), maxObjects, alignment)
                && (maxObjects > 0 ==> bufNext == ChunkStart(pool.bufStart, maxObjects - 1, pool.stride) + k.size)
                && forall x :: x in pool.Chunks() ==> old(bufNext) <= x && x + k.size <= bufNext
    {
      if !Fits(k, bufNext, bufSize, maxObjects, alignment) {
        return null;
      }
      EndOf(k, TrueStart(k, bufNext, alignment), maxObjects, Stride(k, alignment));
      hide Fits, TrueStart, TrueEnd, Stride, ChunkStart;
      ghost var was := bufNext;
      PoolBounds(k, bufNext, bufSize, maxObjects, alignment);
      var start, stride := TrueStart(k, bufNext, alignment), Stride(k, alignment);
      pool := new PoolAllocator(k, start, maxObjects, stride);
      var remaining := TrueEnd(k, start, maxObjects, stride) + 1;
      pools := pools + [Range(bufNext, remaining)];
      bufSize := bufNext + bufSize - remaining;
      bufNext := remaining;
    }
  }
}
