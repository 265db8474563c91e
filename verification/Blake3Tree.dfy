/** The BLAKE3 tree (sections 2.1, 2.4 and 2.5 of the BLAKE3 specification): chunks of
    1024 bytes, blocks of 64 bytes, and a left subtree that is the largest power of two
    of chunks leaving at least one byte to the right. The compression function is a parameter. */
module Blake3Tree {
  import opened Blake3Bits

  type Byte = bv8
  type Bytes = seq<Byte>
  /** A chaining value, as bytes. */
  type CV = Bytes


  datatype Flag = ChunkStart | ChunkEnd | Parent | Root | KeyedHash | DeriveKeyContext | DeriveKeyMaterial
  type Flags = set<Flag>

  /** The primitives, and the key and flags of one hasher. `cv` is compress_in_place, `xof` is
      compress_xof: chaining value, block, block length, counter, flags. */
  datatype Hash = Hash(cv: (CV, Bytes, nat, nat, Flags) -> CV, xof: (CV, Bytes, nat, nat, Flags) -> Bytes, key: CV, flags: Flags) {
    ghost predicate Valid() {
      && |key| == 32
      && (forall c, b, n, k, f :: |cv(c, b, n, k, f)| == 32)
      && forall c, b, n, k, f :: |xof(c, b, n, k, f)| == 64
    }
  }

  /** `output_t` */
  datatype Output = Output(inputCv: CV, block: Bytes, blockLen: nat, counter: nat, flags: Flags)

  function ChainingValue(h: Hash, o: Output): CV {
    h.cv(o.inputCv, o.block, o.blockLen, o.counter, o.flags)
  }

  function Zeros(n: nat): (r: Bytes)
    ensures |r| == n && forall i :: 0 <= i < n ==> r[i] == 0
  {
    seq(n, _ => 0)
  }

  function Pad(b: Bytes): (r: Bytes)
    requires |b| <= 64
    ensures |r| == 64
  {
    b + Zeros(64 - |b|)
  }

  function StartFlag(block: nat): Flags {
    if block == 0 then {ChunkStart} else {}
  }

  /** The chaining value after the first n blocks of a chunk, none of them its last. */
  function BlocksCv(h: Hash, chunk: Bytes, counter: nat, n: nat): CV
    requires n * 64 <= |chunk|
  {
    if n == 0 then h.key
    else h.cv(BlocksCv(h, chunk, counter, n - 1), chunk[(n - 1) * 64..n * 64], 64, counter, h.flags + StartFlag(n - 1))
  }

  /** The number of blocks before the last one; an empty chunk is one empty block. */
  function FullBlocks(len: nat): (n: nat)
    ensures n * 64 <= len <= n * 64 + 64
    ensures len > 0 ==> n * 64 < len
  {
    if len == 0 then 0 else (len - 1) / 64
  }

  function ChunkOutput(h: Hash, chunk: Bytes, counter: nat): Output {
    var n := FullBlocks(|chunk|);
    Output(BlocksCv(h, chunk, counter, n), Pad(chunk[n * 64..]), |chunk| - n * 64, counter, h.flags + StartFlag(n) + {ChunkEnd})
  }

  function ParentOutput(h: Hash, left: CV, right: CV): Output {
    Output(h.key, left + right, 64, 0, h.flags + {Parent})
  }

  function ParentCv(h: Hash, left: CV, right: CV): CV {
    ChainingValue(h, ParentOutput(h, left, right))
  }

  /** `left_len` */
  function LeftLen(len: nat): (r: nat)
    requires len > 1024
    ensures r % 1024 == 0 && IsPow2(r / 1024)
    ensures 1024 <= r < len <= 2 * r
  {
    RoundDown((len - 1) / 1024) * 1024
  }

  lemma LeftLenOnly(len: nat, chunks: nat)
    requires IsPow2(chunks) && chunks * 1024 < len <= 2 * chunks * 1024
    ensures len > 1024 && LeftLen(len) == chunks * 1024
  {
    RoundDownOnly((len - 1) / 1024, chunks);
  }

  /** The root of the tree over `data`, whose first chunk has the given counter. */
  function Tree(h: Hash, data: Bytes, counter: nat): Output
    decreases |data|
  {
    if |data| <= 1024 then ChunkOutput(h, data, counter)
    else
      var l := LeftLen(|data|);
      ParentOutput(h, ChainingValue(h, Tree(h, data[..l], counter)), ChainingValue(h, Tree(h, data[l..], counter + l / 1024)))
  }

  lemma TreeSplit(h: Hash, data: Bytes, counter: nat)
    requires |data| > 1024
    ensures var l := LeftLen(|data|);
            Tree(h, data, counter) == ParentOutput(h, TreeCv(h, data[..l], counter), TreeCv(h, data[l..], counter + l / 1024))
  {}

  function TreeCv(h: Hash, data: Bytes, counter: nat): CV {
    ChainingValue(h, Tree(h, data, counter))
  }

  /** Byte i of the extended output of a root (section 2.6). */
  function RootByte(h: Hash, o: Output, i: nat): Byte
    requires h.Valid()
  {
    h.xof(o.inputCv, o.block, o.blockLen, i / 64, o.flags + {Root})[i % 64]
  }

  function RootBytes(h: Hash, o: Output, from: nat, n: nat): (r: Bytes)
    requires h.Valid()
    ensures |r| == n && forall i :: 0 <= i < n ==> r[i] == RootByte(h, o, from + i)
  {
    seq(n, i requires 0 <= i < n => RootByte(h, o, from + i))
  }

  /** The hash of a byte string. */
  function Digest(h: Hash, data: Bytes): Bytes
    requires h.Valid()
  {
    RootBytes(h, Tree(h, data, 0), 0, 32)
  }

  // ---------- Subtrees and the stack they leave ----------

  /** Chunks [start, start + count) of `data`. */
  function Slice(data: Bytes, start: nat, count: nat): (r: Bytes)
    requires (start + count) * 1024 <= |data|
    ensures |r| == count * 1024
  {
    data[start * 1024..(start + count) * 1024]
  }

  function Sub(h: Hash, data: Bytes, start: nat, count: nat): CV
    requires (start + count) * 1024 <= |data|
  {
    TreeCv(h, Slice(data, start, count), start)
  }

  lemma SliceSplit(data: Bytes, start: nat, half: nat)
    requires (start + 2 * half) * 1024 <= |data|
    ensures Slice(data, start, 2 * half)[..half * 1024] == Slice(data, start, half)
    ensures Slice(data, start, 2 * half)[half * 1024..] == Slice(data, start + half, half)
  {}

  lemma SubSplit(h: Hash, data: Bytes, start: nat, half: nat)
    requires IsPow2(half) && (start + 2 * half) * 1024 <= |data|
    ensures Sub(h, data, start, 2 * half) == ParentCv(h, Sub(h, data, start, half), Sub(h, data, start + half, half))
    ensures Tree(h, Slice(data, start, 2 * half), start) == ParentOutput(h, Sub(h, data, start, half), Sub(h, data, start + half, half))
  {
    var d := Slice(data, start, 2 * half);
    LeftLenOnly(|d|, half);
    TreeSplit(h, d, start);
    SliceSplit(data, start, half);
    hide Tree, LeftLen, IsPow2, Slice;
  }

  /** One chaining value per bit of n: the largest complete subtrees of the first n chunks. */
  function Merged(h: Hash, data: Bytes, n: nat): (r: seq<CV>)
    requires n * 1024 <= |data|
    ensures |r| == PopCount(n)
  {
    if n == 0 then []
    else
      var l := LowBit(n);
      Merged(h, data, n - l) + [Sub(h, data, n - l, l)]
  }

  /** As `Merged`, but the last subtree, of s chunks, is not merged yet. */
  ghost predicate Lazy(h: Hash, data: Bytes, n: nat, s: nat, stack: seq<CV>)
  {
    && 0 < s <= n && n * 1024 <= |data|
    && IsPow2(s) && AtLeast(n - s, s)
    && stack == Merged(h, data, n - s) + [Sub(h, data, n - s, s)]
  }

  lemma MergedStep(h: Hash, data: Bytes, n: nat)
    requires n > 0 && n * 1024 <= |data|
    ensures Merged(h, data, n) == Merged(h, data, n - LowBit(n)) + [Sub(h, data, n - LowBit(n), LowBit(n))]
  {
    hide Sub, LowBit, PopCount;
  }

  lemma MakeLazy(h: Hash, data: Bytes, n: nat, s: nat, stack: seq<CV>)
    requires 0 < s <= n && n * 1024 <= |data| && IsPow2(s) && AtLeast(n - s, s)
    requires stack == Merged(h, data, n - s) + [Sub(h, data, n - s, s)]
    ensures Lazy(h, data, n, s, stack)
  {
    hide Sub, Merged, LowBit, PopCount, IsPow2, AtLeast;
  }

  lemma LazyFacts(h: Hash, data: Bytes, n: nat, s: nat, stack: seq<CV>)
    requires Lazy(h, data, n, s, stack)
    ensures 0 < s <= n && n * 1024 <= |data| && IsPow2(s) && AtLeast(n - s, s)
    ensures stack == Merged(h, data, n - s) + [Sub(h, data, n - s, s)]
    ensures |stack| == PopCount(n - s) + 1
  {
    hide Sub, Merged, LowBit, PopCount, IsPow2, AtLeast;
  }

  lemma MergeRoom(h: Hash, data: Bytes, n: nat, s: nat, stack: seq<CV>)
    requires Lazy(h, data, n, s, stack) && |stack| > PopCount(n)
    ensures |stack| >= 2 && 2 * s <= n && LowBit(n - s) == s && n - s > 0
  {
    hide *;
    LazyFacts(h, data, n, s, stack);
    MergeDue(n, s);
    MergedStep(h, data, n - s);
  }

  /** One merge: the two topmost subtrees are of the same size. */
  lemma MergeTop(h: Hash, data: Bytes, n: nat, s: nat, stack: seq<CV>)
    requires Lazy(h, data, n, s, stack) && |stack| > PopCount(n) && |stack| >= 2
    ensures Lazy(h, data, n, 2 * s, stack[..|stack| - 2] + [ParentCv(h, stack[|stack| - 2], stack[|stack| - 1])])
  {
    hide *;
    LazyFacts(h, data, n, s, stack);
    MergeRoom(h, data, n, s, stack);
    var a, b := n - s, n - 2 * s;
    ClearLow(a);
    PowDouble(s);
    SubSplit(h, data, b, s);
    MergedStep(h, data, a);
    assert stack == Merged(h, data, b) + [Sub(h, data, b, s)] + [Sub(h, data, a, s)];
    assert stack[..|stack| - 2] == Merged(h, data, b);
    MakeLazy(h, data, n, 2 * s, stack[..|stack| - 2] + [ParentCv(h, stack[|stack| - 2], stack[|stack| - 1])]);
  }

  /** With one value more than bits, the two smallest subtrees are equally large. */
  lemma MergeDue(n: nat, s: nat)
    requires 0 < s <= n && IsPow2(s) && AtLeast(n - s, s) && PopCount(n - s) + 1 > PopCount(n)
    ensures n - s > 0 && LowBit(n - s) == s
  {
    if Above(n - s, s) {
      PopPush(n - s, s);
    }
  }

  lemma NoMergeDue(n: nat, s: nat)
    requires 0 < s <= n && IsPow2(s) && AtLeast(n - s, s) && PopCount(n - s) + 1 == PopCount(n)
    ensures LowBit(n) == s
  {
    if Above(n - s, s) {
      PopPush(n - s, s);
    } else {
      ClearLow(n - s);
      PowDouble(s);
      CarryBound(n - 2 * s, 2 * s);
    }
  }

  lemma MergeBound(h: Hash, data: Bytes, n: nat, s: nat, stack: seq<CV>)
    requires Lazy(h, data, n, s, stack)
    ensures |stack| >= PopCount(n)
  {
    hide *;
    LazyFacts(h, data, n, s, stack);
    CarryBound(n - s, s);
  }

  /** No more merge is due when the stack holds one value per bit. */
  lemma MergeDone(h: Hash, data: Bytes, n: nat, s: nat, stack: seq<CV>)
    requires Lazy(h, data, n, s, stack) && |stack| == PopCount(n)
    ensures stack == Merged(h, data, n) && s == LowBit(n)
  {
    hide *;
    LazyFacts(h, data, n, s, stack);
    NoMergeDue(n, s);
    MergedStep(h, data, n);
  }

  // ---------- More data after the chunks of the stack ----------

  lemma SubPrefix(h: Hash, data: Bytes, more: Bytes, start: nat, count: nat)
    requires (start + count) * 1024 <= |data|
    ensures Sub(h, data + more, start, count) == Sub(h, data, start, count)
  {
    assert (data + more)[start * 1024..(start + count) * 1024] == data[start * 1024..(start + count) * 1024];
  }

  lemma {:induction false} MergedPrefix(h: Hash, data: Bytes, more: Bytes, n: nat)
    requires n * 1024 <= |data|
    ensures Merged(h, data + more, n) == Merged(h, data, n)
  {
    hide Sub, LowBit, PopCount;
    if n > 0 {
      var l := LowBit(n);
      MergedPrefix(h, data, more, n - l);
      SubPrefix(h, data, more, n - l, l);
    }
  }

  lemma LazyPrefix(h: Hash, data: Bytes, more: Bytes, n: nat, s: nat, stack: seq<CV>)
    requires Lazy(h, data, n, s, stack)
    ensures Lazy(h, data + more, n, s, stack)
  {
    hide Sub, Merged, LowBit, IsPow2;
    MergedPrefix(h, data, more, n - s);
    SubPrefix(h, data, more, n - s, s);
  }

  /** The tree over all data from chunk n on. */
  function Tail(h: Hash, data: Bytes, n: nat): Output
    requires n * 1024 <= |data|
  {
    Tree(h, data[n * 1024..], n)
  }

  /** One step of the roll-up: the topmost subtree is the left child of the tree that
      begins with it, if what follows is not longer than it. */
  lemma RollUp(h: Hash, data: Bytes, a: nat, l: nat)
    requires IsPow2(l) && (a + l) * 1024 < |data| <= (a + 2 * l) * 1024
    ensures Tail(h, data, a) == ParentOutput(h, Sub(h, data, a, l), ChainingValue(h, Tail(h, data, a + l)))
  {
    hide Tree, LeftLen, IsPow2, Slice, ParentOutput;
    var d := data[a * 1024..];
    var m := l * 1024;
    LeftLenOnly(|d|, l);
    TreeSplit(h, d, a);
    TailSplit(data, a, l);
    assert LeftLen(|d|) == m && m / 1024 == l;
    assert d[..m] == Slice(data, a, l) && d[m..] == data[(a + l) * 1024..];
  }

  lemma TailSplit(data: Bytes, a: nat, l: nat)
    requires (a + l) * 1024 <= |data|
    ensures data[a * 1024..][..l * 1024] == Slice(data, a, l)
    ensures data[a * 1024..][l * 1024..] == data[(a + l) * 1024..]
  {}

  /** And the next subtree on the stack is then at least as long as what follows it. */
  lemma RollUpRoom(n: nat, len: nat)
    requires n > 0 && n * 1024 < len <= (n + LowBit(n)) * 1024
    ensures n - LowBit(n) > 0 ==> (n - LowBit(n)) * 1024 < len <= (n - LowBit(n) + LowBit(n - LowBit(n))) * 1024
  {
    ClearLow(n);
    hide LowBit;
  }
}
