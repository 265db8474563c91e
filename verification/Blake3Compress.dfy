/** The compression routines of the hasher, over buffers: one chunk at a time in a chunk
    state, and many chunks or parents at once for the wide recursion. */
module Blake3Compress {
  import opened Blake3Bits
  import opened Blake3Tree
  import opened Blake3Wide

  // ---------- The state of one chunk ----------

  lemma {:induction false} BlocksPrefix(h: Hash, chunk: Bytes, more: Bytes, counter: nat, n: nat)
    requires n * 64 <= |chunk|
    ensures BlocksCv(h, chunk + more, counter, n) == BlocksCv(h, chunk, counter, n)
  {
    if n > 0 {
      BlocksPrefix(h, chunk, more, counter, n - 1);
      assert (chunk + more)[(n - 1) * 64..n * 64] == chunk[(n - 1) * 64..n * 64];
    }
  }

  /** `blake3_chunk_state`. The last block stays in the buffer, since it may end the chunk. */
  class ChunkState {
    const h: Hash
    var cv: CV
    var chunkCounter: nat
    const buf: array<Byte>
    var bufLen: nat
    var blocksCompressed: nat
    /** The bytes taken so far. */
    ghost var data: Bytes

    ghost predicate Valid()
      reads this, buf
    {
      Open() && (blocksCompressed > 0 ==> bufLen > 0)
    }

    /** Valid up to the last block, which may have been compressed: more input follows. */
    ghost predicate Open()
      reads this, buf
    {
      && buf.Length == 64 && bufLen <= 64
      && |data| == 64 * blocksCompressed + bufLen && |data| <= 1024
      && cv == BlocksCv(h, data, chunkCounter, blocksCompressed)
      && buf[..] == Pad(data[64 * blocksCompressed..])
    }

    constructor (h: Hash)
      ensures Valid() && fresh(buf) && this.h == h && data == [] && chunkCounter == 0
    {
      this.h := h;
      cv := h.key;
      chunkCounter := 0;
      buf := new Byte[64](_ => 0);
      bufLen := 0;
      blocksCompressed := 0;
      data := [];
    }

    method Reset(counter: nat)
      requires Valid()
      modifies this, buf
      ensures Valid() && data == [] && chunkCounter == counter
    {
      cv := h.key;
      chunkCounter := counter;
      blocksCompressed := 0;
      forall i | 0 <= i < 64 {
        buf[i] := 0;
      }
      bufLen := 0;
      data := [];
    }

    method SetCounter(counter: nat)
      requires Valid() && data == []
      modifies this`chunkCounter
      ensures Valid() && chunkCounter == counter
    {
      chunkCounter := counter;
    }

    function Len(): (r: nat)
      requires Valid()
      reads this, buf
      ensures r == |data| <= 1024
    {
      64 * blocksCompressed + bufLen
    }

    method FillBuf(input: Bytes) returns (take: nat)
      requires Open() && |data| + |input| <= 1024
      requires bufLen == 0 ==> blocksCompressed == 0 || input != []
      modifies this`bufLen, this`data, buf
      ensures Valid() && take == (if |input| < 64 - old(bufLen) then |input| else 64 - old(bufLen))
      ensures data == old(data) + input[..take] && bufLen == old(bufLen) + take
      ensures blocksCompressed == old(blocksCompressed)
    {
      hide BlocksCv, StartFlag;
      take := 64 - bufLen;
      if take > |input| {
        take := |input|;
      }
      BlocksPrefix(h, data, input[..take], chunkCounter, blocksCompressed);
      ghost var before := data[64 * blocksCompressed..];
      forall i | 0 <= i < take {
        buf[bufLen + i] := input[i];
      }
      data := data + input[..take];
      bufLen := bufLen + take;
      assert data[64 * blocksCompressed..] == before + input[..take];
      assert buf[..] == Pad(before + input[..take]);
    }

    function MaybeStartFlag(): Flags
      reads this
    {
      StartFlag(blocksCompressed)
    }

    /** The chaining value takes one more whole block. */
    lemma BlockTaken(before: CV, block: Bytes, d: Bytes, n: nat)
      requires |d| == 64 * n && |block| == 64 && before == BlocksCv(h, d, chunkCounter, n)
      ensures h.cv(before, block, 64, chunkCounter, h.flags + StartFlag(n)) == BlocksCv(h, d + block, chunkCounter, n + 1)
    {
      BlocksPrefix(h, d, block, chunkCounter, n);
      assert (d + block)[n * 64..(n + 1) * 64] == block;
    }

    /** A full buffer is compressed. */
    method CompressBuffer()
      requires Open() && bufLen == 64
      modifies this, buf
      ensures Open() && bufLen == 0 && data == old(data) && blocksCompressed == old(blocksCompressed) + 1 && chunkCounter == old(chunkCounter)
    {
      ghost var n := blocksCompressed;
      ghost var d, block := data[..64 * n], data[64 * n..];
      assert data == d + block;
      BlocksPrefix(h, d, block, chunkCounter, n);
      assert buf[..] == block;
      BlockTaken(cv, block, d, n);
      cv := h.cv(cv, buf[..], 64, chunkCounter, h.flags + MaybeStartFlag());
      blocksCompressed := blocksCompressed + 1;
      bufLen := 0;
      forall i | 0 <= i < 64 {
        buf[i] := 0;
      }
    }

    /** A whole block of the input is compressed without going through the buffer. */
    method TakeBlock(block: Bytes)
      requires Open() && bufLen == 0 && |block| == 64 && |data| + 64 <= 1024
      modifies this`cv, this`blocksCompressed, this`data
      ensures Open() && data == old(data) + block && blocksCompressed == old(blocksCompressed) + 1
    {
      BlockTaken(cv, block, data, blocksCompressed);
      cv := h.cv(cv, block, 64, chunkCounter, h.flags + MaybeStartFlag());
      blocksCompressed := blocksCompressed + 1;
      assert data[64 * old(blocksCompressed)..] == [];
      data := data + block;
      assert data[64 * blocksCompressed..] == [];
    }

    /** `chunk_state_update` */
    method Update(input: Bytes)
      requires Valid() && |data| + |input| <= 1024
      modifies this, buf
      ensures Valid() && data == old(data) + input && chunkCounter == old(chunkCounter)
    {
      hide BlocksCv, Pad, StartFlag, Open;
      var pos := 0;
      if bufLen > 0 {
        var take := FillBuf(input);
        pos := take;
        if pos < |input| {
          CompressBuffer();
        }
      }
      while |input| - pos > 64
        invariant Open() && chunkCounter == old(chunkCounter)
        invariant pos <= |input| && data == old(data) + input[..pos]
        invariant pos < |input| ==> bufLen == 0
        invariant pos == |input| && blocksCompressed > 0 ==> bufLen > 0
      {
        TakeBlock(input[pos..pos + 64]);
        assert input[..pos + 64] == input[..pos] + input[pos..pos + 64];
        pos := pos + 64;
      }
      var take := FillBuf(input[pos..]);
      assert input == input[..pos] + input[pos..];
    }

    /** `chunk_state_output` */
    method Output() returns (o: Output)
      requires Valid()
      ensures o == ChunkOutput(h, data, chunkCounter)
    {
      assert FullBlocks(|data|) == blocksCompressed;
      o := Blake3Tree.Output(cv, buf[..], bufLen, chunkCounter, h.flags + MaybeStartFlag() + {ChunkEnd});
    }
  }

  // ---------- Many inputs at once ----------

  function BlockFlags(flags: Flags, start: Flags, end: Flags, i: nat, blocks: nat): Flags {
    flags + (if i == 0 then start else {}) + (if i + 1 == blocks then end else {})
  }

  /** The chaining value after n of `blocks` blocks. */
  function Chain(h: Hash, input: Bytes, blocks: nat, counter: nat, flags: Flags, start: Flags, end: Flags, n: nat): CV
    requires n * 64 <= |input|
  {
    if n == 0 then h.key
    else h.cv(Chain(h, input, blocks, counter, flags, start, end, n - 1), input[(n - 1) * 64..n * 64], 64, counter, BlockFlags(flags, start, end, n - 1, blocks))
  }

  lemma {:induction false} ChainBlocks(h: Hash, chunk: Bytes, counter: nat, n: nat)
    requires |chunk| == 1024 && n < 16
    ensures Chain(h, chunk, 16, counter, h.flags, {ChunkStart}, {ChunkEnd}, n) == BlocksCv(h, chunk, counter, n)
  {
    if n > 0 {
      ChainBlocks(h, chunk, counter, n - 1);
      assert BlockFlags(h.flags, {ChunkStart}, {ChunkEnd}, n - 1, 16) == h.flags + StartFlag(n - 1);
    }
  }

  /** Sixteen blocks with the chunk's flags are the chunk. */
  lemma ChainChunk(h: Hash, chunk: Bytes, counter: nat)
    requires |chunk| == 1024
    ensures Chain(h, chunk, 16, counter, h.flags, {ChunkStart}, {ChunkEnd}, 16) == ChainingValue(h, ChunkOutput(h, chunk, counter))
  {
    ChainBlocks(h, chunk, counter, 15);
    assert FullBlocks(1024) == 15;
    assert chunk[15 * 64..] == chunk[15 * 64..16 * 64];
    assert Pad(chunk[15 * 64..]) == chunk[15 * 64..];
    assert BlockFlags(h.flags, {ChunkStart}, {ChunkEnd}, 15, 16) == h.flags + StartFlag(15) + {ChunkEnd};
  }

  lemma ChainParent(h: Hash, left: CV, right: CV)
    requires |left + right| == 64
    ensures Chain(h, left + right, 1, 0, h.flags + {Parent}, {}, {}, 1) == ParentCv(h, left, right)
  {
    assert (left + right)[0..64] == left + right;
    assert BlockFlags(h.flags + {Parent}, {}, {}, 0, 1) == h.flags + {Parent};
  }

  /** `hash_one_portable` */
  method HashOne(h: Hash, input: Bytes, blocks: nat, counter: nat, flags: Flags, start: Flags, end: Flags) returns (cv: CV)
    requires |input| == blocks * 64
    ensures cv == Chain(h, input, blocks, counter, flags, start, end, blocks)
  {
    cv := h.key;
    var blockFlags := flags + start;
    var left := blocks;
    while left > 0
      invariant 0 <= left <= blocks
      invariant cv == Chain(h, input, blocks, counter, flags, start, end, blocks - left)
      invariant blockFlags == flags + if left == blocks then start else {}
    {
      if left == 1 {
        blockFlags := blockFlags + end;
      }
      var i := blocks - left;
      assert blockFlags == BlockFlags(flags, start, end, i, blocks);
      cv := h.cv(cv, input[i * 64..(i + 1) * 64], 64, counter, blockFlags);
      left := left - 1;
      blockFlags := flags;
    }
  }

  /** `blake3_hash_many`: the inputs are hashed independently of each other. */
  method HashMany(h: Hash, inputs: seq<Bytes>, blocks: nat, counter: nat, increment: bool, flags: Flags, start: Flags, end: Flags, out: array<CV>, at: nat)
    requires at + |inputs| <= out.Length
    requires forall i :: 0 <= i < |inputs| ==> |inputs[i]| == blocks * 64
    modifies out
    ensures forall i :: 0 <= i < |inputs| ==>
              out[at + i] == Chain(h, inputs[i], blocks, if increment then counter + i else counter, flags, start, end, blocks)
    ensures forall j :: 0 <= j < out.Length && !(at <= j < at + |inputs|) ==> out[j] == old(out[j])
  {
    hide Chain;
    var n := 0;
    var k := counter;
    while n < |inputs|
      invariant n <= |inputs| && k == if increment then counter + n else counter
      invariant forall i :: 0 <= i < n ==>
                  out[at + i] == Chain(h, inputs[i], blocks, if increment then counter + i else counter, flags, start, end, blocks)
      invariant forall j :: 0 <= j < out.Length && !(at <= j < at + n) ==> out[j] == old(out[j])
    {
      var cv := HashOne(h, inputs[n], blocks, k, flags, start, end);
      out[at + n] := cv;
      if increment {
        k := k + 1;
      }
      n := n + 1;
    }
  }

  /** `compress_chunks_parallel` */
  method CompressChunksParallel(h: Hash, input: Bytes, counter: nat, out: array<CV>, at: nat) returns (n: nat)
    requires 0 < |input| <= 16 * 1024 && at + Chunks(|input|) <= out.Length
    modifies out
    ensures n == Chunks(|input|) && out[at..at + n] == ChunkCvs(h, input, counter)
    ensures forall j :: 0 <= j < out.Length && !(at <= j < at + n) ==> out[j] == old(out[j])
  {
    hide *;
    var chunks: seq<Bytes> := [];
    var pos := 0;
    while |input| - pos >= 1024
      invariant pos == 1024 * |chunks| && pos <= |input|
      invariant forall i :: 0 <= i < |chunks| ==> chunks[i] == input[i * 1024..(i + 1) * 1024]
    {
      chunks := chunks + [input[pos..pos + 1024]];
      pos := pos + 1024;
    }
    n := |chunks|;
    WholeChunks(|input|, n);
    HashMany(h, chunks, 16, counter, true, h.flags, {ChunkStart}, {ChunkEnd}, out, at);
    forall i: nat | i < n ensures out[at + i] == ChunkCvAt(h, input, counter, i) {
      ChainChunk(h, chunks[i], counter + i);
      ChunkAtWhole(input, i);
      ChunkCvIs(h, input, counter, i);
    }
    if |input| > pos {
      var cv := HashChunk(h, input[pos..], counter + n);
      out[at + n] := cv;
      ChunkAtLast(input, n);
      ChunkCvIs(h, input, counter, n);
      n := n + 1;
    }
    AllChunks(h, input, counter, out[at..at + n]);
  }

  function ChunkCvAt(h: Hash, input: Bytes, counter: nat, i: nat): CV
    requires i * 1024 <= |input|
  {
    ChainingValue(h, ChunkOutput(h, ChunkAt(input, i), counter + i))
  }

  lemma ChunkCvIs(h: Hash, input: Bytes, counter: nat, i: nat)
    requires i * 1024 <= |input|
    ensures ChunkCvAt(h, input, counter, i) == ChainingValue(h, ChunkOutput(h, ChunkAt(input, i), counter + i))
  {}

  lemma WholeChunks(len: nat, n: nat)
    requires len - 1024 < n * 1024 <= len
    ensures Chunks(len) == if len > n * 1024 then n + 1 else n
  {}

  lemma ChunkAtWhole(input: Bytes, i: nat)
    requires (i + 1) * 1024 <= |input|
    ensures ChunkAt(input, i) == input[i * 1024..(i + 1) * 1024]
  {}

  lemma ChunkAtLast(input: Bytes, i: nat)
    requires i * 1024 <= |input| < (i + 1) * 1024
    ensures ChunkAt(input, i) == input[i * 1024..]
  {}

  lemma AllChunks(h: Hash, input: Bytes, counter: nat, cvs: seq<CV>)
    requires |cvs| == Chunks(|input|)
    requires forall i: nat :: i < |cvs| && i * 1024 <= |input| ==> cvs[i] == ChunkCvAt(h, input, counter, i)
    ensures cvs == ChunkCvs(h, input, counter)
  {
    hide ChunkOutput, ChainingValue, ChunkAt;
    forall i: nat | i < |cvs| ensures cvs[i] == ChunkCvs(h, input, counter)[i] {
      assert cvs[i] == ChunkCvAt(h, input, counter, i);
    }
  }

  /** The chaining value of one chunk, through a chunk state of its own. */
  method HashChunk(h: Hash, input: Bytes, counter: nat) returns (cv: CV)
    requires |input| <= 1024
    ensures cv == ChainingValue(h, ChunkOutput(h, input, counter))
  {
    hide *;
    var state := new ChunkState(h);
    state.SetCounter(counter);
    state.Update(input);
    assert [] + input == input;
    var o := state.Output();
    cv := Chaining(h, o);
  }

  method Chaining(h: Hash, o: Output) returns (cv: CV)
    ensures cv == ChainingValue(h, o)
  {
    cv := h.cv(o.inputCv, o.block, o.blockLen, o.counter, o.flags);
  }

  predicate AreCvs(cvs: seq<CV>) {
    forall i :: 0 <= i < |cvs| ==> |cvs[i]| == 32
  }

  lemma {:induction false} WideAreCvs(h: Hash, data: Bytes, counter: nat, degree: nat)
    requires h.Valid() && 0 < degree && IsPow2(degree) && |data| > 0
    ensures AreCvs(Wide(h, data, counter, degree))
    decreases |data|
  {
    hide *;
    if |data| > degree * 1024 {
      assert |data| > 1024;
      var n := LeftChunks(|data|);
      WideAreCvs(h, data[..n * 1024], counter, degree);
      WideAreCvs(h, data[n * 1024..], counter + n, degree);
      WideStep(h, data, counter, degree, n);
      BothAreCvs(Wide(h, data[..n * 1024], counter, degree), Wide(h, data[n * 1024..], counter + n, degree));
      PairAreCvs(h, Wide(h, data[..n * 1024], counter, degree) + Wide(h, data[n * 1024..], counter + n, degree));
    } else {
      WideChunks(h, data, counter, degree);
      ChunksAreCvs(h, data, counter);
    }
  }

  lemma ChunksAreCvs(h: Hash, data: Bytes, counter: nat)
    requires h.Valid()
    ensures AreCvs(ChunkCvs(h, data, counter))
  {
    hide ChunkOutput, Chunks;
  }

  lemma BothAreCvs(left: seq<CV>, right: seq<CV>)
    requires AreCvs(left) && AreCvs(right)
    ensures AreCvs(left + right)
  {}

  lemma PairAreCvs(h: Hash, cvs: seq<CV>)
    requires h.Valid() && AreCvs(cvs)
    ensures AreCvs(Pair(h, cvs))
  {
    forall i: nat | i < |Pair(h, cvs)| ensures |Pair(h, cvs)[i]| == 32 {
      PairAt(h, cvs, i);
    }
  }

  /** `compress_parents_parallel` */
  method CompressParentsParallel(h: Hash, children: array<CV>, num: nat, out: array<CV>, at: nat) returns (n: nat)
    requires 2 <= num <= 32 && num <= children.Length && at + (num + 1) / 2 <= out.Length && children != out
    requires AreCvs(children[..num])
    modifies out
    ensures n == (num + 1) / 2 && out[at..at + n] == Pair(h, children[..num])
    ensures forall j :: 0 <= j < out.Length && !(at <= j < at + n) ==> out[j] == old(out[j])
  {
    hide *;
    ghost var cvs := children[..num];
    var parents: seq<Bytes> := [];
    while num - 2 * |parents| >= 2
      invariant 2 * |parents| <= num && out[..] == old(out[..])
      invariant forall i :: 0 <= i < |parents| ==> parents[i] == cvs[2 * i] + cvs[2 * i + 1] && |parents[i]| == 64
    {
      CvsAt(cvs, 2 * |parents|);
      CvsAt(cvs, 2 * |parents| + 1);
      parents := parents + [children[2 * |parents|] + children[2 * |parents| + 1]];
    }
    n := |parents|;
    HashMany(h, parents, 1, 0, false, h.flags + {Parent}, {}, {}, out, at);
    forall i: nat | i < n ensures out[at + i] == Pair(h, cvs)[i] {
      PairAt(h, cvs, i);
      ChainParent(h, cvs[2 * i], cvs[2 * i + 1]);
    }
    if num > 2 * |parents| {
      out[at + n] := children[2 * n];
      PairAt(h, cvs, n);
      n := n + 1;
    }
    assert out[at..at + n] == Pair(h, cvs);
  }

  lemma CvsAt(cvs: seq<CV>, i: nat)
    requires AreCvs(cvs) && i < |cvs|
    ensures |cvs[i]| == 32
  {}

  /** `blake3_compress_subtree_wide` */
  method CompressSubtreeWide(h: Hash, input: Bytes, counter: nat, degree: nat, out: array<CV>, at: nat) returns (n: nat)
    requires h.Valid() && input != [] && 0 < degree <= 16 && IsPow2(degree) && at + AtLeastTwo(degree) <= out.Length
    modifies out
    ensures n == |Wide(h, input, counter, degree)| <= AtLeastTwo(degree) && out[at..at + n] == Wide(h, input, counter, degree)
    ensures forall j :: 0 <= j < out.Length && !(at <= j < at + n) ==> out[j] == old(out[j])
    decreases |input|
  {
    hide *;
    WideSize(h, input, counter, degree);
    if |input| <= degree * 1024 {
      SizeSmall(|input|, degree);
      WideChunks(h, input, counter, degree);
      n := CompressChunksParallel(h, input, counter, out, at);
    } else {
      ghost var c := LeftChunks(|input|);
      var l := LeftLen(|input|);
      var left, right := input[..l], input[l..];
      LeftOffset(h, input, counter, degree);
      LeftFits(h, input, counter, degree, c);
      var offset := if l > 1024 && degree == 1 then 2 else degree;
      OffsetIs(l, degree);
      var cvArray := new CV[32];
      var leftN := CompressSubtreeWide(h, left, counter, degree, cvArray, 0);
      ghost var leftCvs := cvArray[..leftN];
      var rightN := CompressSubtreeWide(h, right, counter + l / 1024, degree, cvArray, offset);
      assert cvArray[..leftN] == leftCvs;
      assert cvArray[..leftN + rightN] == leftCvs + cvArray[leftN..leftN + rightN];
      WideStep(h, input, counter, degree, c);
      ChildrenAreCvs(h, left, right, counter, counter + l / 1024, degree);
      n := MergeHalves(h, cvArray, leftN, rightN, out, at);
    }
  }

  /** The end of the wide recursion: two single values stay as they are, more are paired. */
  method MergeHalves(h: Hash, cvArray: array<CV>, leftN: nat, rightN: nat, out: array<CV>, at: nat) returns (n: nat)
    requires 0 < rightN <= leftN <= 16 && cvArray.Length == 32 && cvArray != out && AreCvs(cvArray[..leftN + rightN])
    requires at + 2 <= out.Length && at + (leftN + rightN + 1) / 2 <= out.Length
    modifies out
    ensures n == (if leftN == 1 then 2 else (leftN + rightN + 1) / 2)
    ensures out[at..at + n] == if leftN == 1 then cvArray[..2] else Pair(h, cvArray[..leftN + rightN])
    ensures forall j :: 0 <= j < out.Length && !(at <= j < at + n) ==> out[j] == old(out[j])
  {
    hide *;
    if leftN == 1 {
      out[at] := cvArray[0];
      out[at + 1] := cvArray[1];
      n := 2;
    } else {
      n := CompressParentsParallel(h, cvArray, leftN + rightN, out, at);
    }
  }

  lemma ChildrenAreCvs(h: Hash, left: Bytes, right: Bytes, counter: nat, next: nat, degree: nat)
    requires h.Valid() && degree > 0 && IsPow2(degree) && left != [] && right != []
    ensures AreCvs(Wide(h, left, counter, degree) + Wide(h, right, next, degree))
  {
    hide Wide;
    WideAreCvs(h, left, counter, degree);
    WideAreCvs(h, right, next, degree);
  }

  lemma OffsetIs(l: nat, degree: nat)
    requires 0 < degree <= 16
    ensures RightOffset(l, degree) == (if l > 1024 && degree == 1 then 2 else degree)
    ensures AtLeastTwo(degree) == (if degree < 2 then 2 else degree)
  {}
}
