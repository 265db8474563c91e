/** What the digest is in terms of the compression function alone: for one block, for the blocks of
    one chunk, for two and three chunks, and for the two parts of any longer input. */
module Blake3Digest {
  import opened Blake3Bits
  import opened Blake3Tree

  /** A block of up to 64 bytes, with zeros behind. */
  function Padded(b: Bytes): (r: Bytes)
    requires |b| <= 64
    ensures |r| == 64 && r[..|b|] == b && forall i :: |b| <= i < 64 ==> r[i] == 0
  {
    b + seq(64 - |b|, _ => 0)
  }

  /** At most one block: it starts and ends the chunk and is the root; the length is that of the input. */
  lemma DigestOfBlock(h: Hash, b: Bytes)
    requires h.Valid() && |b| <= 64
    ensures Digest(h, b) == h.xof(h.key, Padded(b), |b|, 0, h.flags + {ChunkStart, ChunkEnd, Root})[..32]
  {
    assert b[0..] == b && FullBlocks(|b|) == 0;
    assert Pad(b) == Padded(b);
    assert h.flags + {ChunkStart} + {ChunkEnd} + {Root} == h.flags + {ChunkStart, ChunkEnd, Root};
  }

  /** The chaining values before each block of a chunk: the key, then block after block, the first one
      flagged as the start. */
  ghost predicate IsChain(h: Hash, chunk: Bytes, counter: nat, cvs: seq<CV>) {
    && |cvs| > 0 && (|cvs| - 1) * 64 <= |chunk| && cvs[0] == h.key
    && forall j: nat :: j + 1 < |cvs| ==>
         cvs[j + 1] == h.cv(cvs[j], chunk[j * 64..j * 64 + 64], 64, counter, if j == 0 then h.flags + {ChunkStart} else h.flags)
  }

  lemma {:induction false} ChainEnds(h: Hash, chunk: Bytes, counter: nat, cvs: seq<CV>)
    requires IsChain(h, chunk, counter, cvs)
    ensures BlocksCv(h, chunk, counter, |cvs| - 1) == cvs[|cvs| - 1]
    decreases |cvs|
  {
    if |cvs| > 1 {
      var n := |cvs| - 2;
      ChainEnds(h, chunk, counter, cvs[..n + 1]);
      assert cvs[n + 1] == h.cv(cvs[n], chunk[n * 64..n * 64 + 64], 64, counter, if n == 0 then h.flags + {ChunkStart} else h.flags);
      assert h.flags + {} == h.flags;
    }
  }

  /** The last block of a chunk ends it: its node, for n full blocks before it. */
  lemma ChunkEnds(h: Hash, chunk: Bytes, counter: nat, cvs: seq<CV>)
    requires IsChain(h, chunk, counter, cvs)
    requires var n := |cvs| - 1; |chunk| <= n * 64 + 64 && (n > 0 ==> n * 64 < |chunk|)
    ensures var n := |cvs| - 1;
            ChunkOutput(h, chunk, counter) ==
              Output(cvs[n], Padded(chunk[n * 64..]), |chunk| - n * 64, counter,
                     if n == 0 then h.flags + {ChunkStart, ChunkEnd} else h.flags + {ChunkEnd})
  {
    var n := |cvs| - 1;
    ChainEnds(h, chunk, counter, cvs);
    assert FullBlocks(|chunk|) == n;
    assert Pad(chunk[n * 64..]) == Padded(chunk[n * 64..]);
    assert h.flags + {ChunkStart} + {ChunkEnd} == h.flags + {ChunkStart, ChunkEnd};
    assert h.flags + {} + {ChunkEnd} == h.flags + {ChunkEnd};
  }

  /** Byte 64 j + r of the output of one chunk is byte r of the root block under block counter j. */
  lemma OutputOfChunk(h: Hash, b: Bytes, cvs: seq<CV>, from: nat, length: nat, j: nat, r: nat)
    requires h.Valid() && |b| <= 1024 && IsChain(h, b, 0, cvs) && r < 64 && from <= j * 64 + r < from + length
    requires var n := |cvs| - 1; |b| <= n * 64 + 64 && (n > 0 ==> n * 64 < |b|)
    ensures var n := |cvs| - 1;
            RootBytes(h, Tree(h, b, 0), from, length)[j * 64 + r - from] ==
              h.xof(cvs[n], Padded(b[n * 64..]), |b| - n * 64, j,
                    if n == 0 then h.flags + {ChunkStart, ChunkEnd, Root} else h.flags + {ChunkEnd, Root})[r]
  {
    ChunkEnds(h, b, 0, cvs);
    BlockOf(j, r);
    assert h.flags + {ChunkStart, ChunkEnd} + {Root} == h.flags + {ChunkStart, ChunkEnd, Root};
    assert h.flags + {ChunkEnd} + {Root} == h.flags + {ChunkEnd, Root};
    hide ChunkOutput, IsChain;
  }

  lemma BlockOf(j: nat, r: nat)
    requires r < 64
    ensures (j * 64 + r) / 64 == j && (j * 64 + r) % 64 == r
  {}

  // ---------- More than one chunk ----------

  /** This is the chaining value of the i-th chunk, under its own counter. */
  ghost predicate IsChunkCv(h: Hash, b: Bytes, i: nat, cv: CV) {
    && i * 1024 < |b|
    && var chunk := if |b| < i * 1024 + 1024 then b[i * 1024..] else b[i * 1024..i * 1024 + 1024];
       exists cvs :: EndsChunk(h, chunk, i, cvs, cv)
  }

  ghost predicate EndsChunk(h: Hash, chunk: Bytes, counter: nat, cvs: seq<CV>, cv: CV) {
    && IsChain(h, chunk, counter, cvs)
    && var n := |cvs| - 1;
       && n * 64 < |chunk| <= n * 64 + 64
       && cv == h.cv(cvs[n], Padded(chunk[n * 64..]), |chunk| - n * 64, counter,
                     if n == 0 then h.flags + {ChunkStart, ChunkEnd} else h.flags + {ChunkEnd})
  }

  lemma ChunkCvOf(h: Hash, chunk: Bytes, counter: nat, cvs: seq<CV>, cv: CV)
    requires |chunk| <= 1024 && EndsChunk(h, chunk, counter, cvs, cv)
    ensures TreeCv(h, chunk, counter) == cv
  {
    ChunkEnds(h, chunk, counter, cvs);
    hide ChunkOutput, IsChain;
  }

  /** The chaining value of two children, and the digest over two. */
  function Join(h: Hash, left: CV, right: CV): CV {
    h.cv(h.key, left + right, 64, 0, h.flags + {Parent})
  }

  function Top(h: Hash, left: CV, right: CV): Bytes
    requires h.Valid()
  {
    h.xof(h.key, left + right, 64, 0, h.flags + {Parent, Root})[..32]
  }

  lemma FirstBytes(h: Hash, o: Output)
    requires h.Valid()
    ensures RootBytes(h, o, 0, 32) == h.xof(o.inputCv, o.block, o.blockLen, 0, o.flags + {Root})[..32]
  {
    forall i | 0 <= i < 32 ensures RootBytes(h, o, 0, 32)[i] == h.xof(o.inputCv, o.block, o.blockLen, 0, o.flags + {Root})[i] {
      assert RootBytes(h, o, 0, 32)[i] == RootByte(h, o, 0 + i);
      BlockOf(0, i);
    }
  }

  lemma DigestOfParent(h: Hash, b: Bytes, left: CV, right: CV)
    requires h.Valid() && Tree(h, b, 0) == ParentOutput(h, left, right)
    ensures Digest(h, b) == Top(h, left, right)
  {
    hide Tree, RootBytes;
    FirstBytes(h, ParentOutput(h, left, right));
    assert h.flags + {Parent} + {Root} == h.flags + {Parent, Root};
  }

  /** More than one chunk: the left subtree has the largest power of two of chunks that leaves one to
      the right, and the parent joins the two. */
  lemma TreeOfParts(h: Hash, b: Bytes, counter: nat, chunks: nat)
    requires h.Valid() && IsPow2(chunks) && chunks * 1024 < |b| <= 2 * chunks * 1024
    ensures var left, right := TreeCv(h, b[..chunks * 1024], counter), TreeCv(h, b[chunks * 1024..], counter + chunks);
            TreeCv(h, b, counter) == Join(h, left, right) && (counter == 0 ==> Digest(h, b) == Top(h, left, right))
  {
    hide Tree, LeftLen, IsPow2, Digest, TreeCv;
    LeftLenOnly(|b|, chunks);
    TreeSplit(h, b, counter);
    Quotient(chunks);
    JoinIs(h, b, counter, TreeCv(h, b[..chunks * 1024], counter), TreeCv(h, b[chunks * 1024..], counter + chunks));
  }

  /** Byte 64 j + r of the output of more than one chunk: the children again, under block counter j. */
  lemma OutputOfParts(h: Hash, b: Bytes, chunks: nat, from: nat, length: nat, j: nat, r: nat)
    requires h.Valid() && IsPow2(chunks) && chunks * 1024 < |b| <= 2 * chunks * 1024
    requires r < 64 && from <= j * 64 + r < from + length
    ensures var left, right := TreeCv(h, b[..chunks * 1024], 0), TreeCv(h, b[chunks * 1024..], chunks);
            RootBytes(h, Tree(h, b, 0), from, length)[j * 64 + r - from] == h.xof(h.key, left + right, 64, j, h.flags + {Parent, Root})[r]
  {
    hide Tree, LeftLen, IsPow2, TreeCv;
    LeftLenOnly(|b|, chunks);
    TreeSplit(h, b, 0);
    Quotient(chunks);
    BlockOf(j, r);
    assert h.flags + {Parent} + {Root} == h.flags + {Parent, Root};
  }

  lemma Quotient(chunks: nat)
    ensures chunks * 1024 / 1024 == chunks
  {}

  lemma JoinIs(h: Hash, b: Bytes, counter: nat, left: CV, right: CV)
    requires h.Valid() && Tree(h, b, counter) == ParentOutput(h, left, right)
    ensures TreeCv(h, b, counter) == Join(h, left, right) && (counter == 0 ==> Digest(h, b) == Top(h, left, right))
  {
    hide Tree, Digest;
    if counter == 0 {
      DigestOfParent(h, b, left, right);
    }
  }

  lemma ChunkAt(h: Hash, b: Bytes, i: nat, cv: CV)
    requires IsChunkCv(h, b, i, cv)
    ensures TreeCv(h, if |b| < i * 1024 + 1024 then b[i * 1024..] else b[i * 1024..i * 1024 + 1024], i) == cv
  {
    var chunk := if |b| < i * 1024 + 1024 then b[i * 1024..] else b[i * 1024..i * 1024 + 1024];
    hide TreeCv, EndsChunk;
    var cvs :| EndsChunk(h, chunk, i, cvs, cv);
    ChunkCvOf(h, chunk, i, cvs, cv);
  }

  lemma DigestOfTwoChunks(h: Hash, b: Bytes, c0: CV, c1: CV)
    requires h.Valid() && 1024 < |b| <= 2048 && IsChunkCv(h, b, 0, c0) && IsChunkCv(h, b, 1, c1)
    ensures Digest(h, b) == Top(h, c0, c1)
  {
    hide TreeCv, Tree, Digest;
    ChunkAt(h, b, 0, c0);
    ChunkAt(h, b, 1, c1);
    hide IsChunkCv;
    assert b[..1024] == b[0..1024] && (|b| == 2048 ==> b[1024..2048] == b[1024..]);
    assert IsPow2(1);
    TreeOfParts(h, b, 0, 1);
  }

  /** The left subtree is full. */
  lemma DigestOfThreeChunks(h: Hash, b: Bytes, c0: CV, c1: CV, c2: CV)
    requires h.Valid() && 2048 < |b| <= 3072 && IsChunkCv(h, b, 0, c0) && IsChunkCv(h, b, 1, c1) && IsChunkCv(h, b, 2, c2)
    ensures Digest(h, b) == Top(h, Join(h, c0, c1), c2)
  {
    hide TreeCv, Tree, Digest, Top, Join;
    ChunkAt(h, b, 0, c0);
    ChunkAt(h, b, 1, c1);
    ChunkAt(h, b, 2, c2);
    hide IsChunkCv;
    var left := b[..2048];
    assert left[..1024] == b[0..1024] && left[1024..] == b[1024..2048] && (|b| == 3072 ==> b[2048..3072] == b[2048..]);
    assert IsPow2(1) && IsPow2(2);
    TreeOfParts(h, b, 0, 2);
    TreeOfParts(h, left, 0, 1);
  }
}
