/** Hashing a subtree with SIMD parallelism: lists of chaining values that condense, by
    pairing neighbours, to the two children of the subtree's root, whatever the degree. */
module Blake3Wide {
  import opened Blake3Bits
  import opened Blake3Tree

  // ---------- Pairing ----------

  /** One layer of parents; an odd value left over goes up unchanged. */
  function Pair(h: Hash, cvs: seq<CV>): (r: seq<CV>)
    ensures |r| == (|cvs| + 1) / 2
  {
    if |cvs| < 2 then cvs else [ParentCv(h, cvs[0], cvs[1])] + Pair(h, cvs[2..])
  }

  /** Pairing down to a single value. */
  function Reduce(h: Hash, cvs: seq<CV>): CV
    requires |cvs| > 0
    decreases |cvs|
  {
    if |cvs| == 1 then cvs[0] else Reduce(h, Pair(h, cvs))
  }

  /** Pairing down to two values. */
  function Condense(h: Hash, cvs: seq<CV>): (r: seq<CV>)
    requires |cvs| >= 2
    ensures |r| == 2
    decreases |cvs|
  {
    if |cvs| == 2 then cvs else Condense(h, Pair(h, cvs))
  }

  lemma {:induction false} PairAt(h: Hash, cvs: seq<CV>, i: nat)
    requires i < (|cvs| + 1) / 2
    ensures Pair(h, cvs)[i] == if 2 * i + 1 < |cvs| then ParentCv(h, cvs[2 * i], cvs[2 * i + 1]) else cvs[2 * i]
  {
    hide ParentCv;
    if i > 0 {
      PairAt(h, cvs[2..], i - 1);
    }
  }

  lemma PairStep(h: Hash, cvs: seq<CV>)
    requires |cvs| >= 2
    ensures Pair(h, cvs) == [ParentCv(h, cvs[0], cvs[1])] + Pair(h, cvs[2..])
  {}

  /** An even number of values pairs without touching what follows. */
  lemma {:induction false} PairSplit(h: Hash, left: seq<CV>, right: seq<CV>)
    requires |left| % 2 == 0
    ensures Pair(h, left + right) == Pair(h, left) + Pair(h, right)
  {
    hide ParentCv;
    if left == [] {
      assert left + right == right;
    } else {
      PairSplit(h, left[2..], right);
      PairStep(h, left);
      PairStep(h, left + right);
      hide Pair;
      assert (left + right)[2..] == left[2..] + right;
    }
  }

  /** A power of two of values, and at most as many after them, condense to the
      reductions of the two parts. */
  lemma {:induction false} CondenseSplit(h: Hash, left: seq<CV>, right: seq<CV>)
    requires IsPow2(|left|) && 0 < |right| <= |left|
    ensures Condense(h, left + right) == [Reduce(h, left), Reduce(h, right)]
    decreases |left|
  {
    hide ParentCv;
    if |left| == 1 {
      assert left + right == [left[0], right[0]];
    } else {
      PairSplit(h, left, right);
      if |right| == 1 {
        assert Pair(h, right) == right;
      }
      CondenseSplit(h, Pair(h, left), Pair(h, right));
    }
  }

  lemma {:induction false} ReduceCondense(h: Hash, cvs: seq<CV>)
    requires |cvs| >= 2
    ensures Reduce(h, cvs) == ParentCv(h, Condense(h, cvs)[0], Condense(h, cvs)[1])
    decreases |cvs|
  {
    if |cvs| == 2 {
      assert Pair(h, cvs) == [ParentCv(h, cvs[0], cvs[1])];
    } else {
      hide ParentCv;
      ReduceCondense(h, Pair(h, cvs));
    }
  }

  lemma ReduceSplit(h: Hash, left: seq<CV>, right: seq<CV>)
    requires IsPow2(|left|) && 0 < |right| <= |left|
    ensures Reduce(h, left + right) == ParentCv(h, Reduce(h, left), Reduce(h, right))
  {
    CondenseSplit(h, left, right);
    ReduceCondense(h, left + right);
  }

  // ---------- Lists of chunks ----------

  function Chunks(len: nat): (n: nat)
    ensures len > 0 ==> (n - 1) * 1024 < len <= n * 1024 && n > 0
  {
    (len + 1023) / 1024
  }

  /** The bytes of the i-th chunk. */
  function ChunkAt(data: Bytes, i: nat): Bytes
    requires i * 1024 <= |data|
  {
    if (i + 1) * 1024 <= |data| then data[i * 1024..(i + 1) * 1024] else data[i * 1024..]
  }

  /** The chaining values of all chunks. */
  function ChunkCvs(h: Hash, data: Bytes, counter: nat): (r: seq<CV>)
    ensures |r| == Chunks(|data|)
  {
    seq(Chunks(|data|), i requires 0 <= i < Chunks(|data|) => ChainingValue(h, ChunkOutput(h, ChunkAt(data, i), counter + i)))
  }

  lemma ChunkAtSplit(data: Bytes, n: nat, i: nat)
    requires n * 1024 <= |data| && i < Chunks(|data|)
    ensures i < n ==> ChunkAt(data, i) == ChunkAt(data[..n * 1024], i)
    ensures n <= i ==> (i - n) * 1024 <= |data| - n * 1024 && ChunkAt(data, i) == ChunkAt(data[n * 1024..], i - n)
  {}

  lemma ChunksSplit(h: Hash, data: Bytes, counter: nat, n: nat)
    requires n * 1024 <= |data|
    ensures ChunkCvs(h, data, counter) == ChunkCvs(h, data[..n * 1024], counter) + ChunkCvs(h, data[n * 1024..], counter + n)
  {
    hide ChunkOutput, ChainingValue, ChunkAt;
    var left, right := ChunkCvs(h, data[..n * 1024], counter), ChunkCvs(h, data[n * 1024..], counter + n);
    assert |left| == n && |left| + |right| == Chunks(|data|);
    forall i: nat | i < Chunks(|data|) ensures ChunkCvs(h, data, counter)[i] == (left + right)[i] {
      ChunkAtSplit(data, n, i);
      if n <= i {
        assert counter + i == counter + n + (i - n);
      }
    }
  }

  lemma ParentTree(h: Hash, data: Bytes, counter: nat)
    requires |data| > 1024
    ensures var l := LeftLen(|data|);
            ParentCv(h, TreeCv(h, data[..l], counter), TreeCv(h, data[l..], counter + l / 1024)) == TreeCv(h, data, counter)
  {
    TreeSplit(h, data, counter);
    hide Tree, LeftLen;
  }

  /** What reduces to the two children of a tree reduces to the tree. */
  lemma ReduceTree(h: Hash, data: Bytes, counter: nat, left: seq<CV>, right: seq<CV>)
    requires |data| > 1024 && IsPow2(|left|) && 0 < |right| <= |left|
    requires Reduce(h, left) == TreeCv(h, data[..LeftLen(|data|)], counter)
    requires Reduce(h, right) == TreeCv(h, data[LeftLen(|data|)..], counter + LeftLen(|data|) / 1024)
    ensures Reduce(h, left + right) == TreeCv(h, data, counter)
  {
    hide LeftLen, Reduce, TreeCv, ParentCv, IsPow2;
    ReduceSplit(h, left, right);
    ParentTree(h, data, counter);
  }

  /** The left part of a tree, in chunks. */
  lemma LeftChunks(len: nat) returns (n: nat)
    requires len > 1024
    ensures LeftLen(len) == n * 1024 && LeftLen(len) / 1024 == n && IsPow2(n)
    ensures 0 < n * 1024 < len && Chunks(n * 1024) == n && 0 < Chunks(len - n * 1024) <= n
  {
    n := LeftLen(len) / 1024;
  }

  lemma OneChunk(h: Hash, data: Bytes, counter: nat)
    requires 0 < |data| <= 1024
    ensures Reduce(h, ChunkCvs(h, data, counter)) == TreeCv(h, data, counter)
  {
    hide ChunkOutput, ChainingValue;
    assert ChunkAt(data, 0) == data;
    assert ChunkCvs(h, data, counter) == [TreeCv(h, data, counter)];
  }

  /** The chunks of any data reduce to the chaining value of its tree. */
  lemma {:induction false} ChunksReduce(h: Hash, data: Bytes, counter: nat)
    requires |data| > 0
    ensures Reduce(h, ChunkCvs(h, data, counter)) == TreeCv(h, data, counter)
    decreases |data|
  {
    hide *;
    if |data| <= 1024 {
      OneChunk(h, data, counter);
    } else {
      var n := LeftChunks(|data|);
      var left, right := data[..n * 1024], data[n * 1024..];
      ChunksReduce(h, left, counter);
      ChunksReduce(h, right, counter + n);
      ChunksSplit(h, data, counter, n);
      ReduceTree(h, data, counter, ChunkCvs(h, left, counter), ChunkCvs(h, right, counter + n));
    }
  }

  // ---------- The wide recursion ----------

  const MAX_SIMD_DEGREE := 16

  predicate IsDegree(degree: nat) {
    IsPow2(degree) && degree <= MAX_SIMD_DEGREE
  }

  function AtLeastTwo(degree: nat): nat {
    if degree < 2 then 2 else degree
  }

  /** The list `blake3_compress_subtree_wide` writes out. */
  function Wide(h: Hash, data: Bytes, counter: nat, degree: nat): (r: seq<CV>)
    requires degree > 0
    decreases |data|
  {
    if |data| <= degree * 1024 then ChunkCvs(h, data, counter)
    else
      var l := LeftLen(|data|);
      var left, right := Wide(h, data[..l], counter, degree), Wide(h, data[l..], counter + l / 1024, degree);
      if |left| == 1 then left + right else Pair(h, left + right)
  }

  /** Where the wide recursion puts the right child's values. */
  function RightOffset(l: nat, degree: nat): nat {
    if l > 1024 && degree == 1 then 2 else degree
  }

  lemma {:induction false} PowOrder(a: nat, b: nat)
    requires IsPow2(a) && IsPow2(b) && a < 2 * b
    ensures a <= b
  {
    if b < a {
      PowGap(b, a);
    }
  }

  /** More than `degree` chunks have at least `degree` chunks to their left. */
  lemma LeftWide(len: nat, degree: nat, n: nat)
    requires degree > 0 && IsPow2(degree) && len > degree * 1024 && len > 1024 && LeftLen(len) == n * 1024 && IsPow2(n)
    ensures degree <= n
  {
    assert degree < 2 * n;
    PowOrder(degree, n);
  }

  lemma WideStep(h: Hash, data: Bytes, counter: nat, degree: nat, n: nat)
    requires degree > 0 && |data| > degree * 1024 && |data| > 1024 && LeftLen(|data|) == n * 1024
    ensures var left, right := Wide(h, data[..n * 1024], counter, degree), Wide(h, data[n * 1024..], counter + n, degree);
            Wide(h, data, counter, degree) == if |left| == 1 then left + right else Pair(h, left + right)
  {
    hide LeftLen, Pair, ChunkCvs;
    assert n * 1024 / 1024 == n;
  }

  /** At most the degree of values, or two; at least two for more than one chunk. */
  lemma {:induction false} WideSize(h: Hash, data: Bytes, counter: nat, degree: nat)
    requires degree > 0 && IsPow2(degree) && |data| > 0
    ensures 0 < |Wide(h, data, counter, degree)| <= AtLeastTwo(degree)
    ensures |data| > 1024 ==> |Wide(h, data, counter, degree)| >= 2
    ensures |data| <= 1024 ==> |Wide(h, data, counter, degree)| == 1
    decreases |data|
  {
    hide *;
    if |data| > degree * 1024 {
      var n := LeftChunks(|data|);
      WideStep(h, data, counter, degree, n);
      WideSize(h, data[..n * 1024], counter, degree);
      WideSize(h, data[n * 1024..], counter + n, degree);
      WideParts(h, data, counter, degree, n);
      SizeBounds(h, data, counter, degree, n);
    } else {
      WideChunks(h, data, counter, degree);
      SizeSmall(|data|, degree);
    }
  }

  lemma SizeSmall(len: nat, degree: nat)
    requires 0 < len <= degree * 1024
    ensures 0 < Chunks(len) <= AtLeastTwo(degree) && (len > 1024 ==> Chunks(len) >= 2) && (len <= 1024 ==> Chunks(len) == 1)
  {}

  lemma SizeBounds(h: Hash, data: Bytes, counter: nat, degree: nat, n: nat)
    requires degree > 0 && 0 < n * 1024 < |data|
    requires 0 < |Wide(h, data[..n * 1024], counter, degree)| <= AtLeastTwo(degree)
    requires 0 < |Wide(h, data[n * 1024..], counter + n, degree)| <= AtLeastTwo(degree)
    requires n * 1024 <= 1024 ==> |Wide(h, data[n * 1024..], counter + n, degree)| <= 1
    requires n * 1024 <= 1024 ==> |Wide(h, data[..n * 1024], counter, degree)| == 1
    requires n * 1024 > 1024 ==> |Wide(h, data[..n * 1024], counter, degree)| >= 2
    ensures var left, right := Wide(h, data[..n * 1024], counter, degree), Wide(h, data[n * 1024..], counter + n, degree);
            |left| == 1 ==> 2 <= |left + right| <= AtLeastTwo(degree)
    ensures var left, right := Wide(h, data[..n * 1024], counter, degree), Wide(h, data[n * 1024..], counter + n, degree);
            |left| > 1 ==> 2 <= (|left| + |right| + 1) / 2 <= AtLeastTwo(degree)
  {
    hide Wide;
  }

  lemma WideParts(h: Hash, data: Bytes, counter: nat, degree: nat, n: nat)
    requires degree > 0 && 0 < n * 1024 <= |data|
    ensures var left, right := Wide(h, data[..n * 1024], counter, degree), Wide(h, data[n * 1024..], counter + n, degree);
            |Pair(h, left + right)| == (|left| + |right| + 1) / 2
  {
    hide Pair, Wide;
  }

  /** For a power of two of chunks, at least the degree, exactly the degree, or two. */
  lemma {:induction false} WideSizePow(h: Hash, data: Bytes, counter: nat, degree: nat, m: nat)
    requires degree > 0 && IsPow2(degree) && IsPow2(m) && |data| == m * 1024 && degree <= m
    ensures |Wide(h, data, counter, degree)| == if m == 1 then 1 else AtLeastTwo(degree)
    decreases m
  {
    hide *;
    if m > degree {
      var n := m / 2;
      HalfPow(m, degree);
      LeftLenOnly(|data|, n);
      WideStep(h, data, counter, degree, n);
      WideSizePow(h, data[..n * 1024], counter, degree, n);
      WideSizePow(h, data[n * 1024..], counter + n, degree, n);
      WideParts(h, data, counter, degree, n);
      PowBounds(degree, m, n);
    } else {
      WideChunks(h, data, counter, degree);
      ExactChunks(m, degree);
    }
  }

  lemma PowBounds(degree: nat, m: nat, n: nat)
    requires degree > 0 && m == 2 * n && degree <= n
    ensures n == 1 ==> AtLeastTwo(degree) == 2
    ensures n > 1 ==> (AtLeastTwo(degree) + AtLeastTwo(degree) + 1) / 2 == AtLeastTwo(degree) && AtLeastTwo(degree) > 1
  {}

  lemma ExactChunks(m: nat, degree: nat)
    requires 0 < m == degree
    ensures Chunks(m * 1024) == if m == 1 then 1 else AtLeastTwo(degree)
  {}

  lemma HalfPow(m: nat, degree: nat)
    requires IsPow2(m) && IsPow2(degree) && degree < m
    ensures IsPow2(m / 2) && m == 2 * (m / 2) && degree <= m / 2
  {
    PowGap(degree, m);
  }

  /** The left list ends exactly where the right list begins. */
  lemma LeftOffset(h: Hash, data: Bytes, counter: nat, degree: nat)
    requires degree > 0 && IsPow2(degree) && |data| > degree * 1024
    ensures |data| > 1024
    ensures |Wide(h, data[..LeftLen(|data|)], counter, degree)| == RightOffset(LeftLen(|data|), degree)
  {
    hide Wide, LeftLen;
    var n := LeftChunks(|data|);
    LeftWide(|data|, degree, n);
    WideSizePow(h, data[..n * 1024], counter, degree, n);
    hide IsPow2;
  }

  /** Whatever the degree, the list reduces to the chaining value of the tree. */
  lemma {:induction false} WideReduce(h: Hash, data: Bytes, counter: nat, degree: nat)
    requires degree > 0 && IsPow2(degree) && |data| > 0
    ensures |Wide(h, data, counter, degree)| > 0 && Reduce(h, Wide(h, data, counter, degree)) == TreeCv(h, data, counter)
    decreases |data|
  {
    hide *;
    WideSize(h, data, counter, degree);
    if |data| <= degree * 1024 {
      WideChunks(h, data, counter, degree);
      ChunksReduce(h, data, counter);
    } else {
      assert |data| > 1024;
      var n := LeftChunks(|data|);
      var left, right := Wide(h, data[..n * 1024], counter, degree), Wide(h, data[n * 1024..], counter + n, degree);
      WideSize(h, data[n * 1024..], counter + n, degree);
      WideReduce(h, data[..n * 1024], counter, degree);
      WideReduce(h, data[n * 1024..], counter + n, degree);
      LeftFits(h, data, counter, degree, n);
      WideStep(h, data, counter, degree, n);
      ReduceTree(h, data, counter, left, right);
      ReducePair(h, left + right);
    }
  }

  lemma WideChunks(h: Hash, data: Bytes, counter: nat, degree: nat)
    requires degree > 0 && |data| <= degree * 1024
    ensures Wide(h, data, counter, degree) == ChunkCvs(h, data, counter)
  {}

  lemma ReducePair(h: Hash, cvs: seq<CV>)
    requires |cvs| >= 2
    ensures Reduce(h, Pair(h, cvs)) == Reduce(h, cvs)
  {}

  /** The left list is a power of two long, and the right list no longer. */
  lemma LeftFits(h: Hash, data: Bytes, counter: nat, degree: nat, n: nat)
    requires degree > 0 && IsPow2(degree) && |data| > degree * 1024 && |data| > 1024 && LeftLen(|data|) == n * 1024 && IsPow2(n)
    ensures var left, right := Wide(h, data[..n * 1024], counter, degree), Wide(h, data[n * 1024..], counter + n, degree);
            IsPow2(|left|) && 0 < |right| <= |left|
  {
    hide Wide, LeftLen;
    LeftWide(|data|, degree, n);
    WideSizePow(h, data[..n * 1024], counter, degree, n);
    RightFits(h, data, counter, degree, n);
  }

  lemma RightFits(h: Hash, data: Bytes, counter: nat, degree: nat, n: nat)
    requires degree > 0 && IsPow2(degree) && degree <= n && n * 1024 < |data| <= 2 * n * 1024
    ensures 0 < |Wide(h, data[n * 1024..], counter + n, degree)| <= if n == 1 then 1 else AtLeastTwo(degree)
  {
    hide Wide;
    WideSize(h, data[n * 1024..], counter + n, degree);
  }

  /** Condensing the list of a subtree of more than one chunk gives the two children of
      its root, whatever the degree. */
  lemma WideCondense(h: Hash, data: Bytes, counter: nat, degree: nat)
    requires degree > 0 && IsPow2(degree) && |data| > 1024
    ensures |Wide(h, data, counter, degree)| >= 2
    ensures Condense(h, Wide(h, data, counter, degree)) ==
            [TreeCv(h, data[..LeftLen(|data|)], counter), TreeCv(h, data[LeftLen(|data|)..], counter + LeftLen(|data|) / 1024)]
  {
    hide *;
    WideSize(h, data, counter, degree);
    var n := LeftChunks(|data|);
    if |data| <= degree * 1024 {
      WideChunks(h, data, counter, degree);
      ChunksReduce(h, data[..n * 1024], counter);
      ChunksReduce(h, data[n * 1024..], counter + n);
      ChunksSplit(h, data, counter, n);
      CondenseSplit(h, ChunkCvs(h, data[..n * 1024], counter), ChunkCvs(h, data[n * 1024..], counter + n));
    } else {
      var left, right := Wide(h, data[..n * 1024], counter, degree), Wide(h, data[n * 1024..], counter + n, degree);
      WideReduce(h, data[..n * 1024], counter, degree);
      WideReduce(h, data[n * 1024..], counter + n, degree);
      LeftFits(h, data, counter, degree, n);
      WideStep(h, data, counter, degree, n);
      CondenseSplit(h, left, right);
      if |left| > 1 {
        CondensePair(h, left + right);
      }
    }
  }

  lemma CondensePair(h: Hash, cvs: seq<CV>)
    requires |cvs| > 2
    ensures Condense(h, Pair(h, cvs)) == Condense(h, cvs)
  {}
}
