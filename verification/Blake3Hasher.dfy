/** The incremental hasher: whatever way the input is cut into updates, the result is the
    root output of the tree over the whole input. */
module Blake3Hasher {
  import opened Blake3Bits
  import opened Blake3Tree
  import opened Blake3Wide
  import opened Blake3Compress

  lemma CondenseStep(h: Hash, cvs: seq<CV>)
    requires |cvs| >= 2
    ensures Condense(h, cvs) == if |cvs| == 2 then cvs else Condense(h, Pair(h, cvs))
  {}

  /** `compress_subtree_to_parent_node`: the chaining values of the root's children. */
  method CompressSubtreeToParentNode(h: Hash, input: Bytes, counter: nat, degree: nat) returns (left: CV, right: CV)
    requires h.Valid() && |input| > 1024 && 0 < degree <= 16 && IsPow2(degree)
    ensures left == TreeCv(h, input[..LeftLen(|input|)], counter)
    ensures right == TreeCv(h, input[LeftLen(|input|)..], counter + LeftLen(|input|) / 1024)
  {
    hide *;
    OffsetIs(0, degree);
    var cvArray := new CV[16];
    var numCvs := CompressSubtreeWide(h, input, counter, degree, cvArray, 0);
    WideCondense(h, input, counter, degree);
    WideAreCvs(h, input, counter, degree);
    ghost var cvs := Wide(h, input, counter, degree);
    var outArray := new CV[8];
    while numCvs > 2 && numCvs <= 16
      invariant 2 <= numCvs <= 16 && AreCvs(cvArray[..numCvs])
      invariant Condense(h, cvArray[..numCvs]) == Condense(h, cvs)
      decreases numCvs
    {
      ghost var before := cvArray[..numCvs];
      CondenseStep(h, before);
      PairAreCvs(h, before);
      numCvs := CompressParentsParallel(h, cvArray, numCvs, outArray, 0);
      forall i | 0 <= i < numCvs {
        cvArray[i] := outArray[i];
      }
      assert cvArray[..numCvs] == outArray[0..numCvs] == Pair(h, before);
    }
    CondenseStep(h, cvArray[..2]);
    left, right := cvArray[0], cvArray[1];
    assert cvArray[..2] == [left, right];
  }

  /** `blake3_hasher` */
  class Hasher {
    const h: Hash
    const degree: nat
    const chunk: ChunkState
    const cvStack: array<CV>
    var cvStackLen: nat
    /** Everything taken so far, and the size in chunks of the topmost subtree. */
    ghost var data: Bytes
    ghost var top: nat

    ghost predicate Shape()
      reads this, chunk, chunk.buf, cvStack
    {
      && h.Valid() && 0 < degree <= 16 && IsPow2(degree)
      && chunk.h == h && chunk.Valid() && (chunk.buf as object) != cvStack
      && cvStack.Length == 55 && cvStackLen <= 55
      && |data| < 0x1_0000_0000_0000_0000
      && chunk.chunkCounter * 1024 <= |data|
      && chunk.data == data[chunk.chunkCounter * 1024..]
    }

    /** The stack holds the subtrees of the first n chunks, the topmost one maybe unmerged. */
    ghost predicate Stacked(n: nat)
      reads this, cvStack
    {
      && cvStack.Length == 55 && cvStackLen <= 55
      && if n == 0 then cvStackLen == 0 else Lazy(h, data, n, top, cvStack[..cvStackLen])
    }

    /** Between two updates: only a complete input leaves unmerged subtrees, at least two. */
    ghost predicate Valid()
      reads this, chunk, chunk.buf, cvStack
    {
      && Shape() && Stacked(chunk.chunkCounter)
      && (chunk.chunkCounter > 0 ==>
            if chunk.data != [] then cvStack[..cvStackLen] == Merged(h, data, chunk.chunkCounter)
            else top < chunk.chunkCounter)
    }

    /** `hasher_init_base` */
    constructor (h: Hash, degree: nat)
      requires h.Valid() && 0 < degree <= 16 && IsPow2(degree)
      ensures Valid() && fresh(chunk) && fresh(chunk.buf) && fresh(cvStack) && this.h == h && data == []
    {
      this.h, this.degree := h, degree;
      chunk := new ChunkState(h);
      cvStack := new CV[55];
      cvStackLen := 0;
      data := [];
    }

    /** `hasher_merge_cv_stack` */
    method MergeCvStack(total: nat)
      requires Stacked(total) && total * 1024 <= |data|
      modifies cvStack, this`cvStackLen, this`top
      ensures cvStack.Length == 55 && cvStackLen <= 55
      ensures Stacked(total) && cvStackLen == PopCount(total) && cvStack[..cvStackLen] == Merged(h, data, total)
      ensures total > 0 ==> top == LowBit(total)
    {
      hide Lazy, PopCount, Merged;
      var post := PopCount(total);
      while cvStackLen > post
        invariant Stacked(total) && total * 1024 <= |data|
        decreases cvStackLen
      {
        ghost var stack := cvStack[..cvStackLen];
        assert total > 0;
        MergeStep(total, stack);
        hide *;
        cvStack[cvStackLen - 2] := ParentCv(h, cvStack[cvStackLen - 2], cvStack[cvStackLen - 1]);
        cvStackLen := cvStackLen - 1;
        top := 2 * top;
        assert cvStack[..cvStackLen] == stack[..|stack| - 2] + [ParentCv(h, stack[|stack| - 2], stack[|stack| - 1])];
        StackedIs(total);
      }
      MergeEnd(total);
    }

    lemma MergeStep(total: nat, stack: seq<CV>)
      requires total > 0 && Lazy(h, data, total, top, stack) && |stack| > PopCount(total)
      ensures |stack| >= 2
      ensures Lazy(h, data, total, 2 * top, stack[..|stack| - 2] + [ParentCv(h, stack[|stack| - 2], stack[|stack| - 1])])
    {
      hide *;
      MergeRoom(h, data, total, top, stack);
      MergeTop(h, data, total, top, stack);
    }

    lemma StackedIs(n: nat)
      requires cvStack.Length == 55 && cvStackLen <= 55
      requires n > 0 && Lazy(h, data, n, top, cvStack[..cvStackLen])
      ensures Stacked(n)
    {
      hide Lazy;
    }

    lemma MergeEnd(total: nat)
      requires Stacked(total) && total * 1024 <= |data| && cvStackLen <= PopCount(total)
      ensures cvStackLen == PopCount(total) && cvStack[..cvStackLen] == Merged(h, data, total)
      ensures total > 0 ==> top == LowBit(total)
    {
      hide Lazy;
      if total > 0 {
        MergeBound(h, data, total, top, cvStack[..cvStackLen]);
        MergeDone(h, data, total, top, cvStack[..cvStackLen]);
      }
    }

    /** `hasher_push_cv` */
    method PushCv(newCv: CV, counter: nat)
      requires Stacked(counter) && counter * 1024 <= |data| < 0x1_0000_0000_0000_0000
      modifies cvStack, this`cvStackLen, this`top
      ensures cvStack.Length == 55 && cvStackLen <= 55
      ensures cvStack[..cvStackLen] == Merged(h, data, counter) + [newCv]
    {
      hide *;
      MergeCvStack(counter);
      ChunkBits(counter);
      ghost var merged := cvStack[..cvStackLen];
      cvStack[cvStackLen] := newCv;
      cvStackLen := cvStackLen + 1;
      assert cvStack[..cvStackLen] == merged + [newCv];
    }

    /** The stack after pushing a subtree of s chunks that starts at chunk n. */
    lemma Pushed(n: nat, s: nat, stack: seq<CV>)
      requires IsPow2(s) && AtLeast(n, s) && (n + s) * 1024 <= |data|
      requires stack == Merged(h, data, n) + [Sub(h, data, n, s)]
      ensures Lazy(h, data, n + s, s, stack)
    {
      hide *;
      assert n + s - s == n;
      PowPositive(s);
      MakeLazy(h, data, n + s, s, stack);
    }

    lemma PowPositive(s: nat)
      requires IsPow2(s)
      ensures s > 0
    {}

    /** The chunk state is full and more input follows: its chunk goes on the stack. */
    method FinishChunk()
      requires Shape() && Stacked(chunk.chunkCounter) && |chunk.data| == 1024
      modifies this`cvStackLen, this`top, cvStack, chunk, chunk.buf
      ensures Shape() && chunk.data == [] && chunk.chunkCounter == old(chunk.chunkCounter) + 1 && Stacked(chunk.chunkCounter)
    {
      hide Stacked, Lazy, Merged, ChunkState.Valid, ChainingValue, ChunkOutput, IsPow2;
      var n := chunk.chunkCounter;
      assert data[n * 1024..(n + 1) * 1024] == chunk.data;
      var o := chunk.Output();
      var cv := Chaining(h, o);
      PushCv(cv, n);
      ChunkIsSub(n);
      OnePow(n);
      Pushed(n, 1, cvStack[..cvStackLen]);
      chunk.Reset(n + 1);
      top := 1;
      StackedIs(n + 1);
    }

    lemma ChunkIsSub(n: nat)
      requires (n + 1) * 1024 <= |data|
      ensures Sub(h, data, n, 1) == ChainingValue(h, ChunkOutput(h, data[n * 1024..(n + 1) * 1024], n))
    {
      hide ChunkOutput;
    }

    lemma OnePow(n: nat)
      ensures IsPow2(1) && AtLeast(n, 1)
    {}

    lemma Unstack(n: nat)
      requires Stacked(n)
      ensures cvStack.Length == 55 && cvStackLen <= 55
      ensures if n == 0 then cvStackLen == 0 else Lazy(h, data, n, top, cvStack[..cvStackLen])
    {
      hide Lazy;
    }

    /** More data leaves the stack as it is. */
    lemma Restack(n: nat, d: Bytes, more: Bytes)
      requires cvStack.Length == 55 && cvStackLen <= 55
      requires if n == 0 then cvStackLen == 0 else Lazy(h, d, n, top, cvStack[..cvStackLen])
      requires data == d + more
      ensures Stacked(n)
    {
      hide Lazy;
      if n > 0 {
        LazyPrefix(h, d, more, n, top, cvStack[..cvStackLen]);
      }
    }

    /** The two children of a complete subtree. */
    lemma PairIsSubs(n: nat, chunks: nat)
      requires chunks > 1 && IsPow2(chunks) && AtLeast(n, chunks) && (n + chunks) * 1024 <= |data|
      ensures var half, piece := chunks / 2, Slice(data, n, chunks);
              && chunks == 2 * half && IsPow2(half) && AtLeast(n, half) && AtLeast(n + half, half)
              && |piece| > 1024 && LeftLen(|piece|) == half * 1024 && LeftLen(|piece|) / 1024 == half
              && TreeCv(h, piece[..half * 1024], n) == Sub(h, data, n, half)
              && TreeCv(h, piece[half * 1024..], n + half) == Sub(h, data, n + half, half)
    {
      hide *;
      var half := chunks / 2;
      Halving(n, chunks);
      LeftLenOnly(|Slice(data, n, chunks)|, half);
      SliceSplit(data, n, half);
      SubIs(n, half);
      SubIs(n + half, half);
    }

    lemma SubIs(start: nat, count: nat)
      requires (start + count) * 1024 <= |data|
      ensures Sub(h, data, start, count) == TreeCv(h, Slice(data, start, count), start)
    {
      hide Slice, TreeCv;
    }

    lemma Halving(n: nat, chunks: nat)
      requires chunks > 1 && IsPow2(chunks) && AtLeast(n, chunks)
      ensures var half := chunks / 2;
              chunks == 2 * half && half > 0 && IsPow2(half) && AtLeast(n, half) && AtLeast(n + half, half)
    {
      hide *;
      HalfPow2(chunks);
      AboveHalf(n, chunks / 2, chunks);
      AddLow(n, chunks / 2);
      LowAtLeast(n + chunks / 2, chunks / 2);
    }

    lemma HalfPow2(chunks: nat)
      requires chunks > 1 && IsPow2(chunks)
      ensures chunks == 2 * (chunks / 2) && chunks / 2 > 0 && IsPow2(chunks / 2)
    {}

    lemma AboveHalf(n: nat, half: nat, chunks: nat)
      requires AtLeast(n, chunks) && half < chunks
      ensures Above(n, half) && AtLeast(n, half)
    {
      hide LowBit;
    }

    lemma LowAtLeast(n: nat, s: nat)
      requires n > 0 && LowBit(n) == s
      ensures AtLeast(n, s)
    {
      hide LowBit;
    }

    /** A single chunk goes on the stack. */
    method PushChunk(n: nat, piece: Bytes)
      requires Stacked(n) && (n + 1) * 1024 <= |data| < 0x1_0000_0000_0000_0000 && piece == data[n * 1024..(n + 1) * 1024]
      modifies this`cvStackLen, this`top, cvStack
      ensures Stacked(n + 1)
    {
      hide *;
      OnePow(n);
      var cv := HashChunk(h, piece, n);
      PushCv(cv, n);
      ChunkIsSub(n);
      Pushed(n, 1, cvStack[..cvStackLen]);
      top := 1;
      StackedIs(n + 1);
    }

    /** The two halves of a subtree go on the stack, without a merge of the second. */
    method PushPair(n: nat, chunks: nat, piece: Bytes)
      requires h.Valid() && 0 < degree <= 16 && IsPow2(degree)
      requires Stacked(n) && chunks > 1 && IsPow2(chunks) && AtLeast(n, chunks)
      requires (n + chunks) * 1024 <= |data| < 0x1_0000_0000_0000_0000 && piece == Slice(data, n, chunks)
      modifies this`cvStackLen, this`top, cvStack
      ensures Stacked(n + chunks) && top < n + chunks
    {
      hide *;
      PairIsSubs(n, chunks);
      var left, right := CompressSubtreeToParentNode(h, piece, n, degree);
      PushCv(left, n);
      Pushed(n, chunks / 2, cvStack[..cvStackLen]);
      top := chunks / 2;
      StackedIs(n + chunks / 2);
      PushCv(right, n + chunks / 2);
      Pushed(n + chunks / 2, chunks / 2, cvStack[..cvStackLen]);
      top := chunks / 2;
      StackedIs(n + chunks);
    }

    /** The next subtree of the input, one chunk or more, goes on the stack. */
    method TakeSubtree(piece: Bytes, chunks: nat)
      requires Shape() && Stacked(chunk.chunkCounter) && chunk.data == []
      requires chunks > 0 && IsPow2(chunks) && |piece| == chunks * 1024 && AtLeast(chunk.chunkCounter, chunks)
      requires |data| + |piece| < 0x1_0000_0000_0000_0000
      modifies this`cvStackLen, this`top, this`data, cvStack, chunk`chunkCounter
      ensures Shape() && Stacked(chunk.chunkCounter) && chunk.data == []
      ensures data == old(data) + piece && chunk.chunkCounter == old(chunk.chunkCounter) + chunks
      ensures chunks > 1 ==> top < chunk.chunkCounter
    {
      hide Stacked, Lazy, Merged, ChunkState.Valid, IsPow2, AtLeast;
      var n := chunk.chunkCounter;
      Unstack(n);
      ghost var d := data;
      data := data + piece;
      Restack(n, d, piece);
      assert Slice(data, n, chunks) == piece;
      if chunks == 1 {
        PushChunk(n, piece);
      } else {
        PushPair(n, chunks, piece);
      }
      chunk.SetCounter(n + chunks);
      assert |d| == n * 1024;
      assert data[(n + chunks) * 1024..] == [];
      Unstack(n + chunks);
    }

    /** The largest subtree the input fills that also evenly divides what was taken before.
        The test is on a power of two, so the remainder is what the bit mask keeps. */
    method SubtreeLen(inputLen: nat, n: nat) returns (subtreeLen: nat, chunks: nat)
      requires inputLen > 1024
      ensures subtreeLen == chunks * 1024 <= inputLen && chunks > 0 && IsPow2(chunks) && AtLeast(n, chunks)
      ensures chunks == 1 ==> subtreeLen < inputLen
    {
      hide *;
      PowK();
      subtreeLen := RoundDown(inputLen);
      PowOrder(1024, subtreeLen);
      var countSoFar := n * 1024;
      while countSoFar % subtreeLen != 0
        invariant 1024 <= subtreeLen <= inputLen && IsPow2(subtreeLen)
        decreases subtreeLen
      {
        ByK(n);
        HalfOf(subtreeLen);
        subtreeLen := subtreeLen / 2;
      }
      PowChunks(subtreeLen, 1024);
      chunks := subtreeLen / 1024;
      ScaledDivides(n, chunks);
      Divides(n, chunks);
    }

    lemma PowK()
      ensures IsPow2(1024)
    {}

    lemma ByK(n: nat)
      ensures (n * 1024) % 1024 == 0
    {}

    lemma HalfOf(len: nat)
      requires len > 1024 && IsPow2(len)
      ensures IsPow2(len / 2) && len / 2 >= 1024
    {
      PowGap(1024, len);
    }

    /** Bytes of the chunk in progress. */
    method TakeBytes(piece: Bytes)
      requires Shape() && Stacked(chunk.chunkCounter) && |chunk.data| + |piece| <= 1024
      requires |data| + |piece| < 0x1_0000_0000_0000_0000
      modifies this`data, chunk, chunk.buf
      ensures Shape() && Stacked(chunk.chunkCounter) && data == old(data) + piece && chunk.data == old(chunk.data) + piece
      ensures chunk.chunkCounter == old(chunk.chunkCounter)
      ensures old(cvStack[..cvStackLen] == Merged(h, data, chunk.chunkCounter)) ==> cvStack[..cvStackLen] == Merged(h, data, chunk.chunkCounter)
    {
      hide Stacked, Lazy, Merged, ChunkState.Valid, IsPow2;
      ghost var n, d := chunk.chunkCounter, data;
      Unstack(n);
      chunk.Update(piece);
      data := data + piece;
      Restack(n, d, piece);
      MergedPrefix(h, d, piece, n);
    }

    /** The first part of an update: finish the chunk in progress. */
    method FillChunk(input: Bytes) returns (pos: nat)
      requires Valid() && input != [] && |data| + |input| < 0x1_0000_0000_0000_0000
      modifies this`cvStackLen, this`top, this`data, cvStack, chunk, chunk.buf
      ensures pos <= |input| && data == old(data) + input[..pos]
      ensures if pos == |input| then Valid() else Shape() && Stacked(chunk.chunkCounter) && chunk.data == []
    {
      hide Stacked, Lazy, Merged, ChunkState.Valid, IsPow2;
      pos := 0;
      if chunk.Len() > 0 {
        pos := 1024 - chunk.Len();
        if pos > |input| {
          pos := |input|;
        }
        TakeBytes(input[..pos]);
        if pos < |input| {
          FinishChunk();
        }
      }
    }

    /** The loop of an update: whole subtrees while more than a chunk is left. */
    method TakeSubtrees(input: Bytes) returns (pos: nat)
      requires Shape() && Stacked(chunk.chunkCounter) && chunk.data == [] && input != []
      requires |data| + |input| < 0x1_0000_0000_0000_0000
      modifies this`cvStackLen, this`top, this`data, cvStack, chunk, chunk.buf
      ensures pos <= |input| <= pos + 1024 && data == old(data) + input[..pos]
      ensures Shape() && Stacked(chunk.chunkCounter) && chunk.data == []
      ensures pos == |input| ==> top < chunk.chunkCounter
    {
      hide Stacked, Shape;
      pos := 0;
      while |input| - pos > 1024
        invariant Shape() && Stacked(chunk.chunkCounter) && chunk.data == []
        invariant pos <= |input| && data == old(data) + input[..pos]
        invariant pos == |input| ==> top < chunk.chunkCounter
      {
        var subtreeLen, chunks := SubtreeLen(|input| - pos, chunk.chunkCounter);
        TakeSubtree(input[pos..pos + subtreeLen], chunks);
        assert input[..pos] + input[pos..pos + subtreeLen] == input[..pos + subtreeLen];
        pos := pos + subtreeLen;
      }
    }

    /** The end of an update: what is left stays in the chunk state. */
    method KeepRest(rest: Bytes)
      requires Shape() && Stacked(chunk.chunkCounter) && chunk.data == [] && |rest| <= 1024
      requires rest == [] ==> top < chunk.chunkCounter
      requires |data| + |rest| < 0x1_0000_0000_0000_0000
      modifies this`cvStackLen, this`top, this`data, cvStack, chunk, chunk.buf
      ensures Valid() && data == old(data) + rest
    {
      hide Stacked, Lazy, Merged, ChunkState.Valid, IsPow2;
      if rest != [] {
        TakeBytes(rest);
        MergeCvStack(chunk.chunkCounter);
      }
    }

    /** `blake3_hasher_update` */
    method Update(input: Bytes)
      requires Valid() && |data| + |input| < 0x1_0000_0000_0000_0000
      modifies this`cvStackLen, this`top, this`data, cvStack, chunk, chunk.buf
      ensures Valid() && data == old(data) + input
    {
      hide *;
      if input == [] {
        return;
      }
      var pos := FillChunk(input);
      assert input[..pos] + input[pos..] == input;
      if pos < |input| {
        var rest := input[pos..];
        var taken := TakeSubtrees(rest);
        assert rest[..taken] + rest[taken..] == rest;
        KeepRest(rest[taken..]);
        assert data == old(data) + input[..pos] + rest[..taken] + rest[taken..];
      }
    }

    // ---------- Finalization ----------

    /** What is known while the stack is rolled up: m chunks are still on it, and what
        follows them is no longer than the topmost subtree. */
    ghost predicate Rolling(m: nat, remaining: nat, o: Output)
      reads this, cvStack
    {
      && m * 1024 <= |data| && remaining <= cvStack.Length
      && cvStack[..remaining] == Merged(h, data, m)
      && o == Tail(h, data, m)
      && (m > 0 ==> m * 1024 < |data| <= (m + LowBit(m)) * 1024)
    }

    lemma RollingFrom(n: nat, o: Output)
      requires Stacked(n) && n > 0 && n * 1024 < |data| <= (n + 1) * 1024
      requires cvStack[..cvStackLen] == Merged(h, data, n) && o == ChunkOutput(h, data[n * 1024..], n)
      ensures Rolling(n, cvStackLen, o)
    {
      hide Merged, ChunkOutput, Lazy, LowBit;
    }

    /** Without bytes in the chunk state, the two topmost subtrees are merged first. */
    lemma RollingPair(n: nat) returns (m: nat)
      requires Stacked(n) && 0 < top < n && |data| == n * 1024
      ensures cvStackLen >= 2
      ensures Rolling(m, cvStackLen - 2, ParentOutput(h, cvStack[cvStackLen - 2], cvStack[cvStackLen - 1]))
    {
      hide *;
      Unstack(n);
      ghost var stack := cvStack[..cvStackLen];
      LazyFacts(h, data, n, top, stack);
      var b := n - top;
      var l := LowBit(b);
      m := b - l;
      MergedStep(h, data, b);
      assert stack == Merged(h, data, m) + [Sub(h, data, m, l)] + [Sub(h, data, b, top)];
      LowFits(b, top);
      ClearLow(b);
      RollUp(h, data, m, l);
      TailIsSub(b, top);
      assert cvStack[cvStackLen - 2] == Sub(h, data, m, l) && cvStack[cvStackLen - 1] == Sub(h, data, b, top);
      NextFits(m, l);
      assert cvStack[..cvStackLen - 2] == Merged(h, data, m);
      MakeRolling(m, cvStackLen - 2, ParentOutput(h, cvStack[cvStackLen - 2], cvStack[cvStackLen - 1]));
    }

    lemma LowFits(b: nat, s: nat)
      requires b > 0 && AtLeast(b, s)
      ensures s <= LowBit(b)
    {
      hide LowBit;
    }

    lemma NextFits(m: nat, l: nat)
      requires AtLeast(m, 2 * l)
      ensures m > 0 ==> 2 * l <= LowBit(m)
    {
      hide LowBit;
    }

    lemma TailIsSub(b: nat, s: nat)
      requires (b + s) * 1024 == |data|
      ensures ChainingValue(h, Tail(h, data, b)) == Sub(h, data, b, s)
    {
      hide Tree, ChainingValue;
      assert data[b * 1024..] == Slice(data, b, s);
    }

    lemma MakeRolling(m: nat, remaining: nat, o: Output)
      requires m * 1024 <= |data| && remaining <= cvStack.Length && cvStack[..remaining] == Merged(h, data, m)
      requires o == Tail(h, data, m) && (m > 0 ==> m * 1024 < |data| <= (m + LowBit(m)) * 1024)
      ensures Rolling(m, remaining, o)
    {
      hide Tail, Merged, LowBit;
    }

    /** One parent more. */
    lemma RollingStep(m: nat, remaining: nat, o: Output) returns (next: nat)
      requires Rolling(m, remaining, o) && remaining > 0
      ensures Rolling(next, remaining - 1, ParentOutput(h, cvStack[remaining - 1], ChainingValue(h, o)))
    {
      hide *;
      RollingFacts(m, remaining, o);
      var l := LowBit(m);
      next := m - l;
      MergedStep(h, data, m);
      ghost var stack := cvStack[..remaining];
      assert stack == Merged(h, data, next) + [Sub(h, data, next, l)];
      assert cvStack[remaining - 1] == stack[remaining - 1];
      assert cvStack[..remaining - 1] == Merged(h, data, next);
      ClearLow(m);
      RollUp(h, data, next, l);
      RollUpRoom(m, |data|);
      MakeRolling(next, remaining - 1, ParentOutput(h, cvStack[remaining - 1], ChainingValue(h, o)));
    }

    lemma RollingFacts(m: nat, remaining: nat, o: Output)
      requires Rolling(m, remaining, o) && remaining > 0
      ensures remaining <= cvStack.Length && m > 0 && m * 1024 < |data| <= (m + LowBit(m)) * 1024
      ensures cvStack[..remaining] == Merged(h, data, m) && o == Tail(h, data, m)
    {
      hide Tail, Merged, LowBit;
    }

    lemma RollingDone(m: nat, o: Output)
      requires Rolling(m, 0, o)
      ensures o == Tree(h, data, 0)
    {
      hide Tree, LowBit;
      assert |Merged(h, data, m)| == 0;
      assert data[0..] == data;
    }

    lemma SmallTree()
      requires Valid() && cvStackLen == 0
      ensures chunk.chunkCounter == 0 && chunk.data == data && |data| <= 1024
      ensures Tree(h, data, 0) == ChunkOutput(h, data, 0)
    {
      hide ChunkOutput, Merged, Sub, LowBit;
      assert data[0..] == data;
    }

    /** The root node of everything taken so far. */
    method RootOutput() returns (o: Output)
      requires Valid()
      ensures o == Tree(h, data, 0)
    {
      hide ChunkState.Valid, Merged, Tree, Lazy, Rolling, Stacked, ParentOutput, ChunkOutput, IsPow2;
      if cvStackLen == 0 {
        SmallTree();
        o := chunk.Output();
        return;
      }
      ghost var n := chunk.chunkCounter;
      ghost var m := n;
      var remaining := cvStackLen;
      NotEmpty(n);
      if chunk.Len() > 0 {
        o := chunk.Output();
        RollingFrom(n, o);
      } else {
        m := RollingPair(n);
        remaining := cvStackLen - 2;
        o := ParentOutput(h, cvStack[remaining], cvStack[remaining + 1]);
      }
      while remaining > 0
        invariant 0 <= remaining <= 55 && Rolling(m, remaining, o)
      {
        m := RollingStep(m, remaining, o);
        remaining := remaining - 1;
        var cv := Chaining(h, o);
        o := ParentOutput(h, cvStack[remaining], cv);
      }
      RollingDone(m, o);
    }

    lemma NotEmpty(n: nat)
      requires Stacked(n) && cvStackLen > 0
      ensures 0 < top <= n
    {
      hide Merged, Sub;
    }

    /** `blake3_hasher_finalize_seek` */
    method FinalizeSeek(seek: nat, out: array<Byte>)
      requires Valid() && (out as object) !in {cvStack as object, chunk.buf}
      modifies out
      ensures out[..] == RootBytes(h, Tree(h, data, 0), seek, out.Length)
    {
      hide ChunkState.Valid, Merged, Tree, Lazy, Stacked, IsPow2;
      if out.Length == 0 {
        return;
      }
      var o := RootOutput();
      OutputRootBytes(h, o, seek, out);
    }
  }

  /** `output_root_bytes` */
  method OutputRootBytes(h: Hash, o: Output, seek: nat, out: array<Byte>)
    requires h.Valid()
    modifies out
    ensures out[..] == RootBytes(h, o, seek, out.Length)
  {
    var counter := seek / 64;
    var offset := seek % 64;
    var done := 0;
    while done < out.Length
      invariant 0 <= done <= out.Length && 0 <= offset < 64 && 0 <= counter
      invariant done < out.Length ==> counter * 64 + offset == seek + done
      invariant forall i :: 0 <= i < done ==> out[i] == RootByte(h, o, seek + i)
      decreases out.Length - done
    {
      var wide := h.xof(o.inputCv, o.block, o.blockLen, counter, o.flags + {Root});
      assert |wide| == 64;
      var take := 64 - offset;
      if take > out.Length - done {
        take := out.Length - done;
      }
      forall i | 0 <= i < take {
        out[done + i] := wide[offset + i];
      }
      forall j | done <= j < done + take ensures out[j] == RootByte(h, o, seek + j) {
        assert out[done + (j - done)] == wide[offset + (j - done)];
        Position(seek + j, counter, offset + (j - done));
      }
      done := done + take;
      counter := counter + 1;
      offset := 0;
    }
  }

  lemma Position(at: nat, counter: nat, offset: nat)
    requires at == counter * 64 + offset && offset < 64
    ensures at / 64 == counter && at % 64 == offset
  {}

  // ---------- What the broadcaster and the receivers of a message compute ----------

  function Concat(parts: seq<Bytes>): Bytes {
    if parts == [] then [] else Concat(parts[..|parts| - 1]) + parts[|parts| - 1]
  }

  lemma {:induction false} ConcatPrefix(parts: seq<Bytes>, i: nat)
    requires i <= |parts|
    ensures |Concat(parts[..i])| <= |Concat(parts)|
    decreases |parts|
  {
    if i < |parts| {
      ConcatPrefix(parts[..|parts| - 1], i);
      assert parts[..|parts| - 1][..i] == parts[..i];
    } else {
      assert parts[..i] == parts;
    }
  }

  /** However the input is cut into updates, empty ones included, the digest is that of the whole. */
  method HashParts(h: Hash, degree: nat, parts: seq<Bytes>) returns (digest: Bytes)
    requires h.Valid() && 0 < degree <= 16 && IsPow2(degree) && |Concat(parts)| < 0x1_0000_0000_0000_0000
    ensures digest == Digest(h, Concat(parts))
  {
    hide *;
    var hasher := new Hasher(h, degree);
    NoParts(parts);
    for i := 0 to |parts|
      invariant hasher.Valid() && hasher.h == h && hasher.data == Concat(parts[..i])
      invariant fresh(hasher) && fresh(hasher.chunk) && fresh(hasher.chunk.buf) && fresh(hasher.cvStack)
    {
      ConcatPrefix(parts, i + 1);
      NextPart(parts, i);
      hasher.Update(parts[i]);
    }
    assert parts[..|parts|] == parts;
    var out := new Byte[32];
    hasher.FinalizeSeek(0, out);
    DigestIs(h, Concat(parts));
    digest := out[..];
  }

  lemma NoParts(parts: seq<Bytes>)
    ensures Concat(parts[..0]) == []
  {}

  lemma NextPart(parts: seq<Bytes>, i: nat)
    requires i < |parts|
    ensures Concat(parts[..i + 1]) == Concat(parts[..i]) + parts[i]
  {
    assert parts[..i + 1][..i] == parts[..i];
  }

  /** Two updates and a final digest: the broadcaster hashes the index, then the data. */
  method HashTwoParts(h: Hash, degree: nat, first: Bytes, second: Bytes) returns (digest: Bytes)
    requires h.Valid() && 0 < degree <= 16 && IsPow2(degree) && |first| + |second| < 0x1_0000_0000_0000_0000
    ensures digest == Digest(h, first + second)
  {
    hide *;
    var hasher := new Hasher(h, degree);
    hasher.Update(first);
    hasher.Update(second);
    assert [] + first + second == first + second;
    var out := new Byte[32];
    hasher.FinalizeSeek(0, out);
    DigestIs(h, first + second);
    digest := out[..];
  }

  /** One update: a receiver hashes the whole buffer, index included. */
  method HashWhole(h: Hash, degree: nat, input: Bytes) returns (digest: Bytes)
    requires h.Valid() && 0 < degree <= 16 && IsPow2(degree) && |input| < 0x1_0000_0000_0000_0000
    ensures digest == Digest(h, input)
  {
    hide *;
    var hasher := new Hasher(h, degree);
    hasher.Update(input);
    assert [] + input == input;
    var out := new Byte[32];
    hasher.FinalizeSeek(0, out);
    DigestIs(h, input);
    digest := out[..];
  }

  lemma DigestIs(h: Hash, input: Bytes)
    requires h.Valid()
    ensures RootBytes(h, Tree(h, input, 0), 0, 32) == Digest(h, input)
  {}
}
