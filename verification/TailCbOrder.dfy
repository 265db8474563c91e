/** Every step keeps the order of writes and reads: of two correct receivers that
    write their register and then read the other's, one sees the other's write. */
module TailCbOrder {
  import opened TailCbProtocol
  import opened TailCbInvariant
  import opened TailCbEchoes
  import opened TailCbRegisters
  import opened TailCbCounts

  /** Nothing new was begun or cleared by p about q, and nobody's progress was undone. */
  ghost predicate NothingBegun(c: Config, s: State, s': State, p: Replica, q: Replica, k: Index)
    requires c.tail > 0 && Sane(c, s) && Sane(c, s') && p < c.n && q < c.n
  {
    && (forall f :: Read(k, q, f) in s'.locals[p].outReads ==> Read(k, q, f) in s.locals[p].outReads)
    && (forall w :: RegisterCheck(k, q, w) in s'.locals[p].checks ==> RegisterCheck(k, q, w) in s.locals[p].checks)
    && ((p, k, q) in s'.cleared <==> (p, k, q) in s.cleared)
  }

  /** What stays true of the registers and the accepted messages in any step. */
  ghost predicate Grows(c: Config, s: State, s': State)
  {
    && Extends(s.accepted, s'.accepted)
    && (forall x :: x in s.written ==> x in s'.written && s'.written[x] == s.written[x])
    && (forall p: Replica, slot: nat :: Get(s.done, p, slot) <= Get(s'.done, p, slot))
  }

  lemma AgreeStays(c: Config, s: State, s': State, p: Replica, q: Replica, k: Index)
    requires Extends(s.accepted, s'.accepted) && HashAgree(c, s, p, q, k)
    ensures HashAgree(c, s', p, q, k)
  {}

  lemma LateStays(c: Config, s: State, s': State, q: Replica, p: Replica, k: Index)
    requires c.tail > 0 && Sane(c, s) && Sane(c, s') && p < c.n && q < c.n
    requires Late(c, s, q, p, k) && Grows(c, s, s') && NothingBegun(c, s, s', q, p, k)
    ensures Late(c, s', q, p, k)
  {
    hide Config.Slot, Config.Incarnation;
    if (q, k, p) in s'.cleared {
      AgreeStays(c, s, s', p, q, k);
    }
  }

  /** Reads already known to come late stay late when q moves on. */
  lemma OrderStays(c: Config, s: State, s': State, p: Replica, q: Replica, k: Index)
    requires c.tail > 0 && Sane(c, s) && Sane(c, s') && p < c.n && q < c.n
    requires OrderOk(c, s, p, q, k) && Grows(c, s, s') && NothingBegun(c, s, s', p, q, k)
    requires Late(c, s, q, p, k) ==> Late(c, s', q, p, k)
    ensures OrderOk(c, s', p, q, k)
  {
    hide Config.Slot, Config.Incarnation, Late;
    if (p, k, q) in s'.cleared && HashAgree(c, s, p, q, k) {
      AgreeStays(c, s, s', p, q, k);
    }
  }

  /** Equal signatures over two messages' hashes: the hashes are equal. */
  lemma SameSignature(c: Config, s: State, p: Replica, q: Replica, k: Index)
    requires c.tail > 0 && c.Valid() && WrittenOk(c, p, k, s) && WrittenOk(c, q, k, s)
    requires (p, k) in s.written && (q, k) in s.written && s.written[(p, k)].sig == s.written[(q, k)].sig
    ensures HashAgree(c, s, p, q, k)
  {
    hide Config.Slot, Config.Incarnation;
  }

  /** A read that begins after q wrote index k finds q's register for k. */
  lemma FindsWrite(c: Config, s: State, read: Read, found: Found)
    requires c.tail > 0 && c.Correct(read.owner) && Readable(c, s, read, found)
    requires found.incarnation == c.Incarnation(read.index)
    ensures (read.owner, read.index) in s.written && s.written[(read.owner, read.index)] == found.content
  {
    hide Config.Slot, Config.Incarnation;
    assert found.incarnation != 0 by { Positive(c, read.index); }
    var k: Index :| c.Slot(k) == c.Slot(read.index) && c.Incarnation(k) == found.incarnation &&
      (read.owner, k) in s.written && s.written[(read.owner, k)] == found.content;
    OneIndex(c, k, read.index);
  }

  lemma Positive(c: Config, k: Index)
    requires c.tail > 0
    ensures c.Incarnation(k) > 0
  {}

  /** When p completes a late read of q, the signatures agree or p checks q's register. */
  lemma ReadAgrees(c: Config, s: State, p: Replica, read: Read, found: Found)
    requires c.tail > 0 && c.Valid() && Sane(c, s) && c.Correct(p) && c.Correct(read.owner)
    requires read in s.locals[p].outReads && RegisterOk(c, p, s.locals[p], s) && WrittenOk(c, read.owner, read.index, s)
    requires Readable(c, s, read, found) && Cleared(c, s.locals[p], read, found) && HandleRead(c, s.locals[p], read, found).Some?
    requires c.Incarnation(read.index) <= read.floor
    ensures HashAgree(c, s, p, read.owner, read.index)
  {
    var k, q := read.index, read.owner;
    assert PhaseOk(c, p, k, s.locals[p], s);
    assert found.incarnation == c.Incarnation(k);
    assert WrittenOk(c, p, k, s);
    FindsWrite(c, s, read, found);
    hide Config.Slot, Config.Incarnation, WrittenOk;
    SameSignature(c, s, p, q, k);
  }

  /** The step completes a read of p about q for k. */
  lemma CompletedOrder(c: Config, s: State, s': State, p: Replica, read: Read, found: Found)
    requires c.tail > 0 && Sane(c, s) && Sane(c, s') && p < c.n && read.owner < c.n
    requires OrderOk(c, s, p, read.owner, read.index) && OnceOk(c, p, read.index, read.owner, s.locals[p], s)
    requires Late(c, s, read.owner, p, read.index) ==> Late(c, s', read.owner, p, read.index)
    requires read in s.locals[p].outReads && ReadDone(p, read, s.locals[p], s'.locals[p], s, s', found.content)
    requires s'.accepted == s.accepted
    requires s'.locals[p].checks != s.locals[p].checks ==>
      (read.owner, read.index) in s.written && s.written[(read.owner, read.index)] == found.content
    requires (p, read.index, read.owner) in s'.cleared && c.Incarnation(read.index) <= read.floor ==> HashAgree(c, s, p, read.owner, read.index)
    ensures OrderOk(c, s', p, read.owner, read.index)
  {
    var k, q := read.index, read.owner;
    assert read == Read(k, q, read.floor);
    assert Token(p, k, q, s.locals[p], s);
    hide Config.Slot, Config.Incarnation, Late, ReadOk;
    assert forall f :: Read(k, q, f) !in s'.locals[p].outReads;
  }

  /** Other reads of p, and what is about other receivers, are as before. */
  lemma ReadBegunNothing(c: Config, s: State, s': State, p: Replica, read: Read, found: Found, a: Replica, b: Replica, k: Index)
    requires c.tail > 0 && Sane(c, s) && Sane(c, s') && p < c.n && a < c.n && b < c.n
    requires ReadDone(p, read, s.locals[p], s'.locals[p], s, s', found.content)
    requires s'.locals == s.locals[p := s'.locals[p]]
    requires a != p || b != read.owner || k != read.index
    ensures NothingBegun(c, s, s', a, b, k)
  {}

  lemma CompletedShape(c: Config, s: State, s': State, p: Replica, read: Read, found: Found)
    requires c.tail > 0 && Sane(c, s) && c.Correct(p) && Next(c, s, Completed(p, read, found), s')
    ensures Sane(c, s')
    ensures ReadDone(p, read, s.locals[p], s'.locals[p], s, s', found.content)
    ensures s'.locals == s.locals[p := s'.locals[p]] && s'.accepted == s.accepted
    ensures HandleRead(c, s.locals[p], read, found).Some? && Readable(c, s, read, found) && read in s.locals[p].outReads
    ensures s'.locals[p].checks != s.locals[p].checks ==> found.incarnation == c.Incarnation(read.index)
    ensures (p, read.index, read.owner) in s'.cleared ==> Cleared(c, s.locals[p], read, found) || (p, read.index, read.owner) in s.cleared
  {
    hide Config.Slot, Config.Incarnation, Readable;
  }

  lemma ReadOrder(c: Config, s: State, s': State, read: Read, found: Found, p: Replica)
    requires c.tail > 0 && c.Valid() && Inv(c, s) && c.Correct(p) && Next(c, s, Completed(p, read, found), s')
    requires c.Correct(read.owner) && read.owner != p
    ensures Sane(c, s') && OrderOk(c, s', p, read.owner, read.index)
  {
    var k, q, l := read.index, read.owner, s.locals[p];
    assert OrderOk(c, s, p, q, k) && RegisterOk(c, p, l, s) && CountOk(c, p, l, s) && RegisterOk(c, q, s.locals[q], s);
    assert OnceOk(c, p, k, q, l, s);
    assert WrittenOk(c, q, k, s);
    CompletedShape(c, s, s', p, read, found);
    hide Inv, Next, Config.Slot, Config.Incarnation, RegisterOk, WrittenOk, Late, CountOk, OrderOk, OnceOk, HandleRead, Cleared, Readable, HashAgree;
    ReadFresh(c, p, k, q, read.floor, l, s);
    if Late(c, s, q, p, k) {
      ReadBegunNothing(c, s, s', p, read, found, q, p, k);
      GrowsRefl(c, s, s');
      LateStays(c, s, s', q, p, k);
    }
    if s'.locals[p].checks != s.locals[p].checks {
      FindsWrite(c, s, read, found);
    }
    if (p, k, q) in s'.cleared && c.Incarnation(k) <= read.floor {
      ReadAgrees(c, s, p, read, found);
    }
    CompletedOrder(c, s, s', p, read, found);
  }

  lemma GrowsRefl(c: Config, s: State, s': State)
    requires s'.accepted == s.accepted && s'.written == s.written && s'.done == s.done
    ensures Grows(c, s, s')
  {}

  /** A pair about which nothing happens keeps its order. */
  lemma PairStays(c: Config, s: State, s': State, p: Replica, q: Replica, k: Index)
    requires c.tail > 0 && Sane(c, s) && Sane(c, s') && p < c.n && q < c.n
    requires OrderOk(c, s, p, q, k) && Grows(c, s, s') && NothingBegun(c, s, s', p, q, k) && NothingBegun(c, s, s', q, p, k)
    ensures OrderOk(c, s', p, q, k)
  {
    hide Config.Slot, Config.Incarnation, Grows, NothingBegun, Late, OrderOk;
    if Late(c, s, q, p, k) {
      LateStays(c, s, s', q, p, k);
    }
    OrderStays(c, s, s', p, q, k);
  }

  // ---------- The completion of a write ----------

  lemma WrittenShape(c: Config, s: State, s': State, p: Replica, slot: nat)
    requires c.tail > 0 && Sane(c, s) && c.Correct(p) && Next(c, s, Written(p, slot), s')
    ensures Sane(c, s') && slot in s.locals[p].writes
    ensures s'.locals == s.locals[p := s'.locals[p]] && s'.accepted == s.accepted && s'.written == s.written && s'.cleared == s.cleared && s'.last == s.last
    ensures s'.done == s.done[(p, slot) := Get(s.last, p, slot)]
    ensures s'.locals[p] == HandleWritten(s.locals[p], slot, ReadsOf(c, s, p, s.locals[p].writes[slot]))
    ensures s'.locals[p].checks == s.locals[p].checks
    ensures forall k: Index, q: Replica, f ::
              Read(k, q, f) in s'.locals[p].outReads && Read(k, q, f) !in s.locals[p].outReads ==>
                k == s.locals[p].writes[slot] && q != p && f == Get(s.done, q, c.Slot(k))
  {
    hide Config.Slot, Config.Incarnation, Readable;
  }

  lemma WrittenGrows(c: Config, s: State, s': State, p: Replica, slot: nat)
    requires c.tail > 0 && Sane(c, s) && p < c.n && RegisterOk(c, p, s.locals[p], s) && slot in s.locals[p].writes
    requires s'.accepted == s.accepted && s'.written == s.written && s'.done == s.done[(p, slot) := Get(s.last, p, slot)]
    ensures Grows(c, s, s')
    ensures Done(c, s', p, s.locals[p].writes[slot]) && c.Slot(s.locals[p].writes[slot]) == slot
  {
    var l := s.locals[p];
    assert SlotOk(c, p, slot, l, s) && PhaseOk(c, p, l.writes[slot], l, s);
    hide Config.Slot, Config.Incarnation;
  }

  /** The writer p begins to read q. */
  lemma WriterOrder(c: Config, s: State, s': State, p: Replica, q: Replica, slot: nat)
    requires c.tail > 0 && Inv(c, s) && c.Correct(p) && c.Correct(q) && p != q && Next(c, s, Written(p, slot), s')
    ensures Sane(c, s') && slot in s.locals[p].writes && OrderOk(c, s', p, q, s.locals[p].writes[slot])
  {
    WrittenShape(c, s, s', p, slot);
    var k := s.locals[p].writes[slot];
    assert OrderOk(c, s, p, q, k) && RegisterOk(c, p, s.locals[p], s) && CountOk(c, p, s.locals[p], s) && CountOk(c, q, s.locals[q], s);
    assert OnceOk(c, p, k, q, s.locals[p], s) && OnceOk(c, q, k, p, s.locals[q], s);
    WrittenGrows(c, s, s', p, slot);
    hide Inv, Next, Config.Slot, Config.Incarnation, HandleWritten, ReadsOf, RegisterOk, CountOk;
    assert !Token(p, k, q, s.locals[p], s);
    if !Done(c, s, q, k) {
      assert !Token(q, k, p, s.locals[q], s);
      assert Late(c, s', q, p, k);
    }
  }

  /** Another receiver's view of the writer p. */
  lemma ReaderOrder(c: Config, s: State, s': State, p: Replica, q: Replica, slot: nat)
    requires c.tail > 0 && Inv(c, s) && c.Correct(p) && c.Correct(q) && p != q && Next(c, s, Written(p, slot), s')
    ensures Sane(c, s') && slot in s.locals[p].writes && OrderOk(c, s', q, p, s.locals[p].writes[slot])
  {
    WrittenShape(c, s, s', p, slot);
    var k := s.locals[p].writes[slot];
    assert OrderOk(c, s, q, p, k) && RegisterOk(c, p, s.locals[p], s);
    WrittenGrows(c, s, s', p, slot);
    hide Inv, Next, Config.Slot, Config.Incarnation, HandleWritten, ReadsOf, RegisterOk;
    assert Late(c, s, p, q, k) ==> Late(c, s', p, q, k);
    OrderStays(c, s, s', q, p, k);
  }

  lemma WrittenOrder(c: Config, s: State, s': State, w: Replica, slot: nat, p: Replica, q: Replica, k: Index)
    requires c.tail > 0 && Inv(c, s) && c.Correct(w) && c.Correct(p) && c.Correct(q) && p != q && Next(c, s, Written(w, slot), s')
    ensures Sane(c, s') && OrderOk(c, s', p, q, k)
  {
    WrittenShape(c, s, s', w, slot);
    assert OrderOk(c, s, p, q, k) && RegisterOk(c, w, s.locals[w], s);
    WrittenGrows(c, s, s', w, slot);
    hide Inv, Config.Slot, Config.Incarnation, HandleWritten, ReadsOf, RegisterOk, OrderOk;
    if k == s.locals[w].writes[slot] && p == w {
      WriterOrder(c, s, s', p, q, slot);
    } else if k == s.locals[w].writes[slot] && q == w {
      ReaderOrder(c, s, s', q, p, slot);
    } else {
      hide Next, Grows;
      PairStays(c, s, s', p, q, k);
    }
  }

  // ---------- The other steps ----------

  /** A register of a correct receiver passes its check, so its owner is not cleared by it. */
  lemma CheckedRegister(c: Config, s: State, p: Replica, check: Check, q: Replica, last: nat)
    requires c.tail > 0 && Inv(c, s) && c.Correct(p) && c.Correct(q) && p != q
    requires check in s.locals[p].checks && check.RegisterCheck? && check.owner == q
    requires check.index in s.locals[p].msgs
    ensures HandleCheck(c, s.locals[p], check, last).None?
  {
    assert OrderOk(c, s, p, q, check.index) && RegisterOk(c, q, s.locals[q], s);
    assert WrittenOk(c, q, check.index, s);
    hide Inv, Config.Slot, Config.Incarnation, RegisterOk;
  }

  lemma VerifiedShape(c: Config, s: State, s': State, p: Replica, check: Check)
    requires c.tail > 0 && Sane(c, s) && c.Correct(p) && Next(c, s, Verified(p, check), s')
    ensures Sane(c, s') && check in s.locals[p].checks
    ensures HandleCheck(c, s.locals[p], check, Get(s.last, p, c.Slot(check.index))).Some?
    ensures s'.locals == s.locals[p := s'.locals[p]] && s'.accepted == s.accepted && s'.done == s.done
    ensures s'.locals[p].outReads == s.locals[p].outReads && s'.locals[p].checks == s.locals[p].checks - multiset{check}
    ensures s'.last == s.last || s'.last == s.last[(p, c.Slot(check.index)) := c.Incarnation(check.index)]
    ensures s'.cleared == s.cleared || (check.RegisterCheck? && check.index in s.locals[p].msgs && s'.cleared == s.cleared + {(p, check.index, check.owner)})
    ensures s'.written == s.written || (check.OwnCheck? && check.index in s.locals[p].msgs && c.Incarnation(check.index) > Get(s.last, p, c.Slot(check.index)) &&
              (p, check.index) in s'.written && s'.written == s.written[(p, check.index) := s'.written[(p, check.index)]])
  {
    hide Config.Slot, Config.Incarnation, Readable;
  }

  lemma VerifiedCleared(c: Config, s: State, s': State, w: Replica, check: Check, p: Replica, q: Replica, k: Index)
    requires c.tail > 0 && Inv(c, s) && c.Correct(w) && c.Correct(q) && p != q && Next(c, s, Verified(w, check), s')
    ensures (p, k, q) in s'.cleared <==> (p, k, q) in s.cleared
  {
    VerifiedShape(c, s, s', w, check);
    if check.RegisterCheck? && check.index in s.locals[w].msgs && check.owner == q && p == w {
      CheckedRegister(c, s, w, check, q, Get(s.last, w, c.Slot(check.index)));
    }
    hide Inv, Next, Config.Slot, Config.Incarnation, HandleCheck;
  }

  lemma VerifiedGrows(c: Config, s: State, s': State, w: Replica, check: Check)
    requires c.tail > 0 && Inv(c, s) && c.Correct(w) && Next(c, s, Verified(w, check), s')
    ensures Grows(c, s, s')
  {
    VerifiedShape(c, s, s', w, check);
    assert RegisterOk(c, w, s.locals[w], s);
    assert WrittenOk(c, w, check.index, s);
    hide Inv, Next, Config.Slot, Config.Incarnation, RegisterOk, HandleCheck;
  }

  lemma VerifiedBegunNothing(c: Config, s: State, s': State, w: Replica, check: Check, p: Replica, q: Replica, k: Index)
    requires c.tail > 0 && Inv(c, s) && c.Correct(w) && c.Correct(p) && c.Correct(q) && p != q && Next(c, s, Verified(w, check), s')
    ensures Sane(c, s') && NothingBegun(c, s, s', p, q, k)
  {
    VerifiedShape(c, s, s', w, check);
    VerifiedCleared(c, s, s', w, check, p, q, k);
    hide Inv, Next, Config.Slot, Config.Incarnation, HandleCheck;
  }

  lemma VerifiedOrder(c: Config, s: State, s': State, w: Replica, check: Check, p: Replica, q: Replica, k: Index)
    requires c.tail > 0 && Inv(c, s) && c.Correct(w) && c.Correct(p) && c.Correct(q) && p != q && Next(c, s, Verified(w, check), s')
    ensures Sane(c, s') && OrderOk(c, s', p, q, k)
  {
    assert OrderOk(c, s, p, q, k);
    hide Next, Config.Slot, Config.Incarnation, OrderOk, NothingBegun, Grows;
    VerifiedGrows(c, s, s', w, check);
    VerifiedBegunNothing(c, s, s', w, check, p, q, k);
    VerifiedBegunNothing(c, s, s', w, check, q, p, k);
    PairStays(c, s, s', p, q, k);
  }
}
