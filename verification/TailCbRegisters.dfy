/** Every step keeps what is known about signatures, register writes and reads. */
module TailCbRegisters {
  import opened Options
  import opened TailCbProtocol
  import opened TailCbInvariant
  import opened TailCbEchoes

  /** A slot and an incarnation determine the index. */
  lemma OneIndex(c: Config, j: Index, k: Index)
    requires c.tail > 0 && c.Slot(j) == c.Slot(k) && c.Incarnation(j) == c.Incarnation(k)
    ensures j == k
  {
    assert j == (j / c.tail) * c.tail + j % c.tail;
    assert k == (k / c.tail) * c.tail + k % c.tail;
  }

  /** The registers and the history of receiver p. */
  ghost predicate SameRegisters(p: Replica, s: State, s': State) {
    && (forall k: Index :: (p, k) in s'.written <==> (p, k) in s.written)
    && (forall k: Index :: (p, k) in s.written ==> s'.written[(p, k)] == s.written[(p, k)])
    && (forall slot: nat :: Get(s'.last, p, slot) == Get(s.last, p, slot) && Get(s'.done, p, slot) == Get(s.done, p, slot))
    && (forall k: Index, q: Replica :: (p, k, q) in s'.cleared <==> (p, k, q) in s.cleared)
  }

  /** A step that is not about signatures and registers. */
  ghost predicate FastChange(p: Replica, l: Local, l': Local, accepted: map<(Replica, Index), Bytes>) {
    && l'.writes == l.writes && l'.outReads == l.outReads && l'.checks == l.checks
    && forall k: Index :: k in l'.msgs ==>
         if k in l.msgs then l'.msgs[k].data == l.msgs[k].data && l'.msgs[k].sig == l.msgs[k].sig && l'.msgs[k].checked == l.msgs[k].checked
         else (p, k) !in accepted && l'.msgs[k].sig.None? && l'.msgs[k].checked == 0
  }

  lemma FastRegisters(c: Config, p: Replica, l: Local, l': Local, s: State, s': State)
    requires c.tail > 0 && RegisterOk(c, p, l, s)
    requires FastChange(p, l, l', s.accepted) && SameRegisters(p, s, s') && Extends(s.accepted, s'.accepted)
    ensures RegisterOk(c, p, l', s')
  {
    forall k: Index ensures WrittenOk(c, p, k, s') {
      assert WrittenOk(c, p, k, s);
    }
    forall slot: nat ensures SlotOk(c, p, slot, l', s') {
      assert SlotOk(c, p, slot, l, s);
    }
    forall k: Index ensures PhaseOk(c, p, k, l', s') {
      FastPhase(c, p, k, l, l', s, s');
    }
    forall check | check in l'.checks ensures CheckOk(c, p, l', s', check) {
      assert CheckOk(c, p, l, s, check);
    }
  }

  lemma FastPhase(c: Config, p: Replica, k: Index, l: Local, l': Local, s: State, s': State)
    requires c.tail > 0 && WrittenOk(c, p, k, s) && PhaseOk(c, p, k, l, s)
    requires FastChange(p, l, l', s.accepted) && SameRegisters(p, s, s')
    ensures PhaseOk(c, p, k, l', s')
  {
  }

  lemma SignatureRegisters(c: Config, p: Replica, k: Index, sig: Bytes, s: State, s': State)
    requires c.tail > 0 && Sane(c, s) && p < c.n && RegisterOk(c, p, s.locals[p], s) && TailAccepted(p, s.locals[p], s.accepted)
    requires HandleSignature(c, s.locals[p], k, sig).Some?
    requires s'.written == s.written && s'.done == s.done && s'.last == s.last && s'.accepted == s.accepted
    ensures RegisterOk(c, p, HandleSignature(c, s.locals[p], k, sig).value, s')
  {
    var l := s.locals[p];
    var l' := HandleSignature(c, l, k, sig).value;
    hide Config.Slot, Config.Incarnation;
    forall j: Index ensures WrittenOk(c, p, j, s') {
      assert WrittenOk(c, p, j, s);
    }
    forall slot: nat ensures SlotOk(c, p, slot, l', s') {
      assert SlotOk(c, p, slot, l, s);
    }
    forall j: Index ensures PhaseOk(c, p, j, l', s') {
      assert PhaseOk(c, p, j, l, s);
    }
    forall check | check in l'.checks ensures CheckOk(c, p, l', s', check) {
      if check in l.checks {
        assert CheckOk(c, p, l, s, check);
      }
    }
  }

  /** The register takes the accepted message's hash under a verified signature. */
  lemma WriteWritten(c: Config, p: Replica, k: Index, content: Register, s: State, s': State, j: Index)
    requires c.tail > 0 && WrittenOk(c, p, j, s)
    requires (p, k) in s.accepted && content.hash == c.hash(k, s.accepted[(p, k)]) && c.verify(content.sig, content.hash)
    requires Get(s.last, p, c.Slot(k)) < c.Incarnation(k)
    requires s'.written == s.written[(p, k) := content] && s'.last == s.last[(p, c.Slot(k)) := c.Incarnation(k)] && s'.accepted == s.accepted
    ensures WrittenOk(c, p, j, s')
  {
    hide Config.Slot, Config.Incarnation;
  }

  lemma WritePhase(c: Config, p: Replica, k: Index, content: Register, s: State, s': State, l: Local, l': Local, j: Index)
    requires c.tail > 0 && WrittenOk(c, p, k, s) && PhaseOk(c, p, j, l, s)
    requires k in l.msgs && l.msgs[k].sig == Some(content.sig) && c.Slot(k) !in l.writes
    requires Get(s.last, p, c.Slot(k)) < c.Incarnation(k)
    requires s'.written == s.written[(p, k) := content] && s'.last == s.last[(p, c.Slot(k)) := c.Incarnation(k)] && s'.done == s.done
    requires l'.msgs == l.msgs && l'.outReads == l.outReads && l'.writes == l.writes[c.Slot(k) := k]
    ensures PhaseOk(c, p, j, l', s')
  {
    hide Config.Slot, Config.Incarnation;
  }

  lemma WriteRegisters(c: Config, p: Replica, k: Index, content: Register, s: State, s': State, l: Local, l': Local)
    requires c.tail > 0 && RegisterOk(c, p, l, s)
    requires (p, k) in s.accepted && content.hash == c.hash(k, s.accepted[(p, k)]) && c.verify(content.sig, content.hash)
    requires k in l.msgs && l.msgs[k].sig == Some(content.sig) && c.Slot(k) !in l.writes
    requires Get(s.last, p, c.Slot(k)) < c.Incarnation(k)
    requires s'.written == s.written[(p, k) := content] && s'.last == s.last[(p, c.Slot(k)) := c.Incarnation(k)] && s'.accepted == s.accepted && s'.done == s.done
    requires l'.msgs == l.msgs && l'.outReads == l.outReads && l'.writes == l.writes[c.Slot(k) := k] && l'.checks <= l.checks
    ensures RegisterOk(c, p, l', s')
  {
    hide Config.Slot, Config.Incarnation, WrittenOk, PhaseOk;
    forall j: Index ensures WrittenOk(c, p, j, s') {
      WriteWritten(c, p, k, content, s, s', j);
    }
    forall slot: nat ensures SlotOk(c, p, slot, l', s') {
      assert SlotOk(c, p, slot, l, s);
    }
    forall j: Index ensures PhaseOk(c, p, j, l', s') {
      WritePhase(c, p, k, content, s, s', l, l', j);
    }
    forall check | check in l'.checks ensures CheckOk(c, p, l', s', check) {
      assert CheckOk(c, p, l, s, check);
    }
  }

  /** Marking a receiver, forgetting a read or a check, or beginning the check of a read. */
  ghost predicate ReadChange(c: Config, p: Replica, l: Local, l': Local, s: State)
    requires c.tail > 0
  {
    && l'.writes == l.writes && l'.outReads <= l.outReads
    && (forall check :: check in l'.checks ==> check in l.checks || (check.RegisterCheck? && (p, check.index) in s.accepted && ReadOk(c, p, check.index, s)))
    && (forall k: Index :: k in l'.msgs <==> k in l.msgs)
    && forall k: Index :: k in l.msgs ==> l'.msgs[k].data == l.msgs[k].data && l'.msgs[k].sig == l.msgs[k].sig
  }

  lemma ReadRegisters(c: Config, p: Replica, l: Local, l': Local, s: State, s': State)
    requires c.tail > 0 && RegisterOk(c, p, l, s) && ReadChange(c, p, l, l', s)
    requires s'.written == s.written && s'.last == s.last && s'.done == s.done && s'.accepted == s.accepted
    ensures RegisterOk(c, p, l', s')
  {
    hide Config.Slot, Config.Incarnation;
    forall k: Index ensures WrittenOk(c, p, k, s') {
      assert WrittenOk(c, p, k, s);
    }
    forall slot: nat ensures SlotOk(c, p, slot, l', s') {
      assert SlotOk(c, p, slot, l, s);
    }
    forall k: Index ensures PhaseOk(c, p, k, l', s') {
      assert PhaseOk(c, p, k, l, s);
    }
    forall check | check in l'.checks ensures CheckOk(c, p, l', s', check) {
      if check in l.checks {
        assert CheckOk(c, p, l, s, check);
      }
    }
  }

  lemma WrittenRegisters(c: Config, p: Replica, slot: nat, s: State, s': State, begun: set<Read>)
    requires c.tail > 0 && Sane(c, s) && p < c.n && RegisterOk(c, p, s.locals[p], s) && slot in s.locals[p].writes
    requires forall read :: read in begun ==> read.index == s.locals[p].writes[slot]
    requires s'.written == s.written && s'.last == s.last && s'.accepted == s.accepted
    requires s'.done == s.done[(p, slot) := Get(s.last, p, slot)]
    ensures RegisterOk(c, p, HandleWritten(s.locals[p], slot, begun), s')
  {
    var l := s.locals[p];
    var l' := HandleWritten(l, slot, begun);
    hide Config.Slot, Config.Incarnation;
    assert SlotOk(c, p, slot, l, s);
    forall k: Index ensures WrittenOk(c, p, k, s') {
      assert WrittenOk(c, p, k, s);
    }
    forall t: nat ensures SlotOk(c, p, t, l', s') {
      assert SlotOk(c, p, t, l, s);
    }
    forall k: Index ensures PhaseOk(c, p, k, l', s') {
      assert PhaseOk(c, p, k, l, s);
    }
    forall check | check in l'.checks ensures CheckOk(c, p, l', s', check) {
      assert CheckOk(c, p, l, s, check);
    }
  }
}
