/** Every step keeps the count of checked receivers: each is checked once per index. */
module TailCbCounts {
  import opened TailCbProtocol
  import opened TailCbInvariant
  import opened TailCbRegisters

  lemma SameCleared(c: Config, p: Replica, s: State, s': State, k: Index)
    requires forall q: Replica :: (p, k, q) in s'.cleared <==> (p, k, q) in s.cleared
    ensures ClearedBy(c, s', p, k) == ClearedBy(c, s, p, k)
  {}

  lemma NoneCleared(c: Config, p: Replica, s: State, k: Index)
    requires forall q: Replica :: (p, k, q) !in s.cleared
    ensures |ClearedBy(c, s, p, k)| == 0
  {
    assert ClearedBy(c, s, p, k) == {};
  }

  lemma OneMoreCleared(c: Config, p: Replica, s: State, s': State, k: Index, q: Replica)
    requires q < c.n && (p, k, q) !in s.cleared && s'.cleared == s.cleared + {(p, k, q)}
    ensures |ClearedBy(c, s', p, k)| == |ClearedBy(c, s, p, k)| + 1
  {
    assert ClearedBy(c, s', p, k) == ClearedBy(c, s, p, k) + {q};
  }

  lemma FastOnce(c: Config, p: Replica, k: Index, q: Replica, l: Local, l': Local, s: State, s': State)
    requires c.tail > 0 && OnceOk(c, p, k, q, l, s)
    requires FastChange(p, l, l', s.accepted) && SameRegisters(p, s, s')
    ensures OnceOk(c, p, k, q, l', s')
  {
    hide Config.Slot, Config.Incarnation;
  }

  lemma FastChecked(c: Config, p: Replica, k: Index, l: Local, l': Local, s: State, s': State)
    requires c.tail > 0 && CountOk(c, p, l, s) && WrittenOk(c, p, k, s)
    requires FastChange(p, l, l', s.accepted) && SameRegisters(p, s, s')
    ensures CheckedOk(c, p, k, l', s')
  {
    hide Config.Slot, Config.Incarnation;
    assert CheckedOk(c, p, k, l, s);
    if k in l'.msgs {
      SameCleared(c, p, s, s', k);
      if k !in l.msgs {
        forall q: Replica ensures (p, k, q) !in s.cleared {
          assert OnceOk(c, p, k, q, l, s);
          assert (p, k, q) in s.cleared ==> Token(p, k, q, l, s);
        }
        NoneCleared(c, p, s, k);
      }
    }
  }

  lemma FastCounts(c: Config, p: Replica, l: Local, l': Local, s: State, s': State)
    requires c.tail > 0 && CountOk(c, p, l, s) && RegisterOk(c, p, l, s)
    requires FastChange(p, l, l', s.accepted) && SameRegisters(p, s, s')
    ensures CountOk(c, p, l', s')
  {
    hide Config.Slot, Config.Incarnation, OnceOk, FastChange, SameRegisters, WrittenOk, PhaseOk, SlotOk, CheckOk;
    forall k: Index, q: Replica ensures OnceOk(c, p, k, q, l', s') {
      assert OnceOk(c, p, k, q, l, s);
      FastOnce(c, p, k, q, l, l', s, s');
    }
    forall k: Index ensures CheckedOk(c, p, k, l', s') {
      assert WrittenOk(c, p, k, s);
      FastChecked(c, p, k, l, l', s, s');
    }
  }

  /** A signature arrives: nothing is checked by it. */
  lemma SignatureOnce(c: Config, p: Replica, k: Index, check: Check, j: Index, q: Replica, l: Local, l': Local, s: State, s': State)
    requires c.tail > 0 && OnceOk(c, p, j, q, l, s) && check.OwnCheck?
    requires l'.outReads == l.outReads && l'.writes == l.writes && l'.checks == l.checks + multiset{check}
    requires s'.written == s.written && s'.done == s.done && s'.cleared == s.cleared
    ensures OnceOk(c, p, j, q, l', s')
  {
    hide Config.Slot, Config.Incarnation;
    assert forall w :: l'.checks[RegisterCheck(j, q, w)] == l.checks[RegisterCheck(j, q, w)];
    assert forall w :: RegisterCheck(j, q, w) in l'.checks <==> RegisterCheck(j, q, w) in l.checks;
    assert Token(p, j, q, l', s') ==> Token(p, j, q, l, s);
  }

  lemma SameOnce(c: Config, p: Replica, j: Index, q: Replica, l: Local, s: State, s': State)
    requires c.tail > 0 && OnceOk(c, p, j, q, l, s)
    requires s'.written == s.written && s'.done == s.done && s'.cleared == s.cleared
    ensures OnceOk(c, p, j, q, l, s')
  {
    hide Config.Slot, Config.Incarnation;
  }

  lemma SignatureCounts(c: Config, p: Replica, k: Index, sig: Bytes, s: State, s': State)
    requires c.tail > 0 && Sane(c, s) && p < c.n && CountOk(c, p, s.locals[p], s)
    requires HandleSignature(c, s.locals[p], k, sig).Some?
    requires s'.written == s.written && s'.done == s.done && s'.cleared == s.cleared
    ensures CountOk(c, p, HandleSignature(c, s.locals[p], k, sig).value, s')
  {
    var l := s.locals[p];
    var l' := HandleSignature(c, l, k, sig).value;
    hide Config.Slot, Config.Incarnation, OnceOk;
    forall j: Index, q: Replica ensures OnceOk(c, p, j, q, l', s') {
      assert OnceOk(c, p, j, q, l, s);
      if k in l.msgs {
        SignatureOnce(c, p, k, OwnCheck(k, c.hash(k, l.msgs[k].data), sig), j, q, l, l', s, s');
      } else {
        SameOnce(c, p, j, q, l, s, s');
      }
    }
    forall j: Index ensures CheckedOk(c, p, j, l', s') {
      assert CheckedOk(c, p, j, l, s);
      SameCleared(c, p, s, s', j);
    }
  }

  /** No receiver is checked for index k before it is written. */
  lemma WriteOnce(c: Config, p: Replica, k: Index, j: Index, q: Replica, l: Local, l': Local, s: State, s': State)
    requires c.tail > 0 && OnceOk(c, p, j, q, l, s) && SlotOk(c, p, c.Slot(j), l, s)
    requires Get(s.last, p, c.Slot(k)) < c.Incarnation(k)
    requires l'.outReads == l.outReads && l'.writes == l.writes[c.Slot(k) := k]
    requires forall w :: l'.checks[RegisterCheck(j, q, w)] == l.checks[RegisterCheck(j, q, w)]
    requires s'.cleared == s.cleared && s'.done == s.done && forall x :: x in s.written ==> x in s'.written
    ensures OnceOk(c, p, j, q, l', s')
  {
    hide Config.Slot, Config.Incarnation;
    assert forall w :: RegisterCheck(j, q, w) in l'.checks <==> RegisterCheck(j, q, w) in l.checks;
    assert Token(p, j, q, l', s') ==> Token(p, j, q, l, s);
  }

  lemma WriteCounts(c: Config, p: Replica, k: Index, l: Local, l': Local, s: State, s': State)
    requires c.tail > 0 && CountOk(c, p, l, s) && RegisterOk(c, p, l, s)
    requires Get(s.last, p, c.Slot(k)) < c.Incarnation(k)
    requires l'.msgs == l.msgs && l'.outReads == l.outReads && l'.writes == l.writes[c.Slot(k) := k]
    requires forall j, q, w :: l'.checks[RegisterCheck(j, q, w)] == l.checks[RegisterCheck(j, q, w)]
    requires s'.cleared == s.cleared && s'.done == s.done && forall x :: x in s.written ==> x in s'.written
    ensures CountOk(c, p, l', s')
  {
    hide Config.Slot, Config.Incarnation, OnceOk, WrittenOk, PhaseOk, SlotOk, CheckOk;
    forall j: Index, q: Replica ensures OnceOk(c, p, j, q, l', s') {
      assert OnceOk(c, p, j, q, l, s) && SlotOk(c, p, c.Slot(j), l, s);
      WriteOnce(c, p, k, j, q, l, l', s, s');
    }
    forall j: Index ensures CheckedOk(c, p, j, l', s') {
      assert CheckedOk(c, p, j, l, s);
      SameCleared(c, p, s, s', j);
    }
  }

  /** The check of a register finishes: its owner is cleared if the message is still in the tail. */
  ghost predicate CheckDone(p: Replica, k: Index, o: Replica, w: Register, l: Local, l': Local, s: State, s': State) {
    && l'.outReads == l.outReads && l'.writes == l.writes && l'.checks == l.checks - multiset{RegisterCheck(k, o, w)}
    && (s'.cleared == s.cleared || s'.cleared == s.cleared + {(p, k, o)})
    && s'.done == s.done && s'.written == s.written
  }

  lemma ClearOnceOther(c: Config, p: Replica, k: Index, o: Replica, w: Register, j: Index, q: Replica, l: Local, l': Local, s: State, s': State)
    requires c.tail > 0 && OnceOk(c, p, j, q, l, s) && CheckDone(p, k, o, w, l, l', s, s') && (j != k || q != o)
    ensures OnceOk(c, p, j, q, l', s')
  {
    hide Config.Slot, Config.Incarnation;
    assert forall x :: l'.checks[RegisterCheck(j, q, x)] == l.checks[RegisterCheck(j, q, x)];
    assert forall x :: RegisterCheck(j, q, x) in l'.checks <==> RegisterCheck(j, q, x) in l.checks;
    assert Token(p, j, q, l', s') ==> Token(p, j, q, l, s);
  }

  lemma ClearOnce(c: Config, p: Replica, k: Index, o: Replica, w: Register, l: Local, l': Local, s: State, s': State)
    requires c.tail > 0 && OnceOk(c, p, k, o, l, s) && RegisterCheck(k, o, w) in l.checks && CheckDone(p, k, o, w, l, l', s, s')
    ensures OnceOk(c, p, k, o, l', s')
  {
    hide Config.Slot, Config.Incarnation;
    assert Token(p, k, o, l, s);
    assert l.checks[RegisterCheck(k, o, w)] == 1;
    assert forall x :: RegisterCheck(k, o, x) in l'.checks ==> RegisterCheck(k, o, x) in l.checks;
    assert forall x :: RegisterCheck(k, o, x) !in l'.checks;
  }

  lemma ClearCounts(c: Config, p: Replica, k: Index, o: Replica, w: Register, l: Local, l': Local, s: State, s': State)
    requires c.tail > 0 && CountOk(c, p, l, s) && RegisterCheck(k, o, w) in l.checks
    requires l' == if k in l.msgs then Checked(l.(checks := l.checks - multiset{RegisterCheck(k, o, w)}), k) else l.(checks := l.checks - multiset{RegisterCheck(k, o, w)})
    requires s'.cleared == if k in l.msgs then s.cleared + {(p, k, o)} else s.cleared
    requires s'.done == s.done && s'.written == s.written
    ensures CountOk(c, p, l', s')
  {
    hide Config.Slot, Config.Incarnation, OnceOk;
    forall j: Index, q: Replica ensures OnceOk(c, p, j, q, l', s') {
      assert OnceOk(c, p, j, q, l, s);
      if j == k && q == o {
        ClearOnce(c, p, k, o, w, l, l', s, s');
      } else {
        ClearOnceOther(c, p, k, o, w, j, q, l, l', s, s');
      }
    }
    CheckFresh(c, p, k, o, w, l, s);
    forall j: Index ensures CheckedOk(c, p, j, l', s') {
      assert CheckedOk(c, p, j, l, s);
      if j == k && k in l.msgs {
        OneMoreCleared(c, p, s, s', k, o);
      } else {
        SameCleared(c, p, s, s', j);
      }
    }
  }

  lemma CheckFresh(c: Config, p: Replica, k: Index, o: Replica, w: Register, l: Local, s: State)
    requires c.tail > 0 && CountOk(c, p, l, s) && RegisterCheck(k, o, w) in l.checks
    ensures o < c.n && (p, k, o) !in s.cleared
  {
    hide Config.Slot, Config.Incarnation, ReadOk;
    assert OnceOk(c, p, k, o, l, s);
  }

  lemma ReadFresh(c: Config, p: Replica, k: Index, o: Replica, f: nat, l: Local, s: State)
    requires c.tail > 0 && CountOk(c, p, l, s) && Read(k, o, f) in l.outReads
    ensures o < c.n && (p, k, o) !in s.cleared
  {
    hide Config.Slot, Config.Incarnation, ReadOk;
    assert OnceOk(c, p, k, o, l, s);
  }

  /** A read completes: it is forgotten, or its owner is cleared, or its content checked. */
  ghost predicate ReadDone(p: Replica, read: Read, l: Local, l': Local, s: State, s': State, w: Register) {
    && l'.outReads == l.outReads - {read} && l'.writes == l.writes && s'.done == s.done && s'.written == s.written
    && if l'.checks == l.checks then s'.cleared == s.cleared || s'.cleared == s.cleared + {(p, read.index, read.owner)}
       else l'.checks == l.checks + multiset{RegisterCheck(read.index, read.owner, w)} && s'.cleared == s.cleared
  }

  lemma ReadOnceOther(c: Config, p: Replica, read: Read, j: Index, q: Replica, l: Local, l': Local, s: State, s': State, w: Register)
    requires c.tail > 0 && OnceOk(c, p, j, q, l, s) && ReadDone(p, read, l, l', s, s', w)
    requires read.index != j || read.owner != q
    ensures OnceOk(c, p, j, q, l', s')
  {
    hide Config.Slot, Config.Incarnation;
    assert forall f :: Read(j, q, f) in l'.outReads <==> Read(j, q, f) in l.outReads;
    assert forall x :: l'.checks[RegisterCheck(j, q, x)] == l.checks[RegisterCheck(j, q, x)];
    assert forall x :: RegisterCheck(j, q, x) in l'.checks <==> RegisterCheck(j, q, x) in l.checks;
    assert Token(p, j, q, l', s') ==> Token(p, j, q, l, s);
  }

  lemma ReadOnce(c: Config, p: Replica, read: Read, l: Local, l': Local, s: State, s': State, w: Register)
    requires c.tail > 0 && OnceOk(c, p, read.index, read.owner, l, s) && read in l.outReads && ReadDone(p, read, l, l', s, s', w)
    ensures OnceOk(c, p, read.index, read.owner, l', s')
  {
    hide Config.Slot, Config.Incarnation;
    var k, q := read.index, read.owner;
    assert read == Read(k, q, read.floor);
    assert Token(p, k, q, l, s);
    assert forall f :: Read(k, q, f) !in l'.outReads;
    assert forall x :: RegisterCheck(k, q, x) !in l.checks;
    forall x ensures RegisterCheck(k, q, x) in l'.checks ==> x == w && l'.checks[RegisterCheck(k, q, x)] == 1 && (p, k, q) !in s'.cleared {
      assert l.checks[RegisterCheck(k, q, x)] == 0;
    }
  }

  lemma ReadCounts(c: Config, p: Replica, read: Read, found: Found, l: Local, s: State, s': State)
    requires c.tail > 0 && CountOk(c, p, l, s) && read in l.outReads && HandleRead(c, l, read, found).Some?
    requires s'.cleared == if Cleared(c, l, read, found) then s.cleared + {(p, read.index, read.owner)} else s.cleared
    requires s'.done == s.done && s'.written == s.written
    ensures CountOk(c, p, HandleRead(c, l, read, found).value, s')
  {
    var l' := HandleRead(c, l, read, found).value;
    var k, o := read.index, read.owner;
    assert ReadDone(p, read, l, l', s, s', found.content);
    hide Config.Slot, Config.Incarnation, OnceOk;
    forall j: Index, q: Replica ensures OnceOk(c, p, j, q, l', s') {
      assert OnceOk(c, p, j, q, l, s);
      if j == k && q == o {
        ReadOnce(c, p, read, l, l', s, s', found.content);
      } else {
        ReadOnceOther(c, p, read, j, q, l, l', s, s', found.content);
      }
    }
    ReadFresh(c, p, k, o, read.floor, l, s);
    forall j: Index ensures CheckedOk(c, p, j, l', s') {
      assert CheckedOk(c, p, j, l, s);
      if j == k && Cleared(c, l, read, found) {
        OneMoreCleared(c, p, s, s', k, o);
      } else {
        SameCleared(c, p, s, s', j);
      }
    }
  }

  /** A write completes: every other receiver's register is read, once. */
  lemma WrittenOnce(c: Config, p: Replica, slot: nat, j: Index, q: Replica, l: Local, s: State, s': State)
    requires c.tail > 0 && OnceOk(c, p, j, q, l, s) && slot in l.writes && PhaseOk(c, p, l.writes[slot], l, s) && SlotOk(c, p, slot, l, s)
    requires Get(s.done, p, slot) <= Get(s.last, p, slot)
    requires s'.written == s.written && s'.cleared == s.cleared && s'.done == s.done[(p, slot) := Get(s.last, p, slot)]
    ensures OnceOk(c, p, j, q, HandleWritten(l, slot, ReadsOf(c, s, p, l.writes[slot])), s')
  {
    hide Config.Slot, Config.Incarnation;
    assert (p, j, q) in s.cleared ==> Token(p, j, q, l, s);
  }

  lemma WrittenCounts(c: Config, p: Replica, slot: nat, l: Local, s: State, s': State)
    requires c.tail > 0 && CountOk(c, p, l, s) && RegisterOk(c, p, l, s) && slot in l.writes
    requires s'.written == s.written && s'.cleared == s.cleared && s'.done == s.done[(p, slot) := Get(s.last, p, slot)]
    ensures CountOk(c, p, HandleWritten(l, slot, ReadsOf(c, s, p, l.writes[slot])), s')
  {
    var l' := HandleWritten(l, slot, ReadsOf(c, s, p, l.writes[slot]));
    assert SlotOk(c, p, slot, l, s) && PhaseOk(c, p, l.writes[slot], l, s);
    hide Config.Slot, Config.Incarnation, OnceOk, PhaseOk, WrittenOk, CheckOk, ReadsOf;
    forall j: Index, q: Replica ensures OnceOk(c, p, j, q, l', s') {
      assert OnceOk(c, p, j, q, l, s);
      WrittenOnce(c, p, slot, j, q, l, s, s');
    }
    forall j: Index ensures CheckedOk(c, p, j, l', s') {
      assert CheckedOk(c, p, j, l, s);
      SameCleared(c, p, s, s', j);
    }
  }
}
