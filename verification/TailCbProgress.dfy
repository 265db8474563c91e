/** The slow path never gets stuck: a message with a signature waits for its own check, for the write,
    for a read or for the check of what was read; if for none of them, it can be delivered. */
module TailCbProgress {
  import opened Options
  import opened Quorums
  import opened TailCbProtocol
  import opened TailCbInvariant
  import opened TailCbFrames
  import Arrival = TailCbArrival
  import Consistency = TailCbConsistency

  ghost predicate Pending(c: Config, k: Index, l: Local)
    requires c.tail > 0
  {
    c.Slot(k) in l.writes && l.writes[c.Slot(k)] == k
  }

  /** What the message of index k, with its signature, waits for at receiver p. */
  ghost predicate UnderWay(c: Config, p: Replica, k: Index, l: Local, s: State)
    requires c.tail > 0
  {
    k in l.msgs && l.msgs[k].sig.Some? ==>
      if (p, k) !in s.written then OwnCheck(k, c.hash(k, l.msgs[k].data), l.msgs[k].sig.value) in l.checks
      else Pending(c, k, l) || forall q: Replica :: q < c.n && q != p ==> Token(p, k, q, l, s)
  }

  ghost predicate AllUnderWay(c: Config, p: Replica, s: State)
    requires c.tail > 0 && p < |s.locals|
  {
    forall k: Index :: UnderWay(c, p, k, s.locals[p], s)
  }

  // ---------- Every step keeps it ----------

  lemma SameUnderWay(c: Config, p: Replica, k: Index, l: Local, l': Local, s: State, s': State)
    requires c.tail > 0 && UnderWay(c, p, k, l, s)
    requires l'.writes == l.writes && l'.outReads == l.outReads && l'.checks == l.checks
    requires k in l'.msgs && l'.msgs[k].sig.Some? ==> k in l.msgs && l'.msgs[k].sig == l.msgs[k].sig && l'.msgs[k].data == l.msgs[k].data
    requires (p, k) in s'.written <==> (p, k) in s.written
    requires forall q: Replica :: (p, k, q) in s'.cleared <==> (p, k, q) in s.cleared
    ensures UnderWay(c, p, k, l', s')
  {
    hide Config.Slot;
    assert forall q :: Token(p, k, q, l, s) ==> Token(p, k, q, l', s');
  }

  lemma SignatureUnderWay(c: Config, p: Replica, j: Index, sig: Bytes, k: Index, l: Local, s: State, s': State)
    requires c.tail > 0 && UnderWay(c, p, k, l, s) && PhaseOk(c, p, k, l, s) && HandleSignature(c, l, j, sig).Some?
    requires s'.written == s.written && s'.cleared == s.cleared
    ensures UnderWay(c, p, k, HandleSignature(c, l, j, sig).value, s')
  {
    hide Config.Slot;
    var l' := HandleSignature(c, l, j, sig).value;
    assert forall q :: Token(p, k, q, l, s) ==> Token(p, k, q, l', s');
  }

  lemma OwnUnderWay(c: Config, p: Replica, check: Check, last: nat, k: Index, l: Local, s: State, s': State)
    requires c.tail > 0 && UnderWay(c, p, k, l, s) && check.OwnCheck? && HandleCheck(c, l, check, last).Some?
    requires check.index !in l.msgs ==> s'.written == s.written
    requires check.index in l.msgs ==> (p, check.index) in s'.written && forall x :: x != (p, check.index) ==> (x in s'.written <==> x in s.written)
    requires s'.cleared == s.cleared
    ensures UnderWay(c, p, k, HandleCheck(c, l, check, last).value, s')
  {
    hide Config.Slot, Config.Incarnation;
    var l' := HandleCheck(c, l, check, last).value;
    assert forall q, w :: RegisterCheck(k, q, w) in l.checks ==> RegisterCheck(k, q, w) in l'.checks;
    assert forall q :: Token(p, k, q, l, s) ==> Token(p, k, q, l', s');
  }

  lemma RegisterUnderWay(c: Config, p: Replica, check: Check, last: nat, k: Index, l: Local, s: State, s': State)
    requires c.tail > 0 && UnderWay(c, p, k, l, s) && check.RegisterCheck? && HandleCheck(c, l, check, last).Some?
    requires s'.written == s.written && s'.cleared == if check.index in l.msgs then s.cleared + {(p, check.index, check.owner)} else s.cleared
    ensures UnderWay(c, p, k, HandleCheck(c, l, check, last).value, s')
  {
    hide Config.Slot, Config.Incarnation;
    var l' := HandleCheck(c, l, check, last).value;
    if k in l.msgs {
      assert forall q, w :: RegisterCheck(k, q, w) in l.checks && RegisterCheck(k, q, w) != check ==> RegisterCheck(k, q, w) in l'.checks;
      assert forall q :: Token(p, k, q, l, s) ==> Token(p, k, q, l', s');
    }
  }

  lemma WrittenUnderWay(c: Config, p: Replica, slot: nat, k: Index, l: Local, s: State, s': State)
    requires c.tail > 0 && UnderWay(c, p, k, l, s) && slot in l.writes && SlotOk(c, p, slot, l, s)
    requires s'.written == s.written && s'.cleared == s.cleared
    ensures UnderWay(c, p, k, HandleWritten(l, slot, ReadsOf(c, s, p, l.writes[slot])), s')
  {
    hide Config.Slot;
    var begun := ReadsOf(c, s, p, l.writes[slot]);
    var l' := HandleWritten(l, slot, begun);
    if k == l.writes[slot] {
      forall q: Replica | q < c.n && q != p ensures k in l.msgs ==> Token(p, k, q, l', s') {
        assert q in Group(c.n);
        assert Read(k, q, Get(s.done, q, c.Slot(k))) in begun;
      }
    } else {
      assert forall q :: Token(p, k, q, l, s) ==> Token(p, k, q, l', s');
    }
  }

  lemma ReadUnderWay(c: Config, p: Replica, read: Read, found: Found, k: Index, l: Local, s: State, s': State)
    requires c.tail > 0 && UnderWay(c, p, k, l, s) && read in l.outReads && HandleRead(c, l, read, found).Some?
    requires s'.written == s.written && s'.cleared == if Cleared(c, l, read, found) then s.cleared + {(p, read.index, read.owner)} else s.cleared
    ensures UnderWay(c, p, k, HandleRead(c, l, read, found).value, s')
  {
    hide Config.Slot, Config.Incarnation;
    var l' := HandleRead(c, l, read, found).value;
    if k in l.msgs {
      forall q: Replica | Token(p, k, q, l, s) ensures Token(p, k, q, l', s') {
        if (p, k, q) !in s.cleared && !exists w :: RegisterCheck(k, q, w) in l.checks {
          var f :| Read(k, q, f) in l.outReads;
          if Read(k, q, f) == read {
            if !Cleared(c, l, read, found) {
              assert RegisterCheck(k, q, found.content) in l'.checks;
            }
          } else {
            assert Read(k, q, f) in l'.outReads;
          }
        }
      }
    }
  }

  lemma OwnStepUnderWay(c: Config, s: State, step: Step, s': State, k: Index)
    requires c.tail > 0 && Inv(c, s) && Next(c, s, step, s') && c.Correct(step.p) && step.p < |s.locals|
    requires UnderWay(c, step.p, k, s.locals[step.p], s)
    ensures Sane(c, s') && step.p < |s'.locals| && UnderWay(c, step.p, k, s'.locals[step.p], s')
  {
    var p := step.p;
    var l := s.locals[p];
    StepShape(c, s, step, s');
    assert Sane(c, s) && RegisterOk(c, p, l, s);
    if IsFast(step) {
      FastShape(c, s, step, s');
      FastState(c, s, step, s');
      hide Next, Inv, RegisterOk, UnderWay;
      SameUnderWay(c, p, k, l, s'.locals[p], s, s');
    } else {
      hide Inv, UnderWay, Readable, Config.Slot, Config.Incarnation;
      match step
      case Signature(_, j, sig) =>
        assert PhaseOk(c, p, k, l, s);
        hide RegisterOk, HandleSignature;
        SignatureUnderWay(c, p, j, sig, k, l, s, s');
      case Verified(_, check) =>
        hide RegisterOk, HandleCheck;
        var last := Get(s.last, p, c.Slot(check.index));
        if check.OwnCheck? {
          OwnUnderWay(c, p, check, last, k, l, s, s');
        } else {
          RegisterUnderWay(c, p, check, last, k, l, s, s');
        }
      case Written(_, slot) =>
        assert SlotOk(c, p, slot, l, s);
        hide RegisterOk, HandleWritten, ReadsOf;
        WrittenUnderWay(c, p, slot, k, l, s, s');
      case Completed(_, read, found) =>
        hide RegisterOk, HandleRead, Cleared;
        ReadUnderWay(c, p, read, found, k, l, s, s');
    }
  }

  lemma StepUnderWay(c: Config, s: State, step: Step, s': State, p: Replica)
    requires c.tail > 0 && Inv(c, s) && Next(c, s, step, s') && c.Correct(p) && p < |s.locals| && AllUnderWay(c, p, s)
    ensures p < |s'.locals| && AllUnderWay(c, p, s')
  {
    StepShape(c, s, step, s');
    hide UnderWay;
    forall k: Index ensures UnderWay(c, p, k, s'.locals[p], s') {
      assert UnderWay(c, p, k, s.locals[p], s);
      if p == step.p {
        OwnStepUnderWay(c, s, step, s', k);
      } else {
        assert Sane(c, s);
        StepRegisters(c, s, step, s');
        hide Next, Inv;
        SameUnderWay(c, p, k, s.locals[p], s'.locals[p], s, s');
      }
    }
  }

  lemma {:induction false} RunUnderWay(c: Config, states: seq<State>, steps: seq<Step>, i: nat, p: Replica)
    requires c.Valid() && IsRun(c, states, steps) && i < |states| && c.Correct(p)
    ensures p < |states[i].locals| && AllUnderWay(c, p, states[i])
  {
    hide Inv, Next, AllUnderWay, Init, Sane;
    if i == 0 {
      Starts(c, states[0], p);
    } else {
      Consistency.RunKeeps(c, states, steps, i - 1);
      RunUnderWay(c, states, steps, i - 1, p);
      StepUnderWay(c, states[i - 1], steps[i - 1], states[i], p);
    }
  }

  lemma Starts(c: Config, s: State, p: Replica)
    requires c.tail > 0 && Init(c, s) && c.Correct(p)
    ensures p < |s.locals| && AllUnderWay(c, p, s)
  {}

  // ---------- The result ----------

  /** Nothing is under way for index k at receiver p. */
  ghost predicate Quiet(c: Config, k: Index, l: Local)
    requires c.tail > 0
  {
    && !Pending(c, k, l)
    && (forall read :: read in l.outReads ==> read.index != k)
    && forall check :: check in l.checks ==> check.index != k
  }

  /** In every run: a message with a signature for which nothing is under way can be delivered, and
      `poll` delivers it if it is the oldest one. */
  lemma NeverStuck(c: Config, states: seq<State>, steps: seq<Step>, i: nat, p: Replica, k: Index)
    requires c.Valid() && IsRun(c, states, steps) && i < |states| && c.Correct(p) && p < |states[i].locals|
    requires var l := states[i].locals[p]; k in l.msgs && l.msgs[k].sig.Some? && Quiet(c, k, l)
    ensures var l := states[i].locals[p];
            && Pollable(c, l.msgs[k])
            && (IsFirst(l.msgs, k) ==> HandlePoll(c, l) == Some(l.(latest := Some(k), msgs := l.msgs - {k})))
  {
    var s := states[i];
    var l := s.locals[p];
    RunUnderWay(c, states, steps, i, p);
    Consistency.RunKeeps(c, states, steps, i);
    assert UnderWay(c, p, k, l, s) && CountOk(c, p, l, s);
    hide Inv, Next, IsRun, AllUnderWay, UnderWay, CountOk, FastPath, HandlePoll, IsFirst;
    AllCleared(c, p, k, l, s);
    if IsFirst(l.msgs, k) {
      Arrival.PollsFirst(c, l, k);
    }
  }

  lemma AllCleared(c: Config, p: Replica, k: Index, l: Local, s: State)
    requires c.tail > 0 && UnderWay(c, p, k, l, s) && CountOk(c, p, l, s) && p < c.n
    requires k in l.msgs && l.msgs[k].sig.Some? && Quiet(c, k, l)
    ensures l.msgs[k].checked + 1 == c.n
  {
    hide Config.Slot, ReadOk;
    forall q: Replica | q < c.n && q != p ensures (p, k, q) in s.cleared {
      assert Token(p, k, q, l, s);
    }
    assert OnceOk(c, p, k, p, l, s) && CheckedOk(c, p, k, l, s);
    assert (p, k, p) in s.cleared ==> Token(p, k, p, l, s);
    assert ClearedBy(c, s, p, k) == Group(c.n) - {p};
    GroupSize(c.n);
    assert Group(c.n) == ClearedBy(c, s, p, k) + {p};
  }

  // ---------- When a receiver throws ----------

  /** A read of the register of a correct receiver is refused exactly if it found the register written
      for a later message, one or more rounds ahead. */
  lemma RefusedReadExactly(c: Config, s: State, l: Local, read: Read, found: Found)
    requires c.tail > 0 && c.Correct(read.owner) && Readable(c, s, read, found)
    ensures HandleRead(c, l, read, found).None? <==> OverwrittenBy(c, s, read, found)
  {
    if found.incarnation != 0 {
      var k: Index :| c.Slot(k) == c.Slot(read.index) && c.Incarnation(k) == found.incarnation &&
                      (read.owner, k) in s.written && s.written[(read.owner, k)] == found.content;
      if c.Incarnation(read.index) < found.incarnation {
        LaterRound(c, read.index, k);
        assert FoundAt(c, s, read, found, k);
      }
    }
    forall k: Index | FoundAt(c, s, read, found, k) ensures c.Incarnation(read.index) < found.incarnation {
      LaterRound(c, read.index, k);
    }
  }

  ghost predicate FoundAt(c: Config, s: State, read: Read, found: Found, k: Index)
    requires c.tail > 0
  {
    && read.index + c.tail <= k && c.Slot(k) == c.Slot(read.index) && c.Incarnation(k) == found.incarnation
    && (read.owner, k) in s.written && s.written[(read.owner, k)] == found.content
  }

  ghost predicate OverwrittenBy(c: Config, s: State, read: Read, found: Found)
    requires c.tail > 0
  {
    exists k: Index :: FoundAt(c, s, read, found, k)
  }

  lemma LaterRound(c: Config, j: Index, k: Index)
    requires c.tail > 0 && c.Slot(j) == c.Slot(k)
    ensures c.Incarnation(j) < c.Incarnation(k) <==> j + c.tail <= k
  {
    Quotient(j, c.tail);
    Quotient(k, c.tail);
    Rounds(j / c.tail, k / c.tail, c.tail);
  }

  lemma Quotient(k: nat, t: nat)
    requires t > 0
    ensures k == t * (k / t) + k % t
  {}

  lemma Rounds(a: nat, b: nat, t: nat)
    requires t > 0
    ensures a < b ==> t * a + t <= t * b
    ensures b <= a ==> t * b <= t * a
  {
    if a < b {
      var d := b - a - 1;
      assert t * b == t * a + t + t * d && t * d >= 0;
    } else {
      var d := a - b;
      assert t * a == t * b + t * d && t * d >= 0;
    }
  }

  /** What a register holds in place of the own signature clears its owner if it is not signed by the
      broadcaster; if it is, the broadcaster has signed twice for the index, and the receiver throws. */
  lemma RegisterCheckExactly(c: Config, l: Local, check: Check, last: nat)
    requires c.tail > 0 && check.RegisterCheck? && check.index in l.msgs
    ensures var k, r := check.index, HandleCheck(c, l, check, last);
            if c.verify(check.content.sig, check.content.hash) then r.None?
            else r.Some? && k in r.value.msgs && r.value.msgs[k].checked == l.msgs[k].checked + 1
  {}
}
