/** What a step leaves alone, and that every step keeps what is known about registers. */
module TailCbFrames {
  import opened TailCbProtocol
  import opened TailCbInvariant
  import opened TailCbSteps
  import opened TailCbEchoes
  import opened TailCbRegisters
  import opened TailCbOrder

  predicate IsFast(step: Step) { step.Message? || step.Echoes? || step.Poll? }

  // ---------- Shapes of the steps that touch no register ----------

  lemma MessageChange(c: Config, p: Replica, l: Local, k: Index, data: Bytes, accepted: map<(Replica, Index), Bytes>)
    requires c.tail > 0 && SeenOk(p, l, accepted) && HandleMessage(c, l, k, data).Some?
    ensures FastChange(p, l, HandleMessage(c, l, k, data).value.0, accepted)
  {
    Taken(c, l, k, data);
    assert (p, k) in accepted ==> Seen(l, k);
    hide HandleMessage, AllSeen, TailAccepted, TailNewer;
  }

  lemma EchoChange(c: Config, p: Replica, l: Local, q: Replica, e: Echo, accepted: map<(Replica, Index), Bytes>)
    requires q < |l.buffered| && HandleEcho(c, l, q, e).Some?
    ensures FastChange(p, l, HandleEcho(c, l, q, e).value, accepted)
  {
    hide Matches;
  }

  lemma PollChange(c: Config, p: Replica, l: Local, accepted: map<(Replica, Index), Bytes>)
    requires HandlePoll(c, l).Some?
    ensures FastChange(p, l, HandlePoll(c, l).value, accepted)
  {
    Polled(c, l);
    hide HandlePoll, Pollable;
  }

  lemma FastState(c: Config, s: State, step: Step, s': State)
    requires c.tail > 0 && Sane(c, s) && Next(c, s, step, s') && IsFast(step)
    ensures Sane(c, s')
    ensures s'.locals == s.locals[step.p := s'.locals[step.p]]
    ensures s'.written == s.written && s'.done == s.done && s'.last == s.last && s'.cleared == s.cleared
  {
    var l := s.locals[step.p];
    match step
    case Message(p, k, data) =>
      Taken(c, l, k, data);
      hide HandleMessage, Fresh, AfterReplay;
    case Echoes(p, q, e) =>
      hide Matches, EchoOf;
    case Poll(p) =>
      Polled(c, l);
      hide HandlePoll, FirstKey, Pollable, FastPath;
  }

  lemma FastShape(c: Config, s: State, step: Step, s': State)
    requires c.tail > 0 && Inv(c, s) && Next(c, s, step, s') && IsFast(step)
    ensures FastChange(step.p, s.locals[step.p], s'.locals[step.p], s.accepted)
  {
    var l := s.locals[step.p];
    assert SeenOk(step.p, l, s.accepted);
    hide Inv, SeenOk, FastChange;
    match step
    case Message(p, k, data) =>
      MessageChange(c, p, l, k, data, s.accepted);
      hide HandleMessage;
    case Echoes(p, q, e) =>
      EchoChange(c, p, l, q, e, s.accepted);
      hide HandleEcho, EchoOf;
    case Poll(p) =>
      PollChange(c, p, l, s.accepted);
      hide HandlePoll, FirstKey, FastPath;
  }

  lemma SignatureShape(c: Config, s: State, p: Replica, k: Index, sig: Bytes, s': State)
    requires c.tail > 0 && Sane(c, s) && Next(c, s, Signature(p, k, sig), s')
    ensures Sane(c, s') && HandleSignature(c, s.locals[p], k, sig).Some? && s' == s.(locals := s.locals[p := HandleSignature(c, s.locals[p], k, sig).value])
    ensures s'.locals[p].outReads == s.locals[p].outReads
    ensures forall check :: check in s'.locals[p].checks && check.RegisterCheck? ==> check in s.locals[p].checks
  {}

  /** Every step changes the state of one receiver, its registers and its history. */
  lemma StepShape(c: Config, s: State, step: Step, s': State)
    requires c.tail > 0 && Inv(c, s) && Next(c, s, step, s')
    ensures Sane(c, s') && c.Correct(step.p) && s'.locals == s.locals[step.p := s'.locals[step.p]]
    ensures !step.Verified? && !step.Completed? ==> s'.cleared == s.cleared
  {
    assert Sane(c, s);
    hide Inv;
    if IsFast(step) {
      FastState(c, s, step, s');
      hide HandleMessage, HandleEcho, HandlePoll;
    } else {
      match step
      case Signature(p, k, sig) => SignatureShape(c, s, p, k, sig, s'); hide HandleSignature;
      case Verified(p, check) => VerifiedShape(c, s, s', p, check); hide HandleCheck;
      case Written(p, slot) => WrittenShape(c, s, s', p, slot); hide HandleWritten, ReadsOf;
      case Completed(p, read, found) => CompletedShape(c, s, s', p, read, found); hide HandleRead, Cleared, Readable;
    }
  }

  // ---------- Registers and counts ----------

  lemma SamePlace(p: Replica, l: Local, accepted: map<(Replica, Index), Bytes>)
    ensures FastChange(p, l, l, accepted)
  {}

  /** The step changes the registers and the history of `actor` only. */
  ghost predicate OwnRegisters(actor: Replica, s: State, s': State) {
    && (forall p: Replica, k: Index :: p != actor ==> ((p, k) in s'.written <==> (p, k) in s.written))
    && (forall p: Replica, k: Index :: p != actor && (p, k) in s.written ==> s'.written[(p, k)] == s.written[(p, k)])
    && (forall p: Replica, slot: nat :: p != actor ==> Get(s'.last, p, slot) == Get(s.last, p, slot) && Get(s'.done, p, slot) == Get(s.done, p, slot))
    && (forall p: Replica, k: Index, q: Replica :: p != actor ==> ((p, k, q) in s'.cleared <==> (p, k, q) in s.cleared))
  }

  lemma StepRegisters(c: Config, s: State, step: Step, s': State)
    requires c.tail > 0 && Sane(c, s) && Next(c, s, step, s')
    ensures OwnRegisters(step.p, s, s')
  {
    hide Config.Slot, Config.Incarnation, OwnRegisters;
    match step
    case Signature(p, k, sig) => SignatureShape(c, s, p, k, sig, s'); hide Next; SameState(p, s, s');
    case Verified(p, check) => VerifiedShape(c, s, s', p, check); hide Next; VerifiedState(c, p, check, s, s');
    case Written(p, slot) => WrittenShape(c, s, s', p, slot); hide Next; WrittenState(p, slot, s, s');
    case Completed(p, read, found) => CompletedState(c, s, s', p, read, found); hide Next; ClearedState(p, read, s, s');
    case _ => FastState(c, s, step, s'); hide Next; SameState(step.p, s, s');
  }

  lemma SameState(p: Replica, s: State, s': State)
    requires s'.written == s.written && s'.done == s.done && s'.last == s.last && s'.cleared == s.cleared
    ensures OwnRegisters(p, s, s')
  {}

  lemma WrittenState(p: Replica, slot: nat, s: State, s': State)
    requires s'.written == s.written && s'.done == s.done[(p, slot) := Get(s.last, p, slot)] && s'.last == s.last && s'.cleared == s.cleared
    ensures OwnRegisters(p, s, s')
  {}

  lemma ClearedState(p: Replica, read: Read, s: State, s': State)
    requires s'.written == s.written && s'.done == s.done && s'.last == s.last
    requires s'.cleared == s.cleared || s'.cleared == s.cleared + {(p, read.index, read.owner)}
    ensures OwnRegisters(p, s, s')
  {}

  lemma VerifiedState(c: Config, p: Replica, check: Check, s: State, s': State)
    requires c.tail > 0 && s'.done == s.done
    requires s'.last == s.last || s'.last == s.last[(p, c.Slot(check.index)) := c.Incarnation(check.index)]
    requires s'.cleared == s.cleared || (check.RegisterCheck? && s'.cleared == s.cleared + {(p, check.index, check.owner)})
    requires s'.written == s.written || ((p, check.index) in s'.written && s'.written == s.written[(p, check.index) := s'.written[(p, check.index)]])
    ensures OwnRegisters(p, s, s')
  {
    hide Config.Slot, Config.Incarnation;
  }

  lemma OthersRegisters(p: Replica, q: Replica, s: State, s': State)
    requires OwnRegisters(q, s, s') && p != q
    ensures SameRegisters(p, s, s')
  {}

  lemma CompletedState(c: Config, s: State, s': State, p: Replica, read: Read, found: Found)
    requires c.tail > 0 && Sane(c, s) && c.Correct(p) && Next(c, s, Completed(p, read, found), s')
    ensures s'.written == s.written && s'.done == s.done && s'.last == s.last
    ensures s'.cleared == if Cleared(c, s.locals[p], read, found) then s.cleared + {(p, read.index, read.owner)} else s.cleared
  {
    hide Config.Slot, Config.Incarnation, Readable, Cleared, HandleRead;
  }

  lemma VerifiedRegisters(c: Config, s: State, p: Replica, check: Check, s': State)
    requires c.tail > 0 && Sane(c, s) && c.Correct(p) && Next(c, s, Verified(p, check), s')
    requires RegisterOk(c, p, s.locals[p], s) && TailAccepted(p, s.locals[p], s.accepted)
    ensures RegisterOk(c, p, s'.locals[p], s')
  {
    var l := s.locals[p];
    var k := check.index;
    assert CheckOk(c, p, l, s, check);
    hide Config.Slot, Config.Incarnation, WrittenOk, SlotOk, PhaseOk, RegisterOk, Readable;
    if Writes(l, check) {
      WriteRegisters(c, p, k, Register(check.hash, check.sig), s, s', l, s'.locals[p]);
    } else {
      ReadRegisters(c, p, l, s'.locals[p], s, s');
    }
  }

  lemma CompletedRegisters(c: Config, s: State, p: Replica, read: Read, found: Found, s': State)
    requires c.tail > 0 && Sane(c, s) && c.Correct(p) && Next(c, s, Completed(p, read, found), s')
    requires RegisterOk(c, p, s.locals[p], s)
    ensures RegisterOk(c, p, s'.locals[p], s')
  {
    var l := s.locals[p];
    assert PhaseOk(c, p, read.index, l, s) && WrittenOk(c, p, read.index, s);
    hide Config.Slot, Config.Incarnation, SlotOk, RegisterOk, Readable;
    assert ReadChange(c, p, l, s'.locals[p], s);
    ReadRegisters(c, p, l, s'.locals[p], s, s');
  }

  lemma RegistersKeep(c: Config, s: State, step: Step, s': State, p: Replica)
    requires c.tail > 0 && Inv(c, s) && Next(c, s, step, s') && c.Correct(p)
    ensures Sane(c, s') && RegisterOk(c, p, s'.locals[p], s')
  {
    StepShape(c, s, step, s');
    AcceptedExtends(c, s, step, s');
    var l := s.locals[p];
    assert RegisterOk(c, p, l, s) && SeenOk(p, l, s.accepted);
    if p != step.p {
      assert Sane(c, s);
      StepRegisters(c, s, step, s');
      OthersRegisters(p, step.p, s, s');
      SamePlace(p, l, s.accepted);
      hide *;
      FastRegisters(c, p, l, l, s, s');
    } else if IsFast(step) {
      FastShape(c, s, step, s');
      FastState(c, s, step, s');
      hide *;
      FastRegisters(c, p, l, s'.locals[p], s, s');
    } else {
      hide Inv, RegisterOk, AllSeen, TailAccepted, TailNewer;
      match step
      case Signature(_, k, sig) => SignatureShape(c, s, p, k, sig, s'); hide Next, HandleSignature; SignatureRegisters(c, p, k, sig, s, s');
      case Verified(_, check) => VerifiedRegisters(c, s, p, check, s');
      case Written(_, slot) => WrittenShape(c, s, s', p, slot); hide Next, HandleWritten; WrittenRegisters(c, p, slot, s, s', ReadsOf(c, s, p, l.writes[slot]));
      case Completed(_, read, found) => CompletedRegisters(c, s, p, read, found, s');
    }
  }
}
