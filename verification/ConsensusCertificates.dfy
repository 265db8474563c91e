/** Certificates are unique, in every run in which the valid values of a leader are those of the
    view it prepares in. */
module ConsensusCertificates {
  import opened Options
  import opened ConsensusLog
  import opened ConsensusProtocol
  import opened ConsensusInvariant
  import opened ConsensusHandlers
  import opened ConsensusGrowth
  import opened ConsensusSteps
  import opened ConsensusStreams

  /** The NewViews p handled are for views it has entered. */
  ghost predicate ViewsReached(c: Config, l: Local, p: Replica)
    requires Shaped(c, l) && p < c.n
  {
    forall q :: 0 <= q < c.n && q != p && l.peers[q].valid.Some? ==> l.peers[q].valid.value.view <= l.peers[p].view
  }

  /** p has in its slots what the leader of its view prepared first. */
  ghost predicate FirstInSlots(c: Config, logs: Logs, l: Local, p: Replica)
    requires |logs| == c.n > 0 && p < |l.peers|
  {
    forall i :: i in l.slots ==> Prepared(c, logs, l.peers[p].view, i) == Some(l.slots[i].batch)
  }

  ghost predicate SeenAll(c: Config, logs: Logs, l: Local, p: Replica)
    requires |logs| == c.n && Shaped(c, l) && p < c.n
  {
    forall q :: 0 <= q < c.n ==> SeenInv(c, logs, l, p, q)
  }

  ghost predicate LocalCert(c: Config, logs: Logs, l: Local, p: Replica) {
    && |logs| == c.n > 0 && Shaped(c, l) && p < c.n
    && StreamsInv(c, logs, l, p)
    && ViewsReached(c, l, p) && SeenAll(c, logs, l, p) && FirstInSlots(c, logs, l, p)
  }

  /** Correct replicas sign what the leader prepared first. */
  ghost predicate SharesFirst(c: Config, logs: Logs, shares: set<Share>)
    requires |logs| == c.n > 0
  {
    forall sh :: sh in shares ==> c.Correct(sh.signer) && Prepared(c, logs, sh.view, sh.instance) == Some(sh.batch)
  }

  ghost predicate CertInv(c: Config, s: State) {
    && c.n > 0 && Sane(c, s)
    && SharesFirst(c, s.logs, s.shares)
    && forall p: Replica :: c.Correct(p) ==> LocalCert(c, s.logs, s.locals[p], p)
  }

  // ---------- One message ----------

  /** A prepare that is not inserted was for a view left behind, or is below the checkpoint. */
  lemma IgnoredReached(c: Config, l: Local, p: Replica, from: Replica, m: Msg)
    requires Shaped(c, l) && p < c.n && from < c.n && m.Prepare? && ViewsReached(c, l, p)
    requires Handled(c, l, p, from, m).Some? && Handled(c, l, p, from, m).value == Bump(l, from)
    requires !(m.view == l.peers[p].view && l.certified <= m.instance)
    requires m.view != 0 && l.peers[from].valid.Some? ==> l.peers[from].valid.value.view == m.view
    ensures OutOfReach(l, p, m.view, m.instance)
  {
    hide Insert;
  }

  lemma PreparedReached(c: Config, l: Local, p: Replica, from: Replica, m: Msg)
    requires Shaped(c, l) && p < c.n && from < c.n && m.Prepare? && ViewsReached(c, l, p) && Handled(c, l, p, from, m).Some?
    requires m.view != 0 && l.peers[from].valid.Some? ==> l.peers[from].valid.value.view == m.view
    ensures OutOfReach(Handled(c, l, p, from, m).value, p, m.view, m.instance)
  {
    hide Handled, ViewsReached, OutOfReach, Insert;
    InsertIs(c, l, p, from, m);
    if m.view == l.peers[p].view && l.certified <= m.instance {
      InsertedReached(c, Bump(l, from), p, from, m.view, m.instance, m.batch);
    } else {
      IgnoredReached(c, l, p, from, m);
      BumpReach(l, p, from, m.view, m.instance);
    }
  }

  lemma InsertedReached(c: Config, l: Local, p: Replica, from: Replica, v: View, i: Instance, b: Batch)
    requires Shaped(c, l) && p < c.n && from < c.n && v == l.peers[p].view
    ensures OutOfReach(Insert(c, l, from, v, i, b), p, v, i)
  {
    hide Replays, AfterReplay, Evict, Decrement;
  }

  lemma BumpReach(l: Local, p: Replica, from: Replica, v: View, i: Instance)
    requires p < |l.peers| && from < |l.peers| && OutOfReach(l, p, v, i)
    ensures OutOfReach(Bump(l, from), p, v, i)
  {}

  lemma SeenStays(c: Config, logs: Logs, l: Local, l': Local, p: Replica, q: Replica)
    requires |logs| == c.n && Shaped(c, l) && Shaped(c, l') && p < c.n && q < c.n && SeenInv(c, logs, l, p, q)
    requires Advances(p, l, l') && l'.peers[q].nextCb == l.peers[q].nextCb
    ensures SeenInv(c, logs, l', p, q)
  {
    hide OutOfReach, First, Advances;
    ReachShrinks(p, l, l');
  }

  lemma HandledSeen(c: Config, logs: Logs, l: Local, p: Replica, from: Replica, m: Msg)
    requires LocalCert(c, logs, l, p) && Delivering(c, logs, l, from, m) && Handled(c, l, p, from, m).Some?
    requires m.Prepare? && m.view != 0 && l.peers[from].valid.Some? ==> l.peers[from].valid.value.view == m.view
    ensures SeenAll(c, logs, Handled(c, l, p, from, m).value, p)
  {
    hide Handled, StreamsInv, ViewsReached, FirstInSlots, SeenInv, OutOfReach, Advances, Apply, Acceptable;
    var l' := Handled(c, l, p, from, m).value;
    HandledFollows(c, logs, l, p, from, m);
    HandledMoves(c, l, p, from, m);
    ReachShrinks(p, l, l');
    if m.Prepare? {
      PreparedReached(c, l, p, from, m);
    }
    SeenAdvances(c, logs, l, l', p, from);
    forall q: nat | q < c.n && q != from ensures SeenInv(c, logs, l', p, q) {
      SeenStays(c, logs, l, l', p, q);
    }
  }

  /** A prepare that is inserted is the first of its leader. */
  lemma InsertedFirst(c: Config, logs: Logs, l: Local, p: Replica, from: Replica, m: Msg)
    requires LocalCert(c, logs, l, p) && Delivering(c, logs, l, from, m) && m.Prepare?
    requires m.view == l.peers[p].view && l.certified <= m.instance && m.instance !in l.slots && c.Leader(m.view) == from
    ensures Prepared(c, logs, m.view, m.instance) == Some(m.batch)
  {
    hide StreamsInv, ViewsReached, FirstInSlots, OutOfReach;
    var at := l.peers[from].nextCb;
    FirstNext(logs[from], at, m.view, m.instance);
    FirstPrefix(logs[from], at + 1, m.view, m.instance);
    assert SeenInv(c, logs, l, p, from);
    assert !OutOfReach(l, p, m.view, m.instance) by { InReach(l, p, m.view, m.instance); }
  }

  lemma InReach(l: Local, p: Replica, v: View, i: Instance)
    requires p < |l.peers| && v == l.peers[p].view && l.certified <= i && i !in l.slots
    ensures !OutOfReach(l, p, v, i)
  {}

  lemma InsertSlots(c: Config, l: Local, p: Replica, from: Replica, v: View, i: Instance, b: Batch)
    requires Shaped(c, l) && p < c.n && from < c.n
    ensures var l' := Insert(c, l, from, v, i, b);
            && i in l'.slots && l'.slots[i].batch == b && l'.peers[p].view == l.peers[p].view
            && forall k :: k in l'.slots && k != i ==> k in l.slots && l'.slots[k].batch == l.slots[k].batch
    ensures var l' := Insert(c, l, from, v, i, b);
            forall q :: 0 <= q < c.n && l'.peers[q].valid.Some? ==> l.peers[q].valid.Some? && l'.peers[q].valid.value.view == l.peers[q].valid.value.view
  {
    hide Replays, AfterReplay, Decrement;
  }

  /** The other messages add no slot, and set valid values of a view already entered. */
  lemma OtherMessage(c: Config, l: Local, p: Replica, from: Replica, m: Msg)
    requires Shaped(c, l) && p < c.n && from < c.n && !m.Prepare? && Handled(c, l, p, from, m).Some?
    ensures var l' := Handled(c, l, p, from, m).value;
            && (forall k :: k in l'.slots ==> k in l.slots && l'.slots[k] == l.slots[k])
            && l.peers[p].view <= l'.peers[p].view && (l'.peers[p].view == l.peers[p].view || l'.slots == map[] || from != p)
            && (from != p ==> l'.peers[p].view == l.peers[p].view)
    ensures var l' := Handled(c, l, p, from, m).value;
            forall q :: 0 <= q < c.n && q != p && l'.peers[q].valid.Some? ==>
              l'.peers[q].valid == l.peers[q].valid || l'.peers[q].valid.value.view <= l.peers[p].view
  {
    hide Best, Batches, Prune;
  }

  lemma HandledSlots(c: Config, logs: Logs, l: Local, p: Replica, from: Replica, m: Msg)
    requires LocalCert(c, logs, l, p) && Delivering(c, logs, l, from, m) && Handled(c, l, p, from, m).Some? && Shaped(c, Handled(c, l, p, from, m).value)
    ensures ViewsReached(c, Handled(c, l, p, from, m).value, p) && FirstInSlots(c, logs, Handled(c, l, p, from, m).value, p)
  {
    hide Handled, StreamsInv, SeenAll, Prepared, Insert;
    if m.Prepare? {
      InsertIs(c, l, p, from, m);
      if m.view == l.peers[p].view && l.certified <= m.instance {
        InsertedFirst(c, logs, l, p, from, m);
        InsertSlots(c, Bump(l, from), p, from, m.view, m.instance, m.batch);
      }
    } else {
      OtherMessage(c, l, p, from, m);
    }
  }

  lemma HandledCert(c: Config, logs: Logs, l: Local, p: Replica, from: Replica, m: Msg)
    requires LocalCert(c, logs, l, p) && Delivering(c, logs, l, from, m) && Handled(c, l, p, from, m).Some?
    requires m.Prepare? && m.view != 0 && l.peers[from].valid.Some? ==> l.peers[from].valid.value.view == m.view
    ensures LocalCert(c, logs, Handled(c, l, p, from, m).value, p)
  {
    HandledFollows(c, logs, l, p, from, m);
    assert Shaped(c, Handled(c, l, p, from, m).value);
    hide Handled, StreamsInv, ViewsReached, FirstInSlots, SeenAll, Advances;
    HandledSeen(c, logs, l, p, from, m);
    HandledSlots(c, logs, l, p, from, m);
  }

  // ---------- Steps ----------

  lemma CertGrows(c: Config, logs: Logs, logs': Logs, l: Local, p: Replica)
    requires LocalCert(c, logs, l, p) && |logs'| == c.n && forall q :: 0 <= q < c.n ==> logs[q] <= logs'[q]
    ensures LocalCert(c, logs', l, p)
  {
    hide Prepared, OutOfReach;
    StreamsGrow(c, logs, logs', l, p);
    forall q: nat | q < c.n ensures SeenInv(c, logs', l, p, q) {
      assert SeenInv(c, logs, l, p, q) && PeerFollows(c, logs, l, q);
      assert logs'[q][..l.peers[q].nextCb] == logs[q][..l.peers[q].nextCb];
    }
    hide StreamsInv, SeenAll;
    forall i | i in l.slots ensures Prepared(c, logs', l.peers[p].view, i) == Prepared(c, logs, l.peers[p].view, i) {
      PreparedGrows(c, logs, logs', {}, {}, l.peers[p].view, i);
    }
  }

  lemma SharesFirstGrow(c: Config, logs: Logs, logs': Logs, shares: set<Share>)
    requires |logs| == c.n > 0 && SharesFirst(c, logs, shares) && |logs'| == c.n && forall q :: 0 <= q < c.n ==> logs[q] <= logs'[q]
    ensures SharesFirst(c, logs', shares)
  {
    hide Prepared;
    forall sh | sh in shares ensures Prepared(c, logs', sh.view, sh.instance) == Prepared(c, logs, sh.view, sh.instance) {
      PreparedGrows(c, logs, logs', {}, {}, sh.view, sh.instance);
    }
  }

  /** A change of flags in the slots. */
  lemma SlotsCert(c: Config, logs: Logs, l: Local, l': Local, p: Replica)
    requires LocalCert(c, logs, l, p) && StreamsInv(c, logs, l', p) && l.certified <= l'.certified && l'.slots.Keys == l.slots.Keys
    requires forall i :: i in l.slots ==> l'.slots[i].batch == l.slots[i].batch
    requires forall q :: 0 <= q < c.n ==>
               l'.peers[q].valid == l.peers[q].valid && l'.peers[q].view == l.peers[q].view && l'.peers[q].nextCb == l.peers[q].nextCb
    ensures LocalCert(c, logs, l', p)
  {
    hide Prepared;
    assert Advances(p, l, l');
    hide StreamsInv, Advances, SeenInv;
    forall q: nat | q < c.n ensures SeenInv(c, logs, l', p, q) {
      SeenStays(c, logs, l, l', p, q);
    }
  }

  lemma LocalStepCert(c: Config, s: State, step: Step, s': State, p: Replica)
    requires CertInv(c, s) && c.Correct(p) && Follows(c, s', p) && Next(c, s, step, s')
    requires !step.Deliver? && !step.Broadcast? && !step.Byzantine? && !step.Halt? && !step.Open?
    ensures LocalCert(c, s'.logs, s'.locals[p], p)
  {
    hide StreamsInv, SharesFirst, ViewsReached, SeenAll, FirstInSlots, CertChecked, Promised, CheckpointCertified, Decidable, CanBegin;
    assert LocalCert(c, s.logs, s.locals[p], p);
    assert s'.logs == s.logs;
    if s'.locals[p] != s.locals[p] {
      SlotsCert(c, s.logs, s.locals[p], s'.locals[p], p);
    }
  }

  lemma DeliverCert(c: Config, s: State, s': State, q: Replica, from: Replica, p: Replica)
    requires CertInv(c, s) && c.Correct(p) && Next(c, s, Deliver(q, from), s') && Passes(ValuesView, c, s, Deliver(q, from))
    ensures p < |s'.locals| && LocalCert(c, s'.logs, s'.locals[p], p)
  {
    hide SharesFirst, Handle, Checked, SealsAfter;
    assert LocalCert(c, s.logs, s.locals[p], p);
    if q == p {
      var m := s.logs[from][s.locals[p].peers[from].nextCb];
      assert Handled(c, s.locals[p], p, from, m) == Handle(c, s.locals[p], p, from, m);
      hide Handled, LocalCert;
      HandledCert(c, s.logs, s.locals[p], p, from, m);
    }
  }

  /** The call returns. */
  lemma PoppedCert(c: Config, logs: Logs, l: Local, p: Replica)
    requires LocalCert(c, logs, l, p) && !Idle(l)
    ensures LocalCert(c, logs, Popped(l), p)
  {
    PoppedFollows(c, logs, l, p);
    hide StreamsInv, ViewsReached, SeenAll, FirstInSlots;
    SlotsCert(c, logs, l, Popped(l), p);
  }

  lemma BroadcastCert(c: Config, s: State, s': State, q: Replica, m: Msg, p: Replica)
    requires CertInv(c, s) && c.Correct(p) && Follows(c, s, p) && Next(c, s, Broadcast(q, m), s') && Passes(ValuesView, c, s, Broadcast(q, m))
    ensures p < |s'.locals| && LocalCert(c, s'.logs, s'.locals[p], p)
  {
    hide SharesFirst, Handle, SealsAfter, AfterBroadcast, LocalCert, StreamsInv;
    assert LocalCert(c, s.logs, s.locals[p], p);
    assert forall x :: 0 <= x < c.n ==> s.logs[x] <= s'.logs[x];
    CertGrows(c, s.logs, s'.logs, s.locals[p], p);
    if q == p {
      PoppedCert(c, s'.logs, s.locals[p], p);
      assert Delivering(c, s'.logs, Popped(s.locals[p]), p, m);
      assert Handled(c, Popped(s.locals[p]), p, p, m) == Some(s'.locals[p]);
      hide Handled, Delivering;
      HandledCert(c, s'.logs, Popped(s.locals[p]), p, p, m);
    }
  }

  lemma OpenedCert(c: Config, logs: Logs, l: Local, p: Replica, from: Replica, v: View, states: seq<VcState>)
    requires from < c.n && LocalCert(c, logs, l, p) && StreamsInv(c, logs, Opened(c, l, from, v, states), p) && v <= l.peers[p].view
    ensures LocalCert(c, logs, Opened(c, l, from, v, states), p)
  {
    hide Best, Batches, Prepared, StreamsInv;
    var l' := Opened(c, l, from, v, states);
    assert Advances(p, l, l');
    hide Advances, SeenInv;
    forall q: nat | q < c.n ensures SeenInv(c, logs, l', p, q) {
      SeenStays(c, logs, l, l', p, q);
    }
  }

  lemma OpenCert(c: Config, s: State, s': State, q: Replica, p: Replica)
    requires CertInv(c, s) && c.Correct(p) && Follows(c, s', p) && Next(c, s, Open(q), s')
    ensures LocalCert(c, s'.logs, s'.locals[p], p)
  {
    hide SharesFirst, LocalCert, StreamsInv, Opened;
    assert LocalCert(c, s.logs, s.locals[p], p);
    if q == p {
      PoppedCert(c, s.logs, s.locals[p], p);
      var f := Top(s.locals[p]);
      OpenedCert(c, s.logs, Popped(s.locals[p]), p, f.from, f.view, f.states);
    }
  }

  lemma AppendCert(c: Config, s: State, step: Step, s': State, p: Replica)
    requires CertInv(c, s) && c.Correct(p) && Next(c, s, step, s') && (step.Byzantine? || step.Halt?)
    ensures p < |s'.locals| && LocalCert(c, s'.logs, s'.locals[p], p)
  {
    hide SharesFirst, LocalCert, Handle;
    assert LocalCert(c, s.logs, s.locals[p], p);
    CertGrows(c, s.logs, s'.logs, s.locals[p], p);
  }

  /** New signatures are for what is in the slots. */
  lemma NewShares(c: Config, s: State, step: Step, s': State)
    requires CertInv(c, s) && Sane(c, s') && Next(c, s, step, s') && (forall p: Replica :: c.Correct(p) ==> Follows(c, s, p))
    ensures SharesFirst(c, s'.logs, s'.shares)
  {
    hide Handle, HandleVerified, CanBegin, Checked, CertChecked, Promised, CheckpointCertified, Decidable, LocalCert, Prepared, Follows;
    assert forall q :: 0 <= q < c.n ==> s.logs[q] <= s'.logs[q];
    SharesFirstGrow(c, s.logs, s'.logs, s.shares);
    if step.Certify? {
      assert LocalCert(c, s.logs, s.locals[step.p], step.p) && Follows(c, s, step.p);
      CertifiedFirst(c, s, step.p, step.i);
    }
  }

  lemma CertifiedFirst(c: Config, s: State, p: Replica, i: Instance)
    requires Sane(c, s) && c.n > 0 && p < c.n && LocalCert(c, s.logs, s.locals[p], p) && i in s.locals[p].slots
    ensures Prepared(c, s.logs, s.locals[p].slots[i].view, i) == Some(s.locals[p].slots[i].batch)
  {
    hide SeenAll, ViewsReached, Prepared;
  }

  lemma StepCert(c: Config, s: State, step: Step, s': State)
    requires CertInv(c, s) && Sane(c, s') && Next(c, s, step, s') && Passes(ValuesView, c, s, step)
    requires forall p: Replica :: c.Correct(p) ==> Follows(c, s, p) && Follows(c, s', p)
    ensures CertInv(c, s')
  {
    hide Next, Passes, Follows, LocalCert, SharesFirst;
    NewShares(c, s, step, s');
    forall p: Replica | c.Correct(p) ensures LocalCert(c, s'.logs, s'.locals[p], p) {
      match step
      case Deliver(q, from) => DeliverCert(c, s, s', q, from, p);
      case Broadcast(q, m) => BroadcastCert(c, s, s', q, m, p);
      case Open(q) => OpenCert(c, s, s', q, p);
      case Halt(q, m) => AppendCert(c, s, step, s', p);
      case Byzantine(q, m) => AppendCert(c, s, step, s', p);
      case _ => LocalStepCert(c, s, step, s', p);
    }
  }

  lemma StartCert(c: Config, s: State)
    requires c.n > 0 && Sane(c, s) && Init(c, s)
    ensures CertInv(c, s)
  {
    forall p: Replica | c.Correct(p) ensures LocalCert(c, s.logs, s.locals[p], p) {
      StartFollows(c, s, p);
    }
  }

  lemma {:induction false} RunsCert(c: Config, states: seq<State>, steps: seq<Step>, k: nat)
    requires IsCheckedRun(c, {ValuesView}, states, steps) && k < |states|
    ensures CertInv(c, states[k])
  {
    hide CertInv, Next, Init, Passes, Follows;
    if k == 0 {
      StartCert(c, states[0]);
    } else {
      RunsCert(c, states, steps, k - 1);
      forall p: Replica | c.Correct(p) ensures Follows(c, states[k - 1], p) && Follows(c, states[k], p) {
        RunsFollow(c, states, steps, k - 1, p);
        RunsFollow(c, states, steps, k, p);
      }
      StepCert(c, states[k - 1], steps[k - 1], states[k]);
    }
  }

  // ---------- The result ----------

  lemma CertifiedFirstPrepared(c: Config, s: State, cert: Cert)
    requires c.Valid() && CertInv(c, s) && CertValid(c, s.shares, cert)
    ensures First(s.logs[c.Leader(cert.view)], cert.view, cert.instance) == Some(cert.batch)
  {
    hide LocalCert;
    var r := CorrectSigner(c, cert.signers);
    assert Share(r, cert.view, cert.instance, cert.batch) in s.shares;
  }

  ghost predicate CertifiesOnce(c: Config, s: State) {
    forall a, b :: CertValid(c, s.shares, a) && CertValid(c, s.shares, b) && a.view == b.view && a.instance == b.instance ==> a.batch == b.batch
  }

  /** Valid prepare certificates for one view and instance carry the same batch. */
  lemma RunsCertifyOnce(c: Config, states: seq<State>, steps: seq<Step>, k: nat)
    requires c.Valid() && IsCheckedRun(c, {ValuesView}, states, steps) && k < |states|
    ensures CertifiesOnce(c, states[k])
  {
    hide CertInv, CertValid;
    RunsCert(c, states, steps, k);
    forall a, b | CertValid(c, states[k].shares, a) && CertValid(c, states[k].shares, b) && a.view == b.view && a.instance == b.instance
      ensures a.batch == b.batch
    {
      CertifiedFirstPrepared(c, states[k], a);
      CertifiedFirstPrepared(c, states[k], b);
    }
  }
}
