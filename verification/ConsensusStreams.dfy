/** What a correct replica knows of the streams in every run of the code, none of the omitted
    checks assumed. */
module ConsensusStreams {
  import opened ConsensusLog
  import opened ConsensusProtocol
  import opened ConsensusInvariant
  import opened ConsensusHandlers
  import opened ConsensusSteps

  ghost predicate SlotsOfView(l: Local, p: Replica)
    requires p < |l.peers|
  {
    forall i :: i in l.slots ==> l.slots[i].view == l.peers[p].view
  }

  /** p follows each stream as far as it has handled it, and its slots are of its view. */
  ghost predicate StreamsInv(c: Config, logs: Logs, l: Local, p: Replica) {
    && |logs| == c.n && Shaped(c, l) && p < c.n
    && (forall q :: 0 <= q < c.n ==> PeerFollows(c, logs, l, q))
    && SlotsOfView(l, p)
  }

  /** The messages of its own stream that p did not handle: the one it threw on. */
  function Refused(s: State, p: Replica): nat {
    if p in s.halted then 1 else 0
  }

  ghost predicate Follows(c: Config, s: State, p: Replica) {
    && Sane(c, s) && p < c.n
    && StreamsInv(c, s.logs, s.locals[p], p)
    && s.locals[p].peers[p].nextCb + Refused(s, p) == |s.logs[p]|
  }

  // ---------- One message ----------

  lemma InsertEffect(c: Config, l: Local, p: Replica, from: Replica, v: View, i: Instance, b: Batch)
    requires Shaped(c, l) && p < c.n && from < c.n
    ensures var l' := Insert(c, l, from, v, i, b);
            && l'.certified == l.certified
            && forall q :: 0 <= q < c.n ==> LogStateOf(l'.peers[q]) == LogStateOf(l.peers[q]) && l'.peers[q].nextCb == l.peers[q].nextCb
  {
    hide Replays, AfterReplay, Evict, Decrement;
  }

  /** A prepare is inserted exactly in the view of the replica, from its checkpoint on. */
  lemma InsertIs(c: Config, l: Local, p: Replica, from: Replica, m: Msg)
    requires Shaped(c, l) && p < c.n && from < c.n && m.Prepare? && Handled(c, l, p, from, m).Some?
    ensures m.view == l.peers[p].view && l.certified <= m.instance ==>
              && m.instance !in l.slots && c.n > 0 && c.Leader(m.view) == from
              && Handled(c, l, p, from, m).value == Insert(c, Bump(l, from), from, m.view, m.instance, m.batch)
    ensures !(m.view == l.peers[p].view && l.certified <= m.instance) ==> Handled(c, l, p, from, m).value == Bump(l, from)
  {
    hide Insert;
  }

  /** Handling moves the sender along its stream, and no one else. */
  lemma HandledMoves(c: Config, l: Local, p: Replica, from: Replica, m: Msg)
    requires Shaped(c, l) && p < c.n && from < c.n && Handled(c, l, p, from, m).Some?
    ensures var l' := Handled(c, l, p, from, m).value;
            && Shaped(c, l') && l.certified <= l'.certified
            && (m.Commit? ==> m.cert.view == l.peers[from].view)
            && LogStateOf(l'.peers[from]) == Apply(LogStateOf(l.peers[from]), m)
            && l'.peers[from].nextCb == l.peers[from].nextCb + 1
            && (forall q :: 0 <= q < c.n && q != from ==> LogStateOf(l'.peers[q]) == LogStateOf(l.peers[q]) && l'.peers[q].nextCb == l.peers[q].nextCb)
            && (m.Checkpoint? ==> m.low <= l'.certified)
  {
    hide Insert, Prune, Best, Batches, IsByzantinePrepare;
    if m.Prepare? {
      InsertEffect(c, Bump(l, from), p, from, m.view, m.instance, m.batch);
    }
  }

  lemma FollowsAdvances(c: Config, logs: Logs, l: Local, l': Local, q: Replica)
    requires |logs| == c.n && Shaped(c, l) && Shaped(c, l') && q < c.n && PeerFollows(c, logs, l, q)
    requires l.peers[q].nextCb < |logs[q]| && LogStateOf(l'.peers[q]) == Apply(LogStateOf(l.peers[q]), logs[q][l.peers[q].nextCb])
    requires l'.peers[q].nextCb == l.peers[q].nextCb + 1 && l'.peers[q].low <= l'.certified
    ensures PeerFollows(c, logs, l', q)
  {
    hide Apply;
    FoldNext(logs[q], l.peers[q].nextCb);
  }

  lemma PeersAdvance(c: Config, logs: Logs, l: Local, p: Replica, from: Replica, m: Msg)
    requires StreamsInv(c, logs, l, p) && Delivering(c, logs, l, from, m) && Handled(c, l, p, from, m).Some?
    ensures var l' := Handled(c, l, p, from, m).value;
            Shaped(c, l') && forall q :: 0 <= q < c.n ==> PeerFollows(c, logs, l', q)
  {
    hide Fold, SlotsOfView, Handled;
    var l' := Handled(c, l, p, from, m).value;
    HandledMoves(c, l, p, from, m);
    FollowsAdvances(c, logs, l, l', from);
    forall q: nat | q < c.n && q != from ensures PeerFollows(c, logs, l', q) {
      assert PeerFollows(c, logs, l, q);
    }
  }

  /** What leaves the slots is out of reach. */
  lemma InsertAdvances(c: Config, l: Local, p: Replica, from: Replica, v: View, i: Instance, b: Batch)
    requires Shaped(c, l) && p < c.n && from < c.n && l.peers[from].low <= l.certified && i < l.peers[from].low + c.window
    requires v == l.peers[p].view && SlotsOfView(l, p)
    ensures var l' := Insert(c, l, from, v, i, b); Advances(p, l, l') && SlotsOfView(l', p)
  {
    hide Replays, AfterReplay, Decrement;
    var l' := Insert(c, l, from, v, i, b);
    assert l'.peers[p].view == l.peers[p].view;
    forall k | k in l.slots && k !in l'.slots ensures k < l'.certified {
      assert k !in Evict(l.slots, c.window, i);
    }
  }

  lemma SlotsAdvance(c: Config, l: Local, p: Replica, from: Replica, m: Msg)
    requires Shaped(c, l) && p < c.n && from < c.n && SlotsOfView(l, p) && l.peers[from].low <= l.certified
    requires Handled(c, l, p, from, m).Some?
    ensures var l' := Handled(c, l, p, from, m).value; Advances(p, l, l') && SlotsOfView(l', p)
  {
    hide Insert, Prune, Best, Batches;
    if m.Prepare? && m.view == l.peers[p].view && l.certified <= m.instance {
      InsertAdvances(c, Bump(l, from), p, from, m.view, m.instance, m.batch);
    }
  }

  lemma HandledFollows(c: Config, logs: Logs, l: Local, p: Replica, from: Replica, m: Msg)
    requires StreamsInv(c, logs, l, p) && Delivering(c, logs, l, from, m) && Handled(c, l, p, from, m).Some?
    ensures var l' := Handled(c, l, p, from, m).value; StreamsInv(c, logs, l', p) && Advances(p, l, l')
  {
    hide Handled, Advances, SlotsOfView;
    PeersAdvance(c, logs, l, p, from, m);
    assert PeerFollows(c, logs, l, from);
    SlotsAdvance(c, l, p, from, m);
  }

  // ---------- Steps ----------

  lemma StreamsGrow(c: Config, logs: Logs, logs': Logs, l: Local, p: Replica)
    requires StreamsInv(c, logs, l, p) && |logs'| == c.n && forall q :: 0 <= q < c.n ==> logs[q] <= logs'[q]
    ensures StreamsInv(c, logs', l, p)
  {
    hide Fold, Accepted, SlotsOfView;
    forall q: nat | q < c.n ensures PeerFollows(c, logs', l, q) {
      assert PeerFollows(c, logs, l, q);
      assert logs'[q][..l.peers[q].nextCb] == logs[q][..l.peers[q].nextCb];
    }
  }

  /** A change of one slot that keeps its view, and growing checkpoints. */
  lemma SlotsChange(c: Config, logs: Logs, l: Local, l': Local, p: Replica)
    requires StreamsInv(c, logs, l, p) && Shaped(c, l') && l.certified <= l'.certified
    requires forall q :: 0 <= q < c.n ==> LogStateOf(l'.peers[q]) == LogStateOf(l.peers[q]) && l'.peers[q].nextCb == l.peers[q].nextCb
    requires forall i :: i in l'.slots ==> i in l.slots && l'.slots[i].view == l.slots[i].view
    ensures StreamsInv(c, logs, l', p)
  {
    hide Fold, Accepted;
    forall q: nat | q < c.n ensures PeerFollows(c, logs, l', q) {
      assert PeerFollows(c, logs, l, q);
    }
  }

  lemma LocalShape(c: Config, s: State, step: Step, s': State, p: Replica)
    requires c.n > 0 && Sane(c, s) && Sane(c, s') && p < c.n && Next(c, s, step, s')
    requires step.Certify? || step.SendFast? || step.RecvFast? || step.Verified? || step.SignCheckpoint? || step.AdoptCheckpoint? || step.Decide?
    ensures var l, l' := s.locals[p], s'.locals[p];
            && s'.logs == s.logs && s'.halted == s.halted && l.certified <= l'.certified && l'.slots.Keys == l.slots.Keys && l'.frames == l.frames
            && (forall i :: i in l.slots ==> l'.slots[i].view == l.slots[i].view)
            && forall q :: 0 <= q < c.n ==> LogStateOf(l'.peers[q]) == LogStateOf(l.peers[q]) && l'.peers[q].nextCb == l.peers[q].nextCb
  {
    hide CertValid, CertChecked, Promised, CheckpointCertified, Decidable;
  }

  lemma LocalStep(c: Config, s: State, step: Step, s': State, p: Replica)
    requires c.n > 0 && Follows(c, s, p) && Sane(c, s') && Next(c, s, step, s')
    requires step.Certify? || step.SendFast? || step.RecvFast? || step.Verified? || step.SignCheckpoint? || step.AdoptCheckpoint? || step.Decide?
    ensures Follows(c, s', p)
  {
    hide StreamsInv, Next;
    LocalShape(c, s, step, s', p);
    SlotsChange(c, s.logs, s.locals[p], s'.locals[p], p);
  }

  lemma DeliverFollows(c: Config, s: State, s': State, q: Replica, from: Replica, p: Replica)
    requires c.n > 0 && Follows(c, s, p) && Sane(c, s') && Next(c, s, Deliver(q, from), s')
    ensures Follows(c, s', p)
  {
    hide StreamsInv, Handle, Checked, SealsAfter;
    if q == p {
      var m := s.logs[from][s.locals[p].peers[from].nextCb];
      assert Handled(c, s.locals[p], p, from, m) == Handle(c, s.locals[p], p, from, m);
      HandledFollows(c, s.logs, s.locals[p], p, from, m);
      HandledMoves(c, s.locals[p], p, from, m);
    }
  }

  /** Calls begin and end. */
  lemma CallFollows(c: Config, s: State, step: Step, s': State, p: Replica)
    requires c.n > 0 && Follows(c, s, p) && Sane(c, s') && Next(c, s, step, s') && (step.Begin? || step.Open?)
    ensures Follows(c, s', p)
  {
    hide CanBegin, Best, Batches, SlotsOfView, Fold;
    assert s'.logs == s.logs && s'.halted == s.halted;
    if s'.locals[p] != s.locals[p] {
      hide StreamsInv;
      SlotsChange(c, s.logs, s.locals[p], s'.locals[p], p);
    }
  }

  lemma PoppedFollows(c: Config, logs: Logs, l: Local, p: Replica)
    requires StreamsInv(c, logs, l, p) && !Idle(l)
    ensures StreamsInv(c, logs, Popped(l), p)
  {
    assert Shaped(c, l);
    hide StreamsInv;
    SlotsChange(c, logs, l, Popped(l), p);
  }

  lemma BroadcastFollows(c: Config, s: State, s': State, q: Replica, m: Msg, p: Replica)
    requires c.n > 0 && Follows(c, s, p) && Sane(c, s') && Next(c, s, Broadcast(q, m), s')
    ensures Follows(c, s', p)
  {
    hide StreamsInv, Handle, SealsAfter, AfterBroadcast;
    StreamsGrow(c, s.logs, s'.logs, s.locals[p], p);
    if q == p {
      PoppedFollows(c, s'.logs, s.locals[p], p);
      HandledFollows(c, s'.logs, Popped(s.locals[p]), p, p, m);
      HandledMoves(c, Popped(s.locals[p]), p, p, m);
    }
  }

  lemma StepFollows(c: Config, s: State, step: Step, s': State, p: Replica)
    requires c.n > 0 && c.Correct(p) && Follows(c, s, p) && Sane(c, s') && Next(c, s, step, s')
    ensures Follows(c, s', p)
  {
    hide Follows, Next;
    match step
    case Deliver(q, from) => DeliverFollows(c, s, s', q, from, p);
    case Broadcast(q, m) => BroadcastFollows(c, s, s', q, m, p);
    case Begin(q, m) => CallFollows(c, s, step, s', p);
    case Open(q) => CallFollows(c, s, step, s', p);
    case Halt(q, m) => AppendFollows(c, s, step, s', p);
    case Byzantine(q, m) => AppendFollows(c, s, step, s', p);
    case _ => LocalStep(c, s, step, s', p);
  }

  lemma AppendFollows(c: Config, s: State, step: Step, s': State, p: Replica)
    requires c.n > 0 && c.Correct(p) && Follows(c, s, p) && Sane(c, s') && Next(c, s, step, s') && (step.Halt? || step.Byzantine?)
    ensures Follows(c, s', p)
  {
    hide StreamsInv, Handle;
    StreamsGrow(c, s.logs, s'.logs, s.locals[p], p);
  }

  lemma StartFollows(c: Config, s: State, p: Replica)
    requires c.n > 0 && Sane(c, s) && Init(c, s) && p < c.n
    ensures Follows(c, s, p)
  {}

  lemma {:induction false} RunsFollow(c: Config, states: seq<State>, steps: seq<Step>, k: nat, p: Replica)
    requires IsRun(c, states, steps) && k < |states| && c.Correct(p)
    ensures Follows(c, states[k], p)
  {
    hide Follows, Next, Init;
    if k == 0 {
      StartFollows(c, states[0], p);
    } else {
      RunsFollow(c, states, steps, k - 1, p);
      StepFollows(c, states[k - 1], steps[k - 1], states[k], p);
    }
  }

  // ---------- Fast commits precede the seal of their view ----------

  /** The view a replica is in is not sealed in its stream, as far as it has handled that. */
  lemma CurrentViewUnsealed(c: Config, s: State, p: Replica)
    requires Follows(c, s, p)
    ensures SealPos(s.logs[p][..s.locals[p].peers[p].nextCb], s.locals[p].peers[p].view).None?
  {
    hide SlotsOfView;
    assert PeerFollows(c, s.logs, s.locals[p], p);
    NotSealed(s.logs[p][..s.locals[p].peers[p].nextCb], s.locals[p].peers[p].view);
  }

  lemma NewFastCommit(c: Config, s: State, step: Step, s': State, f: FastCommit)
    requires c.n > 0 && Sane(c, s) && Next(c, s, step, s') && f in s'.fast && f !in s.fast
    ensures step.SendFast? && f.sender == step.p && Runs(c, s, step.p)
    ensures step.i in s.locals[step.p].slots && f.view == s.locals[step.p].slots[step.i].view
  {
    hide Handle, HandleVerified, CanBegin, Decidable, Checked, CertChecked, CheckpointCertified, Promised;
  }

  /** In every run of the code, a correct replica fast-commits only in a view it has not sealed. */
  lemma FastCommitsPrecedeSeal(c: Config, states: seq<State>, steps: seq<Step>, k: nat, f: FastCommit)
    requires IsRun(c, states, steps) && k < |steps|
    requires f in states[k + 1].fast && f !in states[k].fast
    ensures f.sender < |states[k].logs| && SealPos(states[k].logs[f.sender], f.view).None?
  {
    hide Next, SealPos;
    NewFastCommit(c, states[k], steps[k], states[k + 1], f);
    RunsFollow(c, states, steps, k, f.sender);
    CurrentViewUnsealed(c, states[k], f.sender);
    assert states[k].logs[f.sender][..|states[k].logs[f.sender]|] == states[k].logs[f.sender];
  }
}
