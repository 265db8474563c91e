/** When an instance leaves the slots of a replica; this needs none of the checks that agreement needs. */
module ConsensusWindow {
  import opened ConsensusLog
  import opened ConsensusProtocol
  import Decisions = ConsensusDecisions
  import opened Quorums

  /** No replica's checkpoint is ahead of the best one known. */
  ghost predicate Known(l: Local) {
    forall q :: 0 <= q < |l.peers| ==> l.peers[q].low <= l.certified
  }

  /** What left the slots is below a certified checkpoint. */
  ghost predicate OnlyBelow(l: Local, l': Local) {
    forall i :: i in l.slots && i !in l'.slots ==> i < l'.certified
  }

  lemma InsertKeeps(c: Config, l: Local, from: Replica, v: View, i: Instance, b: Batch)
    requires Shaped(c, l) && from < c.n && Known(l) && i < l.peers[from].low + c.window
    ensures var l' := Insert(c, l, from, v, i, b); Known(l') && OnlyBelow(l, l')
  {
    hide Replays, AfterReplay, Decrement;
    var l' := Insert(c, l, from, v, i, b);
    forall q | 0 <= q < |l'.peers| ensures l'.peers[q].low <= l'.certified {
      assert l'.peers[q].low == l.peers[q].low;
    }
    forall k | k in l.slots && k !in l'.slots ensures k < l'.certified {
      assert k !in Evict(l.slots, c.window, i);
    }
  }

  lemma PrepareKeeps(c: Config, l: Local, me: Replica, from: Replica, v: View, i: Instance, b: Batch)
    requires Shaped(c, l) && me < c.n && from < c.n && Known(l) && HandlePrepare(c, l, me, from, v, i, b).Some?
    ensures var l' := HandlePrepare(c, l, me, from, v, i, b).value; Known(l') && OnlyBelow(l, l')
  {
    hide Insert, Known, OnlyBelow;
    if v == l.peers[me].view && i >= l.certified {
      InsertKeeps(c, l, from, v, i, b);
    } else {
      NothingForgotten(l);
    }
  }

  lemma NothingForgotten(l: Local)
    ensures OnlyBelow(l, l)
  {}

  lemma HandleKeeps(c: Config, l: Local, me: Replica, from: Replica, m: Msg)
    requires Shaped(c, l) && me < c.n && from < c.n && Known(l) && Handle(c, l, me, from, m).Some?
    ensures var l' := Handle(c, l, me, from, m).value; Known(l') && OnlyBelow(l, l')
  {
    hide HandlePrepare, Prune, Best, Batches;
    var l1 := Bump(l, from);
    assert Known(l1) && l1.slots == l.slots;
    if m.Prepare? {
      PrepareKeeps(c, l1, me, from, m.view, m.instance, m.batch);
    }
  }

  lemma StepKeeps(c: Config, s: State, step: Step, s': State, p: Replica)
    requires c.n > 0 && Sane(c, s) && Next(c, s, step, s') && p < c.n && Known(s.locals[p])
    ensures |s'.locals| == c.n && Known(s'.locals[p])
    ensures OnlyBelow(s.locals[p], s'.locals[p]) || step == Broadcast(p, SealView)
  {
    hide CertValid, SealsAfter, Decidable;
    match step
    case Deliver(q, from) =>
      if q == p {
        HandleKeeps(c, s.locals[q], q, from, s.logs[from][s.locals[q].peers[from].nextCb]);
      }
      hide Handle;
    case Broadcast(q, m) =>
      if q == p {
        HandleKeeps(c, Popped(s.locals[q]), q, q, m);
        OwnCheckpoint(c, Popped(s.locals[q]), q, m);
      }
      hide Handle, CanBegin;
    case _ =>
  }

  /** A checkpoint handled is not ahead of the best one known. */
  lemma OwnCheckpoint(c: Config, l: Local, p: Replica, m: Msg)
    requires Shaped(c, l) && p < c.n && Handle(c, l, p, p, m).Some?
    ensures m.Checkpoint? ==> m.low <= Handle(c, l, p, p, m).value.certified
  {}

  lemma {:induction false} RunsKnow(c: Config, states: seq<State>, steps: seq<Step>, k: nat, p: Replica)
    requires IsRun(c, states, steps) && k < |states| && p < c.n
    ensures Sane(c, states[k]) && Known(states[k].locals[p])
  {
    hide Next;
    if k > 0 {
      RunsKnow(c, states, steps, k - 1, p);
      StepKeeps(c, states[k - 1], steps[k - 1], states[k], p);
    }
  }

  /** In every run of the code, a replica forgets an instance only when it seals its view, or below
      the best checkpoint it knows. */
  lemma RunsForgetBelowCheckpoints(c: Config, states: seq<State>, steps: seq<Step>, k: nat, p: Replica, i: Instance)
    requires IsRun(c, states, steps) && k < |steps| && p < c.n
    requires Sane(c, states[k]) && Sane(c, states[k + 1])
    requires i in states[k].locals[p].slots && i !in states[k + 1].locals[p].slots
    ensures steps[k] == Broadcast(p, SealView) || i < states[k + 1].locals[p].certified
  {
    hide Next;
    RunsKnow(c, states, steps, k, p);
    StepKeeps(c, states[k], steps[k], states[k + 1], p);
  }

  // ---------- What a certified checkpoint says ----------

  ghost predicate DecidedBelow(c: Config, s: State, r: Replica, low: Instance) {
    c.Correct(r) && r < |s.locals| && low <= s.locals[r].nextToDecide
  }

  /** Some correct replica decided everything below. */
  ghost predicate Backed(c: Config, s: State, low: Instance) {
    low == 0 || exists r :: DecidedBelow(c, s, r, low)
  }

  ghost predicate SharesBacked(c: Config, s: State) {
    forall sh :: sh in s.checkpoints ==> DecidedBelow(c, s, sh.signer, sh.low)
  }

  ghost predicate CheckpointsInv(c: Config, s: State) {
    && Sane(c, s)
    && SharesBacked(c, s)
    && forall p :: 0 <= p < c.n ==> Known(s.locals[p]) && Backed(c, s, s.locals[p].certified)
  }

  lemma CertifiedBacked(c: Config, s: State, low: Instance)
    requires c.Valid() && SharesBacked(c, s) && CheckpointCertified(c, s.checkpoints, low)
    ensures Backed(c, s, low)
  {
    var signers :| SignedCheckpoint(c, s.checkpoints, low, signers);
    if signers <= c.byzantine {
      SubsetSize(signers, c.byzantine);
    }
    var r :| r in signers && r !in c.byzantine;
    assert r in Group(c.n) && CheckpointShare(r, low) in s.checkpoints;
    assert DecidedBelow(c, s, r, low);
  }

  /** Decisions only advance, and so does what backs a checkpoint. */
  lemma BackedStays(c: Config, s: State, s': State, low: Instance)
    requires Sane(c, s) && Sane(c, s') && Backed(c, s, low)
    requires forall r :: 0 <= r < c.n ==> s.locals[r].nextToDecide <= s'.locals[r].nextToDecide
    ensures Backed(c, s', low)
  {
    if low != 0 {
      var r :| DecidedBelow(c, s, r, low);
      assert DecidedBelow(c, s', r, low);
    }
  }

  lemma DecisionsAdvance(c: Config, s: State, step: Step, s': State, r: Replica)
    requires c.n > 0 && Sane(c, s) && Next(c, s, step, s') && r < c.n
    ensures r < |s'.locals| && s.locals[r].nextToDecide <= s'.locals[r].nextToDecide
  {
    hide Next;
    if step.Decide? {
      var d := Decisions.DecideEffect(c, s, step.p, s', r);
    } else {
      Decisions.OtherSteps(c, s, step, s', r);
    }
  }

  lemma HandleAdopts(c: Config, l: Local, me: Replica, from: Replica, m: Msg)
    requires Shaped(c, l) && me < c.n && from < c.n && Handle(c, l, me, from, m).Some?
    ensures var l' := Handle(c, l, me, from, m).value; l'.certified == l.certified || (m.Checkpoint? && l'.certified == m.low)
  {
    hide Replays, AfterReplay, Evict, IsByzantinePrepare, Best, Batches, Prune;
  }

  /** Where the best checkpoint known comes from. */
  lemma CertifiedFrom(c: Config, s: State, step: Step, s': State, p: Replica)
    requires c.n > 0 && Sane(c, s) && Next(c, s, step, s') && Passes(CheckpointCertificate, c, s, step) && p < c.n && p < |s'.locals|
    ensures s'.locals[p].certified == s.locals[p].certified || CheckpointCertified(c, s.checkpoints, s'.locals[p].certified)
  {
    hide CertValid, SealsAfter, Decidable, CheckpointCertified;
    match step
    case Deliver(q, from) =>
      HandleAdopts(c, s.locals[q], q, from, s.logs[from][s.locals[q].peers[from].nextCb]);
      hide Handle;
    case Broadcast(q, m) =>
      HandleAdopts(c, Popped(s.locals[q]), q, q, m);
      hide Handle;
    case _ =>
  }

  lemma NewShares(c: Config, s: State, step: Step, s': State)
    requires c.n > 0 && Sane(c, s) && Next(c, s, step, s') && SharesBacked(c, s) && Sane(c, s')
    requires forall r :: 0 <= r < c.n ==> s.locals[r].nextToDecide <= s'.locals[r].nextToDecide
    ensures SharesBacked(c, s')
  {
    hide CertValid, SealsAfter, Decidable, Handle, HandleVerified, CanBegin;
  }

  lemma CheckpointsKeep(c: Config, s: State, step: Step, s': State)
    requires c.Valid() && c.n > 0 && CheckpointsInv(c, s) && Sane(c, s') && Next(c, s, step, s') && Passes(CheckpointCertificate, c, s, step)
    ensures CheckpointsInv(c, s')
  {
    hide Next, Passes, CheckpointCertified, Known, SharesBacked, Backed;
    forall r: nat | r < c.n ensures s.locals[r].nextToDecide <= s'.locals[r].nextToDecide {
      DecisionsAdvance(c, s, step, s', r);
    }
    NewShares(c, s, step, s');
    forall p: nat | p < c.n ensures Known(s'.locals[p]) && Backed(c, s', s'.locals[p].certified) {
      StepKeeps(c, s, step, s', p);
      CertifiedFrom(c, s, step, s', p);
      if s'.locals[p].certified != s.locals[p].certified {
        CertifiedBacked(c, s, s'.locals[p].certified);
      }
      BackedStays(c, s, s', s'.locals[p].certified);
    }
  }

  lemma {:induction false} RunsBack(c: Config, states: seq<State>, steps: seq<Step>, k: nat)
    requires c.Valid() && IsCheckedRun(c, {CheckpointCertificate}, states, steps) && k < |states|
    ensures CheckpointsInv(c, states[k])
  {
    hide Next, Passes;
    if k > 0 {
      RunsBack(c, states, steps, k - 1);
      CheckpointsKeep(c, states[k - 1], steps[k - 1], states[k]);
    }
  }

  /** What p forgets in the k-th step, other than by sealing its view. */
  ghost predicate Forgets(states: seq<State>, steps: seq<Step>, k: nat, p: Replica, i: Instance) {
    && k < |steps| && k + 1 < |states| && p < |states[k].locals| && p < |states[k + 1].locals|
    && i in states[k].locals[p].slots && i !in states[k + 1].locals[p].slots && steps[k] != Broadcast(p, SealView)
  }

  /** In every run in which the certificates of checkpoints are valid for what they say, a replica
      forgets an instance only when it seals its view, or once some correct replica has decided it. */
  lemma RunsForgetDecided(c: Config, states: seq<State>, steps: seq<Step>, k: nat, p: Replica, i: Instance) returns (r: Replica)
    requires c.Valid() && IsCheckedRun(c, {CheckpointCertificate}, states, steps) && p < c.n && Forgets(states, steps, k, p, i)
    ensures c.Correct(r) && Decisions.Decided(states[k + 1], r, i)
  {
    hide Next, Passes, SharesBacked;
    RunsForgetBelowCheckpoints(c, states, steps, k, p, i);
    RunsBack(c, states, steps, k + 1);
    r :| DecidedBelow(c, states[k + 1], r, states[k + 1].locals[p].certified);
    Decisions.RunsDecideInOrder(c, states, steps, k + 1, r);
  }
}
