/** The counter that SealView and CB checkpoints wait for, and why it does not
    count what it should: replaying a buffered commit decrements it a second time. */
module ConsensusCounter {
  import opened Options
  import opened ConsensusLog
  import opened ConsensusProtocol

  function Outstanding(s: State, p: Replica, q: Replica): nat
    requires p < |s.locals| && q < |s.locals[p].peers|
  {
    s.locals[p].peers[q].outstanding
  }

  function UnderVerification(s: State, p: Replica, q: Replica): nat
    requires p < |s.locals| && q < |s.locals[p].pending|
  {
    |s.locals[p].pending[q]|
  }

  /** The message a step makes p handle, and whose stream it is on. */
  function HandledBy(s: State, step: Step, p: Replica): Option<Msg> {
    match step
    case Deliver(p', from) =>
      if p' == p && p < |s.locals| && from < |s.locals[p].peers| && from < |s.logs| && s.locals[p].peers[from].nextCb < |s.logs[from]|
      then Some(s.logs[from][s.locals[p].peers[from].nextCb]) else None
    case Broadcast(p', m) => if p' == p then Some(m) else None
    case _ => None
  }

  /** The step inserts a prepare at p and thereby replays a buffered commit of q. */
  predicate ReplayStep(s: State, step: Step, p: Replica, q: Replica)
    requires p < |s.locals| && p < |s.locals[p].peers| && q < |s.locals[p].buffered|
  {
    var m := HandledBy(s, step, p);
    var l := s.locals[p];
    && m.Some? && m.value.Prepare?
    && m.value.view == l.peers[p].view && l.certified <= m.value.instance
    && Replays(l.buffered[q], m.value.view, m.value.instance)
  }

  /** How often a commit of q was replayed at p in the first k steps. */
  ghost function ReplayCount(c: Config, states: seq<State>, steps: seq<Step>, k: nat, p: Replica, q: Replica): nat
    requires IsRun(c, states, steps) && k <= |steps| && p < c.n && q < c.n
  {
    if k == 0 then 0
    else
      assert Sane(c, states[k - 1]) && Shaped(c, states[k - 1].locals[p]);
      ReplayCount(c, states, steps, k - 1, p, q) + if ReplayStep(states[k - 1], steps[k - 1], p, q) then 1 else 0
  }

  /** Differences that size_t arithmetic does not see. */
  predicate Unseen(d: int) { d == 0 || d == SIZE_T || d == -SIZE_T }

  lemma HandleDrift(c: Config, l: Local, p: Replica, from: Replica, m: Msg, q: Replica)
    requires Shaped(c, l) && p < c.n && from < c.n && q < c.n && Handle(c, l, p, from, m).Some?
    ensures var l' := Handle(c, l, p, from, m).value;
            var replayed := m.Prepare? && m.view == l.peers[p].view && l.certified <= m.instance && Replays(l.buffered[q], m.view, m.instance);
            Unseen(l'.peers[q].outstanding + |l.pending[q]| + (if replayed then 1 else 0) - l.peers[q].outstanding - |l'.pending[q]|)
  {
    hide DropStale, Replays, AfterReplay, Evict, Prune, Best, Merge;
  }

  lemma VerifiedDrift(c: Config, l: Local, from: Replica, cert: Cert, q: Replica)
    requires Shaped(c, l) && from < c.n && q < c.n && cert in l.pending[from] && HandleVerified(c, l, from, cert).Some?
    ensures var l' := HandleVerified(c, l, from, cert).value;
            Unseen(l'.peers[q].outstanding + |l.pending[q]| - l.peers[q].outstanding - |l'.pending[q]|)
  {}

  /** One step moves the counter with the commits under verification, except when it replays. */
  lemma StepDrift(c: Config, s: State, step: Step, s': State, p: Replica, q: Replica)
    requires Sane(c, s) && Sane(c, s') && c.n > 0 && Next(c, s, step, s') && p < c.n && q < c.n
    requires Shaped(c, s.locals[p]) && Shaped(c, s'.locals[p])
    ensures Unseen(Outstanding(s', p, q) + UnderVerification(s, p, q) + (if ReplayStep(s, step, p, q) then 1 else 0)
                   - Outstanding(s, p, q) - UnderVerification(s', p, q))
  {
    hide CanBegin, CertValid, Replays, Handle, HandleVerified, Decidable, Unseen;
    assert Unseen(0) by { ZeroUnseen(); }
    match step {
      case Deliver(p', from) =>
        if p' == p { HandleDrift(c, s.locals[p], p, from, s.logs[from][s.locals[p].peers[from].nextCb], q); }
      case Broadcast(p', m) =>
        if p' == p { HandleDrift(c, Popped(s.locals[p]), p, p, m, q); }
      case Verified(p', from, cert) =>
        if p' == p { VerifiedDrift(c, s.locals[p], from, cert, q); }
      case _ =>
    }
  }

  lemma ZeroUnseen()
    ensures Unseen(0)
  {}

  lemma RunStart(c: Config, states: seq<State>, steps: seq<Step>, p: Replica, q: Replica)
    requires IsRun(c, states, steps) && p < c.n && q < c.n
    requires Sane(c, states[0]) && Shaped(c, states[0].locals[p])
    ensures Outstanding(states[0], p, q) == 0 && UnderVerification(states[0], p, q) == 0
  {}

  lemma RunStep(c: Config, states: seq<State>, steps: seq<Step>, k: nat, p: Replica)
    requires IsRun(c, states, steps) && k < |steps| && p < c.n
    ensures c.n > 0 && Sane(c, states[k]) && Sane(c, states[k + 1]) && Next(c, states[k], steps[k], states[k + 1])
    ensures |states| == |steps| + 1 && Shaped(c, states[k].locals[p]) && Shaped(c, states[k + 1].locals[p])
  {
    hide Next;
  }

  /** In every run: counter + replays = commits under verification, in size_t arithmetic. */
  lemma {:induction false} CounterDrift(c: Config, states: seq<State>, steps: seq<Step>, k: nat, p: Replica, q: Replica) returns (wraps: int)
    requires IsRun(c, states, steps) && k <= |steps| && p < c.n && q < c.n
    requires Sane(c, states[k]) && Shaped(c, states[k].locals[p])
    ensures Outstanding(states[k], p, q) + ReplayCount(c, states, steps, k, p, q) == UnderVerification(states[k], p, q) + wraps * SIZE_T
    ensures Outstanding(states[k], p, q) < SIZE_T
  {
    hide Next, ReplayStep, IsRun;
    if k == 0 {
      RunStart(c, states, steps, p, q);
      wraps := 0;
    } else {
      RunStep(c, states, steps, k - 1, p);
      var w := CounterDrift(c, states, steps, k - 1, p, q);
      StepDrift(c, states[k - 1], steps[k - 1], states[k], p, q);
      CounterFits(c, states[k - 1], steps[k - 1], states[k], p, q);
      var d := Outstanding(states[k], p, q) + UnderVerification(states[k - 1], p, q) + (if ReplayStep(states[k - 1], steps[k - 1], p, q) then 1 else 0)
               - Outstanding(states[k - 1], p, q) - UnderVerification(states[k], p, q);
      wraps := w + if d == 0 then 0 else if d == SIZE_T then 1 else -1;
    }
  }

  lemma HandleFits(c: Config, l: Local, p: Replica, from: Replica, m: Msg, q: Replica)
    requires Shaped(c, l) && p < c.n && from < c.n && q < c.n && Handle(c, l, p, from, m).Some? && l.peers[q].outstanding < SIZE_T
    ensures Handle(c, l, p, from, m).value.peers[q].outstanding < SIZE_T
  {
    hide DropStale, Replays, AfterReplay, Evict, Prune, Best, Merge;
  }

  lemma CounterFits(c: Config, s: State, step: Step, s': State, p: Replica, q: Replica)
    requires Sane(c, s) && Sane(c, s') && c.n > 0 && Next(c, s, step, s') && p < c.n && q < c.n
    requires Shaped(c, s.locals[p]) && Shaped(c, s'.locals[p]) && Outstanding(s, p, q) < SIZE_T
    ensures Outstanding(s', p, q) < SIZE_T
  {
    hide CanBegin, CertValid, Replays, Handle, Decidable;
    match step {
      case Deliver(p', from) =>
        if p' == p { HandleFits(c, s.locals[p], p, from, s.logs[from][s.locals[p].peers[from].nextCb], q); }
      case Broadcast(p', m) =>
        if p' == p { HandleFits(c, Popped(s.locals[p]), p, p, m, q); }
      case _ =>
    }
  }

  /** The wait for a zero counter ends exactly when as many commits are under
      verification as were replayed: it waits for all of them if nothing was replayed. */
  lemma WaitEnds(c: Config, states: seq<State>, steps: seq<Step>, k: nat, p: Replica, q: Replica)
    requires IsRun(c, states, steps) && k <= |steps| && p < c.n && q < c.n
    requires Sane(c, states[k]) && Shaped(c, states[k].locals[p])
    requires UnderVerification(states[k], p, q) < SIZE_T && ReplayCount(c, states, steps, k, p, q) < SIZE_T
    ensures Outstanding(states[k], p, q) == 0 <==> UnderVerification(states[k], p, q) == ReplayCount(c, states, steps, k, p, q)
  {
    hide IsRun;
    var wraps := CounterDrift(c, states, steps, k, p, q);
  }
}
