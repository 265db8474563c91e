/** Every correct replica decides the instances 0, 1, 2, ... one after the other, each
    exactly once; this needs none of the checks the code omits. */
module ConsensusDecisions {
  import opened ConsensusLog
  import opened ConsensusProtocol

  ghost predicate Decided(s: State, p: Replica, i: Instance) {
    exists d :: d in s.decisions && d.replica == p && d.instance == i
  }

  /** The decisions of p are those of the instances below its next one, one each. */
  ghost predicate Consecutive(s: State, p: Replica)
    requires p < |s.locals|
  {
    && (forall d :: d in s.decisions && d.replica == p ==> d.instance < s.locals[p].nextToDecide)
    && (forall d, e :: d in s.decisions && e in s.decisions && d.replica == p && e.replica == p && d.instance == e.instance ==> d == e)
    && (forall i: Instance :: i < s.locals[p].nextToDecide ==> Decided(s, p, i))
  }

  lemma HandleKeepsNext(c: Config, l: Local, me: Replica, from: Replica, m: Msg)
    requires Shaped(c, l) && me < c.n && from < c.n && Handle(c, l, me, from, m).Some?
    ensures Handle(c, l, me, from, m).value.nextToDecide == l.nextToDecide
  {
    hide Replays, AfterReplay, Evict, IsByzantinePrepare, Best, Batches, Prune;
  }

  lemma VerifiedKeepsNext(c: Config, l: Local, from: Replica, cert: Cert)
    requires Shaped(c, l) && from < c.n && HandleVerified(c, l, from, cert).Some?
    ensures HandleVerified(c, l, from, cert).value.nextToDecide == l.nextToDecide
  {}

  lemma OtherSteps(c: Config, s: State, step: Step, s': State, p: Replica)
    requires c.n > 0 && Sane(c, s) && Next(c, s, step, s') && !step.Decide? && p < c.n
    ensures |s'.locals| == c.n && s'.decisions == s.decisions && s'.locals[p].nextToDecide == s.locals[p].nextToDecide
  {
    hide CertValid, CanBegin, SealsAfter;
    match step
    case Deliver(q, from) =>
      HandleKeepsNext(c, s.locals[q], q, from, s.logs[from][s.locals[q].peers[from].nextCb]);
      hide Handle;
    case Broadcast(q, m) =>
      HandleKeepsNext(c, Popped(s.locals[q]), q, q, m);
      hide Handle;
    case Verified(q, from, cert) =>
      VerifiedKeepsNext(c, s.locals[q], from, cert);
      hide HandleVerified;
    case _ =>
  }

  lemma DecideEffect(c: Config, s: State, q: Replica, s': State, p: Replica) returns (d: Decision)
    requires c.n > 0 && Sane(c, s) && Next(c, s, Decide(q), s') && p < c.n
    ensures q < c.n && |s'.locals| == c.n && s'.decisions == s.decisions + {d}
    ensures d.replica == q && d.instance == s.locals[q].nextToDecide
    ensures s'.locals[p].nextToDecide == if p == q then s.locals[p].nextToDecide + 1 else s.locals[p].nextToDecide
  {
    var l := s.locals[q];
    var slot := l.slots[l.nextToDecide];
    var isFast := |slot.fast| == c.n;
    d := Decision(q, l.nextToDecide, slot.batch, slot.view, isFast, if isFast then slot.fast else slot.slow);
  }

  lemma DecideKeeps(c: Config, s: State, q: Replica, s': State, p: Replica)
    requires c.n > 0 && Sane(c, s) && Next(c, s, Decide(q), s') && p < c.n && Consecutive(s, p)
    ensures |s'.locals| == c.n && Consecutive(s', p)
  {
    hide Next, Sane;
    var d := DecideEffect(c, s, q, s', p);
    forall i: Instance | i < s'.locals[p].nextToDecide ensures Decided(s', p, i) {
      if i == d.instance && p == q {
        assert d in s'.decisions;
      } else {
        assert Decided(s, p, i);
        var e :| e in s.decisions && e.replica == p && e.instance == i;
        assert e in s'.decisions;
      }
    }
  }

  /** In every run of the code. */
  lemma {:induction false} RunsDecideInOrder(c: Config, states: seq<State>, steps: seq<Step>, k: nat, p: Replica)
    requires IsRun(c, states, steps) && k < |states| && p < c.n
    ensures Sane(c, states[k]) && Consecutive(states[k], p)
  {
    hide Next;
    if k > 0 {
      RunsDecideInOrder(c, states, steps, k - 1, p);
      if steps[k - 1].Decide? {
        DecideKeeps(c, states[k - 1], steps[k - 1].p, states[k], p);
      } else {
        OtherSteps(c, states[k - 1], steps[k - 1], states[k], p);
        forall i: Instance | i < states[k].locals[p].nextToDecide ensures Decided(states[k], p, i) {
          assert Decided(states[k - 1], p, i);
        }
      }
    }
  }
}
