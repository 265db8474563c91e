/** The omitted checks are exactly what the guarantees need: each guarantee holds of all runs that
    pass a set of checks if and only if the set contains the checks named. */
module ConsensusExactness {
  import opened ConsensusLog
  import opened ConsensusProtocol
  import opened ConsensusScript
  import opened ConsensusSafety
  import opened ConsensusSealing
  import opened ConsensusCertificates
  import Trio = ConsensusTrio
  import Hiding = ConsensusHiding
  import CrossView = ConsensusCrossView
  import StaleView = ConsensusStaleView
  import Forged = ConsensusForgedCommit
  import LateFast = ConsensusLateFast
  import Eviction = ConsensusEviction
  import Setback = ConsensusSetback
  import Window = ConsensusWindow
  import Forgetting = ConsensusForgetting

  // ---------- Agreement ----------

  /** The checks agreement needs: against checkpoints that go back, either of two will do. */
  ghost predicate AgreementChecks(checks: set<Check>) {
    && (forall k: Check :: !k.CheckpointsForward? && !k.CheckpointCertificate? ==> k in checks)
    && (CheckpointsForward in checks || CheckpointCertificate in checks)
  }

  /** Without check k, two correct replicas decide differently in a run that passes all the others. */
  lemma Disagreement(k: Check) returns (c: Config, s: State)
    requires !k.CheckpointCertificate?
    ensures c.Valid() && Reached(c, k, s) && !Agreement(s)
  {
    hide Reached, Agreement;
    c := if k.NoEviction? || k.CheckpointsForward? then Eviction.C5 else Trio.C;
    assert c.Valid() by { GroupsValid(); }
    match k {
      case CommitView => s := CrossView.CommitViewRun(k);
      case FastView => s := LateFast.FastViewRun(k);
      case CommitCertificate => s := Forged.ForgedRun(k);
      case StateCertificates => s := Hiding.HidingRun(k);
      case DistinctStates => s := Hiding.HidingRun(k);
      case StatesView => s := StaleView.StaleRun(k);
      case ValuesView => s := StaleView.StaleRun(k);
      case AboveCheckpoint => s := Hiding.HidingRun(k);
      case CheckpointsForward => s := Setback.SetbackRun(k);
      case NoEviction => s := Eviction.EvictionRun(k);
      case NothingPending => s := Forged.HastyRun(k);
    }
  }

  lemma GroupsValid()
    ensures Trio.C.Valid() && Eviction.C5.Valid()
  {}

  /** A set of checks without k, and what goes with it, admits the runs that pass all the others. */
  lemma AdmitsRunsBut(c: Config, k: Check, checks: set<Check>, states: seq<State>, steps: seq<Step>)
    requires IsRunBut(c, k, states, steps) && forall x :: x in checks ==> !Excused(k, x)
    ensures IsCheckedRun(c, checks, states, steps)
  {
    hide Next, Init, Passes, Sane, Excused;
    forall j, x | 0 <= j < |steps| && x in checks ensures Passes(x, c, states[j], steps[j]) {
      assert OthersPass(c, k, states[j], steps[j]);
    }
  }

  ghost predicate AllAgree(states: seq<State>) {
    forall k :: 0 <= k < |states| ==> Agreement(states[k])
  }

  /** With these checks, every run of a group with a minority of Byzantine replicas agrees. */
  ghost predicate EnsureAgreement(checks: set<Check>) {
    forall c: Config, states, steps :: c.Valid() && IsCheckedRun(c, checks, states, steps) ==> AllAgree(states)
  }

  /** A checkpoint with a valid certificate does not take its sender back. */
  lemma CertifiedForward(c: Config, s: State, step: Step, s': State)
    requires c.n > 0 && Sane(c, s) && Next(c, s, step, s') && Passes(CheckpointCertificate, c, s, step)
    requires forall p :: 0 <= p < c.n ==> Window.Known(s.locals[p])
    ensures Passes(CheckpointsForward, c, s, step)
  {
    hide CheckpointCertified, CheckpointChecked, Prune, Insert, Best, Batches, IsByzantinePrepare, StateChecked, SealsAfter;
    match step
    case Deliver(p, from) => assert Window.Known(s.locals[p]);
    case Broadcast(p, m) => assert Window.Known(s.locals[p]);
    case _ =>
  }

  lemma AllPassed(c: Config, checks: set<Check>, states: seq<State>, steps: seq<Step>)
    requires IsCheckedRun(c, checks, states, steps) && AgreementChecks(checks)
    ensures IsGuardedRun(c, states, steps)
  {
    hide Next, Init, Passes, Sane, Window.Known;
    forall j | 0 <= j < |steps| ensures Guard(c, states[j], steps[j]) {
      forall k: Check | !k.CheckpointCertificate? ensures Passes(k, c, states[j], steps[j]) {
        if k.CheckpointsForward? && k !in checks {
          assert Passes(CheckpointCertificate, c, states[j], steps[j]);
          AllKnown(c, states, steps, j);
          CertifiedForward(c, states[j], steps[j], states[j + 1]);
        } else {
          assert k in checks;
        }
      }
    }
  }

  lemma AllKnown(c: Config, states: seq<State>, steps: seq<Step>, j: nat)
    requires IsRun(c, states, steps) && j < |states|
    ensures Sane(c, states[j]) && forall p :: 0 <= p < c.n ==> Window.Known(states[j].locals[p])
  {
    hide Next, Init, Window.Known;
    forall p: nat | p < c.n ensures Window.Known(states[j].locals[p]) {
      Window.RunsKnow(c, states, steps, j, p);
    }
  }

  lemma CheckedAgree(c: Config, checks: set<Check>, states: seq<State>, steps: seq<Step>)
    requires c.Valid() && IsCheckedRun(c, checks, states, steps) && AgreementChecks(checks)
    ensures AllAgree(states)
  {
    hide IsCheckedRun, IsGuardedRun, Agreement, AgreementChecks;
    AllPassed(c, checks, states, steps);
    forall k | 0 <= k < |states| ensures Agreement(states[k]) {
      RunsAgree(c, states, steps, k);
    }
  }

  lemma MissingCheck(k: Check, checks: set<Check>)
    requires !k.CheckpointCertificate? && forall x :: x in checks ==> !Excused(k, x)
    ensures !EnsureAgreement(checks)
  {
    var c, s := Disagreement(k);
    hide IsRunBut, IsCheckedRun, Agreement, Sane, Config.Valid, Excused, Quiescent;
    var states, steps :| EndsIn(c, k, states, steps, s);
    AdmitsRunsBut(c, k, checks, states, steps);
    assert |states| > 0 by { HasState(c, k, states, steps); }
    assert !AllAgree(states);
  }

  lemma HasState(c: Config, k: Check, states: seq<State>, steps: seq<Step>)
    requires IsRunBut(c, k, states, steps)
    ensures |states| == |steps| + 1
  {
    hide Next, OthersPass, Sane, Init;
  }

  /** The checks are exactly what agreement needs. */
  lemma AgreementExactly(checks: set<Check>)
    ensures EnsureAgreement(checks) <==> AgreementChecks(checks)
  {
    if AgreementChecks(checks) {
      AllChecksSuffice(checks);
    } else if k: Check :| !k.CheckpointsForward? && !k.CheckpointCertificate? && k !in checks {
      MissingCheck(k, checks);
    } else {
      MissingCheck(CheckpointsForward, checks);
    }
  }

  lemma AllChecksSuffice(checks: set<Check>)
    requires AgreementChecks(checks)
    ensures EnsureAgreement(checks)
  {
    hide Config.Valid, IsCheckedRun, AllAgree, AgreementChecks;
    forall c: Config, states, steps | c.Valid() && IsCheckedRun(c, checks, states, steps) ensures AllAgree(states) {
      CheckedAgree(c, checks, states, steps);
    }
  }

  /** In each such run of disagreement some step fails exactly check k, and with CheckpointsForward
      also CheckpointCertificate, which it follows from. */
  lemma OneCheckFails(k: Check) returns (c: Config, states: seq<State>, steps: seq<Step>, at: nat)
    requires !k.CheckpointCertificate?
    ensures c.Valid() && IsRun(c, states, steps) && at < |steps|
    ensures Sane(c, states[at]) && forall x :: Passes(x, c, states[at], steps[at]) <==> !Excused(k, x)
    ensures !Agreement(states[|steps|])
  {
    var s: State;
    c, s := Disagreement(k);
    hide Agreement, Passes, Next, Init, Config.Valid, Quiescent;
    states, steps :| EndsIn(c, k, states, steps, s);
    if forall j :: 0 <= j < |steps| ==> Guard(c, states[j], steps[j]) {
      RunsAgree(c, states, steps, |steps|);
      assert false;
    }
    at :| 0 <= at < |steps| && !Guard(c, states[at], steps[at]);
    FailsExactly(c, k, states, steps, at);
  }

  lemma FailsExactly(c: Config, k: Check, states: seq<State>, steps: seq<Step>, at: nat)
    requires IsRunBut(c, k, states, steps) && at < |steps| && !k.CheckpointCertificate?
    requires Sane(c, states[at]) && !Guard(c, states[at], steps[at])
    ensures forall x :: Passes(x, c, states[at], steps[at]) <==> !Excused(k, x)
  {
    hide Passes, Next, Init, Sane, Window.Known;
    assert OthersPass(c, k, states[at], steps[at]);
    AllKnown(c, states, steps, at);
    if Passes(CheckpointCertificate, c, states[at], steps[at]) {
      CertifiedForward(c, states[at], steps[at], states[at + 1]);
    }
  }

  // ---------- Certificates need the view of the valid values ----------

  ghost predicate AllCertifyOnce(c: Config, states: seq<State>) {
    forall k :: 0 <= k < |states| ==> CertifiesOnce(c, states[k])
  }

  ghost predicate EnsureUniqueness(checks: set<Check>) {
    forall c: Config, states, steps :: c.Valid() && IsCheckedRun(c, checks, states, steps) ==> AllCertifyOnce(c, states)
  }

  lemma FewerChecks(c: Config, fewer: set<Check>, checks: set<Check>, states: seq<State>, steps: seq<Step>)
    requires IsCheckedRun(c, checks, states, steps) && fewer <= checks
    ensures IsCheckedRun(c, fewer, states, steps)
  {
    hide IsRun, Passes;
  }

  lemma CheckedCertifyOnce(checks: set<Check>)
    requires ValuesView in checks
    ensures EnsureUniqueness(checks)
  {
    hide Config.Valid, IsCheckedRun, CertifiesOnce;
    forall c: Config, states, steps | c.Valid() && IsCheckedRun(c, checks, states, steps) ensures AllCertifyOnce(c, states) {
      FewerChecks(c, {ValuesView}, checks, states, steps);
      forall k | 0 <= k < |states| ensures CertifiesOnce(c, states[k]) {
        RunsCertifyOnce(c, states, steps, k);
      }
    }
  }

  lemma UncheckedCertifyTwice(checks: set<Check>)
    requires ValuesView !in checks
    ensures !EnsureUniqueness(checks)
  {
    var c, k := Trio.C, ValuesView;
    var s := StaleView.TwoCertificatesRun(k);
    GroupsValid();
    hide IsRunBut, IsCheckedRun, Sane, Config.Valid, CertValid, Quiescent;
    var states, steps :| EndsIn(c, k, states, steps, s);
    AdmitsRunsBut(c, k, checks, states, steps);
    HasState(c, k, states, steps);
    assert !CertifiesOnce(c, s);
    assert !AllCertifyOnce(c, states);
  }

  /** Valid certificates are unique exactly if valid values are those of the view of the prepare. */
  lemma UniquenessExactly(checks: set<Check>)
    ensures EnsureUniqueness(checks) <==> ValuesView in checks
  {
    hide EnsureUniqueness;
    if ValuesView in checks {
      CheckedCertifyOnce(checks);
    } else {
      UncheckedCertifyTwice(checks);
    }
  }

  // ---------- Sealing needs the window to wait ----------

  ghost predicate AllSealSafely(states: seq<State>, p: Replica) {
    forall k :: 0 <= k < |states| ==> SealsSafely(states[k], p)
  }

  /** With these checks, what a replica that follows the protocol fast-commits it also commits
      before it seals the view, whatever the others do. */
  ghost predicate EnsureSealing(checks: set<Check>) {
    forall c: Config, states, steps, p :: c.Correct(p) && IsCheckedRun(c, checks, states, steps) && AllCountable(c, states, p) ==> AllSealSafely(states, p)
  }

  lemma CheckedSeal(checks: set<Check>)
    requires NoEviction in checks
    ensures EnsureSealing(checks)
  {
    hide IsCheckedRun, SealsSafely, AllCountable;
    forall c: Config, states, steps, p | c.Correct(p) && IsCheckedRun(c, checks, states, steps) && AllCountable(c, states, p)
      ensures AllSealSafely(states, p)
    {
      FewerChecks(c, {NoEviction}, checks, states, steps);
      forall k | 0 <= k < |states| ensures SealsSafely(states[k], p) {
        SealingKeepsFastCommits(c, states, steps, k, p);
      }
    }
  }

  lemma UncheckedSeal(checks: set<Check>)
    requires NoEviction !in checks
    ensures !EnsureSealing(checks)
  {
    var c, k := Eviction.C5, NoEviction;
    var s := Eviction.SealsWithout(k);
    assert c.Correct(3);
    hide IsRunBut, IsCheckedRun, Sane, SealsSafely, Quiescent;
    var states, steps :| EndsIn(c, k, states, steps, s);
    AdmitsRunsBut(c, k, checks, states, steps);
    HasState(c, k, states, steps);
    assert AllCountable(c, states, 3) by { RunOf(c, checks, states, steps); NeverCommits(c, states, steps, 3); }
    assert !AllSealSafely(states, 3);
  }

  lemma RunOf(c: Config, checks: set<Check>, states: seq<State>, steps: seq<Step>)
    requires IsCheckedRun(c, checks, states, steps)
    ensures IsRun(c, states, steps)
  {}

  /** Sealing preserves fast commits exactly if no fast-committed instance is evicted. */
  lemma SealingExactly(checks: set<Check>)
    ensures EnsureSealing(checks) <==> NoEviction in checks
  {
    hide EnsureSealing;
    if NoEviction in checks {
      CheckedSeal(checks);
    } else {
      UncheckedSeal(checks);
    }
  }

  // ---------- Checkpoints need a valid certificate ----------

  /** What is forgotten, other than with the view, was decided. */
  ghost predicate ForgetsSafely(c: Config, states: seq<State>, steps: seq<Step>) {
    forall k: nat, p: Replica, i: Instance :: p < c.n && Window.Forgets(states, steps, k, p, i) ==> Forgetting.DecidedAt(c, states[k + 1], i)
  }

  /** With these checks, a replica forgets an instance only when it seals its view, or once a correct
      replica has decided it. */
  ghost predicate EnsureForgetting(checks: set<Check>) {
    forall c: Config, states, steps :: c.Valid() && IsCheckedRun(c, checks, states, steps) ==> ForgetsSafely(c, states, steps)
  }

  lemma CheckedForget(checks: set<Check>)
    requires CheckpointCertificate in checks
    ensures EnsureForgetting(checks)
  {
    hide Config.Valid, IsCheckedRun;
    forall c: Config, states, steps | c.Valid() && IsCheckedRun(c, checks, states, steps) ensures ForgetsSafely(c, states, steps) {
      FewerChecks(c, {CheckpointCertificate}, checks, states, steps);
      forall k: nat, p: Replica, i: Instance | p < c.n && Window.Forgets(states, steps, k, p, i) ensures Forgetting.DecidedAt(c, states[k + 1], i) {
        var r := Window.RunsForgetDecided(c, states, steps, k, p, i);
      }
    }
  }

  lemma UncheckedForget(checks: set<Check>)
    requires CheckpointCertificate !in checks
    ensures !EnsureForgetting(checks)
  {
    var c, k := Trio.C, CheckpointCertificate;
    var states, steps := Forgetting.ForgettingRun(k);
    GroupsValid();
    hide IsRunBut, IsCheckedRun, Config.Valid, Window.Forgets, Forgetting.DecidedAt;
    AdmitsRunsBut(c, k, checks, states, steps);
    assert !ForgetsSafely(c, states, steps);
  }

  /** Checkpoints make replicas forget only what was decided exactly if their certificates are valid
      for what they say. */
  lemma ForgettingExactly(checks: set<Check>)
    ensures EnsureForgetting(checks) <==> CheckpointCertificate in checks
  {
    hide EnsureForgetting;
    if CheckpointCertificate in checks {
      CheckedForget(checks);
    } else {
      UncheckedForget(checks);
    }
  }
}
