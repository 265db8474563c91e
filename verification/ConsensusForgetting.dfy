/** A checkpoint makes a replica forget an instance that no one has decided: its signatures are
    remembered for an earlier checkpoint. */
module ConsensusForgetting {
  import opened ConsensusLog
  import opened ConsensusProtocol
  import opened ConsensusScript
  import opened ConsensusTrio
  import Window = ConsensusWindow
  import Decisions = ConsensusDecisions

  const FAR := [Commit(Cert01(0, 0, A)), Checkpoint(1, 5)]

  /** Replica 0 committed A for instance 0, and prepared instance 1. */
  ghost predicate Prepared(s: State) {
    && Sane(C, s) && s.logs[1] == FAR && Share(0, 0, 0, A) in s.shares && s.decisions == {}
    && var l := s.locals[0];
       && l.peers[1] == FRESH && l.pending[1] == multiset{}
       && l.peers[0].low == 0 && 1 in l.slots && 0 in l.slots && l.slots[0] == Slot(0, A, {}, {0}, false, true)
       && l.certified == 0 && l.certifiedAt == 0 && l.sentAbove == 0 && l.nextToDecide == 0
  }

  lemma PreparesTwo(k: Check) returns (s: State)
    ensures Reached(C, k, s) && Prepared(s)
  {
    hide Reached, CertValid, IsQuorum;
    s := Opens(k, FAR);
    s := Proposes(C, k, s, 0, 0, A);
    s := Certifies(C, k, s, 0, 0);
    CertsValid(s.shares, 0, 0, A);
    s := Commits(C, k, s, 0, Cert01(0, 0, A));
    s := Proposes(C, k, s, 0, 1, A);
  }

  /** Replica 0 decided instance 0, signed the checkpoint after it, and adopted one far ahead. */
  ghost predicate Misled(s: State) {
    && Sane(C, s) && 1 in s.locals[0].slots && s.locals[0].certified == 5 && MayCheckpoint(s.locals[0], 0)
    && forall d :: d in s.decisions ==> d.instance == 0
  }

  lemma Misleads(k: Check, s0: State) returns (s: State)
    requires k.CheckpointCertificate? && Reached(C, k, s0) && Prepared(s0)
    ensures Reached(C, k, s) && Misled(s)
  {
    hide Reached, CertValid, CertChecked, IsQuorum, Prune;
    CertsValid(s0.shares, 0, 0, A);
    ValidIsChecked(C, s0.shares, 0, Cert01(0, 0, A));
    s := HearsAndCounts(C, k, s0, 0, 1, Cert01(0, 0, A));
    Majority(s.locals[0].slots[0].slow, {0, 1});
    s := Decides(C, k, s, 0);
    s := Signs(C, k, s, 0, 1);
    Quorums3();
    s := HearsForged(C, k, s, 0, 1, 1, 5, {0, 1});
  }

  ghost predicate DecidedAt(c: Config, s: State, i: Instance) {
    exists r: Replica :: c.Correct(r) && Decisions.Decided(s, r, i)
  }

  /** The checkpoint is broadcast, and drops instance 1. */
  lemma Drops(k: Check, s: State) returns (states: seq<State>, steps: seq<Step>)
    requires Reached(C, k, s) && Misled(s)
    ensures IsRunBut(C, k, states, steps) && steps != [] && Window.Forgets(states, steps, |steps| - 1, 0, 1)
    ensures !DecidedAt(C, states[|steps|], 1)
  {
    var l, m := s.locals[0], Checkpoint(s.locals[0].certifiedAt, s.locals[0].certified);
    hide Reached, OthersPass, Next, Prune;
    var s' := SetLocal(Append(s, 0, m), 0, AfterCheckpoint(l, 0));
    var s1 := CheckpointSteps(C, k, s, 0, s');
    hide MayCheckpoint, Init;
    var before, taken :| EndsIn(C, k, before, taken, s1);
    Extended(C, k, before, taken, Broadcast(0, m), s');
    states, steps := before + [s'], taken + [Broadcast(0, m)];
  }

  lemma ForgettingRun(k: Check) returns (states: seq<State>, steps: seq<Step>)
    requires k.CheckpointCertificate?
    ensures IsRunBut(C, k, states, steps) && steps != [] && Window.Forgets(states, steps, |steps| - 1, 0, 1)
    ensures !DecidedAt(C, states[|steps|], 1)
  {
    hide Reached, Prepared, Misled, IsRunBut;
    var s := PreparesTwo(k);
    s := Misleads(k, s);
    states, steps := Drops(k, s);
  }
}
