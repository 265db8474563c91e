/** A forged commit is taken for a valid one: because its signatures are remembered for another
    batch, or because it is not waited for. */
module ConsensusForgedCommit {
  import opened Options
  import opened ConsensusLog
  import opened ConsensusProtocol
  import opened ConsensusScript
  import opened ConsensusTrio

  // ---------- A certificate that is valid for another batch ----------

  const COMMITTED_B: map<Instance, Entry> := map[0 := Entry(0, B)]
  const FORGED_STATES := [State12(1, 0, COMMITTED_B), State12(2, 0, COMMITTED_A)]

  /** Replica 1 commits B with the signatures of a certificate for A. */
  const FORGING := [Commit(Cert01(0, 0, B)), SealView, NewView(1, FORGED_STATES), Prepare(1, 0, B), Commit(Cert12(1, 0, B))]

  lemma ForgedBest()
    ensures Best(FORGED_STATES) == COMMITTED_B && Batches(2, Best(FORGED_STATES)) == map[0 := B]
  {
    TwoStates(State12(1, 0, COMMITTED_B), State12(2, 0, COMMITTED_A));
    assert Merge(map[], COMMITTED_B) == COMMITTED_B;
    assert Merge(COMMITTED_B, COMMITTED_A) == COMMITTED_B;
  }

  /** Replica 2 signs A, commits it, and takes the forged commit for one of A. */
  ghost predicate Deceived(s: State, d: Decision) {
    && Sane(C, s) && s.logs[1] == FORGING && NoCheckpoints(s.logs[2]) && d in s.decisions && d.instance == 0 && d.batch == A
    && var l := s.locals[2];
       && l.peers[1] == Peer(0, COMMITTED_B, 0, 1, 0, None, 0) && l.peers[2] == Peer(0, COMMITTED_A, 0, 1, 0, None, 0)
       && l.pending[1] == multiset{} && l.pending[2] == multiset{} && l.buffered[0] == [] && l.buffered[1] == [] && l.buffered[2] == []
       && (forall i :: i in l.slots ==> l.slots[i].fast == {}) && l.certified == 0 && l.nextToDecide == 0
  }

  lemma SignsAndCommits(k: Check, s0: State, log: seq<Msg>) returns (s: State)
    requires Reached(C, k, s0) && Voted(s0, log)
    ensures Reached(C, k, s) && Sane(C, s) && s.logs[1] == log && s.logs[2] == [Commit(Cert01(0, 0, A))] && s.locals[0] == s0.locals[0]
    ensures Share(0, 0, 0, A) in s.shares && Share(2, 0, 0, A) in s.shares
    ensures var l := s.locals[2];
            && l.peers[1] == FRESH && l.peers[2] == Peer(0, COMMITTED_A, 0, 1, 0, None, 0)
            && l.pending[1] == multiset{} && l.pending[2] == multiset{} && l.buffered[0] == [] && l.buffered[1] == [] && l.buffered[2] == []
            && l.slots == map[0 := Slot(0, A, {}, {2}, false, true)] && l.certified == 0 && l.nextToDecide == 0
  {
    hide Reached, CertValid, IsQuorum, PruneValues;
    s := Inserts(C, k, s0, 2, 0, 0, 0, A);
    s := Certifies(C, k, s, 2, 0);
    CertsValid(s.shares, 0, 0, A);
    s := Commits(C, k, s, 2, Cert01(0, 0, A));
    assert [] + [Commit(Cert01(0, 0, A))] == [Commit(Cert01(0, 0, A))];
    assert {} + {2} == {2};
  }

  lemma Deceives(k: Check, s0: State) returns (s: State, d: Decision)
    requires k.CommitCertificate? && Reached(C, k, s0) && Voted(s0, FORGING)
    ensures Reached(C, k, s) && Deceived(s, d)
  {
    hide Reached, CertValid, CertChecked, IsQuorum;
    s := SignsAndCommits(k, s0, FORGING);
    // The signature of replica 0 is one that replica 2 has verified, for A.
    assert CertChecked(C, s.shares, 2, Cert01(0, 0, B)) by { Passing(s.shares); }
    s := HearsAndCounts(C, k, s, 2, 1, Cert01(0, 0, B));
    CertsValid(s.shares, 0, 0, A);
    ValidIsChecked(C, s.shares, 0, Cert01(0, 0, A));
    s := HearsAndCounts(C, k, s, 0, 2, Cert01(0, 0, A));
    Majority(s.locals[0].slots[0].slow, {0, 2});
    d := DecisionOf(C, 0, 0, s.locals[0].slots[0]);
    s := Decides(C, k, s, 0);
  }

  lemma Passing(shares: set<Share>)
    requires Share(0, 0, 0, A) in shares && Share(2, 0, 0, A) in shares
    ensures CertChecked(C, shares, 2, Cert01(0, 0, B))
  {
    Quorums3();
    assert SharePasses(shares, 2, 0, Cert01(0, 0, B));
  }

  lemma ForgedRun(k: Check) returns (s: State)
    requires k.CommitCertificate?
    ensures Reached(C, k, s) && !Agreement(s)
  {
    hide Reached, CertValid, IsQuorum, Voted, StateChecked, StateValid, Best, Batches, Agreement;
    s := Votes(k, FORGING);
    var d: Decision;
    s, d := Deceives(k, s);
    s := HearsSeal(C, k, s, 2, 1);
    s := Seals(C, k, s, 2);
    StateOk(s.seals, 2, 1, 0, COMMITTED_B);
    StateOk(s.seals, 2, 2, 0, COMMITTED_A);
    ForgedBest();
    s := HearsNewView(C, k, s, 2, 1, 1, FORGED_STATES, map[0 := B]);
    assert NoCheckpoints(s.logs[1]) && NoCheckpoints(s.logs[2]);
    hide NoCheckpoints, AboveCheckpoints;
    NothingBelow(s.logs, FORGED_STATES, 0, 0);
    s := DecidesOtherwise(k, s, 1, B, d);
  }

  // ---------- A commit is still under verification when its replica is sealed ----------

  const COMMITTED_BOTH: map<Instance, Entry> := map[1 := Entry(0, A), 0 := Entry(0, B)]
  const HASTY_STATES := [State12(1, 0, COMMITTED_BOTH), State12(2, 0, COMMITTED_A)]

  /** Replica 1 commits A for instance 1, then B for instance 0 without any valid signature. */
  const HASTY := [Commit(Cert01(0, 1, A)), Commit(Cert01(0, 0, B)), SealView, NewView(1, HASTY_STATES), Prepare(1, 0, B), Commit(Cert12(1, 0, B))]

  lemma HastyMerge()
    ensures Merge(map[], COMMITTED_BOTH) == COMMITTED_BOTH && Merge(COMMITTED_BOTH, COMMITTED_A) == COMMITTED_BOTH
  {
    assert Merge(map[], COMMITTED_BOTH) == COMMITTED_BOTH;
    assert Merge(COMMITTED_BOTH, COMMITTED_A) == COMMITTED_BOTH;
  }

  lemma HastyBatches()
    ensures Batches(2, COMMITTED_BOTH) == map[0 := B, 1 := A]
  {}

  lemma HastyBest()
    ensures Best(HASTY_STATES) == COMMITTED_BOTH && Batches(2, Best(HASTY_STATES)) == map[0 := B, 1 := A]
  {
    hide Merge, Batches;
    TwoStates(State12(1, 0, COMMITTED_BOTH), State12(2, 0, COMMITTED_A));
    HastyMerge();
    HastyBatches();
  }

  /** Replica 0 prepares both instances, signs both and commits the first. */
  ghost predicate TwoPrepared(s: State) {
    && Sane(C, s) && s.logs[0] == [Prepare(0, 0, A), Prepare(0, 1, A), Commit(Cert01(0, 0, A))] && s.logs[1] == HASTY && s.logs[2] == []
    && s.locals[2] == IDLE_LOCAL && Share(0, 0, 0, A) in s.shares && Share(0, 0, 1, A) in s.shares
    && Undecided(s.locals[0])
  }

  /** A at instance 0 lacks one vote. */
  ghost predicate Undecided(l: Local) {
    && |l.peers| == 3 && |l.pending| == 3 && l.peers[2] == FRESH && l.pending[2] == multiset{} && l.nextToDecide == 0
    && 0 in l.slots && l.slots[0] == Slot(0, A, {}, {0}, false, true)
  }

  lemma PreparesTwo(k: Check) returns (s: State)
    ensures Reached(C, k, s) && TwoPrepared(s)
  {
    hide Reached, CertValid, IsQuorum;
    s := Opens(k, HASTY);
    s := Proposes(C, k, s, 0, 0, A);
    s := Certifies(C, k, s, 0, 0);
    s := Proposes(C, k, s, 0, 1, A);
    s := Certifies(C, k, s, 0, 1);
    CertsValid(s.shares, 0, 0, A);
    s := Commits(C, k, s, 0, Cert01(0, 0, A));
    assert s.logs[0] == [Prepare(0, 0, A), Prepare(0, 1, A), Commit(Cert01(0, 0, A))];
  }

  /** Replica 2 replays the commit of replica 1 for instance 1: the counter is one short. */
  ghost predicate Short(s: State) {
    && Sane(C, s) && s.logs[0] == [Prepare(0, 0, A), Prepare(0, 1, A), Commit(Cert01(0, 0, A))] && s.logs[1] == HASTY && s.logs[2] == []
    && Share(0, 0, 0, A) in s.shares && Undecided(s.locals[0])
    && var l := s.locals[2];
       && l.peers[1] == Peer(0, map[1 := Entry(0, A)], 0, 1, 0, None, SIZE_T - 1) && l.peers[2] == FRESH
       && l.pending[1] == multiset{} && l.pending[2] == multiset{} && l.buffered[0] == [] && l.buffered[1] == [] && l.buffered[2] == []
       && 0 in l.slots && l.slots[0] == Slot(0, A, {}, {}, false, false) && (forall i :: i in l.slots ==> l.slots[i].fast == {})
       && l.certified == 0 && l.nextToDecide == 0
  }

  /** Replica 2 prepared instance 0, and buffered the commit of replica 1 for instance 1. */
  const WAITING := Local([FRESH.(nextCb := 1), Peer(0, map[1 := Entry(0, A)], 0, 1, 0, None, 0), FRESH], map[0 := Slot(0, A, {}, {}, false, false)],
                         0, 0, 0, [NONE, NONE, NONE], [[], [Cert01(0, 1, A)], []], 0, 0, [])

  lemma Waits(k: Check, s0: State) returns (s: State)
    requires Reached(C, k, s0) && TwoPrepared(s0)
    ensures Reached(C, k, s) && Sane(C, s) && s == SetLocal(s0, 2, WAITING)
  {
    hide Reached, CertValid, CertChecked, IsQuorum;
    CertsValid(s0.shares, 0, 1, A);
    ValidIsChecked(C, s0.shares, 2, Cert01(0, 1, A));
    s := Inserts(C, k, s0, 2, 0, 0, 0, A);
    s := HearsAndBuffers(C, k, s, 2, 1, Cert01(0, 1, A));
    assert [] + [Cert01(0, 1, A)] == [Cert01(0, 1, A)];
    assert s.locals[2] == WAITING;
  }

  lemma FallsShort(k: Check, s0: State) returns (s: State)
    requires Reached(C, k, s0) && TwoPrepared(s0)
    ensures Reached(C, k, s) && Short(s)
  {
    hide Reached, IsQuorum, PruneValues;
    s := Waits(k, s0);
    s := InsertsAndReplays(C, k, s, 2, 0, 0, 1, A, 1);
  }

  /** The forged commit of replica 1 is under verification, which the counter does not show. */
  ghost predicate Unseen(s: State, d: Decision) {
    && Sane(C, s) && s.logs[1] == HASTY && NoCheckpoints(s.logs[2]) && d in s.decisions && d.instance == 0 && d.batch == A
    && var l := s.locals[2];
       && l.peers[1] == Peer(0, COMMITTED_BOTH, 0, 2, 0, None, 0) && l.peers[2] == Peer(0, COMMITTED_A, 0, 1, 0, None, 0)
       && l.pending[2] == multiset{} && l.buffered[0] == [] && l.buffered[1] == [] && l.buffered[2] == []
       && (forall i :: i in l.slots ==> l.slots[i].fast == {}) && l.certified == 0 && l.nextToDecide == 0
  }

  /** Replica 2 committed A for instance 0, and heard the forged commit. */
  ghost predicate Heard(s: State, s0: State) {
    && Sane(C, s) && Sane(C, s0) && s.logs[0] == s0.logs[0] && s.logs[1] == s0.logs[1] && s.logs[2] == s0.logs[2] + [Commit(Cert01(0, 0, A))]
    && s0.shares <= s.shares && s.decisions == s0.decisions && s.locals[0] == s0.locals[0]
    && var l := s.locals[2];
       && l.peers[1] == Peer(0, COMMITTED_BOTH, 0, 2, 0, None, 0) && l.peers[2] == Peer(0, COMMITTED_A, 0, 1, 0, None, 0)
       && l.pending[2] == multiset{} && l.buffered[0] == [] && l.buffered[1] == [] && l.buffered[2] == []
       && (forall i :: i in l.slots ==> l.slots[i].fast == {}) && l.certified == 0 && l.nextToDecide == 0
  }

  lemma HearsForgedCommit(k: Check, s0: State) returns (s: State)
    requires Reached(C, k, s0) && Short(s0)
    ensures Reached(C, k, s) && Heard(s, s0)
  {
    hide Reached, CertValid, CertChecked, IsQuorum;
    s := Certifies(C, k, s0, 2, 0);
    CertsValid(s.shares, 0, 0, A);
    s := Commits(C, k, s, 2, Cert01(0, 0, A));
    s := HearsCommit(C, k, s, 2, 1, Cert01(0, 0, B));
  }

  lemma GoesUnseen(k: Check, s0: State) returns (s: State, d: Decision)
    requires Reached(C, k, s0) && Short(s0)
    ensures Reached(C, k, s) && Unseen(s, d)
  {
    hide Reached, CertValid, CertChecked, IsQuorum;
    s := HearsForgedCommit(k, s0);
    CertsValid(s.shares, 0, 0, A);
    ValidIsChecked(C, s.shares, 0, Cert01(0, 0, A));
    s := HearsAndCounts(C, k, s, 0, 2, Cert01(0, 0, A));
    Majority(s.locals[0].slots[0].slow, {0, 2});
    d := DecisionOf(C, 0, 0, s.locals[0].slots[0]);
    s := Decides(C, k, s, 0);
  }

  lemma HastyRun(k: Check) returns (s: State)
    requires k.NothingPending?
    ensures Reached(C, k, s) && !Agreement(s)
  {
    hide Reached, TwoPrepared, Short, IsQuorum, StateChecked, StateValid, Best, Batches, Agreement;
    s := PreparesTwo(k);
    s := FallsShort(k, s);
    var d: Decision;
    s, d := GoesUnseen(k, s);
    s := HearsSeal(C, k, s, 2, 1);
    s := Seals(C, k, s, 2);
    StateOk(s.seals, 2, 1, 0, COMMITTED_BOTH);
    StateOk(s.seals, 2, 2, 0, COMMITTED_A);
    HastyBest();
    s := HearsNewView(C, k, s, 2, 1, 1, HASTY_STATES, map[0 := B, 1 := A]);
    assert NoCheckpoints(s.logs[1]) && NoCheckpoints(s.logs[2]);
    hide NoCheckpoints, AboveCheckpoints;
    NothingBelow(s.logs, HASTY_STATES, 0, 0);
    s := DecidesOtherwise(k, s, 1, B, d);
  }
}
