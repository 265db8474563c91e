/** Runs of three replicas, of which replica 1 is Byzantine and leads views 1 and 4: the parts that
    runs which end in disagreement have in common. */
module ConsensusTrio {
  import opened ConsensusLog
  import opened ConsensusProtocol
  import opened ConsensusScript
  import opened Quorums

  const C := Config(3, {1}, 2)
  const A: Batch := [1]
  const B: Batch := [2]

  const NO_COMMITS: map<Instance, Entry> := map[]
  const COMMITTED_A: map<Instance, Entry> := map[0 := Entry(0, A)]

  // ---------- Certificates of replica 1 and a correct one ----------

  function Cert01(v: View, i: Instance, b: Batch): Cert { Cert(v, i, b, {0, 1}) }

  function Cert12(v: View, i: Instance, b: Batch): Cert { Cert(v, i, b, {1, 2}) }

  lemma Quorums3()
    ensures IsQuorum(C, {0, 1}) && IsQuorum(C, {1, 2}) && IsQuorum(C, {0, 2}) && C.Quorum() == 2
  {}

  lemma CertsValid(shares: set<Share>, v: View, i: Instance, b: Batch)
    ensures Share(0, v, i, b) in shares ==> CertValid(C, shares, Cert01(v, i, b))
    ensures Share(2, v, i, b) in shares ==> CertValid(C, shares, Cert12(v, i, b))
  {
    Quorums3();
  }

  /** The state of replica r at the end of view v. */
  function State01(r: Replica, v: View, commits: map<Instance, Entry>): VcState { VcState(r, v, commits, {0, 1}) }

  function State12(r: Replica, v: View, commits: map<Instance, Entry>): VcState { VcState(r, v, commits, {1, 2}) }

  lemma StateOk(seals: set<SealShare>, p: Replica, r: Replica, v: View, commits: map<Instance, Entry>)
    requires r < 3
    ensures SealShare(0, r, v, commits) in seals ==> StateValid(C, seals, State01(r, v, commits)) && StateChecked(C, seals, p, State01(r, v, commits))
    ensures SealShare(2, r, v, commits) in seals ==> StateValid(C, seals, State12(r, v, commits)) && StateChecked(C, seals, p, State12(r, v, commits))
  {
    Quorums3();
    if SealShare(0, r, v, commits) in seals {
      ValidStateIsChecked(C, seals, p, State01(r, v, commits));
    }
    if SealShare(2, r, v, commits) in seals {
      ValidStateIsChecked(C, seals, p, State12(r, v, commits));
    }
  }

  lemma {:induction false} NothingBest(states: seq<VcState>)
    requires forall k :: 0 <= k < |states| ==> states[k].commits == map[]
    ensures Best(states) == map[] && Batches(2, Best(states)) == map[]
  {
    if states != [] {
      NothingBest(states[..|states| - 1]);
    }
  }

  lemma Majority(votes: set<Replica>, two: set<Replica>)
    requires two <= votes && |two| == 2
    ensures |votes| >= C.Quorum()
  {
    SubsetSize(two, votes);
  }

  lemma Disagree(s: State, d1: Decision, d2: Decision)
    requires d1 in s.decisions && d2 in s.decisions && d1.instance == d2.instance && d1.batch != d2.batch
    ensures !Agreement(s)
  {}

  // ---------- Replica 2 decides in a view of replica 1 ----------

  /** Replica 2 entered v, has no slots yet, and is about to hear replica 1 prepare b for instance 0 and commit it. */
  ghost predicate AboutToDecide(k: Check, s: State, v: View, b: Batch) {
    && Sane(C, s) && C.Leader(v) == 1 && v > 0
    && var l := s.locals[2];
       var peer, own := l.peers[1], l.peers[2];
       && peer.nextCb + 1 < |s.logs[1]|
       && s.logs[1][peer.nextCb] == Prepare(v, 0, b) && s.logs[1][peer.nextCb + 1] == Commit(Cert12(v, 0, b))
       && peer.view == v && own.view == v && peer.low == 0 && own.low == 0 && peer.outstanding == 0 && own.outstanding == 0
       && (0 in peer.commits ==> peer.commits[0].view < v) && (0 in own.commits ==> own.commits[0].view < v)
       && l.slots == map[] && l.minKey == 0 && l.certified == 0 && l.nextToDecide == 0 && StaleOnly(l, v, 0)
       && peer.nextPrepare == 0 && peer.valid.Some? && (0 in peer.valid.value.values ==> peer.valid.value.values[0] == b)
       && PrepareChecked(k, s.logs, peer, v, 0)
  }

  /** ... has committed b and is about to hear replica 1 commit it. */
  ghost predicate AboutToCount(s: State, v: View, b: Batch) {
    && Sane(C, s) && Share(2, v, 0, b) in s.shares && v > 0
    && var l := s.locals[2];
       var peer := l.peers[1];
       && peer.nextCb < |s.logs[1]| && s.logs[1][peer.nextCb] == Commit(Cert12(v, 0, b))
       && peer.view == v && peer.low == 0 && peer.outstanding == 0 && (0 in peer.commits ==> peer.commits[0].view < v)
       && 0 in l.slots && l.slots[0].view == v && l.slots[0].batch == b && !l.slots[0].decided
       && 2 in l.slots[0].slow && 1 !in l.slots[0].slow && l.nextToDecide == 0
  }

  lemma CommitsThen(k: Check, s0: State, v: View, b: Batch) returns (s: State)
    requires Reached(C, k, s0) && AboutToDecide(k, s0, v, b)
    ensures Reached(C, k, s) && AboutToCount(s, v, b) && s0.decisions == s.decisions && s0.locals[0] == s.locals[0]
    ensures s.logs[0] == s0.logs[0] && s.logs[1] == s0.logs[1] && s.logs[2] == s0.logs[2] + [Commit(Cert12(v, 0, b))]
  {
    hide Reached;
    assert |s0.logs| == 3 && |s0.locals| == 3 && Shaped(C, s0.locals[2]);
    hide Sane, CertValid, AboveCheckpoints, IsQuorum, PruneValues, NoBuffers;
    s := Inserts(C, k, s0, 2, 1, v, 0, b);
    s := Certifies(C, k, s, 2, 0);
    CertsValid(s.shares, v, 0, b);
    s := Commits(C, k, s, 2, Cert12(v, 0, b));
  }

  /** Replica 2 decides as well, so two decisions for instance 0 differ. */
  lemma CountsThen(k: Check, s0: State, v: View, b: Batch, d: Decision) returns (s: State)
    requires Reached(C, k, s0) && AboutToCount(s0, v, b) && d in s0.decisions && d.instance == 0 && d.batch != b
    ensures Reached(C, k, s) && !Agreement(s)
  {
    hide Reached;
    assert |s0.logs| == 3 && |s0.locals| == 3 && Shaped(C, s0.locals[2]);
    hide Sane, CertValid, CertChecked, IsQuorum;
    CertsValid(s0.shares, v, 0, b);
    ValidIsChecked(C, s0.shares, 2, Cert12(v, 0, b));
    s := HearsAndCounts(C, k, s0, 2, 1, Cert12(v, 0, b));
    Majority(s.locals[2].slots[0].slow, {1, 2});
    var e := DecisionOf(C, 2, 0, s.locals[2].slots[0]);
    s := Decides(C, k, s, 2);
    Disagree(s, d, e);
  }

  lemma DecidesOtherwise(k: Check, s0: State, v: View, b: Batch, d: Decision) returns (s: State)
    requires Reached(C, k, s0) && AboutToDecide(k, s0, v, b) && d in s0.decisions && d.instance == 0 && d.batch != b
    ensures Reached(C, k, s) && !Agreement(s)
  {
    hide Reached, AboutToDecide, AboutToCount, Sane;
    s := CommitsThen(k, s0, v, b);
    s := CountsThen(k, s, v, b, d);
  }

  // ---------- The start ----------

  const NONE: multiset<Cert> := multiset{}
  const IDLE_LOCAL := Local([FRESH, FRESH, FRESH], map[], 0, 0, 0, [NONE, NONE, NONE], [[], [], []], 0, 0, [])

  /** The stream of replica 1 is there from the start. */
  lemma Opens(k: Check, log: seq<Msg>) returns (s: State)
    ensures Reached(C, k, s) && Sane(C, s) && s == State([[], log, []], [IDLE_LOCAL, IDLE_LOCAL, IDLE_LOCAL], {}, {}, {}, {}, {}, {})
  {
    s := Start(C, k);
    hide Reached;
    assert InitLocal(C) == IDLE_LOCAL;
    assert s.locals == [IDLE_LOCAL, IDLE_LOCAL, IDLE_LOCAL];
    s := ForgesAll(C, k, s, 1, log);
    assert [] + log == log;
    assert s.logs == [[], log, []];
  }

  /** Replica 0 prepares A and commits it. */
  ghost predicate Voted(s: State, log: seq<Msg>) {
    && Sane(C, s) && s.logs[0] == [Prepare(0, 0, A), Commit(Cert01(0, 0, A))] && s.logs[1] == log && s.logs[2] == []
    && s.locals[2] == IDLE_LOCAL && s.seals == {} && Share(0, 0, 0, A) in s.shares
    && var l := s.locals[0];
       && l.peers[1] == FRESH && l.peers[2] == FRESH && l.peers[0].view == 0 && l.peers[0].low == 0 && l.peers[0].outstanding == 0
       && l.peers[0].commits == COMMITTED_A
       && (forall i :: i in l.slots <==> i == 0) && l.slots[0] == Slot(0, A, {}, {0}, false, true)
       && l.certified == 0 && l.sentAbove == 0 && l.nextToDecide == 0 && l.pending[0] == l.pending[1] == l.pending[2] == multiset{}
  }

  lemma Votes(k: Check, log: seq<Msg>) returns (s: State)
    ensures Reached(C, k, s) && Voted(s, log)
  {
    hide Reached, CertValid, IsQuorum, PruneValues;
    s := Opens(k, log);
    s := Proposes(C, k, s, 0, 0, A);
    s := Certifies(C, k, s, 0, 0);
    CertsValid(s.shares, 0, 0, A);
    s := Commits(C, k, s, 0, Cert01(0, 0, A));
  }

  // ---------- States of NewViews ----------

  const IDLE1 := State12(1, 0, map[])
  const IDLE2 := State12(2, 0, map[])

  lemma IdleStates(k: Check, seals: set<SealShare>, p: Replica, v: View)
    requires SealShare(2, 1, 0, NO_COMMITS) in seals && SealShare(2, 2, 0, NO_COMMITS) in seals && (k.StatesView? || v == 1)
    ensures NewViewChecked(C, k, seals, p, v, [IDLE1, IDLE2]) && Best([IDLE1, IDLE2]) == map[] && Batches(2, Best([IDLE1, IDLE2])) == map[]
  {
    Quorums3();
    StateOk(seals, p, 1, 0, map[]);
    StateOk(seals, p, 2, 0, map[]);
    NothingBest([IDLE1, IDLE2]);
  }

  /** In case of a tie the first state wins. */
  lemma TwoStates(a: VcState, b: VcState)
    ensures Best([a, b]) == Merge(Merge(map[], a.commits), b.commits)
  {
    assert [a, b][..1] == [a] && [a][..0] == [];
    assert Best([a]) == Merge(Best([]), a.commits);
  }
}
