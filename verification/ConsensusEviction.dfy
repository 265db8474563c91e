/** A fast-committed instance is pushed out of the window before it is committed. Five replicas,
    of which 1 and 2 are Byzantine and sign every checkpoint of replica 0: replica 3 seals view 0
    without the commit that its fast commit owes, and the decision of replica 0 is lost. */
module ConsensusEviction {
  import opened Options
  import opened ConsensusLog
  import opened ConsensusProtocol
  import opened ConsensusScript
  import opened ConsensusTrio
  import Sealing = ConsensusSealing
  import Streams = ConsensusStreams
  import opened Quorums

  const C5 := Config(5, {1, 2}, 2)
  const FRESH_LOCAL := Local([FRESH, FRESH, FRESH, FRESH, FRESH], map[], 0, 0, 0, [NONE, NONE, NONE, NONE, NONE], [[], [], [], [], []], 0, 0, [])

  const CERT_A := Cert(0, 0, A, {0, 3, 4})
  const CERT_B := Cert(1, 0, B, {1, 2, 4})

  /** The state of replica r at the end of view 0, signed by 1, 2 and 3. */
  function State123(r: Replica): VcState { VcState(r, 0, map[], {1, 2, 3}) }

  const LOST := [State123(1), State123(2), State123(3)]
  const LEADING := [SealView, NewView(1, LOST), Prepare(1, 0, B), Commit(CERT_B)]
  const FOLLOWING := [SealView, Commit(CERT_B)]

  lemma Quorums5()
    ensures IsQuorum(C5, {0, 3, 4}) && IsQuorum(C5, {1, 2, 4}) && IsQuorum(C5, {1, 2, 3}) && IsQuorum(C5, {0, 1, 2}) && C5.Quorum() == 3
  {}

  lemma Opens5(k: Check) returns (s: State)
    ensures Reached(C5, k, s) && Sane(C5, s)
    ensures s == State([[], LEADING, FOLLOWING, [], []], [FRESH_LOCAL, FRESH_LOCAL, FRESH_LOCAL, FRESH_LOCAL, FRESH_LOCAL], {}, {}, {}, {}, {}, {})
  {
    s := Start(C5, k);
    hide Reached;
    assert InitLocal(C5) == FRESH_LOCAL;
    assert s.locals == [FRESH_LOCAL, FRESH_LOCAL, FRESH_LOCAL, FRESH_LOCAL, FRESH_LOCAL];
    s := ForgesAll(C5, k, s, 1, LEADING);
    s := ForgesAll(C5, k, s, 2, FOLLOWING);
    assert [] + LEADING == LEADING && [] + FOLLOWING == FOLLOWING;
    assert s.logs == [[], LEADING, FOLLOWING, [], []];
  }

  // ---------- All fast-commit A ----------

  ghost predicate Quiet(l: Local) {
    && |l.peers| == 5 && |l.pending| == 5 && |l.buffered| == 5
    && (forall q :: 0 <= q < 5 ==> l.pending[q] == multiset{} && l.buffered[q] == [])
    && l.peers[1] == FRESH && l.peers[2] == FRESH && l.certified == 0 && l.sentAbove == 0 && l.nextToDecide == 0 && l.minKey == 0
  }

  /** All correct replicas signed A. */
  ghost predicate AllSigned(s: State) {
    && Sane(C5, s) && s.logs == [[Prepare(0, 0, A)], LEADING, FOLLOWING, [], []]
    && Share(0, 0, 0, A) in s.shares && Share(3, 0, 0, A) in s.shares && Share(4, 0, 0, A) in s.shares && s.checkpoints == {}
    && Quiet(s.locals[0]) && Quiet(s.locals[3]) && Quiet(s.locals[4])
    && s.locals[0].slots == s.locals[3].slots == s.locals[4].slots == map[0 := Slot(0, A, {}, {}, false, true)]
    && s.locals[0].peers[0] == s.locals[3].peers[0] == s.locals[4].peers[0] == FRESH.(nextCb := 1)
    && s.locals[3].peers[3] == FRESH && s.locals[4].peers[4] == FRESH
  }

  lemma AllSign(k: Check) returns (s: State)
    ensures Reached(C5, k, s) && AllSigned(s)
  {
    hide Reached;
    s := Opens5(k);
    s := Proposes(C5, k, s, 0, 0, A);
    s := Inserts(C5, k, s, 3, 0, 0, 0, A);
    s := Inserts(C5, k, s, 4, 0, 0, 0, A);
    s := Certifies(C5, k, s, 0, 0);
    s := Certifies(C5, k, s, 3, 0);
    s := Certifies(C5, k, s, 4, 0);
    assert [] + [Prepare(0, 0, A)] == [Prepare(0, 0, A)];
    assert s.logs == [[Prepare(0, 0, A)], LEADING, FOLLOWING, [], []];
  }

  /** All correct replicas fast-committed A, and replica 0 decided it. */
  ghost predicate FastDecided(s: State, d: Decision) {
    && Sane(C5, s) && s.logs == [[Prepare(0, 0, A)], LEADING, FOLLOWING, [], []]
    && Share(0, 0, 0, A) in s.shares && Share(3, 0, 0, A) in s.shares && Share(4, 0, 0, A) in s.shares
    && FastCommit(3, 0, 0) in s.fast && s.checkpoints == {} && d in s.decisions && d.instance == 0 && d.batch == A
    && Decided(s.locals[0]) && FastCommitted(s.locals[3], 3) && FastCommitted(s.locals[4], 4)
  }

  ghost predicate Decided(l: Local) {
    && |l.peers| == 5 && l.peers[0] == FRESH.(nextCb := 1) && |l.buffered| == 5 && (forall q :: 0 <= q < 5 ==> l.buffered[q] == [])
    && (forall i :: i in l.slots ==> i == 0) && l.certified == 0 && l.sentAbove == 0 && l.nextToDecide == 1 && l.minKey == 0
  }

  ghost predicate FastCommitted(l: Local, p: Replica) {
    && Quiet(l) && p < 5 && l.peers[0] == FRESH.(nextCb := 1) && l.peers[p] == FRESH && l.slots == map[0 := Slot(0, A, {p}, {}, false, true)]
  }

  lemma Promises(shares: set<Share>, p: Replica)
    requires Share(0, 0, 0, A) in shares && Share(3, 0, 0, A) in shares && Share(4, 0, 0, A) in shares
    ensures Promised(C5, shares, p, 0, 0)
  {
    assert Acknowledged(shares, 0, 0, 0) && Acknowledged(shares, 3, 0, 0) && Acknowledged(shares, 4, 0, 0);
  }

  lemma SendFast(k: Check, s0: State) returns (s: State)
    requires Reached(C5, k, s0) && AllSigned(s0)
    ensures Reached(C5, k, s) && Sane(C5, s) && s.logs == s0.logs && s.shares == s0.shares && s.checkpoints == s0.checkpoints && s.decisions == s0.decisions
    ensures FastCommit(3, 0, 0) in s.fast && FastCommit(4, 0, 0) in s.fast
    ensures FastCommitted(s.locals[3], 3) && FastCommitted(s.locals[4], 4)
    ensures s.locals[0] == s0.locals[0].(slots := map[0 := Slot(0, A, {0}, {}, false, true)])
  {
    hide Reached, Promised;
    Promises(s0.shares, 3);
    Promises(s0.shares, 4);
    Promises(s0.shares, 0);
    s := SendsFast(C5, k, s0, 3, 0);
    s := SendsFast(C5, k, s, 4, 0);
    s := SendsFast(C5, k, s, 0, 0);
    assert {} + {3} == {3} && {} + {4} == {4} && {} + {0} == {0};
  }

  lemma DecidesFast(k: Check, s0: State) returns (s: State, d: Decision)
    requires Reached(C5, k, s0) && AllSigned(s0)
    ensures Reached(C5, k, s) && FastDecided(s, d)
  {
    hide Reached, FastCommitted;
    s := SendFast(k, s0);
    s := GetsFast(C5, k, s, 0, 1, 0, 0);
    s := GetsFast(C5, k, s, 0, 2, 0, 0);
    s := GetsFast(C5, k, s, 0, 3, 0, 0);
    s := GetsFast(C5, k, s, 0, 4, 0, 0);
    assert s.locals[0].slots[0].fast == {0, 1, 2, 3, 4};
    d := DecisionOf(C5, 0, 0, s.locals[0].slots[0]);
    s := Decides(C5, k, s, 0);
  }

  // ---------- Replica 0 moves the window ----------

  const MOVING := [Prepare(0, 0, A), Checkpoint(1, 1), Prepare(0, 1, A), Prepare(0, 2, A)]

  ghost predicate Moved(s: State, d: Decision) {
    && Sane(C5, s) && s.logs == [MOVING, LEADING, FOLLOWING, [], []]
    && Share(0, 0, 0, A) in s.shares && Share(3, 0, 0, A) in s.shares && Share(4, 0, 0, A) in s.shares && CheckpointShare(0, 1) in s.checkpoints
    && FastCommit(3, 0, 0) in s.fast && d in s.decisions && d.instance == 0 && d.batch == A
    && FastCommitted(s.locals[3], 3) && FastCommitted(s.locals[4], 4)
  }

  lemma Moves(k: Check, s0: State, d: Decision) returns (s: State)
    requires Reached(C5, k, s0) && FastDecided(s0, d)
    ensures Reached(C5, k, s) && Moved(s, d)
  {
    hide Reached, IsQuorum, Prune, Above, FastCommitted;
    Quorums5();
    s := Adopts(C5, k, s0, 0, 1, {0, 1, 2});
    NoneAbove(s.locals[0].slots, 1);
    PrunesAll(s.locals[0].peers[0].commits, 1);
    s := Checkpoints(C5, k, s, 0);
    s := Proposes(C5, k, s, 0, 1, A);
    s := Proposes(C5, k, s, 0, 2, A);
    assert s.logs[0] == MOVING;
    assert s.logs == [MOVING, LEADING, FOLLOWING, [], []];
  }

  // ---------- Replica 3 forgets instance 0 and seals view 0 ----------

  ghost predicate Forgot(s: State, d: Decision) {
    && Sane(C5, s) && s.logs == [MOVING, LEADING, FOLLOWING, [SealView], []]
    && Share(0, 0, 0, A) in s.shares && Share(3, 0, 0, A) in s.shares && Share(4, 0, 0, A) in s.shares
    && FastCommit(3, 0, 0) in s.fast && SealShare(3, 3, 0, NO_COMMITS) in s.seals && d in s.decisions && d.instance == 0 && d.batch == A
    && FastCommitted(s.locals[4], 4)
    && |s.locals[3].peers| == 5 && s.locals[3].peers[1] == FRESH && s.locals[3].peers[2] == FRESH
    && |s.locals[3].pending| == 5 && s.locals[3].pending[1] == multiset{} && s.locals[3].pending[2] == multiset{}
  }

  lemma Forgets(k: Check, s0: State, d: Decision) returns (s: State)
    requires k.NoEviction? && Reached(C5, k, s0) && Moved(s0, d)
    ensures Reached(C5, k, s) && Forgot(s, d)
  {
    Quorums5();
    hide Reached, IsQuorum, Prune;
    PrunesAll(s0.locals[3].peers[0].commits, 1);
    s := HearsCheckpoint(C5, k, s0, 3, 0, 1, {0, 1, 2});
    s := Inserts(C5, k, s, 3, 0, 0, 1, A);
    s := InsertsAndEvicts(C5, k, s, 3, 0, 0, 2, A, 0);
    s := Seals(C5, k, s, 3);
    assert [] + [SealView] == [SealView];
    assert s.logs == [MOVING, LEADING, FOLLOWING, [SealView], []];
  }

  // ---------- Replica 4 follows the NewView ----------

  /** Replica 4 committed A, sealed view 0 and heard 1 and 2 seal it. */
  ghost predicate Left(s: State, d: Decision) {
    && Sane(C5, s) && s.logs[1] == LEADING && s.logs[2] == FOLLOWING && s.logs[3] == [SealView] && |s.logs| == 5
    && SealShare(3, 1, 0, NO_COMMITS) in s.seals && SealShare(3, 2, 0, NO_COMMITS) in s.seals && SealShare(3, 3, 0, NO_COMMITS) in s.seals
    && d in s.decisions && d.instance == 0 && d.batch == A
    && var l := s.locals[4];
       && |l.peers| == 5 && |l.pending| == 5 && |l.buffered| == 5
       && l.peers[1] == FRESH.(view := 1, nextCb := 1) && l.peers[2] == FRESH.(view := 1, nextCb := 1)
       && l.peers[4] == Peer(1, COMMITTED_A, 0, 2, 0, None, 0)
       && (forall q :: 0 <= q < 5 ==> l.pending[q] == multiset{} && l.buffered[q] == [])
       && l.slots == map[] && l.minKey == 0 && l.certified == 0 && l.nextToDecide == 0
  }

  lemma CertAValid(shares: set<Share>)
    requires Share(0, 0, 0, A) in shares && Share(3, 0, 0, A) in shares && Share(4, 0, 0, A) in shares
    ensures CertValid(C5, shares, CERT_A)
  {
    Quorums5();
  }

  lemma SealSigned(k: Check, s0: State, d: Decision) returns (s: State)
    requires Reached(C5, k, s0) && Forgot(s0, d)
    ensures Reached(C5, k, s) && Sane(C5, s) && s.logs == s0.logs && s.shares == s0.shares && s.decisions == s0.decisions && s.locals[4] == s0.locals[4] && s0.seals <= s.seals
    ensures SealShare(3, 1, 0, NO_COMMITS) in s.seals && SealShare(3, 2, 0, NO_COMMITS) in s.seals
  {
    hide Reached, FastCommitted;
    s := HearsSeal(C5, k, s0, 3, 1);
    s := HearsSeal(C5, k, s, 3, 2);
  }

  lemma Leaves(k: Check, s0: State, d: Decision) returns (s: State)
    requires Reached(C5, k, s0) && Forgot(s0, d)
    ensures Reached(C5, k, s) && Left(s, d)
  {
    hide Reached, CertValid;
    s := SealSigned(k, s0, d);
    CertAValid(s.shares);
    s := Commits(C5, k, s, 4, CERT_A);
    s := Seals(C5, k, s, 4);
    s := HearsSeal(C5, k, s, 4, 1);
    s := HearsSeal(C5, k, s, 4, 2);
  }

  lemma LostState(seals: set<SealShare>, r: Replica)
    requires r < 5 && SealShare(3, r, 0, NO_COMMITS) in seals
    ensures StateValid(C5, seals, State123(r)) && StateChecked(C5, seals, 4, State123(r))
  {
    Quorums5();
    ValidStateIsChecked(C5, seals, 4, State123(r));
  }

  lemma LostChecked(k: Check, seals: set<SealShare>)
    requires SealShare(3, 1, 0, NO_COMMITS) in seals && SealShare(3, 2, 0, NO_COMMITS) in seals && SealShare(3, 3, 0, NO_COMMITS) in seals
    ensures NewViewChecked(C5, k, seals, 4, 1, LOST) && Best(LOST) == map[] && Batches(2, Best(LOST)) == map[]
  {
    hide StateValid, StateChecked;
    Quorums5();
    LostState(seals, 1);
    LostState(seals, 2);
    LostState(seals, 3);
    NothingBest(LOST);
  }

  /** Replica 4 committed B. */
  ghost predicate Followed(s: State, d: Decision) {
    && Sane(C5, s) && s.logs[1] == LEADING && s.logs[2] == FOLLOWING && |s.logs| == 5
    && CertValid(C5, s.shares, CERT_B) && d in s.decisions && d.instance == 0 && d.batch == A
    && var l := s.locals[4];
       && |l.peers| == 5 && |l.pending| == 5
       && l.peers[1].view == 1 && l.peers[1].nextCb == 3 && l.peers[1].low == 0 && l.peers[1].commits == map[] && l.peers[1].outstanding == 0
       && l.peers[2] == FRESH.(view := 1, nextCb := 1)
       && 0 in l.slots && l.slots[0] == Slot(1, B, {}, {4}, false, true) && l.nextToDecide == 0
  }

  lemma FollowsTo(k: Check, s0: State, d: Decision) returns (s: State)
    requires Reached(C5, k, s0) && Left(s0, d)
    ensures Reached(C5, k, s) && Followed(s, d)
  {
    hide Reached, CertValid, NewViewChecked, Best, Batches, PruneValues, NoBuffers;
    LostChecked(k, s0.seals);
    s := HearsNewView(C5, k, s0, 4, 1, 1, LOST, map[]);
    assert NoCheckpoints(s.logs[1]) && NoCheckpoints(s.logs[2]) && NoCheckpoints(s.logs[3]);
    hide NoCheckpoints, AboveCheckpoints;
    NothingBelow(s.logs, LOST, 0, 0);
    s := Inserts(C5, k, s, 4, 1, 1, 0, B);
    s := Certifies(C5, k, s, 4, 0);
    assert CertValid(C5, s.shares, CERT_B) by { CertBValid(s.shares); }
    s := Commits(C5, k, s, 4, CERT_B);
    assert {} + {4} == {4};
  }

  lemma CertBValid(shares: set<Share>)
    requires Share(4, 1, 0, B) in shares
    ensures CertValid(C5, shares, CERT_B)
  {
    Quorums5();
  }

  lemma EvictionRun(k: Check) returns (s: State)
    requires k.NoEviction?
    ensures Reached(C5, k, s) && !Agreement(s)
  {
    hide Reached, CertValid, CertChecked, IsQuorum, AllSigned, FastDecided, Moved, Forgot, Left, Agreement;
    s := AllSign(k);
    var d: Decision;
    s, d := DecidesFast(k, s);
    s := Moves(k, s, d);
    s := Forgets(k, s, d);
    s := Leaves(k, s, d);
    s := FollowsTo(k, s, d);
    ValidIsChecked(C5, s.shares, 4, CERT_B);
    s := HearsAndCounts(C5, k, s, 4, 1, CERT_B);
    s := HearsAndCounts(C5, k, s, 4, 2, CERT_B);
    SubsetSize({1, 2, 4}, s.locals[4].slots[0].slow);
    var e := DecisionOf(C5, 4, 0, s.locals[4].slots[0]);
    s := Decides(C5, k, s, 4);
    Disagree(s, d, e);
  }

  /** On the way, replica 3 sealed view 0 without a commit for what it fast-committed. */
  lemma SealsWithout(k: Check) returns (s: State)
    requires k.NoEviction?
    ensures Reached(C5, k, s) && !Sealing.SealsSafely(s, 3) && |s.logs| == 5 && s.logs[3] == [SealView]
  {
    hide Reached, AllSigned, FastDecided, Moved, FastCommitted;
    s := AllSign(k);
    var d: Decision;
    s, d := DecidesFast(k, s);
    s := Moves(k, s, d);
    s := Forgets(k, s, d);
    NotSafe(s);
  }

  lemma NotSafe(s: State)
    requires |s.logs| == 5 && s.logs[3] == [SealView] && FastCommit(3, 0, 0) in s.fast
    ensures !Sealing.SealsSafely(s, 3)
  {
    var log := s.logs[3];
    assert log[..0] == [];
    SealPosAt(log, 0);
    assert !Sealing.Committed(log[..0], 0, 0);
    assert !Sealing.SealedSafely(log, Streams.Refused(s, 3), 0, 0);
  }
}
