/** A checkpoint takes its replica back: of a later index, but with signatures that are remembered
    for another one. Five replicas, of which 1 and 2 are Byzantine and commit A with replica 0.
    A checkpoint of replica 2 drops its commit for instance 0, the next one hides that it did. */
module ConsensusSetback {
  import opened Options
  import opened ConsensusLog
  import opened ConsensusProtocol
  import opened ConsensusScript
  import opened ConsensusTrio
  import opened ConsensusEviction

  const CERT_A0 := Cert(0, 0, A, {0, 1, 2})
  const CERT_A1 := Cert(0, 1, A, {0, 1, 2})
  const BOTH_A: map<Instance, Entry> := map[0 := Entry(0, A), 1 := Entry(0, A)]
  const LATER_A: map<Instance, Entry> := map[1 := Entry(0, A)]

  /** Replica 2 as replica 0 saw it seal view 0; replicas 3 and 4, which never voted. */
  const TURNED := VcState(2, 0, LATER_A, {0, 1, 2})
  const TURNED_STATES := [TURNED, VcState(3, 0, map[], {1, 2, 3}), VcState(4, 0, map[], {1, 2, 4})]

  const TURNING := [Commit(CERT_A0), Commit(CERT_A1), Checkpoint(1, 1), Checkpoint(2, 0), SealView]
  const TAKING_OVER := [Commit(CERT_A0), Commit(CERT_A1), SealView, NewView(1, TURNED_STATES), Prepare(1, 0, B), Commit(CERT_B)]

  const VOTING := [Prepare(0, 0, A), Prepare(0, 1, A), Commit(CERT_A0), Commit(CERT_A1)]

  lemma OpensBoth(k: Check) returns (s: State)
    ensures Reached(C5, k, s) && Sane(C5, s)
    ensures s == State([[], TAKING_OVER, TURNING, [], []], [FRESH_LOCAL, FRESH_LOCAL, FRESH_LOCAL, FRESH_LOCAL, FRESH_LOCAL], {}, {}, {}, {}, {}, {})
  {
    s := Start(C5, k);
    hide Reached;
    assert InitLocal(C5) == FRESH_LOCAL;
    assert s.locals == [FRESH_LOCAL, FRESH_LOCAL, FRESH_LOCAL, FRESH_LOCAL, FRESH_LOCAL];
    s := ForgesAll(C5, k, s, 1, TAKING_OVER);
    s := ForgesAll(C5, k, s, 2, TURNING);
    assert [] + TAKING_OVER == TAKING_OVER && [] + TURNING == TURNING;
    assert s.logs == [[], TAKING_OVER, TURNING, [], []];
  }

  lemma CertsOfA(shares: set<Share>, i: Instance)
    requires Share(0, 0, i, A) in shares
    ensures CertValid(C5, shares, Cert(0, i, A, {0, 1, 2})) && forall p :: CertChecked(C5, shares, p, Cert(0, i, A, {0, 1, 2}))
  {
    Quorums5();
    forall p ensures CertChecked(C5, shares, p, Cert(0, i, A, {0, 1, 2})) {
      ValidIsChecked(C5, shares, p, Cert(0, i, A, {0, 1, 2}));
    }
  }

  // ---------- Replica 0 decides A for two instances ----------

  /** What does not change until replicas 3 and 4 act. */
  ghost predicate Others(s: State) {
    && Sane(C5, s) && s.logs == [VOTING, TAKING_OVER, TURNING, [], []] && s.locals[3] == s.locals[4] == FRESH_LOCAL
    && Share(0, 0, 0, A) in s.shares && Share(0, 0, 1, A) in s.shares
  }

  ghost predicate Committed(s: State) {
    && Others(s)
    && var l := s.locals[0];
       && |l.peers| == 5 && |l.pending| == 5 && l.peers[1] == FRESH && l.peers[2] == FRESH
       && l.pending[1] == multiset{} && l.pending[2] == multiset{} && l.certified == 0 && l.nextToDecide == 0
       && l.slots == map[0 := Slot(0, A, {}, {0}, false, true), 1 := Slot(0, A, {}, {0}, false, true)]
  }

  lemma PreparesBoth(k: Check) returns (s: State)
    ensures Reached(C5, k, s) && Committed(s)
  {
    hide Reached, CertValid, CertChecked, IsQuorum;
    s := OpensBoth(k);
    s := Proposes(C5, k, s, 0, 0, A);
    s := Certifies(C5, k, s, 0, 0);
    s := Proposes(C5, k, s, 0, 1, A);
    s := Certifies(C5, k, s, 0, 1);
    CertsOfA(s.shares, 0);
    CertsOfA(s.shares, 1);
    s := Commits(C5, k, s, 0, CERT_A0);
    s := Commits(C5, k, s, 0, CERT_A1);
    assert {} + {0} == {0};
    assert s.logs[0] == VOTING;
    assert s.logs == [VOTING, TAKING_OVER, TURNING, [], []];
  }

  /** Replica 0 counted the commits of replicas 1 and 2. */
  ghost predicate Counted(s: State) {
    && Others(s)
    && var l := s.locals[0];
       && |l.peers| == 5 && |l.pending| == 5 && l.peers[2] == Peer(0, BOTH_A, 0, 2, 0, None, 0) && l.pending[2] == multiset{}
       && l.certified == 0 && l.nextToDecide == 0
       && l.slots == map[0 := Slot(0, A, {}, {0, 1, 2}, false, true), 1 := Slot(0, A, {}, {0, 1, 2}, false, true)]
  }

  /** The commits of replica q for both instances are counted. */
  lemma CountsBoth(k: Check, s0: State, q: Replica, votes: set<Replica>) returns (s: State)
    requires Reached(C5, k, s0) && Others(s0) && 1 <= q <= 2 && q !in votes
    requires |s0.locals[0].peers| == 5 && |s0.locals[0].pending| == 5 && s0.locals[0].peers[q] == FRESH
    requires s0.locals[0].slots == map[0 := Slot(0, A, {}, votes, false, true), 1 := Slot(0, A, {}, votes, false, true)]
    ensures Reached(C5, k, s) && Others(s)
    ensures var l, l' := s0.locals[0], s.locals[0];
            && l'.peers == l.peers[q := Peer(0, BOTH_A, 0, 2, 0, None, 0)] && l'.pending == l.pending
            && l'.certified == l.certified && l'.nextToDecide == l.nextToDecide
            && l'.slots == map[0 := Slot(0, A, {}, votes + {q}, false, true), 1 := Slot(0, A, {}, votes + {q}, false, true)]
  {
    hide Reached, CertValid, CertChecked, IsQuorum;
    CertsOfA(s0.shares, 0);
    CertsOfA(s0.shares, 1);
    s := HearsAndCounts(C5, k, s0, 0, q, CERT_A0);
    s := HearsAndCounts(C5, k, s, 0, q, CERT_A1);
  }

  lemma CountsAll(k: Check, s0: State) returns (s: State)
    requires Reached(C5, k, s0) && Committed(s0)
    ensures Reached(C5, k, s) && Counted(s)
  {
    hide Reached, Others;
    s := CountsBoth(k, s0, 1, {0});
    s := CountsBoth(k, s, 2, {0} + {1});
    assert {0} + {1} + {2} == {0, 1, 2};
  }

  /** Replica 0 decided both instances, and signed the checkpoints after either. */
  ghost predicate Signed(s: State, d: Decision) {
    && Others(s) && d in s.decisions && d.instance == 0 && d.batch == A
    && CheckpointShare(0, 1) in s.checkpoints && CheckpointShare(0, 2) in s.checkpoints
    && var l := s.locals[0];
       && |l.peers| == 5 && |l.pending| == 5 && l.peers[2] == Peer(0, BOTH_A, 0, 2, 0, None, 0) && l.pending[2] == multiset{} && l.certified == 0
  }

  lemma DecidesBoth(k: Check, s0: State) returns (s: State, d: Decision)
    requires Reached(C5, k, s0) && Counted(s0)
    ensures Reached(C5, k, s) && Signed(s, d)
  {
    hide Reached;
    assert |{0, 1, 2}| == 3;
    d := DecisionOf(C5, 0, 0, s0.locals[0].slots[0]);
    s := Decides(C5, k, s0, 0);
    s := Decides(C5, k, s, 0);
    s := Signs(C5, k, s, 0, 1);
    s := Signs(C5, k, s, 0, 2);
  }

  // ---------- Replica 2 turns back ----------

  ghost predicate Turned(s: State, d: Decision) {
    Others(s) && d in s.decisions && d.instance == 0 && d.batch == A && SealShare(0, 2, 0, LATER_A) in s.seals
  }

  lemma Prunings()
    ensures Prune(BOTH_A, 1) == LATER_A && Prune(LATER_A, 0) == LATER_A
  {}

  lemma TurnsBack(k: Check, s0: State, d: Decision) returns (s: State)
    requires k.CheckpointsForward? && Reached(C5, k, s0) && Signed(s0, d)
    ensures Reached(C5, k, s) && Turned(s, d)
  {
    Prunings();
    hide Reached, IsQuorum, Prune;
    Quorums5();
    s := HearsCheckpoint(C5, k, s0, 0, 2, 1, {0, 1, 2});
    s := HearsForged(C5, k, s, 0, 2, 2, 0, {0, 1, 2});
    s := HearsSeal(C5, k, s, 0, 2);
  }

  // ---------- Replicas 3 and 4 follow replica 1 ----------

  /** p, one of replicas 3 and 4, heard replica 1 up to its NewView and sealed view 0. */
  ghost predicate Left(l: Local, p: Replica) {
    && |l.peers| == 5 && |l.pending| == 5 && |l.buffered| == 5 && p < 5
    && l.peers[1] == Peer(1, BOTH_A, 0, 3, 0, None, 0) && l.peers[p] == FRESH.(view := 1, nextCb := 1)
    && (forall q :: 0 <= q < 5 && q != 1 && q != p ==> l.peers[q] == FRESH)
    && (forall q :: 0 <= q < 5 ==> l.pending[q] == multiset{})
    && l.buffered == [[], [CERT_A0, CERT_A1], [], [], []]
    && l.slots == map[] && l.minKey == 0 && l.certified == 0 && l.nextToDecide == 0
  }

  lemma Buffers(k: Check, s0: State, p: Replica) returns (s: State)
    requires Reached(C5, k, s0) && Sane(C5, s0) && 3 <= p <= 4 && s0.locals[p] == FRESH_LOCAL && s0.logs[1] == TAKING_OVER
    requires Share(0, 0, 0, A) in s0.shares && Share(0, 0, 1, A) in s0.shares
    ensures Reached(C5, k, s) && Sane(C5, s)
    ensures s == SetLocal(s0, p, FRESH_LOCAL.(peers := FRESH_LOCAL.peers[1 := Peer(0, BOTH_A, 0, 2, 0, None, 0)], buffered := [[], [CERT_A0, CERT_A1], [], [], []]))
  {
    hide Reached, CertValid, CertChecked, IsQuorum;
    CertsOfA(s0.shares, 0);
    CertsOfA(s0.shares, 1);
    s := HearsAndBuffers(C5, k, s0, p, 1, CERT_A0);
    s := HearsAndBuffers(C5, k, s, p, 1, CERT_A1);
    assert [] + [CERT_A0] + [CERT_A1] == [CERT_A0, CERT_A1];
    assert s.locals[p] == FRESH_LOCAL.(peers := FRESH_LOCAL.peers[1 := Peer(0, BOTH_A, 0, 2, 0, None, 0)], buffered := [[], [CERT_A0, CERT_A1], [], [], []]);
  }

  lemma Leaves(k: Check, s0: State, p: Replica) returns (s: State)
    requires Reached(C5, k, s0) && Sane(C5, s0) && 3 <= p <= 4 && s0.locals[p] == FRESH_LOCAL && s0.logs[1] == TAKING_OVER && s0.logs[p] == []
    requires Share(0, 0, 0, A) in s0.shares && Share(0, 0, 1, A) in s0.shares
    ensures Reached(C5, k, s) && Sane(C5, s) && s.logs == s0.logs[p := [SealView]] && s.shares == s0.shares && s.decisions == s0.decisions
    ensures s0.seals <= s.seals && SealShare(p, p, 0, NO_COMMITS) in s.seals
    ensures Left(s.locals[p], p) && forall q :: 0 <= q < 5 && q != p ==> s.locals[q] == s0.locals[q]
  {
    hide Reached;
    s := Buffers(k, s0, p);
    s := HearsSeal(C5, k, s, p, 1);
    s := Seals(C5, k, s, p);
    assert [] + [SealView] == [SealView];
  }

  ghost predicate Sealed(s: State, d: Decision) {
    && Sane(C5, s) && s.logs == [VOTING, TAKING_OVER, TURNING, [SealView], [SealView]] && d in s.decisions && d.instance == 0 && d.batch == A
    && SealShare(0, 2, 0, LATER_A) in s.seals && SealShare(3, 3, 0, NO_COMMITS) in s.seals && SealShare(4, 4, 0, NO_COMMITS) in s.seals
    && Left(s.locals[3], 3) && Left(s.locals[4], 4)
  }

  lemma BothLeave(k: Check, s0: State, d: Decision) returns (s: State)
    requires Reached(C5, k, s0) && Turned(s0, d)
    ensures Reached(C5, k, s) && Sealed(s, d)
  {
    hide Reached, Left;
    s := Leaves(k, s0, 3);
    s := Leaves(k, s, 4);
    assert s.logs == [VOTING, TAKING_OVER, TURNING, [SealView], [SealView]];
  }

  // ---------- The NewView shows nothing for instance 0 ----------

  lemma StatesOk(seals: set<SealShare>, p: Replica)
    requires SealShare(0, 2, 0, LATER_A) in seals && SealShare(3, 3, 0, NO_COMMITS) in seals && SealShare(4, 4, 0, NO_COMMITS) in seals
    ensures forall j :: 0 <= j < 3 ==> StateValid(C5, seals, TURNED_STATES[j]) && StateChecked(C5, seals, p, TURNED_STATES[j])
  {
    Quorums5();
    forall j | 0 <= j < 3 ensures StateValid(C5, seals, TURNED_STATES[j]) && StateChecked(C5, seals, p, TURNED_STATES[j]) {
      ValidStateIsChecked(C5, seals, p, TURNED_STATES[j]);
    }
  }

  lemma BestTurned()
    ensures Best(TURNED_STATES) == LATER_A && Batches(2, Best(TURNED_STATES)) == map[1 := A]
  {
    assert TURNED_STATES[..2] == [TURNED_STATES[0], TURNED_STATES[1]];
    TwoStates(TURNED_STATES[0], TURNED_STATES[1]);
    assert Merge(map[], LATER_A) == LATER_A;
    assert Merge(LATER_A, map[]) == LATER_A;
  }

  /** The checkpoint of replica 2 is back at 0 when it seals view 0. */
  lemma BackAtZero(logs: seq<seq<Msg>>)
    requires |logs| == 5 && logs[2] == TURNING && NoCheckpoints(logs[3]) && NoCheckpoints(logs[4])
    ensures AboveCheckpoints(logs, TURNED_STATES, 0, 0)
  {
    NothingBelow(logs, TURNED_STATES[1..], 0, 0);
    FoldsBack(TURNING);
    forall j | 0 <= j < 3 && SealPos(logs[TURNED_STATES[j].replica], 0).Some?
      ensures Fold(logs[TURNED_STATES[j].replica][..SealPosBound(logs[TURNED_STATES[j].replica], 0)]).low <= 0
    {
      if j > 0 {
        assert TURNED_STATES[1..][j - 1] == TURNED_STATES[j];
      }
    }
  }

  lemma FoldsBack(log: seq<Msg>)
    requires log == TURNING
    ensures SealPos(log, 0) == Some(4) && Fold(log[..4]).low == 0
  {
    FoldNext(log, 0);
    FoldNext(log, 1);
    FoldNext(log, 2);
    FoldNext(log, 3);
    SealPosAt(log, 4);
  }

  // ---------- They decide B ----------

  ghost predicate Ready(s: State, p: Replica) {
    && Sane(C5, s) && |s.logs| == 5 && s.logs[1] == TAKING_OVER && s.logs[2] == TURNING && NoCheckpoints(s.logs[3]) && NoCheckpoints(s.logs[4])
    && SealShare(0, 2, 0, LATER_A) in s.seals && SealShare(3, 3, 0, NO_COMMITS) in s.seals && SealShare(4, 4, 0, NO_COMMITS) in s.seals
    && 3 <= p <= 4 && Left(s.locals[p], p) && s.logs[p] == [SealView]
  }

  /** p committed B. */
  ghost predicate Followed(l: Local, p: Replica) {
    && |l.peers| == 5 && |l.pending| == 5 && p < 5
    && l.peers[1].view == 1 && l.peers[1].nextCb == 5 && l.peers[1].low == 0 && l.peers[1].commits == BOTH_A && l.peers[1].outstanding == 0
    && (forall q :: 0 <= q < 5 && q != 1 && q != p ==> l.peers[q] == FRESH)
    && (forall q :: 0 <= q < 5 ==> l.pending[q] == multiset{})
    && l.slots == map[0 := Slot(1, B, {}, {p}, false, true)] && l.nextToDecide == 0
  }

  /** p heard the NewView and signed B. */
  lemma SignsB(k: Check, s0: State, p: Replica) returns (s: State)
    requires Reached(C5, k, s0) && Ready(s0, p)
    ensures Reached(C5, k, s) && Sane(C5, s) && s.logs == s0.logs && s.seals == s0.seals && s.decisions == s0.decisions
    ensures s.shares == s0.shares + {Share(p, 1, 0, B)} && forall q :: 0 <= q < 5 && q != p ==> s.locals[q] == s0.locals[q]
    ensures s.locals[p].slots == map[0 := Slot(1, B, {}, {}, false, true)]
    ensures var l, l0 := s.locals[p], s0.locals[p];
            && |l.peers| == 5 && l.pending == l0.pending && l.nextToDecide == 0 && (forall q :: 0 <= q < 5 && q != 1 ==> l.peers[q] == l0.peers[q])
            && l.peers[1].view == 1 && l.peers[1].nextCb == 5 && l.peers[1].low == 0 && l.peers[1].commits == BOTH_A && l.peers[1].outstanding == 0
  {
    hide Reached, StateValid, StateChecked, Best, Batches, PruneValues, NoBuffers, NoCheckpoints;
    StatesOk(s0.seals, p);
    BestTurned();
    BackAtZero(s0.logs);
    hide AboveCheckpoints;
    s := HearsNewView(C5, k, s0, p, 1, 1, TURNED_STATES, map[1 := A]);
    s := Inserts(C5, k, s, p, 1, 1, 0, B);
    s := Certifies(C5, k, s, p, 0);
  }

  lemma Follows(k: Check, s0: State, p: Replica) returns (s: State)
    requires Reached(C5, k, s0) && Ready(s0, p) && (p == 4 || Share(4, 1, 0, B) in s0.shares)
    ensures Reached(C5, k, s) && Sane(C5, s) && s.logs == s0.logs[p := [SealView, Commit(CERT_B)]] && s.seals == s0.seals && s.decisions == s0.decisions
    ensures Share(4, 1, 0, B) in s.shares && Followed(s.locals[p], p) && forall q :: 0 <= q < 5 && q != p ==> s.locals[q] == s0.locals[q]
  {
    hide Reached, CertValid, NoCheckpoints;
    s := SignsB(k, s0, p);
    assert CertValid(C5, s.shares, CERT_B) by { CertBValid(s.shares); }
    s := Commits(C5, k, s, p, CERT_B);
    assert {} + {p} == {p};
    assert [SealView] + [Commit(CERT_B)] == [SealView, Commit(CERT_B)];
  }

  lemma BothFollow(k: Check, s0: State, d: Decision) returns (s: State)
    requires Reached(C5, k, s0) && Sealed(s0, d)
    ensures Reached(C5, k, s) && Sane(C5, s) && |s.logs| == 5 && s.logs[1] == TAKING_OVER && s.logs[4] == [SealView, Commit(CERT_B)]
    ensures d in s.decisions && d.instance == 0 && d.batch == A && Share(4, 1, 0, B) in s.shares && Followed(s.locals[3], 3)
  {
    hide Reached, Left, Followed;
    s := Follows(k, s0, 4);
    s := Follows(k, s, 3);
  }

  lemma SetbackRun(k: Check) returns (s: State)
    requires k.CheckpointsForward?
    ensures Reached(C5, k, s) && !Agreement(s)
  {
    hide Reached, CertValid, CertChecked, IsQuorum, Committed, Counted, Signed, Turned, Sealed, Agreement;
    s := PreparesBoth(k);
    s := CountsAll(k, s);
    var d: Decision;
    s, d := DecidesBoth(k, s);
    s := TurnsBack(k, s, d);
    s := BothLeave(k, s, d);
    s := BothFollow(k, s, d);
    s := DecidesB(k, s, d);
  }

  lemma DecidesB(k: Check, s0: State, d: Decision) returns (s: State)
    requires Reached(C5, k, s0) && Sane(C5, s0) && |s0.logs| == 5 && s0.logs[1] == TAKING_OVER && s0.logs[4] == [SealView, Commit(CERT_B)]
    requires d in s0.decisions && d.instance == 0 && d.batch == A && Share(4, 1, 0, B) in s0.shares && Followed(s0.locals[3], 3)
    ensures Reached(C5, k, s) && !Agreement(s)
  {
    hide Reached, CertValid, CertChecked, IsQuorum, Agreement;
    assert CertValid(C5, s0.shares, CERT_B) by { CertBValid(s0.shares); }
    ValidIsChecked(C5, s0.shares, 3, CERT_B);
    s := HearsAndCounts(C5, k, s0, 3, 1, CERT_B);
    s := HearsSeal(C5, k, s, 3, 4);
    s := HearsAndCounts(C5, k, s, 3, 4, CERT_B);
    assert {3} + {1} + {4} == {1, 3, 4};
    assert |{1, 3, 4}| == 3;
    var e := DecisionOf(C5, 3, 0, s.locals[3].slots[0]);
    s := Decides(C5, k, s, 3);
    Disagree(s, d, e);
  }
}
