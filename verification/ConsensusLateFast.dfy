/** A fast commit of another view is counted. */
module ConsensusLateFast {
  import opened Options
  import opened ConsensusLog
  import opened ConsensusProtocol
  import opened ConsensusScript
  import opened ConsensusTrio

  const FIRST_STATES := [State01(0, 0, map[]), State01(1, 0, map[])]
  const LATER_STATES := [State12(1, 3, map[]), State12(2, 3, COMMITTED_A)]

  /** Replica 1 leads view 1, where B is prepared, and view 4, where A has to be. */
  const LATE := [SealView, NewView(1, FIRST_STATES), Prepare(1, 0, B), SealView, SealView, SealView,
                 NewView(4, LATER_STATES), Prepare(4, 0, A), Commit(Cert12(4, 0, A))]

  lemma LaterBest()
    ensures Best(LATER_STATES) == COMMITTED_A && Batches(2, Best(LATER_STATES)) == map[0 := A]
  {
    TwoStates(State12(1, 3, map[]), State12(2, 3, COMMITTED_A));
    assert Merge(map[], map[]) == map[];
    assert Merge(map[], COMMITTED_A) == COMMITTED_A;
  }

  /** Replica 2 fast-committed A in view 0, and committed it. */
  ghost predicate FastSent(s: State) {
    && Sane(C, s) && s.logs[0] == [Prepare(0, 0, A)] && s.logs[1] == LATE && s.logs[2] == [Commit(Cert12(0, 0, A))]
    && FastCommit(2, 0, 0) in s.fast
    && s.locals[0].peers[1] == FRESH && s.locals[0].peers[0].view == 0 && s.locals[0].peers[0].low == 0 && s.locals[0].peers[0].outstanding == 0
    && s.locals[0].peers[0].commits == map[] && s.locals[0].pending[0] == multiset{} && s.locals[0].pending[1] == multiset{}
    && s.locals[0].slots == map[0 := NewSlot(0, A)] && s.locals[0].certified == 0 && s.locals[0].nextToDecide == 0
    && s.locals[0].buffered[0] == [] && s.locals[0].buffered[1] == [] && s.locals[0].buffered[2] == []
    && var l := s.locals[2];
       && l.peers[1] == FRESH && l.peers[2] == Peer(0, COMMITTED_A, 0, 1, 0, None, 0)
       && l.pending[1] == multiset{} && l.pending[2] == multiset{} && l.buffered[0] == [] && l.buffered[1] == [] && l.buffered[2] == []
       && AllCommitted(l, 2) && l.certified == 0 && l.nextToDecide == 0
  }

  lemma SendsEarly(k: Check) returns (s: State)
    ensures Reached(C, k, s) && FastSent(s)
  {
    hide Reached, CertValid, IsQuorum;
    s := Opens(k, LATE);
    s := Proposes(C, k, s, 0, 0, A);
    s := Inserts(C, k, s, 2, 0, 0, 0, A);
    s := Certifies(C, k, s, 2, 0);
    CertsValid(s.shares, 0, 0, A);
    s := Commits(C, k, s, 2, Cert12(0, 0, A));
    s := SendsFast(C, k, s, 2, 0);
    assert [] + [Prepare(0, 0, A)] == [Prepare(0, 0, A)] && [] + [Commit(Cert12(0, 0, A))] == [Commit(Cert12(0, 0, A))];
  }

  /** p sealed view 0 and heard replica 1 seal it. */
  ghost predicate Entered(s: State, p: Replica) {
    && Sane(C, s) && p < 3 && NoCheckpoints(s.logs[0]) && s.logs[1] == LATE
    && SealShare(0, 0, 0, NO_COMMITS) in s.seals && SealShare(0, 1, 0, NO_COMMITS) in s.seals
    && var l := s.locals[p];
       && l.peers[1] == FRESH.(view := 1, nextCb := 1) && l.peers[p].view == 1 && l.peers[p].low == 0 && l.peers[p].outstanding == 0
       && l.pending[1] == multiset{} && l.pending[p] == multiset{} && l.buffered[0] == [] && l.buffered[1] == [] && l.buffered[2] == []
       && l.slots == map[] && l.minKey == 0 && l.certified == 0 && l.nextToDecide == 0
  }

  lemma EntersNext(k: Check, s0: State) returns (s: State)
    requires Reached(C, k, s0) && FastSent(s0)
    ensures Reached(C, k, s) && Entered(s, 0) && Entered(s, 2) && s.locals[2].peers[2].commits == COMMITTED_A
    ensures NoCheckpoints(s.logs[2]) && FastCommit(2, 0, 0) in s.fast
  {
    hide Reached;
    s := Seals(C, k, s0, 0);
    s := HearsSeal(C, k, s, 0, 1);
    s := HearsSeal(C, k, s, 2, 1);
    s := Seals(C, k, s, 2);
    assert s.logs[0] == [Prepare(0, 0, A), SealView];
    assert s.logs[2] == [Commit(Cert12(0, 0, A)), SealView];
  }

  lemma FirstChecked(k: Check, seals: set<SealShare>, p: Replica)
    requires SealShare(0, 0, 0, NO_COMMITS) in seals && SealShare(0, 1, 0, NO_COMMITS) in seals
    ensures NewViewChecked(C, k, seals, p, 1, FIRST_STATES) && Best(FIRST_STATES) == map[] && Batches(2, Best(FIRST_STATES)) == map[]
  {
    Quorums3();
    StateOk(seals, p, 0, 0, map[]);
    StateOk(seals, p, 1, 0, map[]);
    NothingBest(FIRST_STATES);
  }

  /** Both signed B in view 1. */
  ghost predicate BothSigned(s: State) {
    && Sane(C, s) && s.logs[1] == LATE && NoCheckpoints(s.logs[2]) && FastCommit(2, 0, 0) in s.fast && Share(2, 1, 0, B) in s.shares
    && 0 in s.locals[0].slots && s.locals[0].slots[0] == Slot(1, B, {}, {}, false, true) && s.locals[0].nextToDecide == 0
    && var l := s.locals[2];
       && l.peers[1] == Peer(1, map[], 0, 3, 0, Some(Valid(1, FIRST_STATES, map[])), 0)
       && l.peers[2].view == 1 && l.peers[2].low == 0 && l.peers[2].outstanding == 0 && l.peers[2].commits == COMMITTED_A
       && l.pending[1] == multiset{} && l.pending[2] == multiset{} && l.buffered[0] == [] && l.buffered[1] == [] && l.buffered[2] == []
       && AllCommitted(l, 2) && l.certified == 0 && l.nextToDecide == 0
  }

  lemma SignsNext(k: Check, s0: State, p: Replica) returns (s: State)
    requires p == 0 || p == 2
    requires Reached(C, k, s0) && Entered(s0, p)
    ensures Reached(C, k, s) && Sane(C, s) && s.logs == s0.logs && s.fast == s0.fast && s.seals == s0.seals && s.locals[2 - p] == s0.locals[2 - p]
    ensures s0.shares <= s.shares && Share(p, 1, 0, B) in s.shares
    ensures var l0, l := s0.locals[p], s.locals[p];
            && l.peers[1] == Peer(1, map[], 0, 3, 0, Some(Valid(1, FIRST_STATES, map[])), 0) && l.peers[p] == l0.peers[p]
            && l.slots == map[0 := Slot(1, B, {}, {}, false, true)] && l.pending == l0.pending && l.certified == 0 && l.nextToDecide == 0
            && l.buffered[0] == [] && l.buffered[1] == [] && l.buffered[2] == []
  {
    hide Reached, NewViewChecked, Best, Batches;
    FirstChecked(k, s0.seals, p);
    s := HearsNewView(C, k, s0, p, 1, 1, FIRST_STATES, map[]);
    hide NoCheckpoints, AboveCheckpoints;
    NothingBelow(s.logs, FIRST_STATES, 0, 0);
    s := Inserts(C, k, s, p, 1, 1, 0, B);
    s := Certifies(C, k, s, p, 0);
  }

  lemma BothSign(k: Check, s0: State) returns (s: State)
    requires Reached(C, k, s0) && Entered(s0, 0) && Entered(s0, 2) && s0.locals[2].peers[2].commits == COMMITTED_A
    requires NoCheckpoints(s0.logs[2]) && FastCommit(2, 0, 0) in s0.fast
    ensures Reached(C, k, s) && BothSigned(s)
  {
    hide Reached, NoCheckpoints;
    s := SignsNext(k, s0, 0);
    s := SignsNext(k, s, 2);
  }

  /** Replica 0 counts the fast commit of view 0 for view 1, and decides B. */
  ghost predicate FastDecided(s: State, d: Decision) {
    && Sane(C, s) && s.logs[1] == LATE && NoCheckpoints(s.logs[2]) && d in s.decisions && d.instance == 0 && d.batch == B
    && var l := s.locals[2];
       && l.peers[1] == Peer(1, map[], 0, 3, 0, Some(Valid(1, FIRST_STATES, map[])), 0)
       && l.peers[2].view == 1 && l.peers[2].low == 0 && l.peers[2].outstanding == 0 && l.peers[2].commits == COMMITTED_A
       && l.pending[1] == multiset{} && l.pending[2] == multiset{} && l.buffered[0] == [] && l.buffered[1] == [] && l.buffered[2] == []
       && AllCommitted(l, 2) && l.certified == 0 && l.nextToDecide == 0
  }

  lemma DecidesFast(k: Check, s0: State) returns (s: State, d: Decision)
    requires k.FastView? && Reached(C, k, s0) && BothSigned(s0)
    ensures Reached(C, k, s) && FastDecided(s, d)
  {
    hide Reached, AllCommitted, NoCheckpoints;
    assert Acknowledged(s0.shares, 2, 1, 0);
    s := SendsFast(C, k, s0, 0, 0);
    s := GetsFast(C, k, s, 0, 1, 1, 0);
    s := GetsFast(C, k, s, 0, 2, 0, 0);
    assert s.locals[0].slots[0].fast == {0, 1, 2};
    d := DecisionOf(C, 0, 0, s.locals[0].slots[0]);
    s := Decides(C, k, s, 0);
  }

  /** Replica 2 enters view 4 with replica 1. */
  lemma MovesOn(k: Check, s0: State, d: Decision) returns (s: State)
    requires Reached(C, k, s0) && FastDecided(s0, d)
    ensures Reached(C, k, s) && Sane(C, s) && s.logs[1] == LATE && NoCheckpoints(s.logs[2]) && s.decisions == s0.decisions
    ensures SealShare(2, 1, 3, NO_COMMITS) in s.seals && SealShare(2, 2, 3, COMMITTED_A) in s.seals
    ensures var l := s.locals[2];
            && l.peers[1] == Peer(4, map[], 0, 6, 0, Some(Valid(1, FIRST_STATES, map[])), 0)
            && l.peers[2].view == 4 && l.peers[2].low == 0 && l.peers[2].outstanding == 0 && l.peers[2].commits == COMMITTED_A
            && l.pending[1] == multiset{} && l.buffered[0] == [] && l.buffered[1] == [] && l.buffered[2] == []
            && l.slots == map[] && l.minKey == 0 && l.certified == 0 && l.nextToDecide == 0
  {
    hide Reached;
    s := Seals(C, k, s0, 2);
    s := Seals(C, k, s, 2);
    s := Seals(C, k, s, 2);
    s := HearsSeal(C, k, s, 2, 1);
    s := HearsSeal(C, k, s, 2, 1);
    s := HearsSeal(C, k, s, 2, 1);
  }

  lemma FastViewRun(k: Check) returns (s: State)
    requires k.FastView?
    ensures Reached(C, k, s) && !Agreement(s)
  {
    hide Reached, FastSent, Entered, BothSigned, IsQuorum, StateChecked, StateValid, Best, Batches, Agreement;
    s := SendsEarly(k);
    s := EntersNext(k, s);
    s := BothSign(k, s);
    var d: Decision;
    s, d := DecidesFast(k, s);
    s := MovesOn(k, s, d);
    StateOk(s.seals, 2, 1, 3, NO_COMMITS);
    StateOk(s.seals, 2, 2, 3, COMMITTED_A);
    LaterBest();
    s := HearsNewView(C, k, s, 2, 1, 4, LATER_STATES, map[0 := A]);
    assert NoCheckpoints(s.logs[1]) && NoCheckpoints(s.logs[2]);
    hide NoCheckpoints, AboveCheckpoints;
    NothingBelow(s.logs, LATER_STATES, 3, 0);
    s := DecidesOtherwise(k, s, 4, A, d);
  }
}
