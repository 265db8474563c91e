/** A view is led with the states that opened an earlier one. */
module ConsensusStaleView {
  import opened Options
  import opened ConsensusLog
  import opened ConsensusProtocol
  import opened ConsensusScript
  import opened ConsensusTrio

  /** Replica 1 leads view 1, where A is decided, and view 4 with the states that opened view 1; with
      the second NewView, or without. */
  function Stale(k: Check): seq<Msg> {
    [SealView, NewView(1, [IDLE1, IDLE2]), Prepare(1, 0, A), Commit(Cert01(1, 0, A)), SealView, SealView, SealView] +
    (if k.StatesView? then [NewView(4, [IDLE1, IDLE2])] else []) + [Prepare(4, 0, B), Commit(Cert12(4, 0, B))]
  }

  lemma StaleIs(k: Check)
    ensures var log := Stale(k);
            && |log| >= 9 && log[0] == SealView && log[1] == NewView(1, [IDLE1, IDLE2]) && log[2] == Prepare(1, 0, A) && log[3] == Commit(Cert01(1, 0, A))
            && log[4] == SealView && log[5] == SealView && log[6] == SealView
            && (if k.StatesView? then |log| == 10 && log[7] == NewView(4, [IDLE1, IDLE2]) && log[8] == Prepare(4, 0, B) && log[9] == Commit(Cert12(4, 0, B))
                else log[7] == Prepare(4, 0, B) && log[8] == Commit(Cert12(4, 0, B)))
    ensures NoCheckpoints(Stale(k))
  {}

  /** Both correct replicas sealed view 0 and signed the states of 1 and 2. */
  ghost predicate Sealed(s: State, log: seq<Msg>) {
    && Sane(C, s) && s.logs == [[SealView], log, [SealView]]
    && SealShare(2, 1, 0, NO_COMMITS) in s.seals && SealShare(2, 2, 0, NO_COMMITS) in s.seals
    && s.locals[0] == IDLE_LOCAL.(peers := [FRESH.(view := 1, nextCb := 1), FRESH.(view := 1, nextCb := 1), FRESH])
    && s.locals[2] == IDLE_LOCAL.(peers := [FRESH, FRESH.(view := 1, nextCb := 1), FRESH.(view := 1, nextCb := 1)])
  }

  lemma BothSeal(k: Check, log: seq<Msg>) returns (s: State)
    requires log != [] && log[0] == SealView
    ensures Reached(C, k, s) && Sealed(s, log)
  {
    hide Reached;
    s := Opens(k, log);
    s := HearsSeal(C, k, s, 0, 1);
    s := Seals(C, k, s, 0);
    s := HearsSeal(C, k, s, 2, 1);
    s := Seals(C, k, s, 2);
    assert [] + [SealView] == [SealView];
    assert s.logs == [[SealView], log, [SealView]];
    assert s.locals[0].peers == [FRESH.(view := 1, nextCb := 1), FRESH.(view := 1, nextCb := 1), FRESH];
    assert s.locals[2].peers == [FRESH, FRESH.(view := 1, nextCb := 1), FRESH.(view := 1, nextCb := 1)];
  }

  /** Replica 0 signed A in view 1. */
  ghost predicate SignedInView(k: Check, s: State, s0: State) {
    && Sane(C, s) && Sane(C, s0) && s.logs == s0.logs && s0.seals <= s.seals && s.locals[2] == s0.locals[2] && Share(0, 1, 0, A) in s.shares
    && var l := s.locals[0];
       && l.peers[0] == FRESH.(view := 1, nextCb := 1) && l.peers[1] == Peer(1, map[], 0, 3, 0, Some(Valid(1, [IDLE1, IDLE2], map[])), 0)
       && l.slots == map[0 := Slot(1, A, {}, {}, false, true)] && l.pending == s0.locals[0].pending && l.nextToDecide == 0
  }

  lemma SignsInView(k: Check, s0: State) returns (s: State)
    requires k.StatesView? || k.ValuesView?
    requires Reached(C, k, s0) && Sealed(s0, Stale(k))
    ensures Reached(C, k, s) && SignedInView(k, s, s0)
  {
    hide Reached, CertValid, CertChecked, IsQuorum, NewViewChecked, Best, Batches, Stale;
    StaleIs(k);
    IdleStates(k, s0.seals, 0, 1);
    s := HearsNewView(C, k, s0, 0, 1, 1, [IDLE1, IDLE2], map[]);
    assert NoCheckpoints(s.logs[1]) && NoCheckpoints(s.logs[2]);
    hide NoCheckpoints, AboveCheckpoints;
    NothingBelow(s.logs, [IDLE1, IDLE2], 0, 0);
    s := Inserts(C, k, s, 0, 1, 1, 0, A);
    s := Certifies(C, k, s, 0, 0);
  }

  /** Replica 0 decides A in view 1. */
  lemma DecidesFirst(k: Check, s0: State) returns (s: State, d: Decision)
    requires k.StatesView? || k.ValuesView?
    requires Reached(C, k, s0) && Sealed(s0, Stale(k))
    ensures Reached(C, k, s) && Sane(C, s) && s.logs[1] == Stale(k) && s.logs[2] == [SealView] && s.locals[2] == s0.locals[2]
    ensures SealShare(2, 1, 0, NO_COMMITS) in s.seals && SealShare(2, 2, 0, NO_COMMITS) in s.seals && Share(0, 1, 0, A) in s.shares
    ensures d in s.decisions && d.instance == 0 && d.batch == A
  {
    hide Reached, CertValid, CertChecked, IsQuorum, Stale;
    StaleIs(k);
    s := SignsInView(k, s0);
    CertsValid(s.shares, 1, 0, A);
    s := Commits(C, k, s, 0, Cert01(1, 0, A));
    ValidIsChecked(C, s.shares, 0, Cert01(1, 0, A));
    s := HearsAndCounts(C, k, s, 0, 1, Cert01(1, 0, A));
    Majority(s.locals[0].slots[0].slow, {0, 1});
    d := DecisionOf(C, 0, 0, s.locals[0].slots[0]);
    s := Decides(C, k, s, 0);
  }

  /** Replica 2, in view 4 already, hears what replica 1 broadcast in view 1. */
  ghost predicate Catching(k: Check, s: State, at: nat, d: Decision) {
    && Sane(C, s) && s.logs[1] == Stale(k) && NoCheckpoints(s.logs[2]) && Share(0, 1, 0, A) in s.shares && d in s.decisions && d.instance == 0 && d.batch == A
    && SealShare(2, 1, 0, NO_COMMITS) in s.seals && SealShare(2, 2, 0, NO_COMMITS) in s.seals
    && var l := s.locals[2];
       && l.peers[1].nextCb == at && l.peers[1].low == 0 && l.peers[1].outstanding == 0 && l.peers[1].nextPrepare == 0
       && l.peers[1].valid == Some(Valid(1, [IDLE1, IDLE2], map[])) && l.pending[1] == multiset{}
       && l.peers[2].view == 4 && l.peers[2].low == 0 && l.peers[2].outstanding == 0 && l.peers[2].commits == map[]
       && l.slots == map[] && l.minKey == 0 && l.certified == 0 && l.nextToDecide == 0 && l.buffered[0] == [] && l.buffered[2] == []
  }

  lemma RunsAhead(k: Check, s0: State, d: Decision) returns (s: State)
    requires k.StatesView? || k.ValuesView?
    requires Reached(C, k, s0) && Sane(C, s0) && s0.logs[1] == Stale(k) && s0.logs[2] == [SealView] && Share(0, 1, 0, A) in s0.shares
    requires s0.locals[2] == IDLE_LOCAL.(peers := [FRESH, FRESH.(view := 1, nextCb := 1), FRESH.(view := 1, nextCb := 1)])
    requires SealShare(2, 1, 0, NO_COMMITS) in s0.seals && SealShare(2, 2, 0, NO_COMMITS) in s0.seals
    requires d in s0.decisions && d.instance == 0 && d.batch == A
    ensures Reached(C, k, s) && Catching(k, s, 2, d) && s.locals[2].peers[1].view == 1 && s.locals[2].peers[1].commits == map[] && s.locals[2].buffered[1] == []
  {
    hide Reached, IsQuorum, NewViewChecked, Best, Batches, Stale;
    StaleIs(k);
    IdleStates(k, s0.seals, 2, 1);
    s := HearsNewView(C, k, s0, 2, 1, 1, [IDLE1, IDLE2], map[]);
    s := Seals(C, k, s, 2);
    s := Seals(C, k, s, 2);
    s := Seals(C, k, s, 2);
    assert s.logs[2] == [SealView, SealView, SealView, SealView];
  }

  lemma CatchesUp(k: Check, s0: State, d: Decision) returns (s: State)
    requires k.StatesView? || k.ValuesView?
    requires Reached(C, k, s0) && Catching(k, s0, 2, d)
    requires s0.locals[2].peers[1].view == 1 && s0.locals[2].peers[1].commits == map[] && s0.locals[2].buffered[1] == []
    ensures Reached(C, k, s) && Catching(k, s, 7, d)
    ensures s.locals[2].peers[1].view == 4 && s.locals[2].peers[1].commits == map[0 := Entry(1, A)] && s.locals[2].buffered[1] == [Cert01(1, 0, A)]
  {
    hide Reached, CertValid, CertChecked, IsQuorum, Stale;
    StaleIs(k);
    assert NoCheckpoints(s0.logs[1]);
    hide NoCheckpoints, AboveCheckpoints;
    NothingBelow(s0.logs, [IDLE1, IDLE2], 0, 0);
    s := Ignores(C, k, s0, 2, 1, 1, 0, A);
    CertsValid(s.shares, 1, 0, A);
    ValidIsChecked(C, s.shares, 2, Cert01(1, 0, A));
    s := HearsAndBuffers(C, k, s, 2, 1, Cert01(1, 0, A));
    assert [] + [Cert01(1, 0, A)] == [Cert01(1, 0, A)];
    s := HearsSeal(C, k, s, 2, 1);
    s := HearsSeal(C, k, s, 2, 1);
    s := HearsSeal(C, k, s, 2, 1);
  }

  lemma StaleRun(k: Check) returns (s: State)
    requires k.StatesView? || k.ValuesView?
    ensures Reached(C, k, s) && !Agreement(s)
  {
    hide Reached, NewViewChecked, Best, Batches, Stale, Agreement;
    StaleIs(k);
    s := BothSeal(k, Stale(k));
    var d: Decision;
    s, d := DecidesFirst(k, s);
    s := RunsAhead(k, s, d);
    s := CatchesUp(k, s, d);
    if k.StatesView? {
      IdleStates(k, s.seals, 2, 4);
      s := HearsNewView(C, k, s, 2, 1, 4, [IDLE1, IDLE2], map[]);
    }
    assert NoCheckpoints(s.logs[1]);
    hide NoCheckpoints, AboveCheckpoints;
    NothingBelow(s.logs, [IDLE1, IDLE2], 3, 0);
    s := DecidesOtherwise(k, s, 4, B, d);
  }

  // ---------- Two certificates for one view and instance ----------

  /** Replica 1 leads view 4 with the valid values of view 1, and prepares twice. */
  const TWICE := [SealView, NewView(1, [IDLE1, IDLE2]), SealView, SealView, SealView, Prepare(4, 0, A), Prepare(4, 0, B)]

  /** p handled the NewView. */
  ghost predicate Following(s: State, p: Replica) {
    && Sane(C, s) && p < 3 && s.logs[1] == TWICE && NoCheckpoints(s.logs[2])
    && var l := s.locals[p];
       && l.peers[1] == Peer(1, map[], 0, 2, 0, Some(Valid(1, [IDLE1, IDLE2], map[])), 0)
       && l.peers[p].view == 1 && l.peers[p].outstanding == 0 && l.pending[1] == multiset{} && l.pending[p] == multiset{}
       && l.buffered[0] == [] && l.buffered[1] == [] && l.buffered[2] == []
       && l.slots == map[] && l.minKey == 0 && l.certified == 0
  }

  lemma BothFollow(k: Check) returns (s: State)
    requires k.ValuesView?
    ensures Reached(C, k, s) && Following(s, 0) && Following(s, 2)
  {
    hide Reached, NewViewChecked, Best, Batches;
    s := BothSeal(k, TWICE);
    IdleStates(k, s.seals, 0, 1);
    IdleStates(k, s.seals, 2, 1);
    s := HearsNewView(C, k, s, 0, 1, 1, [IDLE1, IDLE2], map[]);
    s := HearsNewView(C, k, s, 2, 1, 1, [IDLE1, IDLE2], map[]);
  }

  lemma NoneBelow(s: State, v: View)
    requires Sane(C, s) && s.logs[1] == TWICE && NoCheckpoints(s.logs[2])
    ensures AboveCheckpoints(s.logs, [IDLE1, IDLE2], v, 0)
  {
    assert NoCheckpoints(s.logs[1]);
    hide NoCheckpoints;
    NothingBelow(s.logs, [IDLE1, IDLE2], v, 0);
  }

  /** Replica 0 is in view 4 when it hears the first prepare. */
  lemma SignsFirst(k: Check, s0: State) returns (s: State)
    requires k.ValuesView? && Reached(C, k, s0) && Following(s0, 0) && Following(s0, 2)
    ensures Reached(C, k, s) && Following(s, 2) && Share(0, 4, 0, A) in s.shares
  {
    hide Reached, AboveCheckpoints;
    s := Seals(C, k, s0, 0);
    s := Seals(C, k, s, 0);
    s := Seals(C, k, s, 0);
    s := HearsSeal(C, k, s, 0, 1);
    s := HearsSeal(C, k, s, 0, 1);
    s := HearsSeal(C, k, s, 0, 1);
    NoneBelow(s, 3);
    hide NoCheckpoints;
    s := Inserts(C, k, s, 0, 1, 4, 0, A);
    s := Certifies(C, k, s, 0, 0);
  }

  /** Replica 2 enters view 4 only then, and takes the second one for the first. */
  lemma SignsSecond(k: Check, s0: State) returns (s: State)
    requires k.ValuesView? && Reached(C, k, s0) && Following(s0, 2) && Share(0, 4, 0, A) in s0.shares
    ensures Reached(C, k, s) && Share(0, 4, 0, A) in s.shares && Share(2, 4, 0, B) in s.shares
  {
    hide Reached, AboveCheckpoints;
    s := HearsSeal(C, k, s0, 2, 1);
    s := HearsSeal(C, k, s, 2, 1);
    s := HearsSeal(C, k, s, 2, 1);
    NoneBelow(s, 3);
    s := Ignores(C, k, s, 2, 1, 4, 0, A);
    s := Seals(C, k, s, 2);
    s := Seals(C, k, s, 2);
    s := Seals(C, k, s, 2);
    NoneBelow(s, 3);
    hide NoCheckpoints;
    s := Inserts(C, k, s, 2, 1, 4, 0, B);
    s := Certifies(C, k, s, 2, 0);
  }

  lemma TwoCertificatesRun(k: Check) returns (s: State)
    requires k.ValuesView?
    ensures Reached(C, k, s) && CertValid(C, s.shares, Cert01(4, 0, A)) && CertValid(C, s.shares, Cert12(4, 0, B))
  {
    hide Reached, Following, CertValid;
    s := BothFollow(k);
    s := SignsFirst(k, s);
    s := SignsSecond(k, s);
    CertsValid(s.shares, 4, 0, A);
    CertsValid(s.shares, 4, 0, B);
  }
}
