/** A decision is lost because the NewView of the next view does not show it: it repeats the state
    of one replica, carries a forged one, or one below a checkpoint. */
module ConsensusHiding {
  import opened Options
  import opened ConsensusLog
  import opened ConsensusProtocol
  import opened ConsensusScript
  import opened ConsensusTrio

  /** Replica 1 commits A in view 0, and leads view 1 with a NewView that does not show it. */
  function Hiding(states: seq<VcState>): seq<Msg> {
    [Commit(Cert01(0, 0, A)), SealView, NewView(1, states), Prepare(1, 0, B), Commit(Cert12(1, 0, B))]
  }

  /** Replica 0 decided A with the commit of replica 1, broadcast a checkpoint and sealed view 0. */
  ghost predicate Hidden(s: State, log: seq<Msg>, d: Decision) {
    && Sane(C, s) && s.logs[1] == log && s.logs[2] == [] && s.locals[2] == IDLE_LOCAL
    && Share(0, 0, 0, A) in s.shares && SealShare(0, 0, 0, NO_COMMITS) in s.seals
    && d in s.decisions && d.instance == 0 && d.batch == A
  }

  lemma Hides(k: Check, s0: State, log: seq<Msg>) returns (s: State, d: Decision)
    requires Reached(C, k, s0) && Voted(s0, log) && log != [] && log[0] == Commit(Cert01(0, 0, A))
    ensures Reached(C, k, s) && Hidden(s, log, d)
  {
    hide Reached, CertValid, CertChecked, IsQuorum, Prune, Above;
    CertsValid(s0.shares, 0, 0, A);
    ValidIsChecked(C, s0.shares, 0, Cert01(0, 0, A));
    s := HearsAndCounts(C, k, s0, 0, 1, Cert01(0, 0, A));
    Majority(s.locals[0].slots[0].slow, {0, 1});
    d := DecisionOf(C, 0, 0, s.locals[0].slots[0]);
    s := Decides(C, k, s, 0);
    Quorums3();
    s := Adopts(C, k, s, 0, 1, {0, 1});
    NoneAbove(s.locals[0].slots, 1);
    PrunesAll(s.locals[0].peers[0].commits, 1);
    s := Checkpoints(C, k, s, 0);
    s := Seals(C, k, s, 0);
  }

  /** Replica 2 sees the commit and both seals, and is about to hear the NewView. */
  ghost predicate Misled(s: State, log: seq<Msg>, d: Decision) {
    && Sane(C, s) && s.logs[1] == log && s.logs[2] == [SealView]
    && SealShare(0, 0, 0, NO_COMMITS) in s.seals && SealShare(2, 1, 0, COMMITTED_A) in s.seals && SealShare(2, 2, 0, NO_COMMITS) in s.seals
    && d in s.decisions && d.instance == 0 && d.batch == A
    && var l := s.locals[2];
       && l.peers[1] == Peer(1, COMMITTED_A, 0, 2, 0, None, 0) && l.peers[2] == Peer(1, map[], 0, 1, 0, None, 0)
       && l.slots == map[] && l.minKey == 0 && l.certified == 0 && l.nextToDecide == 0
       && l.buffered[0] == [] && l.buffered[1] == [Cert01(0, 0, A)] && l.buffered[2] == []
  }

  lemma Misleads(k: Check, s0: State, states: seq<VcState>, d: Decision) returns (s: State)
    requires Reached(C, k, s0) && Hidden(s0, Hiding(states), d)
    ensures Reached(C, k, s) && Misled(s, Hiding(states), d)
  {
    hide Reached, CertValid, CertChecked, IsQuorum;
    CertsValid(s0.shares, 0, 0, A);
    ValidIsChecked(C, s0.shares, 2, Cert01(0, 0, A));
    s := HearsAndBuffers(C, k, s0, 2, 1, Cert01(0, 0, A));
    s := HearsSeal(C, k, s, 2, 1);
    s := Seals(C, k, s, 2);
    assert [] + [SealView] == [SealView];
    assert [] + [Cert01(0, 0, A)] == [Cert01(0, 0, A)];
  }

  /** Replica 2 follows the NewView, which shows no commit, and decides B. */
  lemma FollowsBlindly(k: Check, s0: State, states: seq<VcState>, d: Decision) returns (s: State)
    requires Reached(C, k, s0) && Misled(s0, Hiding(states), d)
    requires NewViewChecked(C, k, s0.seals, 2, 1, states) && forall j :: 0 <= j < |states| ==> states[j].commits == map[]
    requires k.AboveCheckpoint? || forall j :: 0 <= j < |states| ==> states[j].replica == 1 || states[j].replica == 2
    ensures Reached(C, k, s) && !Agreement(s)
  {
    hide Reached, NewViewChecked, Best, Batches;
    NothingBest(states);
    s := HearsNewView(C, k, s0, 2, 1, 1, states, map[]);
    assert NoCheckpoints(s.logs[1]) && NoCheckpoints(s.logs[2]);
    hide NoCheckpoints, AboveCheckpoints;
    if !k.AboveCheckpoint? {
      NothingBelow(s.logs, states, 0, 0);
    }
    s := DecidesOtherwise(k, s, 1, B, d);
  }

  /** The states in the NewView: one of them twice, one forged, or that of replica 0, which was above a checkpoint. */
  function Shown(k: Check): seq<VcState> {
    var first := if k.DistinctStates? then State12(2, 0, map[]) else if k.StateCertificates? then State12(1, 0, map[]) else State01(0, 0, map[]);
    [first, State12(2, 0, map[])]
  }

  lemma ShownChecked(k: Check, seals: set<SealShare>)
    requires k.DistinctStates? || k.StateCertificates? || k.AboveCheckpoint?
    requires SealShare(0, 0, 0, NO_COMMITS) in seals && SealShare(2, 1, 0, COMMITTED_A) in seals && SealShare(2, 2, 0, NO_COMMITS) in seals
    ensures NewViewChecked(C, k, seals, 2, 1, Shown(k))
  {
    Quorums3();
    StateOk(seals, 2, 0, 0, map[]);
    StateOk(seals, 2, 2, 0, map[]);
    // Replica 2 remembers the share it signed for the true state of replica 1.
    assert SealPasses(seals, 2, 2, State12(1, 0, map[]));
  }

  lemma HidingRun(k: Check) returns (s: State)
    requires k.DistinctStates? || k.StateCertificates? || k.AboveCheckpoint?
    ensures Reached(C, k, s) && !Agreement(s)
  {
    hide Reached, Voted, Hidden, NewViewChecked, Agreement;
    s := Votes(k, Hiding(Shown(k)));
    var d: Decision;
    s, d := Hides(k, s, Hiding(Shown(k)));
    s := Misleads(k, s, Shown(k), d);
    ShownChecked(k, s.seals);
    s := FollowsBlindly(k, s, Shown(k), d);
  }
}
