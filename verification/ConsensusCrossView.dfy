/** A commit of another view is counted: replica 0, left in view 0, decides A with a commit for B. */
module ConsensusCrossView {
  import opened ConsensusLog
  import opened ConsensusProtocol
  import opened ConsensusScript
  import opened ConsensusTrio

  const LED := [SealView, NewView(1, [IDLE1, IDLE2]), Prepare(1, 0, B), Commit(Cert12(1, 0, B))]

  /** Replica 0 is left in view 0, replica 2 committed B in view 1. */
  ghost predicate Apart(s: State) {
    && AboutToCount(s, 1, B) && s.logs[2] == [SealView, Commit(Cert12(1, 0, B))]
    && var l := s.locals[0];
       && l.peers[2] == FRESH && l.pending[2] == multiset{} && l.nextToDecide == 0
       && 0 in l.slots && l.slots[0] == Slot(0, A, {}, {0}, false, true)
  }

  lemma PartsWays(k: Check) returns (s: State)
    requires k.CommitView?
    ensures Reached(C, k, s) && Apart(s)
  {
    hide Reached, CertValid, CertChecked, IsQuorum, NewViewChecked, Best, Batches;
    s := Votes(k, LED);
    s := HearsSeal(C, k, s, 2, 1);
    s := Seals(C, k, s, 2);
    assert [] + [SealView] == [SealView] && [SealView] + [Commit(Cert12(1, 0, B))] == [SealView, Commit(Cert12(1, 0, B))];
    IdleStates(k, s.seals, 2, 1);
    s := HearsNewView(C, k, s, 2, 1, 1, [IDLE1, IDLE2], map[]);
    assert NoCheckpoints(s.logs[1]) && NoCheckpoints(s.logs[2]);
    hide NoCheckpoints, AboveCheckpoints;
    NothingBelow(s.logs, [IDLE1, IDLE2], 0, 0);
    s := CommitsThen(k, s, 1, B);
  }

  lemma CommitViewRun(k: Check) returns (s: State)
    requires k.CommitView?
    ensures Reached(C, k, s) && !Agreement(s)
  {
    hide Reached, CertValid, CertChecked, IsQuorum, Agreement;
    s := PartsWays(k);
    s := HearsSeal(C, k, s, 0, 2);
    CertsValid(s.shares, 1, 0, B);
    ValidIsChecked(C, s.shares, 0, Cert12(1, 0, B));
    s := HearsAndCounts(C, k, s, 0, 2, Cert12(1, 0, B));
    Majority(s.locals[0].slots[0].slow, {0, 2});
    var d := DecisionOf(C, 0, 0, s.locals[0].slots[0]);
    s := Decides(C, k, s, 0);
    s := CountsThen(k, s, 1, B, d);
  }
}
