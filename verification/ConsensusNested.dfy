/** A run with calls inside calls: while a commit of replica 2 waits for slack, a NewView arrives and
    the view is sealed; the commit is then sent in a view that is over, and replica 2 throws on it. */
module ConsensusNested {
  import opened Options
  import opened ConsensusLog
  import opened ConsensusProtocol
  import opened ConsensusScript
  import opened ConsensusTrio

  const OPENING_STATES := [State01(0, 0, map[]), State01(1, 0, map[])]
  const OPENS_VIEW := [SealView, NewView(1, OPENING_STATES)]
  const LATE := Commit(Cert12(0, 0, A))

  /** Replica 0 prepared A and left view 0; replica 2 signed A. */
  ghost predicate Signed(s: State) {
    && Sane(C, s) && s.logs[1] == OPENS_VIEW && s.logs[2] == [] && Share(2, 0, 0, A) in s.shares
    && SealShare(0, 0, 0, NO_COMMITS) in s.seals && SealShare(0, 1, 0, NO_COMMITS) in s.seals
    && s.locals[2] == SIGNED
  }

  const SIGNED := Local([FRESH.(nextCb := 1), FRESH, FRESH], map[0 := Slot(0, A, {}, {}, false, true)], 0, 0, 0, [NONE, NONE, NONE], [[], [], []], 0, 0, [])

  lemma Signs2(k: Check) returns (s: State)
    ensures Reached(C, k, s) && Signed(s)
  {
    hide Reached;
    s := Opens(k, OPENS_VIEW);
    s := Proposes(C, k, s, 0, 0, A);
    s := Seals(C, k, s, 0);
    s := HearsSeal(C, k, s, 0, 1);
    s := Inserts(C, k, s, 2, 0, 0, 0, A);
    s := Certifies(C, k, s, 2, 0);
    assert s.locals[2] == SIGNED;
  }

  /** Where the calls of replica 2 have got to. */
  function At(frames: seq<Frame>): Local {
    SIGNED.(peers := [FRESH.(nextCb := 1), FRESH.(view := 1, nextCb := 1), FRESH], frames := frames)
  }

  const ARRIVED := At([Waiting(LATE)]).(peers := [FRESH.(nextCb := 1), FRESH.(view := 1, nextCb := 2), FRESH],
                                         frames := [Waiting(LATE), Opening(1, 1, OPENING_STATES)])

  const SEALED := ARRIVED.(peers := [FRESH.(nextCb := 1), FRESH.(view := 1, nextCb := 2), FRESH.(view := 1, nextCb := 1)], slots := map[])

  lemma BeginsCommit(k: Check, s0: State) returns (s: State)
    requires Reached(C, k, s0) && Signed(s0)
    ensures Reaches(C, k, s) && Sane(C, s) && s == SetLocal(s0, 2, SIGNED.(frames := [Waiting(LATE)])) && s.halted == {}
  {
    CertsValid(s0.shares, 0, 0, A);
    hide Reached, CertValid, IsQuorum;
    s := BeginStep(C, k, s0, 2, LATE);
    assert [] + [Waiting(LATE)] == [Waiting(LATE)];
  }

  lemma HearsSealInside(k: Check, s0: State) returns (s: State)
    requires Reaches(C, k, s0) && Sane(C, s0) && s0.halted == {} && s0.logs[1] == OPENS_VIEW && s0.locals[2] == SIGNED.(frames := [Waiting(LATE)])
    ensures Reaches(C, k, s) && Sane(C, s) && s.halted == {} && s.logs == s0.logs && s0.seals <= s.seals && s.locals[2] == At([Waiting(LATE)])
  {
    hide Reaches;
    s := SetLocal(s0, 2, At([Waiting(LATE)])).(seals := s0.seals + {SealShare(2, 1, 0, NO_COMMITS)});
    assert Handle(C, s0.locals[2], 2, 1, SealView) == Some(At([Waiting(LATE)])) by {
      var r := Handle(C, s0.locals[2], 2, 1, SealView).value;
      assert r.peers == At([Waiting(LATE)]).peers;
    }
    hide Handle;
    Takes(C, k, s0, Deliver(2, 1), s);
  }

  lemma StatesPass(seals: set<SealShare>)
    requires SealShare(0, 0, 0, NO_COMMITS) in seals && SealShare(0, 1, 0, NO_COMMITS) in seals
    ensures AllValid(C, seals, OPENING_STATES) && Distinct(OPENING_STATES) && AllOfView(OPENING_STATES, 1)
    ensures forall j :: 0 <= j < |OPENING_STATES| ==> StateChecked(C, seals, 2, OPENING_STATES[j])
  {
    StateOk(seals, 2, 0, 0, map[]);
    StateOk(seals, 2, 1, 0, map[]);
  }

  /** The NewView arrives: the view has to be changed first. */
  lemma HearsNewViewInside(k: Check, s0: State) returns (s: State)
    requires Reaches(C, k, s0) && Sane(C, s0) && s0.halted == {} && s0.logs[1] == OPENS_VIEW && s0.locals[2] == At([Waiting(LATE)])
    requires SealShare(0, 0, 0, NO_COMMITS) in s0.seals && SealShare(0, 1, 0, NO_COMMITS) in s0.seals
    ensures Reaches(C, k, s) && Sane(C, s) && s == SetLocal(s0, 2, ARRIVED)
  {
    StatesPass(s0.seals);
    hide Reaches, AllValid, Distinct, AllOfView, StateChecked;
    s := SetLocal(s0, 2, ARRIVED);
    assert Handle(C, s0.locals[2], 2, 1, NewView(1, OPENING_STATES)) == Some(ARRIVED) by {
      assert [Waiting(LATE)] + [Opening(1, 1, OPENING_STATES)] == [Waiting(LATE), Opening(1, 1, OPENING_STATES)];
      assert Bump(s0.locals[2], 1).peers == ARRIVED.peers;
    }
    hide Handle;
    Takes(C, k, s0, Deliver(2, 1), s);
  }

  const SEALING := ARRIVED.(frames := [Waiting(LATE), Opening(1, 1, OPENING_STATES), Waiting(SealView)])

  /** Inside its handler, view 0 is sealed. */
  lemma BeginsSeal(k: Check, s0: State) returns (s: State)
    requires Reaches(C, k, s0) && Sane(C, s0) && s0.halted == {} && s0.locals[2] == ARRIVED
    ensures Reaches(C, k, s) && Sane(C, s) && s == SetLocal(s0, 2, SEALING)
  {
    hide Reaches;
    s := SetLocal(s0, 2, SEALING);
    assert Begun(ARRIVED, SealView) == SEALING;
    Takes(C, k, s0, Begin(2, SealView), s);
  }

  lemma HandlesSeal()
    ensures Popped(SEALING) == ARRIVED && Top(SEALING) == Waiting(SealView)
    ensures Handle(C, ARRIVED, 2, 2, SealView).Some? && AfterBroadcast(Handle(C, ARRIVED, 2, 2, SealView).value, SealView) == SEALED
  {
    assert AfterBroadcast(Handle(C, ARRIVED, 2, 2, SealView).value, SealView).peers == SEALED.peers;
  }

  lemma SealsInside(k: Check, s0: State) returns (s: State)
    requires Reaches(C, k, s0) && Sane(C, s0) && s0.halted == {} && s0.locals[2] == SEALING && s0.logs[2] == []
    ensures Reaches(C, k, s) && Sane(C, s) && s.halted == {} && s.logs == s0.logs[2 := [SealView]] && s.locals[2] == SEALED
  {
    HandlesSeal();
    hide Reaches, Handle, AfterBroadcast;
    s := SetLocal(s0, 2, SEALED).(logs := s0.logs[2 := [SealView]], seals := SealsAfter(s0, 2, 2, SealView));
    assert [] + [SealView] == [SealView];
    Takes(C, k, s0, Broadcast(2, SealView), s);
  }

  /** The handler of the NewView ends, and the commit is sent. */
  lemma Throws(k: Check, s0: State) returns (s: State)
    requires Reaches(C, k, s0) && Sane(C, s0) && s0.halted == {} && s0.locals[2] == SEALED && s0.logs[2] == [SealView]
    ensures Reaches(C, k, s) && Sane(C, s) && s.halted == {2} && s.logs[2] == [SealView, LATE]
  {
    hide Reaches, Best, Batches;
    var l1 := Opened(C, Popped(SEALED), 1, 1, OPENING_STATES);
    var s1 := SetLocal(s0, 2, l1);
    assert Top(SEALED) == Opening(1, 1, OPENING_STATES);
    assert l1.frames == [Waiting(LATE)];
    Takes(C, k, s0, Open(2), s1);
    s := s1.(logs := s1.logs[2 := s1.logs[2] + [LATE]], halted := {2});
    assert Handle(C, Popped(l1), 2, 2, LATE).None?;
    assert {} + {2} == {2} && [SealView] + [LATE] == [SealView, LATE];
    Takes(C, k, s1, Halt(2, LATE), s);
  }

  /** A correct replica leaves a commit of view 0 behind the SealView of view 0 in its stream,
      whichever checks are made. */
  lemma LateCommitRun(k: Check) returns (s: State)
    ensures Reaches(C, k, s) && s.halted == {2} && |s.logs| == 3 && s.logs[2] == [SealView, LATE]
  {
    hide Reached, Reaches, Signed;
    s := Signs2(k);
    s := NestedRun(k, s);
  }

  lemma NestedRun(k: Check, s0: State) returns (s: State)
    requires Reached(C, k, s0) && Signed(s0)
    ensures Reaches(C, k, s) && s.halted == {2} && |s.logs| == 3 && s.logs[2] == [SealView, LATE]
  {
    hide Reached, Reaches;
    s := BeginsCommit(k, s0);
    s := HearsSealInside(k, s);
    s := HearsNewViewInside(k, s);
    s := BeginsSeal(k, s);
    s := SealsInside(k, s);
    s := Throws(k, s);
  }
}
