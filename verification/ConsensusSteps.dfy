/** Every guarded step of the system keeps the invariant. */
module ConsensusSteps {
  import opened Options
  import opened ConsensusLog
  import opened ConsensusProtocol
  import opened ConsensusInvariant
  import opened ConsensusHandlers
  import opened ConsensusGrowth

  // ---------- Handling one message of a stream ----------

  /** The omitted checks of one message. */
  ghost predicate LocalGuard(c: Config, logs: Logs, seals: set<SealShare>, p: Replica, l: Local, from: Replica, m: Msg)
    requires Shaped(c, l) && p < c.n && from < c.n
  {
    match m
    case Prepare(v, i, _) =>
      var valid := l.peers[from].valid;
      && (v != 0 && valid.Some? ==> valid.value.view == v && AboveCheckpoints(logs, valid.value.states, v - 1, i))
      && (v == l.peers[p].view && l.certified <= i ==> KeepsFast(c, l, p, i))
    case Checkpoint(_, low) => l.peers[from].low <= low
    case SealView => l.pending[from] == multiset{}
    case NewView(v, states) => Distinct(states) && AllOfView(states, v) && AllValid(c, seals, states)
    case _ => true
  }

  lemma MessageChecks(c: Config, logs: Logs, seals: set<SealShare>, checkpoints: set<CheckpointShare>, p: Replica, l: Local, from: Replica, m: Msg)
    requires Shaped(c, l) && p < c.n && from < c.n
    requires forall k: Check :: !k.CheckpointCertificate? ==> PassesMsg(k, c, logs, seals, checkpoints, p, l, from, m)
    ensures LocalGuard(c, logs, seals, p, l, from, m)
  {
    hide AboveCheckpoints, KeepsFast, Distinct, AllOfView, AllValid;
    assert PassesMsg(ValuesView, c, logs, seals, checkpoints, p, l, from, m) && PassesMsg(AboveCheckpoint, c, logs, seals, checkpoints, p, l, from, m);
    assert PassesMsg(NoEviction, c, logs, seals, checkpoints, p, l, from, m) && PassesMsg(NothingPending, c, logs, seals, checkpoints, p, l, from, m);
    assert PassesMsg(DistinctStates, c, logs, seals, checkpoints, p, l, from, m) && PassesMsg(StatesView, c, logs, seals, checkpoints, p, l, from, m);
    assert PassesMsg(StateCertificates, c, logs, seals, checkpoints, p, l, from, m) && PassesMsg(CheckpointsForward, c, logs, seals, checkpoints, p, l, from, m);
  }

  lemma GuardedMessage(c: Config, s: State, step: Step, p: Replica, from: Replica, m: Msg)
    requires Sane(c, s) && p < c.n && from < c.n && Guard(c, s, step)
    requires || (step == Broadcast(p, m) && from == p)
             || (step == Deliver(p, from) && s.locals[p].peers[from].nextCb < |s.logs[from]| && s.logs[from][s.locals[p].peers[from].nextCb] == m)
    ensures LocalGuard(c, s.logs, s.seals, p, s.locals[p], from, m)
  {
    hide LocalGuard, PassesMsg;
    forall k: Check | !k.CheckpointCertificate? ensures PassesMsg(k, c, s.logs, s.seals, s.checkpoints, p, s.locals[p], from, m) {
      assert Passes(k, c, s, step);
    }
    MessageChecks(c, s.logs, s.seals, s.checkpoints, p, s.locals[p], from, m);
  }

  /** What still holds of a message once its broadcast has waited. */
  ghost predicate OwnGuard(p: Replica, l: Local, m: Msg) {
    (m.Checkpoint? ==> m.low <= l.certified) && (m.SealView? ==> AllCommitted(l, p))
  }

  function Handled(c: Config, l: Local, p: Replica, from: Replica, m: Msg): Option<Local>
    requires Shaped(c, l) && p < c.n && from < c.n
  {
    var r := Handle(c, l, p, from, m);
    if r.Some? && from == p then Some(AfterBroadcast(r.value, m)) else r
  }

  lemma PrepareKeeps(c: Config, logs: Logs, shares: set<Share>, fast: set<FastCommit>, seals: set<SealShare>,
                     p: Replica, l: Local, from: Replica, v: View, i: Instance, b: Batch)
    requires c.Valid() && |logs| == c.n > 0 && p < c.n && CoreInv(c, logs, shares, fast, p, l) && SharesInv(c, logs, shares)
    requires Delivering(c, logs, l, from, Prepare(v, i, b)) && LocalGuard(c, logs, seals, p, l, from, Prepare(v, i, b))
    requires Handle(c, l, p, from, Prepare(v, i, b)).Some?
    ensures CoreInv(c, logs, shares, fast, p, Handle(c, l, p, from, Prepare(v, i, b)).value)
  {
    hide Insert, StreamInv, SlotInv, SharesInv, AboveCheckpoints, Pinned, FramesInv;
    var l' := Handle(c, l, p, from, Prepare(v, i, b)).value;
    assert Handled(c, l, p, from, Prepare(v, i, b)) == Some(l');
    HandledFrames(c, logs, shares, l, p, from, Prepare(v, i, b));
    if v == l.peers[p].view && l.certified <= i {
      InsertedSlot(c, logs, shares, fast, l, p, from, v, i, b);
      InsertStreams(c, logs, shares, l, p, from, v, i, b);
      InsertKeepsSlots(c, logs, shares, fast, p, l, from, v, i, b);
      InsertKeepsFast(c, logs, shares, fast, p, l, from, v, i, b);
      hide SlotsInv, FastInv;
    } else {
      IgnoredPrepareKeeps(c, logs, shares, p, l, from, v, i, b);
    }
  }

  lemma InsertKeepsSlots(c: Config, logs: Logs, shares: set<Share>, fast: set<FastCommit>, p: Replica, l: Local, from: Replica, v: View, i: Instance, b: Batch)
    requires Inserting(c, logs, l, p, from, v, i, b) && SlotsInv(c, logs, shares, fast, p, l)
    requires SlotInv(c, logs, shares, fast, p, v, i, Slot(v, b, {}, Voters(c, l, v, i), false, false))
    ensures SlotsInv(c, logs, shares, fast, p, Insert(c, Bump(l, from), from, v, i, b))
  {
    hide SlotInv, Replays, AfterReplay;
  }

  lemma InsertKeepsFast(c: Config, logs: Logs, shares: set<Share>, fast: set<FastCommit>, p: Replica, l: Local, from: Replica, v: View, i: Instance, b: Batch)
    requires Inserting(c, logs, l, p, from, v, i, b) && SlotsInv(c, logs, shares, fast, p, l) && FastInv(logs[p], fast, p, l)
    requires KeepsFast(c, l, p, i)
    ensures FastInv(logs[p], fast, p, Insert(c, Bump(l, from), from, v, i, b))
  {
    hide Pinned, Justified, Replays, AfterReplay, Prepared, Acked;
    var l' := Insert(c, Bump(l, from), from, v, i, b);
    forall f | f in fast && f.sender == p && !Pinned(logs[p], f.view, f.instance)
      ensures f.view == l'.peers[p].view && f.instance in l'.slots && p in l'.slots[f.instance].fast
    {
      assert SlotInv(c, logs, shares, fast, p, l.peers[p].view, f.instance, l.slots[f.instance]);
    }
  }

  /** A prepare the replica ignores can never become one it would accept. */
  lemma IgnoredPrepareKeeps(c: Config, logs: Logs, shares: set<Share>, p: Replica, l: Local, from: Replica, v: View, i: Instance, b: Batch)
    requires |logs| == c.n > 0 && p < c.n && (forall q :: 0 <= q < c.n ==> StreamInv(c, logs, shares, l, p, q))
    requires Delivering(c, logs, l, from, Prepare(v, i, b))
    requires !IsByzantinePrepare(c, Bump(l, from), from, v, i, b)
    requires v != l.peers[p].view || i < l.certified
    requires v != 0 && l.peers[from].valid.Some? ==> l.peers[from].valid.value.view == v
    ensures forall q :: 0 <= q < c.n ==> StreamInv(c, logs, shares, Bump(l, from), p, q)
  {
    var l' := Bump(l, from);
    assert StreamInv(c, logs, shares, l, p, from);
    assert OutOfReach(l, p, v, i) by {
      hide PeerInv, CertsInv, SeenInv, GoodNewView, Best;
    }
    hide ValidInv, CertsInv, SeenInv;
    ReachShrinks(p, l, l');
    PeerAdvances(c, logs, l, l', from);
    CertsAdvance(c, logs, shares, l, l', from);
    SeenAdvances(c, logs, l, l', p, from);
    ValidStays(c, logs, shares, l, l', p, from);
    Together(c, logs, shares, l', p, from);
    hide StreamInv;
    OtherStreamsStay(c, logs, shares, l, l', p, from);
  }

  /** Checkpoint and SealView drop slots only when the fast commits among them are pinned. */
  lemma OwnDropKeepsFast(c: Config, logs: Logs, shares: set<Share>, fast: set<FastCommit>, p: Replica, l: Local, m: Msg)
    requires Delivering(c, logs, l, p, m) && c.n > 0 && SlotsInv(c, logs, shares, fast, p, l) && FastInv(logs[p], fast, p, l)
    requires PeerInv(c, logs, l, p) && OwnGuard(p, l, m) && (m.Checkpoint? || m.SealView?)
    requires Handled(c, l, p, p, m).Some?
    ensures FastInv(logs[p], fast, p, Handled(c, l, p, p, m).value)
  {
    var l' := Handled(c, l, p, p, m).value;
    forall f | f in fast && f.sender == p && !Pinned(logs[p], f.view, f.instance)
      ensures f.view == l'.peers[p].view && f.instance in l'.slots && p in l'.slots[f.instance].fast
    {
      assert SlotInv(c, logs, shares, fast, p, l.peers[p].view, f.instance, l.slots[f.instance]);
      var at := l.peers[p].nextCb;
      FoldNext(logs[p], at);
      assert m.Checkpoint? ==> !Kept(Fold(logs[p][..at + 1]), f.view, f.instance);
    }
  }

  lemma OthersSame(c: Config, l: Local, p: Replica, from: Replica, m: Msg)
    requires Shaped(c, l) && p < c.n && from < c.n && !m.Prepare? && Handled(c, l, p, from, m).Some?
    ensures forall q :: 0 <= q < c.n && q != from ==> SamePeer(l, Handled(c, l, p, from, m).value, q)
  {
    hide Prune, Best;
  }

  lemma StreamOfSenderKeeps(c: Config, logs: Logs, shares: set<Share>, seals: set<SealShare>, p: Replica, l: Local, from: Replica, m: Msg)
    requires c.Valid() && |logs| == c.n > 0 && p < c.n && SealsInv(c, logs, shares, seals)
    requires Delivering(c, logs, l, from, m) && LocalGuard(c, logs, seals, p, l, from, m) && !m.Prepare?
    requires StreamInv(c, logs, shares, l, p, from)
    requires from == p ==> OwnGuard(p, l, m)
    requires Handled(c, l, p, from, m).Some?
    ensures var l' := Handled(c, l, p, from, m).value;
            Advances(p, l, l') && StreamInv(c, logs, shares, l', p, from)
  {
    hide StreamInv, SealsInv, StateValid;
    var l' := Handled(c, l, p, from, m).value;
    match m {
      case Malformed => MalformedKeeps(c, logs, shares, p, l, from);
      case Commit(cert) => CommitKeeps(c, logs, shares, p, l, from, cert);
      case Checkpoint(index, low) =>
        var l1 := HandleCheckpoint(c, Bump(l, from), from, index, low).value;
        CheckpointKeeps(c, logs, shares, p, l, from, index, low);
        StreamStays(c, logs, shares, l1, l', p, from);
      case SealView => SealViewKeeps(c, logs, shares, p, l, from);
      case NewView(v, states) =>
        NewViewGood(c, logs, shares, seals, v, states);
        NewViewKeeps(c, logs, shares, p, l, from, v, states);
    }
  }

  lemma OtherMessagesKeep(c: Config, logs: Logs, shares: set<Share>, seals: set<SealShare>, p: Replica, l: Local, from: Replica, m: Msg)
    requires c.Valid() && |logs| == c.n > 0 && p < c.n && SealsInv(c, logs, shares, seals)
    requires forall q :: 0 <= q < c.n ==> StreamInv(c, logs, shares, l, p, q)
    requires Delivering(c, logs, l, from, m) && LocalGuard(c, logs, seals, p, l, from, m) && !m.Prepare?
    requires from == p ==> OwnGuard(p, l, m)
    requires Handled(c, l, p, from, m).Some?
    ensures forall q :: 0 <= q < c.n ==> StreamInv(c, logs, shares, Handled(c, l, p, from, m).value, p, q)
  {
    hide StreamInv, SealsInv, LocalGuard, OwnGuard, SamePeer, HandleMsg, Advances;
    assert Shaped(c, Handled(c, l, p, from, m).value);
    StreamOfSenderKeeps(c, logs, shares, seals, p, l, from, m);
    OthersSame(c, l, p, from, m);
    OtherStreamsStay(c, logs, shares, l, Handled(c, l, p, from, m).value, p, from);
  }

  /** Handling adds a call, if any, to those under way, and keeps what they wait with in order. */
  lemma HandledCalls(c: Config, l: Local, p: Replica, from: Replica, m: Msg)
    requires Shaped(c, l) && p < c.n && from < c.n && Handled(c, l, p, from, m).Some?
    ensures var l' := Handled(c, l, p, from, m).value;
            && l.certified <= l'.certified && (AllCommitted(l, p) ==> AllCommitted(l', p))
            && (l'.frames == l.frames || (m.NewView? && |m.states| == c.Quorum() && l'.frames == l.frames + [Opening(from, m.newView, m.states)]))
  {
    hide Prune, Best, Batches, Replays, AfterReplay, Decrement, IsByzantinePrepare;
  }

  lemma HandledFrames(c: Config, logs: Logs, shares: set<Share>, l: Local, p: Replica, from: Replica, m: Msg)
    requires Shaped(c, l) && p < c.n && from < c.n && Handled(c, l, p, from, m).Some? && FramesInv(c, logs, shares, l, p)
    requires m.NewView? && |m.states| == c.Quorum() ==> GoodNewView(c, logs, shares, m.newView, m.states)
    ensures FramesInv(c, logs, shares, Handled(c, l, p, from, m).value, p)
  {
    HandledCalls(c, l, p, from, m);
    hide Handled, GoodNewView, AllCommitted;
    var l' := Handled(c, l, p, from, m).value;
    forall f | f in l'.frames ensures FrameOk(c, logs, shares, l', p, f) {
      if f in l.frames {
        assert FrameOk(c, logs, shares, l, p, f);
      }
    }
  }

  lemma HandledKeeps(c: Config, logs: Logs, shares: set<Share>, fast: set<FastCommit>, seals: set<SealShare>,
                     p: Replica, l: Local, from: Replica, m: Msg)
    requires c.Valid() && |logs| == c.n > 0 && p < c.n && CoreInv(c, logs, shares, fast, p, l)
    requires SharesInv(c, logs, shares) && SealsInv(c, logs, shares, seals)
    requires Delivering(c, logs, l, from, m) && LocalGuard(c, logs, seals, p, l, from, m)
    requires from == p ==> OwnGuard(p, l, m)
    requires Handled(c, l, p, from, m).Some?
    ensures CoreInv(c, logs, shares, fast, p, Handled(c, l, p, from, m).value)
  {
    var l' := Handled(c, l, p, from, m).value;
    if m.NewView? && |m.states| == c.Quorum() {
      NewViewGood(c, logs, shares, seals, m.newView, m.states);
    }
    HandledFrames(c, logs, shares, l, p, from, m);
    hide FramesInv;
    if m.Prepare? {
      PrepareKeeps(c, logs, shares, fast, seals, p, l, from, m.view, m.instance, m.batch);
    } else {
      OtherMessagesKeep(c, logs, shares, seals, p, l, from, m);
      if from == p && (m.Checkpoint? || m.SealView?) {
        assert StreamInv(c, logs, shares, l, p, p) && PeerInv(c, logs, l, p);
        OwnDropKeepsFast(c, logs, shares, fast, p, l, m);
      }
      hide StreamInv, SlotInv, Pinned;
    }
  }

  // ---------- Signing a sealed state ----------

  /** The state signed at a SealView is the one the stream determines, all of its commits certified. */
  lemma SealedStateGood(c: Config, logs: Logs, shares: set<Share>, p: Replica, l: Local, from: Replica)
    requires c.Valid() && |logs| == c.n > 0 && p < c.n && StreamInv(c, logs, shares, l, p, from)
    requires SharesInv(c, logs, shares) && Delivering(c, logs, l, from, SealView)
    requires l.pending[from] == multiset{}
    ensures StateGood(c, logs, shares, from, l.peers[from].view, l.peers[from].commits)
  {
    hide SharesInv, ValidInv, SeenInv, CertValid;
    var at := l.peers[from].nextCb;
    SealPosAt(logs[from], at);
    forall i | i in l.peers[from].commits
      ensures Acked(shares, l.peers[from].commits[i].view, i, l.peers[from].commits[i].batch)
    {
      var k := EntryFromCommit(logs[from][..at], i);
      assert logs[from][..at][k] == logs[from][k];
      CertifiedIsPrepared(c, logs, shares, logs[from][k].cert);
    }
  }

  // ---------- Steps of the whole system ----------

  ghost predicate OthersOk(c: Config, s: State, p: Replica)
    requires Sane(c, s)
  {
    forall q: Replica :: c.Correct(q) && q != p ==> LocalOk(c, s, q)
  }

  /** The locals of other replicas are as they were. */
  lemma OthersStay(c: Config, s: State, s': State, p: Replica)
    requires Sane(c, s) && Sane(c, s') && OthersOk(c, s, p)
    requires s'.logs == s.logs && s'.shares == s.shares && s'.fast == s.fast && s'.halted <= s.halted + {p} && s.halted <= s'.halted
    requires forall q :: 0 <= q < c.n && q != p ==> s'.locals[q] == s.locals[q]
    ensures OthersOk(c, s', p)
  {
    hide LocalInv, FastSafe;
    forall q: Replica | c.Correct(q) && q != p ensures LocalOk(c, s', q) {
      assert LocalOk(c, s, q);
    }
  }

  lemma SealsGrow(c: Config, s: State, p: Replica, from: Replica, m: Msg, seals: set<SealShare>)
    requires c.Valid() && Sane(c, s) && c.n > 0 && c.Correct(p) && from < c.n
    requires SharesInv(c, s.logs, s.shares) && SealsInv(c, s.logs, s.shares, s.seals)
    requires StreamInv(c, s.logs, s.shares, s.locals[p], p, from)
    requires Delivering(c, s.logs, s.locals[p], from, m)
    requires m.SealView? ==> s.locals[p].pending[from] == multiset{}
    requires seals == SealsAfter(s, p, from, m)
    ensures SealsInv(c, s.logs, s.shares, seals)
  {
    hide StreamInv, SharesInv, StateGood;
    if m.SealView? {
      SealedStateGood(c, s.logs, s.shares, p, s.locals[p], from);
    }
  }

  /** p handles the message at its cursor on the stream of `from`. */
  lemma HandleStep(c: Config, s: State, s': State, p: Replica, from: Replica, m: Msg)
    requires HistoryInv(c, s) && Runs(c, s, p) && from < c.n && OthersOk(c, s, p)
    requires CoreInv(c, s.logs, s.shares, s.fast, p, s.locals[p])
    requires Delivering(c, s.logs, s.locals[p], from, m) && LocalGuard(c, s.logs, s.seals, p, s.locals[p], from, m)
    requires from == p ==> OwnGuard(p, s.locals[p], m)
    requires Handled(c, s.locals[p], p, from, m).Some?
    requires s' == s.(locals := s.locals[p := Handled(c, s.locals[p], p, from, m).value], seals := SealsAfter(s, p, from, m))
    requires p < |s'.locals[p].peers| && s'.locals[p].peers[p].nextCb == |s.logs[p]|
    ensures Inv(c, s')
  {
    hide StreamInv, SlotsInv, FastInv, FramesInv, SharesInv, FastsInv, SealsInv, DecisionInv, Handled, OthersOk, OwnGuard;
    HandledKeeps(c, s.logs, s.shares, s.fast, s.seals, p, s.locals[p], from, m);
    assert StreamInv(c, s.logs, s.shares, s.locals[p], p, from);
    SealsGrow(c, s, p, from, m, s'.seals);
    hide CoreInv, LocalGuard, Delivering;
    assert Sane(c, s') by { CoreShaped(c, s.logs, s.shares, s.fast, p, s'.locals[p]); }
    OthersStay(c, s, s', p);
    Assemble(c, s', p);
  }

  lemma CoreShaped(c: Config, logs: Logs, shares: set<Share>, fast: set<FastCommit>, p: Replica, l: Local)
    requires |logs| == c.n && p < c.n && CoreInv(c, logs, shares, fast, p, l)
    ensures Shaped(c, l)
  {
    hide StreamInv, SlotsInv, FastInv, FramesInv;
  }

  lemma Assemble(c: Config, s: State, p: Replica)
    requires HistoryInv(c, s) && p < c.n && OthersOk(c, s, p) && LocalOk(c, s, p)
    ensures Inv(c, s)
  {
    hide HistoryInv, LocalOk;
  }

  lemma CursorAfter(c: Config, l: Local, p: Replica, from: Replica, m: Msg)
    requires Shaped(c, l) && p < c.n && from < c.n && Handled(c, l, p, from, m).Some?
    ensures var l' := Handled(c, l, p, from, m).value;
            Shaped(c, l') && l'.peers[p].nextCb == l.peers[p].nextCb + if from == p then 1 else 0
  {
    hide Prune, Best, Replays, AfterReplay, Evict;
  }

  lemma DeliverKeeps(c: Config, s: State, s': State, p: Replica, from: Replica)
    requires Inv(c, s) && Next(c, s, Deliver(p, from), s') && Guard(c, s, Deliver(p, from))
    ensures Inv(c, s')
  {
    hide Guard, Checked, LocalGuard;
    var l := s.locals[p];
    var m := s.logs[from][l.peers[from].nextCb];
    GuardedMessage(c, s, Deliver(p, from), p, from, m);
    hide HistoryInv, Handle, AboveCheckpoints, CoreInv, SealsAfter;
    assert LocalOk(c, s, p);
    CursorAfter(c, l, p, from, m);
    HandleStep(c, s, s', p, from, m);
  }

  /** Appending to one stream. */
  lemma AppendGrows(c: Config, s: State, s': State, q: Replica, m: Msg)
    requires Inv(c, s) && q < c.n && s' == s.(logs := s.logs[q := s.logs[q] + [m]])
    ensures HistoryInv(c, s') && OthersOk(c, s', q) && Grows(c, s.logs, s'.logs, s.shares, s'.shares)
  {
    hide LocalOk;
    assert Sane(c, s') && Grows(c, s.logs, s'.logs, s.shares, s'.shares);
    forall sh | sh in s.shares
      ensures c.Correct(sh.signer) && Prepared(c, s'.logs, sh.view, sh.instance) == Some(sh.batch)
      ensures Justified(c, s'.logs, s'.shares, sh.view, sh.instance, sh.batch)
    {
      SharesGrow(c, s.logs, s'.logs, s.shares, s'.shares, sh);
    }
    FastsGrow(c, s.logs, s'.logs, s.shares, s'.shares, s.fast);
    hide SharesInv, FastsInv, SealsInv, DecisionInv, Prepared, Justified;
    assert SharesInv(c, s'.logs, s'.shares) by { AllShares(c, s'.logs, s'.shares); }
    HistoryGrows(c, s, s');
    forall x: Replica | c.Correct(x) && x != q ensures LocalOk(c, s', x) {
      LocalGrows(c, s, s', x);
    }
  }

  lemma AllShares(c: Config, logs: Logs, shares: set<Share>)
    requires |logs| == c.n > 0
    requires forall sh :: sh in shares ==>
      && c.Correct(sh.signer)
      && Prepared(c, logs, sh.view, sh.instance) == Some(sh.batch)
      && Justified(c, logs, shares, sh.view, sh.instance, sh.batch)
    ensures SharesInv(c, logs, shares)
  {}

  lemma ByzantineKeeps(c: Config, s: State, s': State, q: Replica, m: Msg)
    requires Inv(c, s) && Next(c, s, Byzantine(q, m), s')
    ensures Inv(c, s')
  {
    hide HistoryInv, LocalOk;
    AppendGrows(c, s, s', q, m);
  }

  /** The omitted checks, made before the broadcast, hold when the own message is handled. */
  lemma OwnLocalGuard(c: Config, s: State, s1: State, p: Replica, m: Msg)
    requires Sane(c, s) && c.n > 0 && c.Correct(p) && StreamInv(c, s.logs, s.shares, s.locals[p], p, p)
    requires LocalGuard(c, s.logs, s.seals, p, s.locals[p], p, m) && Grows(c, s.logs, s1.logs, s.shares, s.shares) && s1.seals == s.seals
    ensures LocalGuard(c, s1.logs, s1.seals, p, s.locals[p], p, m)
  {
    hide PeerInv, CertsInv, SeenInv, GoodNewView, AboveCheckpoints, KeepsFast, Distinct, AllOfView, AllValid;
    if m.Prepare? && m.view != 0 && s.locals[p].peers[p].valid.Some? {
      AboveGrows(c, s.logs, s1.logs, s.shares, m.view, m.instance, s.locals[p].peers[p].valid.value.states);
    }
  }

  /** The call returns. */
  lemma PoppedOk(c: Config, logs: Logs, shares: set<Share>, fast: set<FastCommit>, p: Replica, l: Local)
    requires |logs| == c.n > 0 && p < c.n && CoreInv(c, logs, shares, fast, p, l) && !Idle(l)
    ensures CoreInv(c, logs, shares, fast, p, Popped(l)) && FrameOk(c, logs, shares, l, p, Top(l))
    ensures Top(l).Waiting? ==> OwnGuard(p, Popped(l), Top(l).m)
  {
    hide SlotInv, Pinned, GoodNewView;
    var l' := Popped(l);
    assert Top(l) in l.frames;
    assert Advances(p, l, l');
    FramesSubset(c, logs, shares, l, l', p);
    hide StreamInv, FramesInv;
    OtherStreamsStay(c, logs, shares, l, l', p, c.n);
  }

  lemma FramesSubset(c: Config, logs: Logs, shares: set<Share>, l: Local, l': Local, p: Replica)
    requires FramesInv(c, logs, shares, l, p) && l.certified <= l'.certified && (AllCommitted(l, p) ==> AllCommitted(l', p))
    requires forall f :: f in l'.frames ==> f in l.frames
    ensures FramesInv(c, logs, shares, l', p)
  {
    hide GoodNewView, AllCommitted;
    forall f | f in l'.frames ensures FrameOk(c, logs, shares, l', p, f) {
      assert FrameOk(c, logs, shares, l, p, f);
    }
  }

  lemma PoppedGuard(c: Config, logs: Logs, seals: set<SealShare>, p: Replica, l: Local, m: Msg)
    requires Shaped(c, l) && p < c.n && !Idle(l) && LocalGuard(c, logs, seals, p, l, p, m)
    ensures LocalGuard(c, logs, seals, p, Popped(l), p, m)
  {
    hide AboveCheckpoints, Distinct, AllOfView, AllValid;
  }

  lemma BeginKeeps(c: Config, s: State, s': State, p: Replica, m: Msg)
    requires Inv(c, s) && Next(c, s, Begin(p, m), s')
    ensures Inv(c, s')
  {
    hide SharesInv, FastsInv, SealsInv, DecisionInv, SlotInv, StreamInv, Pinned, CertValid, GoodNewView;
    assert LocalOk(c, s, p);
    var l, l' := s.locals[p], s'.locals[p];
    OtherStreamsStay(c, s.logs, s.shares, l, l', p, c.n);
    forall f | f in l'.frames ensures FrameOk(c, s.logs, s.shares, l', p, f) {
      if f in l.frames {
        assert FrameOk(c, s.logs, s.shares, l, p, f);
      }
    }
    assert LocalOk(c, s', p);
    hide LocalOk;
    OthersStay(c, s, s', p);
    Assemble(c, s', p);
  }

  /** The handler of a NewView ends. */
  lemma OpenKeeps(c: Config, s: State, s': State, p: Replica)
    requires Inv(c, s) && Next(c, s, Open(p), s')
    ensures Inv(c, s')
  {
    assert LocalOk(c, s, p);
    var f, l := Top(s.locals[p]), Popped(s.locals[p]);
    PoppedOk(c, s.logs, s.shares, s.fast, p, s.locals[p]);
    hide SharesInv, FastsInv, SealsInv, DecisionInv, GoodNewView, StreamInv;
    OpenedKeeps(c, s.logs, s.shares, p, l, f.from, f.view, f.states);
    OpenedCore(c, s.logs, s.shares, s.fast, p, l, f);
    hide CoreInv, Opened;
    assert LocalOk(c, s', p);
    hide LocalOk;
    OthersStay(c, s, s', p);
    Assemble(c, s', p);
  }

  lemma OpenedCore(c: Config, logs: Logs, shares: set<Share>, fast: set<FastCommit>, p: Replica, l: Local, f: Frame)
    requires |logs| == c.n > 0 && p < c.n && CoreInv(c, logs, shares, fast, p, l) && f.Opening? && f.from < c.n
    requires StreamInv(c, logs, shares, Opened(c, l, f.from, f.view, f.states), p, f.from) && Advances(p, l, Opened(c, l, f.from, f.view, f.states))
    ensures CoreInv(c, logs, shares, fast, p, Opened(c, l, f.from, f.view, f.states))
    ensures Opened(c, l, f.from, f.view, f.states).peers[p].nextCb == l.peers[p].nextCb
  {
    hide SlotInv, Pinned, Best, Batches, StreamInv;
    var l' := Opened(c, l, f.from, f.view, f.states);
    FramesSubset(c, logs, shares, l, l', p);
    hide FramesInv;
    OtherStreamsStay(c, logs, shares, l, l', p, f.from);
  }

  /** A replica that throws on its own message leaves one more message in its stream. */
  lemma HaltedSafe(c: Config, logs: Logs, shares: set<Share>, fast: set<FastCommit>, p: Replica, l: Local, m: Msg)
    requires |logs| == c.n > 0 && p < c.n && LocalInv(c, logs, shares, fast, p, l) && OwnGuard(p, l, m)
    ensures FastSafe(logs[p] + [m], fast, p)
  {
    hide Justified, Prepared, SlotInv, FramesInv;
    var log, log' := logs[p], logs[p] + [m];
    assert log'[..|log|] == log && log[..|log|] == log;
    assert StreamInv(c, logs, shares, l, p, p);
    forall f | f in fast && f.sender == p && SealPos(log', f.view).Some? ensures Pinned(log', f.view, f.instance) {
      if !Pinned(log, f.view, f.instance) {
        NotSealed(log, f.view);
        assert m.SealView?;
        assert SlotInv(c, logs, shares, fast, p, l.peers[p].view, f.instance, l.slots[f.instance]);
        SlowPinned(c, logs, shares, fast, p, l.peers[p].view, f.instance, l.slots[f.instance]);
      }
      PinnedPrefix(log, log', f.view, f.instance);
    }
  }

  lemma SlowPinned(c: Config, logs: Logs, shares: set<Share>, fast: set<FastCommit>, p: Replica, v: View, i: Instance, slot: Slot)
    requires |logs| == c.n > 0 && p < c.n && SlotInv(c, logs, shares, fast, p, v, i, slot) && p in slot.slow
    ensures Pinned(logs[p], v, i)
  {
    hide Justified, Prepared;
  }

  lemma NotSealed(log: seq<Msg>, v: View)
    requires Fold(log).view == v
    ensures SealPos(log, v).None?
  {
    assert log[..|log|] == log;
    if SealPos(log, v).Some? {
      var at := SealPosBound(log, v);
      FoldNext(log, at);
      ViewsGrow(log, at + 1, |log|);
    }
  }

  lemma HaltKeeps(c: Config, s: State, s': State, p: Replica, m: Msg)
    requires Inv(c, s) && Next(c, s, Halt(p, m), s')
    ensures Inv(c, s')
  {
    assert LocalOk(c, s, p);
    PoppedOk(c, s.logs, s.shares, s.fast, p, s.locals[p]);
    hide Handle, CoreInv, GoodNewView;
    HaltedSafe(c, s.logs, s.shares, s.fast, p, s.locals[p], m);
    var s1 := s.(logs := s.logs[p := s.logs[p] + [m]]);
    AppendGrows(c, s, s1, p, m);
    hide HistoryInv, LocalInv, FastSafe, Grows, OthersOk;
    assert HistoryInv(c, s') by { HistorySame(c, s1, s'); }
    OthersStay(c, s1, s', p);
    assert LocalOk(c, s', p);
    hide LocalOk;
    Assemble(c, s', p);
  }

  lemma HistorySame(c: Config, s: State, s': State)
    requires HistoryInv(c, s) && s' == s.(halted := s'.halted)
    ensures HistoryInv(c, s')
  {
    hide SharesInv, FastsInv, SealsInv, DecisionInv;
  }

  lemma BroadcastKeeps(c: Config, s: State, s': State, p: Replica, m: Msg)
    requires Inv(c, s) && Next(c, s, Broadcast(p, m), s') && Guard(c, s, Broadcast(p, m))
    ensures Inv(c, s')
  {
    hide Handle, AboveCheckpoints, AfterBroadcast, Guard, LocalGuard, StreamInv, SlotsInv, FastInv, FramesInv, SharesInv, FastsInv, SealsInv, DecisionInv;
    var l, l0 := s.locals[p], Popped(s.locals[p]);
    var logs1 := s.logs[p := s.logs[p] + [m]];
    assert LocalOk(c, s, p);
    assert StreamInv(c, s.logs, s.shares, l, p, p);
    AppendGrows(c, s, s.(logs := logs1), p, m);
    GuardedMessage(c, s, Broadcast(p, m), p, p, m);
    OwnLocalGuard(c, s, s.(logs := logs1), p, m);
    PoppedGuard(c, logs1, s.seals, p, l, m);
    CoreGrows(c, s.logs, logs1, s.shares, s.shares, s.fast, s.fast, p, l);
    PoppedOk(c, logs1, s.shares, s.fast, p, l);
    CursorAfter(c, l0, p, p, m);
    hide CoreInv, FrameOk, OwnGuard, Grows, LocalInv;
    BroadcastStep(c, s, s', p, m);
  }

  lemma BroadcastStep(c: Config, s: State, s': State, p: Replica, m: Msg)
    requires c.n > 0 && Sane(c, s) && Next(c, s, Broadcast(p, m), s') && s.locals[p].peers[p].nextCb == |s.logs[p]|
    requires var s1 := s.(logs := s.logs[p := s.logs[p] + [m]]);
             && HistoryInv(c, s1) && OthersOk(c, s1, p)
             && CoreInv(c, s1.logs, s1.shares, s1.fast, p, Popped(s.locals[p])) && LocalGuard(c, s1.logs, s1.seals, p, Popped(s.locals[p]), p, m)
    requires OwnGuard(p, Popped(s.locals[p]), m)
    requires p < |s'.locals[p].peers| && s'.locals[p].peers[p].nextCb == |s.logs[p]| + 1
    ensures Inv(c, s')
  {
    hide Handle, HistoryInv, CoreInv, LocalGuard, OwnGuard, LocalOk, AfterBroadcast;
    var s1 := s.(logs := s.logs[p := s.logs[p] + [m]]);
    var s2 := s1.(locals := s1.locals[p := Popped(s.locals[p])]);
    assert HistoryInv(c, s2) by { HistoryLocals(c, s1, s2); }
    assert OthersOk(c, s2, p) by { OthersStay(c, s1, s2, p); }
    hide OthersOk;
    HandleStep(c, s2, s', p, p, m);
  }

  lemma HistoryLocals(c: Config, s: State, s': State)
    requires HistoryInv(c, s) && s' == s.(locals := s'.locals) && Sane(c, s')
    ensures HistoryInv(c, s')
  {
    hide SharesInv, FastsInv, SealsInv, DecisionInv;
  }
}
