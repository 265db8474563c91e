/** Steps that sign, fast-commit, count votes and decide keep the invariant. */
module ConsensusVotes {
  import opened Options
  import opened ConsensusLog
  import opened ConsensusProtocol
  import opened ConsensusInvariant
  import opened ConsensusHandlers
  import opened ConsensusGrowth
  import opened ConsensusSteps
  import opened Quorums

  /** A change of one slot leaves the streams as they are. */
  lemma StreamsStay(c: Config, logs: Logs, shares: set<Share>, l: Local, l': Local, p: Replica)
    requires |logs| == c.n && Shaped(c, l) && Shaped(c, l') && p < c.n
    requires forall q :: 0 <= q < c.n ==> StreamInv(c, logs, shares, l, p, q)
    requires forall q :: 0 <= q < c.n ==> SamePeer(l, l', q)
    requires Advances(p, l, l')
    ensures forall q :: 0 <= q < c.n ==> StreamInv(c, logs, shares, l', p, q)
  {
    hide StreamInv, SamePeer, Advances;
    forall q: nat | q < c.n ensures StreamInv(c, logs, shares, l', p, q) {
      StreamStays(c, logs, shares, l, l', p, q);
    }
  }

  /** Replacing the slot of one instance by one that satisfies its invariant. */
  lemma SlotReplaced(c: Config, logs: Logs, shares: set<Share>, fast: set<FastCommit>, p: Replica, l: Local, l': Local, i: Instance, slot: Slot)
    requires |logs| == c.n > 0 && p < c.n && LocalInv(c, logs, shares, fast, p, l) && i in l.slots && Shaped(c, l')
    requires l'.slots == l.slots[i := slot] && l.slots[i].fast <= slot.fast && l'.certified == l.certified
    requires l'.frames == l.frames && (p in slot.fast ==> p in l.slots[i].fast) && l.slots[i].slow <= slot.slow
    requires forall q :: 0 <= q < c.n ==> SamePeer(l, l', q)
    requires SlotInv(c, logs, shares, fast, p, l.peers[p].view, i, slot)
    ensures LocalInv(c, logs, shares, fast, p, l')
  {
    hide StreamInv, SlotInv, Pinned;
    assert SamePeer(l, l', p);
    FramesSubset(c, logs, shares, l, l', p);
    hide FramesInv;
    StreamsStay(c, logs, shares, l, l', p);
  }

  lemma SlotStep(c: Config, s: State, s': State, p: Replica, i: Instance, slot: Slot)
    requires HistoryInv(c, s) && HistoryInv(c, s') && Runs(c, s, p) && OthersOk(c, s, p) && LocalOk(c, s, p)
    requires s'.logs == s.logs && s'.shares == s.shares && s'.fast == s.fast && s'.halted == s.halted && i in s.locals[p].slots
    requires var l, l' := s.locals[p], s'.locals[p];
             && l'.slots == l.slots[i := slot] && l.slots[i].fast <= slot.fast && l'.certified == l.certified
             && l'.frames == l.frames && (p in slot.fast ==> p in l.slots[i].fast) && l.slots[i].slow <= slot.slow
             && (forall q :: 0 <= q < c.n ==> SamePeer(l, l', q))
             && SlotInv(c, s.logs, s.shares, s.fast, p, l.peers[p].view, i, slot)
    requires forall q :: 0 <= q < c.n && q != p ==> s'.locals[q] == s.locals[q]
    ensures Inv(c, s')
  {
    hide SlotInv, LocalInv, SharesInv, FastsInv, SealsInv, DecisionInv, OthersOk, SamePeer;
    SlotReplaced(c, s.logs, s.shares, s.fast, p, s.locals[p], s'.locals[p], i, slot);
    OthersStay(c, s, s', p);
    Assemble(c, s', p);
  }

  lemma CertifyKeeps(c: Config, s: State, s': State, p: Replica, i: Instance)
    requires Inv(c, s) && Next(c, s, Certify(p, i), s')
    ensures Inv(c, s')
  {
    hide LocalInv, Prepared, Justified;
    var slot := s.locals[p].slots[i];
    var s1 := s.(shares := s'.shares);
    assert LocalOk(c, s, p);
    LocalSlot(c, s, p, i);
    assert Grows(c, s.logs, s1.logs, s.shares, s1.shares);
    SlotGrows(c, s.logs, s1.logs, s.shares, s1.shares, s.fast, s1.fast, p, s.locals[p].peers[p].view, i, slot);
    forall sh | sh in s1.shares
      ensures c.Correct(sh.signer) && Prepared(c, s1.logs, sh.view, sh.instance) == Some(sh.batch)
      ensures Justified(c, s1.logs, s1.shares, sh.view, sh.instance, sh.batch)
    {
      if sh in s.shares {
        SharesGrow(c, s.logs, s1.logs, s.shares, s1.shares, sh);
      }
    }
    FastsGrow(c, s.logs, s1.logs, s.shares, s1.shares, s.fast);
    hide FastsInv, SealsInv, DecisionInv;
    HistoryGrows(c, s, s1);
    forall x: Replica | c.Correct(x) ensures LocalOk(c, s1, x) {
      LocalGrows(c, s, s1, x);
    }
    hide SharesInv, Grows, LocalOk;
    SlotStep(c, s1, s', p, i, slot.(certified := true));
  }

  lemma LocalSlot(c: Config, s: State, p: Replica, i: Instance)
    requires Sane(c, s) && c.n > 0 && p < c.n && p !in s.halted && LocalOk(c, s, p) && i in s.locals[p].slots
    ensures SlotInv(c, s.logs, s.shares, s.fast, p, s.locals[p].peers[p].view, i, s.locals[p].slots[i])
  {
    hide StreamInv, SlotInv, FastInv;
  }

  /** A fast commit of p, sent while its slot is marked. */
  lemma FastSent(c: Config, s: State, s1: State, p: Replica, i: Instance, slot: Slot)
    requires HistoryInv(c, s) && Runs(c, s, p) && LocalOk(c, s, p) && i in s.locals[p].slots && slot == s.locals[p].slots[i]
    requires slot.certified && Idle(s.locals[p])
    requires s1 == s.(locals := s.locals[p := s.locals[p].(slots := s.locals[p].slots[i := slot.(fast := slot.fast + {p})])],
                      fast := s.fast + {FastCommit(p, slot.view, i)})
    ensures FastsInv(c, s1.logs, s1.shares, s1.fast) && LocalOk(c, s1, p)
  {
    hide StreamInv, Prepared, Justified, Pinned;
    var l, l1 := s.locals[p], s1.locals[p];
    var v := l.peers[p].view;
    LocalSlot(c, s, p, i);
    assert Share(p, v, i, slot.batch) in s.shares;
    StreamsStay(c, s.logs, s.shares, l, l1, p);
    forall k | k in l1.slots ensures SlotInv(c, s1.logs, s1.shares, s1.fast, p, v, k, l1.slots[k]) {
      LocalSlot(c, s, p, k);
    }
  }

  lemma SendFastKeeps(c: Config, s: State, s': State, p: Replica, i: Instance)
    requires Inv(c, s) && Next(c, s, SendFast(p, i), s')
    ensures Inv(c, s')
  {
    hide LocalInv, SharesInv, FastsInv, SealsInv, DecisionInv;
    assert LocalOk(c, s, p);
    assert Sane(c, s') && Grows(c, s.logs, s'.logs, s.shares, s'.shares);
    FastSent(c, s, s', p, i, s.locals[p].slots[i]);
    hide LocalOk;
    HistoryGrows(c, s, s');
    forall x: Replica | c.Correct(x) && x != p ensures LocalOk(c, s', x) {
      LocalGrows(c, s, s', x);
    }
  }

  lemma RecvFastKeeps(c: Config, s: State, s': State, p: Replica, from: Replica, v: View, i: Instance)
    requires Inv(c, s) && Next(c, s, RecvFast(p, from, v, i), s') && Guard(c, s, RecvFast(p, from, v, i))
    ensures Inv(c, s')
  {
    hide LocalInv, SharesInv, FastsInv, SealsInv, DecisionInv, Prepared, Justified;
    assert Passes(FastView, c, s, RecvFast(p, from, v, i));
    hide Guard;
    assert LocalOk(c, s, p);
    if i in s.locals[p].slots {
      var slot := s.locals[p].slots[i];
      LocalSlot(c, s, p, i);
      hide LocalOk;
      SlotStep(c, s, s', p, i, slot.(fast := slot.fast + {from}));
    } else {
      assert s' == s;
    }
  }

  /** A verified certificate is counted for the slot it certifies. */
  lemma CountedSlot(c: Config, s: State, p: Replica, from: Replica, cert: Cert)
    requires HistoryInv(c, s) && Runs(c, s, p) && LocalOk(c, s, p) && from < c.n && cert in s.locals[p].pending[from]
    requires CertValid(c, s.shares, cert) && cert.instance in s.locals[p].slots
    requires s.locals[p].slots[cert.instance].view == cert.view
    ensures var slot := s.locals[p].slots[cert.instance];
            SlotInv(c, s.logs, s.shares, s.fast, p, s.locals[p].peers[p].view, cert.instance, slot.(slow := slot.slow + {from}))
  {
    hide FastsInv, SealsInv, DecisionInv, Prepared, Justified, Pinned;
    LocalSlot(c, s, p, cert.instance);
    assert StreamInv(c, s.logs, s.shares, s.locals[p], p, from);
    assert CertsInv(c, s.logs, s.shares, s.locals[p], from);
    CertifiedIsPrepared(c, s.logs, s.shares, cert);
  }

  /** Taking a certificate out of verification, once valid, leaves the streams as they are. */
  lemma VerifiedStreams(c: Config, s: State, p: Replica, from: Replica, cert: Cert)
    requires HistoryInv(c, s) && Runs(c, s, p) && LocalOk(c, s, p) && from < c.n && cert in s.locals[p].pending[from]
    requires CertValid(c, s.shares, cert) && HandleVerified(c, s.locals[p], from, cert).Some?
    ensures var l' := HandleVerified(c, s.locals[p], from, cert).value;
            Advances(p, s.locals[p], l') && forall q :: 0 <= q < c.n ==> StreamInv(c, s.logs, s.shares, l', p, q)
  {
    hide SharesInv, FastsInv, SealsInv, DecisionInv, SlotsInv, FastInv, Pinned, CertValid;
    var l := s.locals[p];
    var l' := HandleVerified(c, l, from, cert).value;
    assert StreamInv(c, s.logs, s.shares, l, p, from);
    assert CertsInv(c, s.logs, s.shares, l', from);
    assert PeerInv(c, s.logs, l', from);
    ReachShrinks(p, l, l');
    assert SeenInv(c, s.logs, l', p, from);
    ValidStays(c, s.logs, s.shares, l, l', p, from);
    hide PeerInv, CertsInv, SeenInv, ValidInv;
    Together(c, s.logs, s.shares, l', p, from);
    hide StreamInv;
    OtherStreamsStay(c, s.logs, s.shares, l, l', p, from);
  }

  lemma VerifiedKeeps(c: Config, s: State, s': State, p: Replica, from: Replica, cert: Cert)
    requires Inv(c, s) && Next(c, s, Verified(p, from, cert), s') && Guard(c, s, Verified(p, from, cert))
    ensures Inv(c, s')
  {
    hide CertChecked, CertValid;
    assert Passes(CommitCertificate, c, s, Verified(p, from, cert)) && Passes(CommitView, c, s, Verified(p, from, cert));
    hide Guard;
    assert LocalOk(c, s, p);
    VerifiedStreams(c, s, p, from, cert);
    if cert.instance in s.locals[p].slots {
      CountedSlot(c, s, p, from, cert);
    }
    VerifiedSlots(c, s, p, from, cert);
    hide StreamInv, SlotsInv, FastInv, SharesInv, FastsInv, SealsInv, DecisionInv, SlotInv, CertValid;
    assert LocalInv(c, s.logs, s.shares, s.fast, p, s'.locals[p]);
    hide LocalInv;
    assert Sane(c, s');
    OthersStay(c, s, s', p);
    Assemble(c, s', p);
  }

  lemma VerifiedSlots(c: Config, s: State, p: Replica, from: Replica, cert: Cert)
    requires HistoryInv(c, s) && Runs(c, s, p) && LocalOk(c, s, p) && from < c.n && cert in s.locals[p].pending[from]
    requires HandleVerified(c, s.locals[p], from, cert).Some?
    requires cert.instance in s.locals[p].slots ==>
               var slot := s.locals[p].slots[cert.instance];
               SlotInv(c, s.logs, s.shares, s.fast, p, s.locals[p].peers[p].view, cert.instance, slot.(slow := slot.slow + {from}))
    ensures var l' := HandleVerified(c, s.locals[p], from, cert).value;
            && SlotsInv(c, s.logs, s.shares, s.fast, p, l') && FastInv(s.logs[p], s.fast, p, l')
            && l'.peers[p].nextCb == s.locals[p].peers[p].nextCb
  {
    hide SharesInv, FastsInv, SealsInv, DecisionInv, StreamInv, Pinned, SlotInv;
  }

  lemma SignCheckpointKeeps(c: Config, s: State, s': State, p: Replica, low: Instance)
    requires Inv(c, s) && Next(c, s, SignCheckpoint(p, low), s')
    ensures Inv(c, s')
  {
    hide SharesInv, FastsInv, SealsInv, DecisionInv, LocalInv;
    forall q: Replica | c.Correct(q) ensures LocalOk(c, s', q) {
      assert LocalOk(c, s, q);
    }
  }

  lemma AdoptKeeps(c: Config, s: State, s': State, p: Replica, low: Instance)
    requires Inv(c, s) && Next(c, s, AdoptCheckpoint(p, low), s')
    ensures Inv(c, s')
  {
    hide SharesInv, FastsInv, SealsInv, DecisionInv, SlotInv, StreamInv, Pinned;
    assert LocalOk(c, s, p);
    StreamsStay(c, s.logs, s.shares, s.locals[p], s'.locals[p], p);
    assert LocalOk(c, s', p);
    hide LocalOk;
    OthersStay(c, s, s', p);
    Assemble(c, s', p);
  }

  /** A full set of fast commits, or a quorum of counted commits, stands behind a decision. */
  lemma DecisionBacked(c: Config, s: State, p: Replica)
    requires HistoryInv(c, s) && Runs(c, s, p) && LocalOk(c, s, p)
    requires var l := s.locals[p]; l.nextToDecide in l.slots && Decidable(c, l.slots[l.nextToDecide])
    ensures var slot := s.locals[p].slots[s.locals[p].nextToDecide];
            var isFast := |slot.fast| == c.n;
            DecisionInv(c, s.logs, s.shares, s.fast,
                        Decision(p, s.locals[p].nextToDecide, slot.batch, slot.view, isFast, if isFast then slot.fast else slot.slow))
  {
    hide SharesInv, SealsInv, DecisionInv, Prepared, Justified, Pinned;
    var l := s.locals[p];
    var i := l.nextToDecide;
    var slot := l.slots[i];
    LocalSlot(c, s, p, i);
    hide LocalOk;
    var isFast := |slot.fast| == c.n;
    GroupSize(c.n);
    if isFast {
      SubsetSize(slot.fast, Group(c.n));
      assert FastCommit(p, slot.view, i) in s.fast;
    } else {
      assert slot.slow != {};
    }
    MakeDecision(c, s, Decision(p, i, slot.batch, slot.view, isFast, if isFast then slot.fast else slot.slow));
  }

  lemma MakeDecision(c: Config, s: State, d: Decision)
    requires |s.logs| == c.n > 0 && c.Correct(d.replica) && d.voters <= Group(c.n)
    requires Prepared(c, s.logs, d.view, d.instance) == Some(d.batch) && Acked(s.shares, d.view, d.instance, d.batch)
    requires !d.fast ==> |d.voters| >= c.Quorum() && forall r :: r in d.voters ==> Pinned(s.logs[r], d.view, d.instance)
    requires d.fast ==> forall r: Replica :: c.Correct(r) ==> FastCommit(r, d.view, d.instance) in s.fast
    ensures DecisionInv(c, s.logs, s.shares, s.fast, d)
  {}

  lemma DecidedSlot(c: Config, s: State, p: Replica, v: View, i: Instance, slot: Slot)
    requires |s.logs| == c.n > 0 && SlotInv(c, s.logs, s.shares, s.fast, p, v, i, slot)
    ensures SlotInv(c, s.logs, s.shares, s.fast, p, v, i, slot.(decided := true))
  {
    hide Prepared, Justified, Pinned;
  }

  lemma DecideKeeps(c: Config, s: State, s': State, p: Replica)
    requires Inv(c, s) && Next(c, s, Decide(p), s')
    ensures Inv(c, s')
  {
    hide LocalOk, SharesInv, FastsInv, SealsInv, DecisionInv, SlotInv;
    var i := s.locals[p].nextToDecide;
    assert LocalOk(c, s, p);
    DecisionBacked(c, s, p);
    LocalSlot(c, s, p, i);
    DecidedSlot(c, s, p, s.locals[p].peers[p].view, i, s.locals[p].slots[i]);
    SlotStep(c, s, s', p, i, s.locals[p].slots[i].(decided := true));
  }
}
