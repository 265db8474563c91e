/** What the invariant says of streams and signatures survives their growth. */
module ConsensusGrowth {
  import opened Options
  import opened ConsensusLog
  import opened ConsensusProtocol
  import opened ConsensusInvariant

  ghost predicate Grows(c: Config, logs: Logs, logs': Logs, shares: set<Share>, shares': set<Share>) {
    && |logs| == c.n && |logs'| == c.n > 0
    && (forall q :: 0 <= q < c.n ==> logs[q] <= logs'[q])
    && shares <= shares'
  }

  lemma PreparedGrows(c: Config, logs: Logs, logs': Logs, shares: set<Share>, shares': set<Share>, v: View, i: Instance)
    requires Grows(c, logs, logs', shares, shares') && Prepared(c, logs, v, i).Some?
    ensures Prepared(c, logs', v, i) == Prepared(c, logs, v, i)
  {
    var q := c.Leader(v);
    assert logs'[q][..|logs[q]|] == logs[q];
    FirstPrefix(logs'[q], |logs[q]|, v, i);
  }

  lemma SealGrows(log: seq<Msg>, log': seq<Msg>, v: View)
    requires log <= log' && SealPos(log, v).Some?
    ensures SealPos(log', v) == SealPos(log, v)
    ensures var at := SealPosBound(log, v); at == SealPosBound(log', v) && log'[..at] == log[..at]
  {
    assert log'[..|log|] == log;
    SealPosPrefix(log', |log|, v);
  }

  lemma StateGoodGrows(c: Config, logs: Logs, logs': Logs, shares: set<Share>, shares': set<Share>, r: Replica, v: View, commits: map<Instance, Entry>)
    requires Grows(c, logs, logs', shares, shares') && StateGood(c, logs, shares, r, v, commits)
    ensures StateGood(c, logs', shares', r, v, commits)
  {
    hide Fold, Accepted, SealPos;
    SealGrows(logs[r], logs'[r], v);
  }

  lemma ObeysGrows(c: Config, logs: Logs, logs': Logs, shares: set<Share>, shares': set<Share>, v: View, i: Instance, b: Batch, states: seq<VcState>)
    requires Grows(c, logs, logs', shares, shares') && Obeys(c, logs, shares, v, i, b, states)
    ensures Obeys(c, logs', shares', v, i, b, states)
  {
    hide Fold, Accepted, SealPos, Best, Acked;
    NewViewGrows(c, logs, logs', shares, shares', v, states);
    forall k | 0 <= k < |states|
      ensures var log := logs'[states[k].replica];
              SealPos(log, v - 1).Some? && Fold(log[..SealPosBound(log, v - 1)]).low <= i
    {
      assert StateGood(c, logs, shares, states[k].replica, v - 1, states[k].commits);
      SealGrows(logs[states[k].replica], logs'[states[k].replica], v - 1);
    }
  }

  lemma NewViewGrows(c: Config, logs: Logs, logs': Logs, shares: set<Share>, shares': set<Share>, v: View, states: seq<VcState>)
    requires Grows(c, logs, logs', shares, shares') && GoodNewView(c, logs, shares, v, states)
    ensures GoodNewView(c, logs', shares', v, states)
  {
    hide StateGood;
    forall k | 0 <= k < |states| ensures StateGood(c, logs', shares', states[k].replica, v - 1, states[k].commits) {
      StateGoodGrows(c, logs, logs', shares, shares', states[k].replica, v - 1, states[k].commits);
    }
  }

  lemma JustifiedGrows(c: Config, logs: Logs, logs': Logs, shares: set<Share>, shares': set<Share>, v: View, i: Instance, b: Batch)
    requires Grows(c, logs, logs', shares, shares') && Justified(c, logs, shares, v, i, b)
    ensures Justified(c, logs', shares', v, i, b)
  {
    hide Obeys;
    if v != 0 {
      var states :| Obeys(c, logs, shares, v, i, b, states);
      ObeysGrows(c, logs, logs', shares, shares', v, i, b, states);
    }
  }

  lemma StreamGrows(c: Config, logs: Logs, logs': Logs, shares: set<Share>, shares': set<Share>, l: Local, p: Replica, q: Replica)
    requires Grows(c, logs, logs', shares, shares') && StreamInv(c, logs, shares, l, p, q)
    ensures StreamInv(c, logs', shares', l, p, q)
  {
    hide Fold, Accepted, First, GoodNewView, Best, Pinned;
    assert logs'[q][..l.peers[q].nextCb] == logs[q][..l.peers[q].nextCb];
    forall v, i | Pinned(logs[q], v, i) ensures Pinned(logs'[q], v, i) {
      PinnedPrefix(logs[q], logs'[q], v, i);
    }
    assert CertsInv(c, logs', shares', l, q);
    if l.peers[q].valid.Some? {
      var nv := l.peers[q].valid.value;
      NewViewGrows(c, logs, logs', shares, shares', nv.view, nv.states);
    }
  }

  lemma SlotGrows(c: Config, logs: Logs, logs': Logs, shares: set<Share>, shares': set<Share>, fast: set<FastCommit>, fast': set<FastCommit>,
                  p: Replica, v: View, i: Instance, slot: Slot)
    requires Grows(c, logs, logs', shares, shares') && fast <= fast' && SlotInv(c, logs, shares, fast, p, v, i, slot)
    ensures SlotInv(c, logs', shares', fast', p, v, i, slot)
  {
    hide Prepared, Justified, Pinned;
    PreparedGrows(c, logs, logs', shares, shares', v, i);
    JustifiedGrows(c, logs, logs', shares, shares', v, i, slot.batch);
    forall r | r in slot.slow ensures Pinned(logs'[r], v, i) {
      PinnedPrefix(logs[r], logs'[r], v, i);
    }
  }

  lemma FramesGrow(c: Config, logs: Logs, logs': Logs, shares: set<Share>, shares': set<Share>, l: Local, p: Replica)
    requires Grows(c, logs, logs', shares, shares') && FramesInv(c, logs, shares, l, p)
    ensures FramesInv(c, logs', shares', l, p)
  {
    hide GoodNewView;
    forall f | f in l.frames ensures FrameOk(c, logs', shares', l, p, f) {
      assert FrameOk(c, logs, shares, l, p, f);
      if f.Opening? {
        NewViewGrows(c, logs, logs', shares, shares', f.view, f.states);
      }
    }
  }

  lemma CoreGrows(c: Config, logs: Logs, logs': Logs, shares: set<Share>, shares': set<Share>, fast: set<FastCommit>, fast': set<FastCommit>,
                  p: Replica, l: Local)
    requires Grows(c, logs, logs', shares, shares') && fast <= fast' && (forall f :: f in fast' && f.sender == p ==> f in fast)
    requires p < c.n && CoreInv(c, logs, shares, fast, p, l)
    ensures CoreInv(c, logs', shares', fast', p, l)
  {
    hide StreamInv, SlotInv, Pinned, FramesInv;
    FramesGrow(c, logs, logs', shares, shares', l, p);
    forall q: nat | q < c.n ensures StreamInv(c, logs', shares', l, p, q) {
      StreamGrows(c, logs, logs', shares, shares', l, p, q);
    }
    forall i | i in l.slots ensures SlotInv(c, logs', shares', fast', p, l.peers[p].view, i, l.slots[i]) {
      SlotGrows(c, logs, logs', shares, shares', fast, fast', p, l.peers[p].view, i, l.slots[i]);
    }
    forall v, i | Pinned(logs[p], v, i) ensures Pinned(logs'[p], v, i) {
      PinnedPrefix(logs[p], logs'[p], v, i);
    }
  }

  lemma DecisionGrows(c: Config, logs: Logs, logs': Logs, shares: set<Share>, shares': set<Share>, fast: set<FastCommit>, fast': set<FastCommit>, d: Decision)
    requires Grows(c, logs, logs', shares, shares') && fast <= fast' && DecisionInv(c, logs, shares, fast, d)
    ensures DecisionInv(c, logs', shares', fast', d)
  {
    hide Prepared, Pinned;
    PreparedGrows(c, logs, logs', shares, shares', d.view, d.instance);
    if !d.fast {
      forall r | r in d.voters ensures Pinned(logs'[r], d.view, d.instance) {
        PinnedPrefix(logs[r], logs'[r], d.view, d.instance);
      }
    }
  }

  /** What holds of the signatures so far still holds. */
  lemma SharesGrow(c: Config, logs: Logs, logs': Logs, shares: set<Share>, shares': set<Share>, sh: Share)
    requires Grows(c, logs, logs', shares, shares') && SharesInv(c, logs, shares) && sh in shares
    ensures Prepared(c, logs', sh.view, sh.instance) == Some(sh.batch)
    ensures c.Correct(sh.signer) && Justified(c, logs', shares', sh.view, sh.instance, sh.batch)
  {
    hide Prepared, Justified;
    PreparedGrows(c, logs, logs', shares, shares', sh.view, sh.instance);
    JustifiedGrows(c, logs, logs', shares, shares', sh.view, sh.instance, sh.batch);
  }

  lemma FastsGrow(c: Config, logs: Logs, logs': Logs, shares: set<Share>, shares': set<Share>, fast: set<FastCommit>)
    requires Grows(c, logs, logs', shares, shares') && FastsInv(c, logs, shares, fast)
    ensures FastsInv(c, logs', shares', fast)
  {
    hide Prepared;
    forall f | f in fast ensures Prepared(c, logs', f.view, f.instance) == Prepared(c, logs, f.view, f.instance) {
      PreparedGrows(c, logs, logs', shares, shares', f.view, f.instance);
    }
  }

  lemma SealsStay(c: Config, logs: Logs, logs': Logs, shares: set<Share>, shares': set<Share>, seals: set<SealShare>)
    requires Grows(c, logs, logs', shares, shares') && SealsInv(c, logs, shares, seals)
    ensures SealsInv(c, logs', shares', seals)
  {
    hide StateGood;
    forall sh | sh in seals ensures StateGood(c, logs', shares', sh.replica, sh.view, sh.commits) {
      StateGoodGrows(c, logs, logs', shares, shares', sh.replica, sh.view, sh.commits);
    }
  }

  lemma AboveGrows(c: Config, logs: Logs, logs': Logs, shares: set<Share>, v: View, i: Instance, states: seq<VcState>)
    requires Grows(c, logs, logs', shares, shares) && GoodNewView(c, logs, shares, v, states)
    requires AboveCheckpoints(logs, states, v - 1, i)
    ensures AboveCheckpoints(logs', states, v - 1, i)
  {
    hide Fold, Accepted, SealPos, Acked;
    forall k | 0 <= k < |states|
      ensures var log := logs'[states[k].replica];
              SealPos(log, v - 1).Some? && Fold(log[..SealPosBound(log, v - 1)]).low <= i
    {
      assert StateGood(c, logs, shares, states[k].replica, v - 1, states[k].commits);
      SealGrows(logs[states[k].replica], logs'[states[k].replica], v - 1);
    }
  }

  /** The history invariants follow the growth of streams and signatures, given the new signatures. */
  lemma HistoryGrows(c: Config, s: State, s': State)
    requires HistoryInv(c, s) && Sane(c, s') && Grows(c, s.logs, s'.logs, s.shares, s'.shares) && s.fast <= s'.fast
    requires s'.decisions == s.decisions && s'.seals == s.seals
    requires SharesInv(c, s'.logs, s'.shares) && FastsInv(c, s'.logs, s'.shares, s'.fast)
    ensures HistoryInv(c, s')
  {
    hide SharesInv, FastsInv, SealsInv, DecisionInv;
    SealsStay(c, s.logs, s'.logs, s.shares, s'.shares, s.seals);
    forall d | d in s.decisions ensures DecisionInv(c, s'.logs, s'.shares, s'.fast, d) {
      DecisionGrows(c, s.logs, s'.logs, s.shares, s'.shares, s.fast, s'.fast, d);
    }
  }

  /** A local invariant is unaffected by what others broadcast or sign. */
  lemma LocalGrows(c: Config, s: State, s': State, p: Replica)
    requires Sane(c, s) && Sane(c, s') && p < c.n && LocalOk(c, s, p)
    requires Grows(c, s.logs, s'.logs, s.shares, s'.shares) && s.fast <= s'.fast
    requires (forall f :: f in s'.fast && f.sender == p ==> f in s.fast) && s'.logs[p] == s.logs[p] && s'.locals[p] == s.locals[p]
    requires p in s'.halted <==> p in s.halted
    ensures LocalOk(c, s', p)
  {
    hide CoreInv, Grows, Pinned;
    if p !in s.halted {
      CoreGrows(c, s.logs, s'.logs, s.shares, s'.shares, s.fast, s'.fast, p, s.locals[p]);
    }
  }
}
