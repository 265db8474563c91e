/** Agreement and its companions, read off the invariant. */
module ConsensusAgreement {
  import opened ConsensusLog
  import opened ConsensusProtocol
  import opened ConsensusInvariant
  import opened Quorums

  // ---------- Highest-view commits ----------

  lemma {:induction false} BestCovers(states: seq<VcState>, k: nat, i: Instance)
    requires k < |states| && i in states[k].commits
    ensures i in Best(states) && states[k].commits[i].view <= Best(states)[i].view
  {
    var n := |states| - 1;
    if k < n {
      BestCovers(states[..n], k, i);
    }
  }

  lemma {:induction false} BestFrom(states: seq<VcState>, i: Instance) returns (k: nat)
    requires i in Best(states)
    ensures k < |states| && i in states[k].commits && Best(states)[i] == states[k].commits[i]
  {
    var n := |states| - 1;
    var rest := Best(states[..n]);
    if i in rest && (i in states[n].commits ==> states[n].commits[i].view <= rest[i].view) {
      k := BestFrom(states[..n], i);
    } else {
      k := n;
    }
  }

  lemma {:induction false} EntriesNotAhead(window: nat, log: seq<Msg>)
    requires Accepted(window, log)
    ensures forall i :: i in Fold(log).commits ==> Fold(log).commits[i].view <= Fold(log).view
  {
    if log != [] {
      EntriesNotAhead(window, log[..|log| - 1]);
    }
  }

  /** Replicas of a list of states. */
  ghost function Members(states: seq<VcState>): set<Replica> {
    set k | 0 <= k < |states| :: states[k].replica
  }

  lemma {:induction false} MembersSize(states: seq<VcState>)
    requires Distinct(states)
    ensures |Members(states)| == |states|
  {
    if states != [] {
      var n := |states| - 1;
      MembersSize(states[..n]);
      assert Members(states) == Members(states[..n]) + {states[n].replica};
    }
  }

  // ---------- Decisions survive view changes ----------

  /** Those whose commits carry a decision. */
  ghost function Carriers(c: Config, d: Decision): set<Replica> {
    if d.fast then Group(c.n) - c.byzantine else d.voters
  }

  lemma CarriersOutnumber(c: Config, s: State, d: Decision)
    requires Inv(c, s) && d in s.decisions
    ensures Carriers(c, d) <= Group(c.n) && |Carriers(c, d)| + c.Quorum() > c.n
  {
    GroupSize(c.n);
    assert |Group(c.n) - c.byzantine| == c.n - |c.byzantine| by {
      assert Group(c.n) == (Group(c.n) - c.byzantine) + c.byzantine;
    }
    assert DecisionInv(c, s.logs, s.shares, s.fast, d);
  }

  /** Each carrier that sealed a later view has the commit pinned. */
  lemma CarrierPinned(c: Config, s: State, d: Decision, r: Replica, w: View)
    requires Inv(c, s) && d in s.decisions && r in Carriers(c, d) && r < c.n
    requires d.view <= w && SealPos(s.logs[r], w).Some?
    ensures Pinned(s.logs[r], d.view, d.instance)
  {
    hide SharesInv, FastsInv, SealsInv;
    assert DecisionInv(c, s.logs, s.shares, s.fast, d);
    if d.fast && r in s.halted {
      assert c.Correct(r) && LocalOk(c, s, r);
      EarlierSealed(s.logs[r], d.view, w);
      assert FastCommit(r, d.view, d.instance) in s.fast;
    } else if d.fast {
      assert c.Correct(r) && LocalOk(c, s, r) && StreamInv(c, s.logs, s.shares, s.locals[r], r, r);
      assert s.logs[r][..|s.logs[r]|] == s.logs[r];
      var at := SealPosBound(s.logs[r], w);
      FoldNext(s.logs[r], at);
      ViewsGrow(s.logs[r], at + 1, |s.logs[r]|);
      assert FastCommit(r, d.view, d.instance) in s.fast;
    }
  }

  /** A sealed state above its checkpoint shows every pinned commit. */
  lemma StateShows(c: Config, s: State, r: Replica, w: View, commits: map<Instance, Entry>, v: View, i: Instance)
    requires Sane(c, s) && StateGood(c, s.logs, s.shares, r, w, commits)
    requires Pinned(s.logs[r], v, i) && v <= w
    requires Fold(s.logs[r][..SealPosBound(s.logs[r], w)]).low <= i
    ensures i in commits && v <= commits[i].view
  {
    PinnedAtSeal(c.window, s.logs[r], v, i, w);
  }

  lemma StateNotAhead(c: Config, s: State, r: Replica, w: View, commits: map<Instance, Entry>, i: Instance)
    requires Sane(c, s) && StateGood(c, s.logs, s.shares, r, w, commits) && i in commits
    ensures commits[i].view <= w && Acked(s.shares, commits[i].view, i, commits[i].batch)
  {
    EntriesNotAhead(c.window, s.logs[r][..SealPosBound(s.logs[r], w)]);
  }

  /** Some carrier is among the states of every NewView. */
  lemma CarrierPresent(c: Config, s: State, d: Decision, w: View, states: seq<VcState>) returns (k: nat)
    requires Inv(c, s) && d in s.decisions && GoodNewView(c, s.logs, s.shares, w, states)
    ensures k < |states| && states[k].replica in Carriers(c, d) && states[k].replica < c.n
  {
    CarriersOutnumber(c, s, d);
    k := MemberAmong(c, s, w, states, Carriers(c, d));
  }

  lemma MemberAmong(c: Config, s: State, w: View, states: seq<VcState>, q: set<Replica>) returns (k: nat)
    requires Sane(c, s) && GoodNewView(c, s.logs, s.shares, w, states) && q <= Group(c.n) && |q| + c.Quorum() > c.n
    ensures k < |states| && states[k].replica in q && states[k].replica < c.n
  {
    MembersSize(states);
    forall x | x in Members(states) ensures x in Group(c.n) {
      var k :| 0 <= k < |states| && states[k].replica == x;
      assert StateGood(c, s.logs, s.shares, states[k].replica, w - 1, states[k].commits);
    }
    var r := Intersect(c.n, Members(states), q);
    k :| 0 <= k < |states| && states[k].replica == r;
  }

  /** The best commit of a NewView, given a state that shows the decided instance. */
  lemma BestFromShown(c: Config, s: State, w: View, states: seq<VcState>, k: nat, v: View, i: Instance)
    requires Sane(c, s) && GoodNewView(c, s.logs, s.shares, w, states)
    requires k < |states| && i in states[k].commits && v <= states[k].commits[i].view
    ensures i in Best(states)
    ensures var e := Best(states)[i]; v <= e.view < w && Acked(s.shares, e.view, i, e.batch)
  {
    hide StateGood;
    BestCovers(states, k, i);
    var j := BestFrom(states, i);
    var e := states[j].commits[i];
    assert StateGood(c, s.logs, s.shares, states[j].replica, w - 1, states[j].commits);
    StateNotAhead(c, s, states[j].replica, w - 1, states[j].commits, i);
    assert Best(states)[i] == e && Acked(s.shares, e.view, i, e.batch);
  }

  lemma BestShows(c: Config, s: State, d: Decision, w: View, states: seq<VcState>)
    requires Inv(c, s) && d in s.decisions && w > d.view
    requires GoodNewView(c, s.logs, s.shares, w, states) && AboveCheckpoints(s.logs, states, w - 1, d.instance)
    ensures d.instance in Best(states)
    ensures var e := Best(states)[d.instance]; d.view <= e.view < w && Acked(s.shares, e.view, d.instance, e.batch)
  {
    hide LocalOk, SharesInv, FastsInv, SealsInv, DecisionInv, Best, Fold, Pinned, Carriers;
    var k := CarrierPresent(c, s, d, w, states);
    var r := states[k].replica;
    assert StateGood(c, s.logs, s.shares, r, w - 1, states[k].commits);
    CarrierPinned(c, s, d, r, w - 1);
    StateShows(c, s, r, w - 1, states[k].commits, d.view, d.instance);
    BestFromShown(c, s, w, states, k, d.view, d.instance);
  }

  /** Whatever a correct replica signs in a later view is the decided batch. */
  lemma {:induction false} DecisionPersists(c: Config, s: State, d: Decision, sh: Share)
    requires Inv(c, s) && d in s.decisions && sh in s.shares
    requires sh.instance == d.instance && sh.view >= d.view
    ensures sh.batch == d.batch
    decreases sh.view
  {
    hide LocalOk, StateGood, SealsInv, FastsInv, AboveCheckpoints, Best;
    assert DecisionInv(c, s.logs, s.shares, s.fast, d);
    var i, w := d.instance, sh.view;
    if w > d.view {
      assert Justified(c, s.logs, s.shares, w, i, sh.batch);
      var states :| Obeys(c, s.logs, s.shares, w, i, sh.batch, states);
      BestShows(c, s, d, w, states);
      var e := Best(states)[i];
      var older :| older in s.shares && older.view == e.view && older.instance == i && older.batch == e.batch;
      DecisionPersists(c, s, d, older);
    }
  }

  lemma InvImpliesAgreement(c: Config, s: State)
    requires Inv(c, s)
    ensures Agreement(s)
  {
    forall d1, d2 | d1 in s.decisions && d2 in s.decisions && d1.instance == d2.instance
      ensures d1.batch == d2.batch
    {
      assert DecisionInv(c, s.logs, s.shares, s.fast, d1) && DecisionInv(c, s.logs, s.shares, s.fast, d2);
      var lo, hi := if d1.view <= d2.view then d1 else d2, if d1.view <= d2.view then d2 else d1;
      var sh :| sh in s.shares && sh.view == hi.view && sh.instance == hi.instance && sh.batch == hi.batch;
      DecisionPersists(c, s, lo, sh);
    }
  }
}
