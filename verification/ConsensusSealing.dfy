/** Sealing preserves fast commits, in every run in which no fast-committed instance is evicted
    before it is committed. No replica but the one that seals has to be correct. */
module ConsensusSealing {
  import opened Options
  import opened ConsensusLog
  import opened ConsensusProtocol
  import opened ConsensusInvariant
  import opened ConsensusHandlers
  import opened ConsensusSteps
  import opened ConsensusStreams

  /** p signed a prepare for (v, i). */
  ghost predicate Signed(shares: set<Share>, p: Replica, v: View, i: Instance) {
    exists b :: Share(p, v, i, b) in shares
  }

  /** A prepare p signed in its view is in its slots, or out of reach. */
  ghost predicate SignedInv(shares: set<Share>, l: Local, p: Replica)
    requires p < |l.peers|
  {
    forall v, i :: Signed(shares, p, v, i) ==> OutOfReach(l, p, v, i)
  }

  /** A commit for (v, i), or a checkpoint above i. */
  predicate Covers(m: Msg, v: View, i: Instance) {
    (m.Commit? && m.cert.view == v && m.cert.instance == i) || (m.Checkpoint? && i < m.low)
  }

  ghost predicate Committed(log: seq<Msg>, v: View, i: Instance) {
    exists k :: 0 <= k < |log| && Covers(log[k], v, i)
  }

  /** Commits are for the view the stream is in. */
  ghost predicate OwnViews(log: seq<Msg>) {
    forall k :: 0 <= k < |log| && log[k].Commit? ==> log[k].cert.view == Fold(log[..k]).view
  }

  /** Own commits under verification are of the current view, and those buffered were signed. */
  ghost predicate OwnCommitsInv(log: seq<Msg>, shares: set<Share>, l: Local, p: Replica)
    requires p < |l.peers| && p < |l.pending| && p < |l.buffered|
  {
    && (forall x :: x in l.pending[p] ==> x.view == l.peers[p].view && Committed(log, x.view, x.instance) && Signed(shares, p, x.view, x.instance))
    && (forall x :: x in l.buffered[p] ==> Signed(shares, p, x.view, x.instance))
    && l.peers[p].outstanding == |l.pending[p]|
  }

  /** Where p counted its own commit, its stream has one. */
  ghost predicate CountedInv(log: seq<Msg>, l: Local, p: Replica)
    requires p < |l.peers|
  {
    forall i :: i in l.slots && p in l.slots[i].slow ==> Committed(log, l.peers[p].view, i)
  }

  /** A fast commit of a sealed view was committed before; one of the current view was, or can still be. */
  ghost predicate FastOk(log: seq<Msg>, l: Local, p: Replica, f: FastCommit)
    requires p < |l.peers|
  {
    if SealPos(log, f.view).Some? then Committed(log[..SealPosBound(log, f.view)], f.view, f.instance)
    else f.view == l.peers[p].view && (Committed(log, f.view, f.instance) || (f.instance in l.slots && p in l.slots[f.instance].fast))
  }

  ghost predicate FastDone(log: seq<Msg>, fast: set<FastCommit>, p: Replica, l: Local)
    requires p < |l.peers|
  {
    forall f :: f in fast && f.sender == p ==> FastOk(log, l, p, f)
  }

  /** What waits was in order when it began, and still is. */
  ghost predicate CallsInv(shares: set<Share>, l: Local, p: Replica) {
    forall f :: f in l.frames && f.Waiting? ==>
      && !f.m.Malformed?
      && (f.m.Commit? ==> Signed(shares, p, f.m.cert.view, f.m.cert.instance))
      && (f.m.SealView? ==> AllCommitted(l, p))
  }

  /** `log` is the stream of p as far as p has handled it. */
  ghost predicate VotesInv(log: seq<Msg>, shares: set<Share>, fast: set<FastCommit>, l: Local, p: Replica) {
    && p < |l.peers| && p < |l.pending| && p < |l.buffered|
    && SignedInv(shares, l, p)
    && OwnCommitsInv(log, shares, l, p)
    && CountedInv(log, l, p)
    && FastDone(log, fast, p, l)
    && OwnViews(log)
  }

  function OwnLog(s: State, p: Replica): seq<Msg>
    requires p < |s.logs| && p < |s.locals| && p < |s.locals[p].peers| && s.locals[p].peers[p].nextCb <= |s.logs[p]|
  {
    s.logs[p][..s.locals[p].peers[p].nextCb]
  }

  /** A replica that has thrown was about to handle the last message of its stream. */
  ghost predicate LastRefused(s: State, p: Replica)
    requires p < |s.logs| && p < |s.locals|
  {
    p in s.halted ==> s.logs[p] != [] && Waits(s.locals[p], s.logs[p][|s.logs[p]| - 1])
  }

  ghost predicate Seals(c: Config, s: State, p: Replica) {
    && Follows(c, s, p)
    && PeerFollows(c, s.logs, s.locals[p], p)
    && VotesInv(OwnLog(s, p), s.shares, s.fast, s.locals[p], p)
    && CallsInv(s.shares, s.locals[p], p)
    && LastRefused(s, p)
  }

  /** Fewer own commits under verification than size_t can count. */
  predicate Countable(l: Local, p: Replica)
    requires p < |l.pending|
  {
    |l.pending[p]| < SIZE_T
  }

  // ---------- Parts that stay ----------

  lemma SignedStays(shares: set<Share>, l: Local, l': Local, p: Replica)
    requires p < |l.peers| && p < |l'.peers| && SignedInv(shares, l, p) && Advances(p, l, l')
    ensures SignedInv(shares, l', p)
  {
    hide Signed, Advances, OutOfReach;
    ReachShrinks(p, l, l');
  }

  /** All that a step changes is another stream, other signatures, other peers, or one slot. */
  ghost predicate SameVotes(l: Local, l': Local, p: Replica) {
    && p < |l.peers| && p < |l'.peers| && p < |l.pending| && p < |l'.pending| && p < |l.buffered| && p < |l'.buffered|
    && l'.peers[p].view == l.peers[p].view && l'.peers[p].outstanding == l.peers[p].outstanding
    && l'.pending[p] == l.pending[p] && l'.buffered[p] == l.buffered[p]
  }

  lemma CommitsStay(log: seq<Msg>, shares: set<Share>, l: Local, l': Local, p: Replica)
    requires SameVotes(l, l', p) && OwnCommitsInv(log, shares, l, p)
    ensures OwnCommitsInv(log, shares, l', p)
  {
    hide Committed, Signed;
  }

  lemma CommittedGrows(log: seq<Msg>, m: Msg, v: View, i: Instance)
    requires Committed(log, v, i)
    ensures Committed(log + [m], v, i)
  {
    var k :| 0 <= k < |log| && Covers(log[k], v, i);
    assert Covers((log + [m])[k], v, i);
  }

  lemma LastCovers(log: seq<Msg>, m: Msg, v: View, i: Instance)
    requires Covers(m, v, i)
    ensures Committed(log + [m], v, i)
  {
    assert Covers((log + [m])[|log|], v, i);
  }

  lemma SealPosNext(log: seq<Msg>, m: Msg, v: View)
    ensures SealPos(log + [m], v) == if SealPos(log, v).Some? then SealPos(log, v)
                                     else if m.SealView? && Fold(log).view == v then Some(|log|) else None
    ensures SealPos(log, v).Some? ==> (log + [m])[..SealPosBound(log, v)] == log[..SealPosBound(log, v)]
    ensures (log + [m])[..|log|] == log
  {
    assert (log + [m])[..|log|] == log;
  }

  lemma OwnViewsGrow(log: seq<Msg>, m: Msg)
    requires OwnViews(log) && (m.Commit? ==> m.cert.view == Fold(log).view)
    ensures OwnViews(log + [m])
  {
    hide Fold;
    var log' := log + [m];
    forall k | 0 <= k < |log'| && log'[k].Commit? ensures log'[k].cert.view == Fold(log'[..k]).view {
      if k < |log| {
        assert log'[..k] == log[..k];
      } else {
        assert log'[..k] == log;
      }
    }
  }

  lemma FastGrows(log: seq<Msg>, m: Msg, l: Local, p: Replica, f: FastCommit)
    requires p < |l.peers| && FastOk(log, l, p, f) && !(m.SealView? && Fold(log).view == f.view)
    ensures FastOk(log + [m], l, p, f)
  {
    hide Committed, Fold, SealPos;
    SealPosNext(log, m, f.view);
    if SealPos(log, f.view).None? && Committed(log, f.view, f.instance) {
      CommittedGrows(log, m, f.view, f.instance);
    }
  }

  /** The own stream grows by a message that is handled next. */
  lemma VotesGrow(log: seq<Msg>, m: Msg, shares: set<Share>, fast: set<FastCommit>, l: Local, p: Replica)
    requires VotesInv(log, shares, fast, l, p) && !m.SealView? && (m.Commit? ==> m.cert.view == Fold(log).view)
    ensures VotesInv(log + [m], shares, fast, l, p)
  {
    hide Committed, Signed, SignedInv, FastOk, OwnViews, Fold;
    OwnViewsGrow(log, m);
    forall v, i | Committed(log, v, i) ensures Committed(log + [m], v, i) {
      CommittedGrows(log, m, v, i);
    }
    forall f | f in fast && f.sender == p ensures FastOk(log + [m], l, p, f) {
      FastGrows(log, m, l, p, f);
    }
  }

  // ---------- Handling a message ----------

  lemma InsertOwn(c: Config, shares: set<Share>, l: Local, p: Replica, from: Replica, v: View, i: Instance, b: Batch)
    requires Shaped(c, l) && p < c.n && from < c.n && v == l.peers[p].view && l.certified <= i && i !in l.slots
    requires SignedInv(shares, l, p) && forall x :: x in l.buffered[p] ==> Signed(shares, p, x.view, x.instance)
    ensures !Replays(l.buffered[p], v, i)
    ensures var l' := Insert(c, l, from, v, i, b);
            && l'.peers[p].outstanding == l.peers[p].outstanding && l'.peers[p].view == v && l'.pending == l.pending
            && (forall x :: x in l'.buffered[p] ==> x in l.buffered[p])
            && p !in l'.slots[i].slow
  {
    hide Signed, Replays;
    if Replays(l.buffered[p], v, i) {
      var x := Replayed(l.buffered[p], v, i);
      assert false;
    }
  }

  lemma Replayed(queue: seq<Cert>, v: View, i: Instance) returns (x: Cert)
    requires Replays(queue, v, i)
    ensures x in queue && x.view == v && x.instance == i
  {
    hide DropStale;
    var q := DropStale(queue, v, i);
    x := q[0];
    assert x in q;
  }

  /** The eviction check, and what it protects. */
  lemma InsertFast(c: Config, log: seq<Msg>, fast: set<FastCommit>, l: Local, p: Replica, from: Replica, v: View, i: Instance, b: Batch)
    requires Shaped(c, l) && p < c.n && from < c.n && v == l.peers[p].view && i !in l.slots
    requires CountedInv(log, l, p) && FastDone(log, fast, p, l) && KeepsFast(c, l, p, i)
    requires p !in Insert(c, l, from, v, i, b).slots[i].slow
    ensures var l' := Insert(c, l, from, v, i, b); CountedInv(log, l', p) && FastDone(log, fast, p, l')
  {
    hide Committed, Replays, AfterReplay, Decrement, SealPos;
    var l' := Insert(c, l, from, v, i, b);
    assert l'.peers[p].view == v;
    assert forall k :: k in l'.slots && k != i ==> k in l.slots && l'.slots[k] == l.slots[k];
    forall f | f in fast && f.sender == p ensures FastOk(log, l', p, f) {
      assert FastOk(log, l, p, f);
      assert f.instance in l.slots ==> f.instance in Evict(l.slots, c.window, i) || f.instance + c.window <= i;
    }
  }

  lemma PrepareVotes(c: Config, log: seq<Msg>, shares: set<Share>, fast: set<FastCommit>, l: Local, p: Replica, from: Replica, v: View, i: Instance, b: Batch)
    requires Shaped(c, l) && p < c.n && from < c.n && VotesInv(log, shares, fast, l, p) && v == l.peers[p].view && l.certified <= i && i !in l.slots
    requires KeepsFast(c, l, p, i) && Advances(p, l, Insert(c, l, from, v, i, b))
    ensures VotesInv(log, shares, fast, Insert(c, l, from, v, i, b), p)
  {
    hide Committed, Signed, Advances, Insert, KeepsFast, FastOk, OwnViews;
    InsertOwn(c, shares, l, p, from, v, i, b);
    InsertFast(c, log, fast, l, p, from, v, i, b);
    SignedStays(shares, l, Insert(c, l, from, v, i, b), p);
    hide SignedInv, CountedInv, FastDone;
  }

  /** A message of another replica that is not inserted. */
  lemma OtherVotes(c: Config, l: Local, p: Replica, from: Replica, m: Msg)
    requires Shaped(c, l) && p < c.n && from < c.n && from != p && Handle(c, l, p, from, m).Some?
    requires m.Prepare? ==> m.view != l.peers[p].view || m.instance < l.certified
    ensures var l' := Handle(c, l, p, from, m).value; SameVotes(l, l', p) && l'.slots == l.slots
  {
    hide Prune, Best, Batches, IsByzantinePrepare;
  }

  lemma SameSlotsVotes(log: seq<Msg>, shares: set<Share>, fast: set<FastCommit>, l: Local, l': Local, p: Replica)
    requires VotesInv(log, shares, fast, l, p) && SameVotes(l, l', p) && l'.slots == l.slots && Advances(p, l, l')
    ensures VotesInv(log, shares, fast, l', p)
  {
    hide SignedInv, OwnCommitsInv, Advances, Committed, SealPos, OwnViews;
    SignedStays(shares, l, l', p);
    CommitsStay(log, shares, l, l', p);
    forall f | f in fast && f.sender == p ensures FastOk(log, l', p, f) {
      assert FastOk(log, l, p, f);
    }
  }

  /** One's own messages, the last in `log`. */
  lemma OwnCommit(c: Config, log: seq<Msg>, shares: set<Share>, fast: set<FastCommit>, l: Local, p: Replica, cert: Cert)
    requires Shaped(c, l) && p < c.n && VotesInv(log + [Commit(cert)], shares, fast, l, p)
    requires Handle(c, l, p, p, Commit(cert)).Some? && Signed(shares, p, cert.view, cert.instance)
    requires |l.pending[p]| + 1 < SIZE_T && Advances(p, l, Handle(c, l, p, p, Commit(cert)).value)
    ensures VotesInv(log + [Commit(cert)], shares, fast, Handle(c, l, p, p, Commit(cert)).value, p)
  {
    LastCovers(log, Commit(cert), cert.view, cert.instance);
    hide Committed, Signed, SealPos, OwnViews, Advances;
    var l' := Handle(c, l, p, p, Commit(cert)).value;
    SignedStays(shares, l, l', p);
    hide SignedInv;
    forall f | f in fast && f.sender == p ensures FastOk(log + [Commit(cert)], l', p, f) {
      assert FastOk(log + [Commit(cert)], l, p, f);
    }
    hide FastOk;
    assert OwnCommitsInv(log + [Commit(cert)], shares, l', p);
  }

  lemma OwnCheckpoint(c: Config, log: seq<Msg>, shares: set<Share>, fast: set<FastCommit>, l: Local, p: Replica, index: Instance, low: Instance)
    requires Shaped(c, l) && p < c.n && VotesInv(log + [Checkpoint(index, low)], shares, fast, l, p)
    requires Handled(c, l, p, p, Checkpoint(index, low)).Some? && Advances(p, l, Handled(c, l, p, p, Checkpoint(index, low)).value)
    ensures VotesInv(log + [Checkpoint(index, low)], shares, fast, Handled(c, l, p, p, Checkpoint(index, low)).value, p)
  {
    var log' := log + [Checkpoint(index, low)];
    var l' := Handled(c, l, p, p, Checkpoint(index, low)).value;
    forall v: View, i: Instance | i < low ensures Committed(log', v, i) {
      LastCovers(log, Checkpoint(index, low), v, i);
    }
    hide Advances, Signed, SignedInv, Prune, Committed, SealPos, OwnViews;
    SignedStays(shares, l, l', p);
    assert SameVotes(l, l', p);
    CommitsStay(log', shares, l, l', p);
    hide OwnCommitsInv;
    forall f | f in fast && f.sender == p ensures FastOk(log', l', p, f) {
      assert FastOk(log', l, p, f);
    }
  }

  lemma OwnSeal(c: Config, log: seq<Msg>, shares: set<Share>, fast: set<FastCommit>, l: Local, p: Replica)
    requires Shaped(c, l) && p < c.n && VotesInv(log, shares, fast, l, p) && AllCommitted(l, p) && Fold(log).view == l.peers[p].view
    requires Handled(c, l, p, p, SealView).Some? && Advances(p, l, Handled(c, l, p, p, SealView).value)
    ensures VotesInv(log + [SealView], shares, fast, Handled(c, l, p, p, SealView).value, p)
  {
    OwnViewsGrow(log, SealView);
    hide Advances, Signed, Committed, Fold, SealPos, OwnViews;
    var l' := Handled(c, l, p, p, SealView).value;
    SignedStays(shares, l, l', p);
    hide SignedInv;
    assert l.pending[p] == multiset{};
    assert OwnCommitsInv(log + [SealView], shares, l', p);
    forall f | f in fast && f.sender == p ensures FastOk(log + [SealView], l', p, f) {
      SealPosNext(log, SealView, f.view);
      assert FastOk(log, l, p, f);
    }
  }

  lemma OwnNewView(c: Config, l: Local, p: Replica, v: View, states: seq<VcState>)
    requires Shaped(c, l) && p < c.n && Handled(c, l, p, p, NewView(v, states)).Some?
    ensures var l' := Handled(c, l, p, p, NewView(v, states)).value; SameVotes(l, l', p) && l'.slots == l.slots
  {
    hide Best, Batches;
  }

  lemma BumpVotes(log: seq<Msg>, shares: set<Share>, fast: set<FastCommit>, l: Local, p: Replica, from: Replica)
    requires VotesInv(log, shares, fast, l, p) && from < |l.peers|
    ensures VotesInv(log, shares, fast, Bump(l, from), p)
  {
    hide Committed, Signed;
    SameSlotsVotes(log, shares, fast, l, Bump(l, from), p);
  }

  lemma AnyPrepareVotes(c: Config, log: seq<Msg>, shares: set<Share>, fast: set<FastCommit>, l: Local, p: Replica, from: Replica, m: Msg)
    requires Shaped(c, l) && p < c.n && from < c.n && VotesInv(log, shares, fast, l, p) && m.Prepare?
    requires Handled(c, l, p, from, m).Some? && Advances(p, l, Handled(c, l, p, from, m).value)
    requires m.view == l.peers[p].view && l.certified <= m.instance ==> KeepsFast(c, l, p, m.instance)
    ensures VotesInv(log, shares, fast, Handled(c, l, p, from, m).value, p)
  {
    hide VotesInv, Insert, Handled;
    InsertIs(c, l, p, from, m);
    BumpVotes(log, shares, fast, l, p, from);
    if m.view == l.peers[p].view && l.certified <= m.instance {
      PrepareVotes(c, log, shares, fast, Bump(l, from), p, from, m.view, m.instance, m.batch);
    }
  }

  /** What a call that waited owes its message. */
  ghost predicate MayHandle(shares: set<Share>, l: Local, p: Replica, m: Msg)
    requires p < |l.pending|
  {
    && !m.Malformed?
    && (m.Commit? ==> Signed(shares, p, m.cert.view, m.cert.instance) && |l.pending[p]| + 1 < SIZE_T)
    && (m.SealView? ==> AllCommitted(l, p))
  }

  lemma OthersVotes(c: Config, logs: Logs, log: seq<Msg>, shares: set<Share>, fast: set<FastCommit>, l: Local, p: Replica, from: Replica, m: Msg)
    requires StreamsInv(c, logs, l, p) && VotesInv(log, shares, fast, l, p) && Delivering(c, logs, l, from, m) && from != p
    requires Handled(c, l, p, from, m).Some?
    requires m.Prepare? && m.view == l.peers[p].view && l.certified <= m.instance ==> KeepsFast(c, l, p, m.instance)
    ensures VotesInv(log, shares, fast, Handled(c, l, p, from, m).value, p)
  {
    assert Shaped(c, l) && p < c.n;
    hide StreamsInv, VotesInv, KeepsFast, Advances, Signed, SameVotes;
    var l' := Handled(c, l, p, from, m).value;
    HandledFollows(c, logs, l, p, from, m);
    if m.Prepare? {
      AnyPrepareVotes(c, log, shares, fast, l, p, from, m);
    } else {
      OtherVotes(c, l, p, from, m);
      SameSlotsVotes(log, shares, fast, l, l', p);
    }
  }

  lemma OwnVotes(c: Config, logs: Logs, log: seq<Msg>, shares: set<Share>, fast: set<FastCommit>, l: Local, p: Replica, m: Msg)
    requires StreamsInv(c, logs, l, p) && Delivering(c, logs, l, p, m) && Fold(log).view == l.peers[p].view
    requires VotesInv(log, shares, fast, l, p)
    requires Handled(c, l, p, p, m).Some? && MayHandle(shares, l, p, m)
    requires m.Prepare? && m.view == l.peers[p].view && l.certified <= m.instance ==> KeepsFast(c, l, p, m.instance)
    ensures VotesInv(log + [m], shares, fast, Handled(c, l, p, p, m).value, p)
  {
    assert Shaped(c, l) && p < c.n;
    hide StreamsInv, VotesInv, KeepsFast, Advances, Signed, SameVotes, Fold;
    var l' := Handled(c, l, p, p, m).value;
    HandledFollows(c, logs, l, p, p, m);
    HandledMoves(c, l, p, p, m);
    if m.SealView? {
      OwnSeal(c, log, shares, fast, l, p);
    } else {
      VotesGrow(log, m, shares, fast, l, p);
      match m
      case Prepare(v, i, b) => AnyPrepareVotes(c, log + [m], shares, fast, l, p, p, m);
      case Commit(cert) => OwnCommit(c, log, shares, fast, l, p, cert);
      case Checkpoint(index, low) => OwnCheckpoint(c, log, shares, fast, l, p, index, low);
      case NewView(v, states) =>
        OwnNewView(c, l, p, v, states);
        SameSlotsVotes(log + [m], shares, fast, l, l', p);
    }
  }

  // ---------- Calls ----------

  /** Handling keeps what waits in order. */
  lemma HandledKeepsCalls(c: Config, shares: set<Share>, l: Local, p: Replica, from: Replica, m: Msg)
    requires Shaped(c, l) && p < c.n && from < c.n && Handled(c, l, p, from, m).Some? && CallsInv(shares, l, p)
    ensures CallsInv(shares, Handled(c, l, p, from, m).value, p)
  {
    HandledCalls(c, l, p, from, m);
    hide Handled, AllCommitted, Signed;
  }

  lemma CallsStay(shares: set<Share>, shares': set<Share>, l: Local, l': Local, p: Replica)
    requires CallsInv(shares, l, p) && shares <= shares' && (AllCommitted(l, p) ==> AllCommitted(l', p))
    requires forall f :: f in l'.frames ==> f in l.frames
    ensures CallsInv(shares', l', p)
  {
    hide AllCommitted;
    forall v, i | Signed(shares, p, v, i) ensures Signed(shares', p, v, i) {
      var b :| Share(p, v, i, b) in shares;
      assert Share(p, v, i, b) in shares';
    }
  }

  // ---------- Steps ----------

  lemma DeliveredVotes(c: Config, logs: Logs, log: seq<Msg>, shares: set<Share>, fast: set<FastCommit>, l: Local, p: Replica, from: Replica, m: Msg)
    requires StreamsInv(c, logs, l, p) && VotesInv(log, shares, fast, l, p) && Delivering(c, logs, l, from, m) && from != p
    requires Handled(c, l, p, from, m).Some? && CallsInv(shares, l, p)
    requires m.Prepare? && m.view == l.peers[p].view && l.certified <= m.instance ==> KeepsFast(c, l, p, m.instance)
    ensures var l' := Handled(c, l, p, from, m).value;
            VotesInv(log, shares, fast, l', p) && CallsInv(shares, l', p) && Shaped(c, l') && l'.peers[p].nextCb == l.peers[p].nextCb
  {
    hide VotesInv, CallsInv, KeepsFast, Handled;
    OthersVotes(c, logs, log, shares, fast, l, p, from, m);
    assert Shaped(c, l) && p < c.n;
    hide StreamsInv;
    HandledMoves(c, l, p, from, m);
    HandledKeepsCalls(c, shares, l, p, from, m);
  }

  /** What the check of the window says of a message. */
  lemma KeptDelivered(c: Config, s: State, p: Replica, from: Replica, m: Msg)
    requires Sane(c, s) && p < c.n && from < c.n && Passes(NoEviction, c, s, Deliver(p, from))
    requires s.locals[p].peers[from].nextCb < |s.logs[from]| && m == s.logs[from][s.locals[p].peers[from].nextCb]
    ensures m.Prepare? && m.view == s.locals[p].peers[p].view && s.locals[p].certified <= m.instance ==> KeepsFast(c, s.locals[p], p, m.instance)
  {
    hide KeepsFast;
  }

  lemma KeptBroadcast(c: Config, s: State, p: Replica, m: Msg)
    requires Sane(c, s) && p < c.n && Passes(NoEviction, c, s, Broadcast(p, m))
    ensures m.Prepare? && m.view == s.locals[p].peers[p].view && s.locals[p].certified <= m.instance ==> KeepsFast(c, s.locals[p], p, m.instance)
  {
    hide KeepsFast;
  }

  lemma FollowsOwn(c: Config, s: State, p: Replica)
    requires Follows(c, s, p)
    ensures StreamsInv(c, s.logs, s.locals[p], p) && PeerFollows(c, s.logs, s.locals[p], p)
    ensures p !in s.halted ==> s.locals[p].peers[p].nextCb == |s.logs[p]| && OwnLog(s, p) == s.logs[p]
    ensures Fold(OwnLog(s, p)).view == s.locals[p].peers[p].view
  {
    hide SlotsOfView;
  }

  lemma DeliverSeals(c: Config, s: State, s': State, p: Replica, from: Replica)
    requires c.n > 0 && Seals(c, s, p) && Follows(c, s', p) && Next(c, s, Deliver(p, from), s') && Passes(NoEviction, c, s, Deliver(p, from))
    ensures Seals(c, s', p)
  {
    FollowsOwn(c, s, p);
    FollowsOwn(c, s', p);
    KeptDelivered(c, s, p, from, s.logs[from][s.locals[p].peers[from].nextCb]);
    hide Passes, Follows, StreamsInv, VotesInv, Checked, SealsAfter, KeepsFast, Handle, CallsInv, PeerFollows, Fold, AfterBroadcast;
    var l, m := s.locals[p], s.logs[from][s.locals[p].peers[from].nextCb];
    assert Handled(c, l, p, from, m) == Some(s'.locals[p]);
    hide Handled;
    DeliveredVotes(c, s.logs, OwnLog(s, p), s.shares, s.fast, l, p, from, m);
  }

  lemma HandledPending(c: Config, l: Local, p: Replica, m: Msg)
    requires Shaped(c, l) && p < c.n && Handled(c, l, p, p, m).Some?
    ensures m.Commit? ==> |Handled(c, l, p, p, m).value.pending[p]| == |l.pending[p]| + 1
  {}

  lemma PoppedVotes(log: seq<Msg>, shares: set<Share>, fast: set<FastCommit>, l: Local, p: Replica)
    requires VotesInv(log, shares, fast, l, p) && CallsInv(shares, l, p) && !Idle(l)
    ensures VotesInv(log, shares, fast, Popped(l), p) && CallsInv(shares, Popped(l), p)
    ensures Top(l).Waiting? ==> !Top(l).m.Malformed?
    ensures Top(l).Waiting? && Top(l).m.Commit? ==> Signed(shares, p, Top(l).m.cert.view, Top(l).m.cert.instance)
    ensures Top(l).Waiting? && Top(l).m.SealView? ==> AllCommitted(Popped(l), p)
  {
    assert Top(l) in l.frames;
    hide Signed, Committed;
    SameSlotsVotes(log, shares, fast, l, Popped(l), p);
    hide VotesInv;
    CallsStay(shares, shares, l, Popped(l), p);
  }

  lemma BroadcastVotes(c: Config, logs: Logs, log: seq<Msg>, shares: set<Share>, fast: set<FastCommit>, l: Local, p: Replica, m: Msg)
    requires StreamsInv(c, logs, l, p) && Waits(l, m) && Delivering(c, logs, Popped(l), p, m) && Fold(log).view == l.peers[p].view
    requires VotesInv(log, shares, fast, l, p) && CallsInv(shares, l, p)
    requires Handled(c, Popped(l), p, p, m).Some? && |Handled(c, Popped(l), p, p, m).value.pending[p]| < SIZE_T
    requires m.Prepare? && m.view == l.peers[p].view && l.certified <= m.instance ==> KeepsFast(c, l, p, m.instance)
    ensures var l' := Handled(c, Popped(l), p, p, m).value;
            VotesInv(log + [m], shares, fast, l', p) && CallsInv(shares, l', p) && Shaped(c, l') && l'.peers[p].nextCb == l.peers[p].nextCb + 1
  {
    hide VotesInv, CallsInv, KeepsFast, Handled, Fold, Signed;
    assert Shaped(c, l) && p < c.n;
    PoppedFollows(c, logs, l, p);
    hide StreamsInv;
    PoppedVotes(log, shares, fast, l, p);
    HandledPending(c, Popped(l), p, m);
    SameKeeps(c, l, p, m);
    OwnVotes(c, logs, log, shares, fast, Popped(l), p, m);
    HandledMoves(c, Popped(l), p, p, m);
    HandledKeepsCalls(c, shares, Popped(l), p, p, m);
  }

  lemma SameKeeps(c: Config, l: Local, p: Replica, m: Msg)
    requires !Idle(l)
    ensures m.Prepare? ==> KeepsFast(c, Popped(l), p, m.instance) == KeepsFast(c, l, p, m.instance)
  {}

  lemma BroadcastSeals(c: Config, s: State, s': State, p: Replica, m: Msg)
    requires c.n > 0 && Seals(c, s, p) && Follows(c, s', p) && Next(c, s, Broadcast(p, m), s') && Passes(NoEviction, c, s, Broadcast(p, m))
    requires Countable(s'.locals[p], p)
    ensures Seals(c, s', p)
  {
    FollowsOwn(c, s, p);
    FollowsOwn(c, s', p);
    KeptBroadcast(c, s, p, m);
    hide Passes, Follows, StreamsInv, VotesInv, SealsAfter, KeepsFast, Handle, AfterBroadcast, CallsInv, PeerFollows, Fold;
    var l := s.locals[p];
    assert Some(s'.locals[p]) == Handled(c, Popped(l), p, p, m);
    hide Handled;
    StreamsGrow(c, s.logs, s'.logs, l, p);
    BroadcastVotes(c, s'.logs, OwnLog(s, p), s.shares, s.fast, l, p, m);
  }

  lemma CertifySeals(c: Config, s: State, s': State, p: Replica, i: Instance)
    requires c.n > 0 && Seals(c, s, p) && Follows(c, s', p) && Next(c, s, Certify(p, i), s')
    ensures Seals(c, s', p)
  {
    hide Committed, SealPos, Fold;
    var l, l' := s.locals[p], s'.locals[p];
    assert l'.peers == l.peers && l'.slots.Keys == l.slots.Keys;
    assert SlotsOfView(l, p) && OwnLog(s', p) == OwnLog(s, p);
    hide StreamsInv;
    forall v, j | Signed(s'.shares, p, v, j) ensures OutOfReach(l', p, v, j) {
      if !Signed(s.shares, p, v, j) {
        assert v == l.slots[i].view && j == i;
      } else {
        assert OutOfReach(l, p, v, j);
      }
    }
    CallsStay(s.shares, s'.shares, l, l', p);
    forall v, j | Signed(s.shares, p, v, j) ensures Signed(s'.shares, p, v, j) {
      var b :| Share(p, v, j, b) in s.shares;
      assert Share(p, v, j, b) in s'.shares;
    }
    hide Signed, CallsInv, OwnViews;
    assert OwnCommitsInv(OwnLog(s', p), s'.shares, l', p);
    forall f | f in s'.fast && f.sender == p ensures FastOk(OwnLog(s', p), l', p, f) {
      assert FastOk(OwnLog(s, p), l, p, f);
    }
  }

  lemma SendFastSeals(c: Config, s: State, s': State, p: Replica, i: Instance)
    requires c.n > 0 && Seals(c, s, p) && Follows(c, s', p) && Next(c, s, SendFast(p, i), s')
    ensures Seals(c, s', p)
  {
    hide Committed, Signed, Promised, SealPos, Fold;
    CurrentViewUnsealed(c, s, p);
    assert SlotsOfView(s.locals[p], p) && OwnLog(s', p) == OwnLog(s, p);
    hide StreamsInv, OwnViews;
    assert OwnCommitsInv(OwnLog(s', p), s'.shares, s'.locals[p], p);
    forall f | f in s'.fast && f.sender == p ensures FastOk(OwnLog(s', p), s'.locals[p], p, f) {
      if f in s.fast {
        assert FastOk(OwnLog(s, p), s.locals[p], p, f);
      }
    }
  }

  lemma VerifiedSeals(c: Config, s: State, s': State, p: Replica, from: Replica, cert: Cert)
    requires c.n > 0 && Seals(c, s, p) && Follows(c, s', p) && Next(c, s, Verified(p, from, cert), s')
    ensures Seals(c, s', p)
  {
    hide Committed, Signed, CertChecked, SealPos, Fold, OwnViews;
    assert SlotsOfView(s.locals[p], p) && OwnLog(s', p) == OwnLog(s, p);
    hide StreamsInv, OutOfReach;
    var l, l' := s.locals[p], s'.locals[p];
    assert l'.slots.Keys == l.slots.Keys && l'.certified == l.certified && l'.peers[p].view == l.peers[p].view;
    assert Advances(p, l, l');
    SignedStays(s.shares, l, l', p);
    CallsStay(s.shares, s.shares, l, l', p);
    hide SignedInv, Advances, CallsInv;
    assert OwnCommitsInv(OwnLog(s', p), s'.shares, l', p);
    assert s'.fast == s.fast;
    forall f | f in s.fast && f.sender == p ensures FastOk(OwnLog(s', p), l', p, f) {
      VerifiedFast(c, s, s', p, from, cert, f);
    }
    hide FastOk, Next, OwnCommitsInv;
  }

  lemma VerifiedFast(c: Config, s: State, s': State, p: Replica, from: Replica, cert: Cert, f: FastCommit)
    requires c.n > 0 && Seals(c, s, p) && Sane(c, s') && p < c.n && Next(c, s, Verified(p, from, cert), s') && f in s.fast && f.sender == p
    ensures FastOk(OwnLog(s', p), s'.locals[p], p, f)
  {
    hide Committed, Signed, CertChecked, SealPos, Fold, OwnViews, StreamsInv, OutOfReach, CallsInv, SignedInv;
    assert OwnLog(s', p) == OwnLog(s, p);
    assert FastOk(OwnLog(s, p), s.locals[p], p, f);
  }

  /** Steps of p that only change its slots, its checkpoint or its calls. */
  lemma SlotSeals(c: Config, s: State, step: Step, s': State, p: Replica)
    requires c.n > 0 && Seals(c, s, p) && Follows(c, s', p) && Next(c, s, step, s')
    requires (step.RecvFast? && step.p == p) || step.AdoptCheckpoint? || (step.Decide? && step.p == p) || step.SignCheckpoint?
    ensures Seals(c, s', p)
  {
    hide StreamsInv, Committed, Signed, CheckpointCertified, Decidable, SealPos, Fold, OwnViews;
    assert OwnLog(s', p) == OwnLog(s, p);
    assert OwnCommitsInv(OwnLog(s', p), s'.shares, s'.locals[p], p);
    CallsStay(s.shares, s.shares, s.locals[p], s'.locals[p], p);
    hide CallsInv;
    forall f | f in s'.fast && f.sender == p ensures FastOk(OwnLog(s', p), s'.locals[p], p, f) {
      assert FastOk(OwnLog(s, p), s.locals[p], p, f);
    }
  }

  lemma BeginSeals(c: Config, s: State, s': State, p: Replica, m: Msg)
    requires c.n > 0 && Seals(c, s, p) && Follows(c, s', p) && Next(c, s, Begin(p, m), s')
    ensures Seals(c, s', p)
  {
    hide StreamsInv, CertValid, Distinct, AllOfView, AllValid, VotesInv;
    assert m.Commit? ==> Signed(s.shares, p, m.cert.view, m.cert.instance);
    hide Signed;
    assert OwnLog(s', p) == OwnLog(s, p);
    SameSlotsVotes(OwnLog(s, p), s.shares, s.fast, s.locals[p], s'.locals[p], p);
    assert CallsInv(s'.shares, s'.locals[p], p);
  }

  lemma OpenSeals(c: Config, s: State, s': State, p: Replica)
    requires c.n > 0 && Seals(c, s, p) && Follows(c, s', p) && Next(c, s, Open(p), s')
    ensures Seals(c, s', p)
  {
    hide StreamsInv, VotesInv, Best, Batches;
    assert OwnLog(s', p) == OwnLog(s, p);
    SameSlotsVotes(OwnLog(s, p), s.shares, s.fast, s.locals[p], s'.locals[p], p);
    CallsStay(s.shares, s.shares, s.locals[p], s'.locals[p], p);
  }

  lemma HaltSeals(c: Config, s: State, s': State, p: Replica, m: Msg)
    requires c.n > 0 && Seals(c, s, p) && Follows(c, s', p) && Next(c, s, Halt(p, m), s')
    ensures Seals(c, s', p)
  {
    hide StreamsInv, VotesInv, CallsInv, Handle;
    assert OwnLog(s', p) == OwnLog(s, p);
  }

  /** What steps of others leave alone. */
  lemma OthersStay(c: Config, s: State, step: Step, s': State, p: Replica)
    requires c.n > 0 && c.Correct(p) && Sane(c, s) && Sane(c, s') && Next(c, s, step, s')
    requires match step case Byzantine(q, _) => true case _ => step.p != p
    ensures s'.locals[p] == s.locals[p] && s'.logs[p] == s.logs[p] && (p in s'.halted <==> p in s.halted)
    ensures forall f :: f in s'.fast && f.sender == p ==> f in s.fast
    ensures forall v, i :: Signed(s'.shares, p, v, i) <==> Signed(s.shares, p, v, i)
  {
    hide Handle, HandleVerified, Checked, CertChecked, CanBegin, Promised, CheckpointCertified, Decidable;
  }

  /** Steps of others. */
  lemma OthersSeal(c: Config, s: State, step: Step, s': State, p: Replica)
    requires c.n > 0 && c.Correct(p) && Seals(c, s, p) && Follows(c, s', p) && Next(c, s, step, s')
    requires match step case Byzantine(q, _) => true case _ => step.p != p
    ensures Seals(c, s', p)
  {
    hide StreamsInv, Committed, Signed, Next, SealPos, Fold, OwnViews;
    OthersStay(c, s, step, s', p);
    assert OwnLog(s', p) == OwnLog(s, p);
    assert OwnCommitsInv(OwnLog(s', p), s'.shares, s'.locals[p], p);
  }

  lemma StepSeals(c: Config, s: State, step: Step, s': State, p: Replica)
    requires c.n > 0 && c.Correct(p) && Seals(c, s, p) && Follows(c, s', p) && Next(c, s, step, s') && Passes(NoEviction, c, s, step)
    requires Countable(s'.locals[p], p)
    ensures Seals(c, s', p)
  {
    hide Next, Seals, Follows, Passes;
    if step.Byzantine? || step.p != p {
      OthersSeal(c, s, step, s', p);
    } else {
      match step
      case Deliver(_, from) => DeliverSeals(c, s, s', p, from);
      case Begin(_, m) => BeginSeals(c, s, s', p, m);
      case Broadcast(_, m) => BroadcastSeals(c, s, s', p, m);
      case Halt(_, m) => HaltSeals(c, s, s', p, m);
      case Open(_) => OpenSeals(c, s, s', p);
      case Certify(_, i) => CertifySeals(c, s, s', p, i);
      case SendFast(_, i) => SendFastSeals(c, s, s', p, i);
      case Verified(_, from, cert) => VerifiedSeals(c, s, s', p, from, cert);
      case _ => SlotSeals(c, s, step, s', p);
    }
  }

  lemma StartSeals(c: Config, s: State, p: Replica)
    requires c.n > 0 && Sane(c, s) && Init(c, s) && p < c.n
    ensures Seals(c, s, p)
  {
    StartFollows(c, s, p);
  }

  ghost predicate AllCountable(c: Config, states: seq<State>, p: Replica) {
    forall k :: 0 <= k < |states| ==> p < |states[k].locals| && p < |states[k].locals[p].pending| && Countable(states[k].locals[p], p)
  }

  lemma {:induction false} RunsSeal(c: Config, states: seq<State>, steps: seq<Step>, k: nat, p: Replica)
    requires IsCheckedRun(c, {NoEviction}, states, steps) && AllCountable(c, states, p) && k < |states| && c.Correct(p)
    ensures Seals(c, states[k], p)
  {
    hide Seals, Next, Init, Passes, Countable;
    if k == 0 {
      StartSeals(c, states[0], p);
    } else {
      RunsSeal(c, states, steps, k - 1, p);
      RunsFollow(c, states, steps, k, p);
      StepSeals(c, states[k - 1], steps[k - 1], states[k], p);
    }
  }

  // ---------- The result ----------

  /** After a seal no commit for the sealed view follows. */
  lemma CommitsFollowViews(log: seq<Msg>, at: nat, k: nat)
    requires OwnViews(log) && at < k < |log| && log[at].SealView? && log[k].Commit?
    ensures Fold(log[..at]).view < log[k].cert.view
  {
    FoldNext(log, at);
    ViewsGrow(log, at + 1, k);
  }

  /** What p fast-committed in a view, its stream commits (or checkpoints) before the SealView
      of that view, and no commit for that view follows, but for a message p has thrown on. */
  ghost predicate SealsSafely(s: State, p: Replica) {
    forall f :: f in s.fast && f.sender == p && p < |s.logs| && SealPos(s.logs[p], f.view).Some? ==>
      SealedSafely(s.logs[p], Refused(s, p), f.view, f.instance)
  }

  ghost predicate SealedSafely(log: seq<Msg>, refused: nat, v: View, i: Instance)
    requires SealPos(log, v).Some?
  {
    var at := SealPosBound(log, v);
    && Committed(log[..at], v, i)
    && forall j :: at < j < |log| - refused && log[j].Commit? ==> v < log[j].cert.view
  }

  lemma SealedOwn(log: seq<Msg>, l: Local, p: Replica, f: FastCommit)
    requires p < |l.peers| && FastOk(log, l, p, f) && OwnViews(log) && SealPos(log, f.view).Some?
    ensures SealedSafely(log, 0, f.view, f.instance)
  {
    hide Committed;
    var at := SealPosBound(log, f.view);
    forall j | at < j < |log| && log[j].Commit? ensures f.view < log[j].cert.view {
      CommitsFollowViews(log, at, j);
    }
  }

  /** With the message p threw on. */
  lemma SealedRefused(log: seq<Msg>, m: Msg, l: Local, p: Replica, f: FastCommit)
    requires p < |l.peers| && FastOk(log, l, p, f) && OwnViews(log) && CountedInv(log, l, p)
    requires m.SealView? ==> AllCommitted(l, p)
    requires SealPos(log + [m], f.view).Some?
    ensures SealedSafely(log + [m], 1, f.view, f.instance)
  {
    hide Committed, OwnViews;
    SealPosNext(log, m, f.view);
    if SealPos(log, f.view).Some? {
      SealedOwn(log, l, p, f);
      var at := SealPosBound(log, f.view);
      forall j | at < j < |log| && (log + [m])[j].Commit? ensures f.view < (log + [m])[j].cert.view {
        assert (log + [m])[j] == log[j];
      }
    }
  }

  /** Sealing preserves fast commits, for any replica that follows the protocol, in every run in
      which no fast-committed instance is evicted before it is committed. */
  lemma SealingKeepsFastCommits(c: Config, states: seq<State>, steps: seq<Step>, k: nat, p: Replica)
    requires IsCheckedRun(c, {NoEviction}, states, steps) && AllCountable(c, states, p) && k < |states| && c.Correct(p)
    ensures SealsSafely(states[k], p)
  {
    hide Next, Passes, IsCheckedRun, SealedSafely, AllCountable;
    RunsSeal(c, states, steps, k, p);
    SealsToEnd(c, states[k], p);
  }

  lemma SealsToEnd(c: Config, s: State, p: Replica)
    requires Seals(c, s, p)
    ensures SealsSafely(s, p)
  {
    hide SealedSafely, StreamsInv, OwnViews, SignedInv, OwnCommitsInv, Committed, FastOk;
    var log, l := s.logs[p], s.locals[p];
    assert log[..|log|] == log;
    forall f | f in s.fast && f.sender == p && SealPos(log, f.view).Some? ensures SealedSafely(log, Refused(s, p), f.view, f.instance) {
      if p in s.halted {
        assert OwnLog(s, p) + [log[|log| - 1]] == log;
        assert Top(l) in l.frames;
        SealedRefused(OwnLog(s, p), log[|log| - 1], l, p, f);
      } else {
        SealedOwn(log, l, p, f);
      }
    }
  }

  // ---------- Replicas that never commit ----------

  /** Own commits under verification were broadcast. */
  ghost predicate PendingBroadcast(s: State, p: Replica) {
    && p < |s.logs| && p < |s.locals| && p < |s.locals[p].pending|
    && forall x :: x in s.locals[p].pending[p] ==> Commit(x) in s.logs[p]
  }

  lemma HandledPendingOf(c: Config, l: Local, p: Replica, from: Replica, m: Msg)
    requires Shaped(c, l) && p < c.n && from < c.n && Handle(c, l, p, from, m).Some?
    ensures var l' := Handle(c, l, p, from, m).value;
            forall x :: x in l'.pending[p] ==> x in l.pending[p] || (from == p && m == Commit(x))
  {
    hide Replays, AfterReplay, Evict, Decrement, IsByzantinePrepare, Prune, Best, Batches;
  }

  lemma StepPending(c: Config, s: State, step: Step, s': State, p: Replica)
    requires c.n > 0 && Sane(c, s) && Sane(c, s') && Next(c, s, step, s') && p < c.n && PendingBroadcast(s, p)
    ensures PendingBroadcast(s', p) && s.logs[p] <= s'.logs[p]
  {
    hide CertValid, CertChecked, Promised, CheckpointCertified, Decidable, CanBegin, Checked, SealsAfter;
    match step
    case Deliver(q, from) =>
      HandledPendingOf(c, s.locals[q], q, from, s.logs[from][s.locals[q].peers[from].nextCb]);
      hide Handle;
    case Broadcast(q, m) =>
      HandledPendingOf(c, Popped(s.locals[q]), q, q, m);
      hide Handle;
    case _ =>
      hide PendingBroadcast, Handle;
      QuietPending(c, s, step, s', p);
  }

  lemma QuietPending(c: Config, s: State, step: Step, s': State, p: Replica)
    requires c.n > 0 && Sane(c, s) && Sane(c, s') && Next(c, s, step, s') && p < c.n && PendingBroadcast(s, p) && !step.Deliver? && !step.Broadcast?
    ensures PendingBroadcast(s', p) && s.logs[p] <= s'.logs[p]
  {
    hide CertValid, CertChecked, Promised, CheckpointCertified, Decidable, CanBegin, Handle, SealsAfter;
  }

  lemma {:induction false} RunPending(c: Config, states: seq<State>, steps: seq<Step>, j: nat, k: nat, p: Replica)
    requires IsRun(c, states, steps) && j <= k < |states| && p < c.n
    ensures PendingBroadcast(states[j], p) && PendingBroadcast(states[k], p) && states[j].logs[p] <= states[k].logs[p]
    decreases k
  {
    hide Next, PendingBroadcast;
    if k == 0 {
      StartPending(c, states[0], p);
    } else {
      RunPending(c, states, steps, if j < k then j else k - 1, k - 1, p);
      StepPending(c, states[k - 1], steps[k - 1], states[k], p);
    }
  }

  lemma StartPending(c: Config, s: State, p: Replica)
    requires c.n > 0 && Sane(c, s) && Init(c, s) && p < c.n
    ensures PendingBroadcast(s, p)
  {}

  lemma BroadcastIn(s: State, log: seq<Msg>, p: Replica)
    requires PendingBroadcast(s, p) && s.logs[p] <= log
    ensures forall x :: x in s.locals[p].pending[p] ==> Commit(x) in log
  {
    forall x | x in s.locals[p].pending[p] ensures Commit(x) in log {
      var j :| 0 <= j < |s.logs[p]| && s.logs[p][j] == Commit(x);
      assert log[j] == Commit(x);
    }
  }

  lemma NonePending(s: State, log: seq<Msg>, p: Replica)
    requires PendingBroadcast(s, p) && s.logs[p] <= log && forall m :: m in log ==> !m.Commit?
    ensures s.locals[p].pending[p] == multiset{}
  {
    BroadcastIn(s, log, p);
    hide PendingBroadcast;
    assert forall x :: x !in s.locals[p].pending[p];
  }

  lemma NeverCommits(c: Config, states: seq<State>, steps: seq<Step>, p: Replica)
    requires IsRun(c, states, steps) && p < c.n
    requires forall m :: m in states[|states| - 1].logs[p] ==> !m.Commit?
    ensures AllCountable(c, states, p)
  {
    hide Next;
    forall k | 0 <= k < |states| ensures p < |states[k].locals| && p < |states[k].locals[p].pending| && Countable(states[k].locals[p], p) {
      RunPending(c, states, steps, k, |states| - 1, p);
      NonePending(states[k], states[|states| - 1].logs[p], p);
    }
  }
}
