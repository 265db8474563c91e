/** Each handler keeps the local invariant of the replica that runs it. */
module ConsensusHandlers {
  import opened Options
  import opened ConsensusLog
  import opened ConsensusProtocol
  import opened ConsensusInvariant
  import opened ConsensusAgreement
  import opened Quorums

  // ---------- Quorums of signatures ----------

  /** A quorum has a correct member. */
  lemma CorrectSigner(c: Config, signers: set<Replica>) returns (r: Replica)
    requires c.Valid() && signers <= Group(c.n) && |signers| == c.Quorum()
    ensures r in signers && c.Correct(r)
  {
    if signers <= c.byzantine {
      SubsetSize(signers, c.byzantine);
    }
    r :| r in signers && r !in c.byzantine;
  }

  /** Certified values are unique: a valid certificate carries what the leader first prepared. */
  lemma CertifiedIsPrepared(c: Config, logs: Logs, shares: set<Share>, cert: Cert)
    requires c.Valid() && |logs| == c.n > 0 && SharesInv(c, logs, shares) && CertValid(c, shares, cert)
    ensures Prepared(c, logs, cert.view, cert.instance) == Some(cert.batch)
    ensures Acked(shares, cert.view, cert.instance, cert.batch)
  {
    hide Prepared, Justified;
    var r := CorrectSigner(c, cert.signers);
    assert Share(r, cert.view, cert.instance, cert.batch) in shares;
  }

  /** A valid view-change certificate tells the truth about its replica's stream. */
  lemma CertifiedStateIsGood(c: Config, logs: Logs, shares: set<Share>, seals: set<SealShare>, st: VcState)
    requires c.Valid() && SealsInv(c, logs, shares, seals) && StateValid(c, seals, st)
    ensures StateGood(c, logs, shares, st.replica, st.view, st.commits)
  {
    hide StateGood;
    var r := CorrectSigner(c, st.signers);
    assert SealShare(r, st.replica, st.view, st.commits) in seals;
  }

  // ---------- Advancing along a stream ----------

  function LogStateOf(peer: Peer): LogState { LogState(peer.view, peer.commits, peer.low) }

  lemma PeerAdvances(c: Config, logs: Logs, l: Local, l': Local, q: Replica)
    requires |logs| == c.n && Shaped(c, l) && Shaped(c, l') && q < c.n && PeerInv(c, logs, l, q)
    requires l.peers[q].nextCb < |logs[q]|
    requires var m := logs[q][l.peers[q].nextCb];
             && Acceptable(c.window, LogStateOf(l.peers[q]), m)
             && LogStateOf(l'.peers[q]) == Apply(LogStateOf(l.peers[q]), m)
    requires l'.peers[q].nextCb == l.peers[q].nextCb + 1 && l'.peers[q].low <= l'.certified
    ensures PeerInv(c, logs, l', q)
  {
    hide Apply, Acceptable;
    AcceptedNext(c.window, logs[q], l.peers[q].nextCb);
    FoldNext(logs[q], l.peers[q].nextCb);
  }

  lemma SeenAdvances(c: Config, logs: Logs, l: Local, l': Local, p: Replica, q: Replica)
    requires |logs| == c.n && Shaped(c, l) && Shaped(c, l') && p < c.n && q < c.n && SeenInv(c, logs, l, p, q)
    requires l.peers[q].nextCb < |logs[q]| && l'.peers[q].nextCb == l.peers[q].nextCb + 1
    requires forall v, i :: OutOfReach(l, p, v, i) ==> OutOfReach(l', p, v, i)
    requires var m := logs[q][l.peers[q].nextCb];
             m.Prepare? && c.Leader(m.view) == q ==> OutOfReach(l', p, m.view, m.instance)
    ensures SeenInv(c, logs, l', p, q)
  {
    hide OutOfReach;
    var at := l.peers[q].nextCb;
    forall v: View, i: Instance | c.Leader(v) == q && First(logs[q][..at + 1], v, i).Some?
      ensures OutOfReach(l', p, v, i)
    {
      FirstNext(logs[q], at, v, i);
    }
  }

  /** A message other than Commit leaves the certificates as they are. */
  lemma CertsAdvance(c: Config, logs: Logs, shares: set<Share>, l: Local, l': Local, q: Replica)
    requires |logs| == c.n && Shaped(c, l) && Shaped(c, l') && q < c.n && CertsInv(c, logs, shares, l, q)
    requires l.peers[q].nextCb < |logs[q]| && !logs[q][l.peers[q].nextCb].Commit?
    requires l'.peers[q].nextCb <= l.peers[q].nextCb + 1
    requires l'.pending[q] == l.pending[q] && forall x :: x in l'.buffered[q] ==> x in l.buffered[q]
    ensures CertsInv(c, logs, shares, l', q)
  {
    hide Pinned, CertValid;
  }

  /** What a replica has seen stays seen: instances leave the slots only below
      the certified checkpoint, or all together when it seals its view. */
  ghost predicate Advances(p: Replica, l: Local, l': Local) {
    && p < |l.peers| && p < |l'.peers|
    && l.certified <= l'.certified
    && (|| l.peers[p].view < l'.peers[p].view
        || (l.peers[p].view == l'.peers[p].view && forall i :: i in l.slots ==> i in l'.slots || i < l'.certified))
  }

  lemma ReachShrinks(p: Replica, l: Local, l': Local)
    requires Advances(p, l, l')
    ensures forall v, i :: OutOfReach(l, p, v, i) ==> OutOfReach(l', p, v, i)
  {}

  lemma ValidStays(c: Config, logs: Logs, shares: set<Share>, l: Local, l': Local, p: Replica, q: Replica)
    requires Shaped(c, l) && Shaped(c, l') && p < c.n && q < c.n && Advances(p, l, l')
    requires ValidInv(c, logs, shares, l, p, q)
    requires l'.peers[q].valid == l.peers[q].valid && l'.peers[q].nextPrepare == l.peers[q].nextPrepare
    ensures ValidInv(c, logs, shares, l', p, q)
  {
    hide GoodNewView, Best;
  }

  ghost predicate SamePeer(l: Local, l': Local, q: Replica) {
    && q < |l.peers| && q < |l'.peers| && q < |l.pending| && q < |l'.pending| && q < |l.buffered| && q < |l'.buffered|
    && LogStateOf(l'.peers[q]) == LogStateOf(l.peers[q])
    && l'.peers[q].nextCb == l.peers[q].nextCb
    && l'.peers[q].nextPrepare == l.peers[q].nextPrepare
    && l'.peers[q].valid == l.peers[q].valid
    && l'.pending[q] == l.pending[q]
    && forall x :: x in l'.buffered[q] ==> x in l.buffered[q]
  }

  lemma StreamStays(c: Config, logs: Logs, shares: set<Share>, l: Local, l': Local, p: Replica, q: Replica)
    requires StreamInv(c, logs, shares, l, p, q) && Shaped(c, l') && Advances(p, l, l') && SamePeer(l, l', q)
    ensures StreamInv(c, logs, shares, l', p, q)
  {
    hide Pinned, CertValid, Fold, Accepted, First, OutOfReach;
    ValidStays(c, logs, shares, l, l', p, q);
    ReachShrinks(p, l, l');
    hide Advances, ValidInv;
  }

  /** All streams but the one delivered from are as before. */
  lemma OtherStreamsStay(c: Config, logs: Logs, shares: set<Share>, l: Local, l': Local, p: Replica, from: Replica)
    requires |logs| == c.n && Shaped(c, l) && Shaped(c, l') && p < c.n && Advances(p, l, l')
    requires forall q :: 0 <= q < c.n ==> StreamInv(c, logs, shares, l, p, q)
    requires forall q :: 0 <= q < c.n && q != from ==> SamePeer(l, l', q)
    requires from < c.n ==> StreamInv(c, logs, shares, l', p, from)
    ensures forall q :: 0 <= q < c.n ==> StreamInv(c, logs, shares, l', p, q)
  {
    hide StreamInv, SamePeer, Advances;
    forall q: nat | q < c.n ensures StreamInv(c, logs, shares, l', p, q) {
      if q != from {
        StreamStays(c, logs, shares, l, l', p, q);
      }
    }
  }

  // ---------- Handlers ----------

  ghost predicate Delivering(c: Config, logs: Logs, l: Local, from: Replica, m: Msg) {
    |logs| == c.n && Shaped(c, l) && from < c.n && l.peers[from].nextCb < |logs[from]| && logs[from][l.peers[from].nextCb] == m
  }

  lemma MalformedKeeps(c: Config, logs: Logs, shares: set<Share>, p: Replica, l: Local, from: Replica)
    requires Delivering(c, logs, l, from, Malformed) && StreamInv(c, logs, shares, l, p, from)
    ensures StreamInv(c, logs, shares, Bump(l, from), p, from)
  {
    hide ValidInv, CertsInv, SeenInv;
    var l' := Bump(l, from);
    PeerAdvances(c, logs, l, l', from);
    CertsAdvance(c, logs, shares, l, l', from);
    SeenAdvances(c, logs, l, l', p, from);
    ValidStays(c, logs, shares, l, l', p, from);
  }

  lemma CheckpointKeeps(c: Config, logs: Logs, shares: set<Share>, p: Replica, l: Local, from: Replica, index: Instance, low: Instance)
    requires Delivering(c, logs, l, from, Checkpoint(index, low)) && StreamInv(c, logs, shares, l, p, from)
    requires HandleCheckpoint(c, Bump(l, from), from, index, low).Some? && l.peers[from].low <= low
    ensures var l' := HandleCheckpoint(c, Bump(l, from), from, index, low).value;
            StreamInv(c, logs, shares, l', p, from) && Advances(p, l, l')
  {
    hide ValidInv, CertsInv, SeenInv;
    var l' := HandleCheckpoint(c, Bump(l, from), from, index, low).value;
    PeerAdvances(c, logs, l, l', from);
    CertsAdvance(c, logs, shares, l, l', from);
    ReachShrinks(p, l, l');
    SeenAdvances(c, logs, l, l', p, from);
    ValidStays(c, logs, shares, l, l', p, from);
  }

  /** A commit just delivered is pinned in its stream. */
  lemma CommitPinned(c: Config, logs: Logs, l: Local, from: Replica, cert: Cert)
    requires Delivering(c, logs, l, from, Commit(cert)) && PeerInv(c, logs, l, from)
    requires cert.view == l.peers[from].view
    ensures Pinned(logs[from], cert.view, cert.instance)
  {
    var at := l.peers[from].nextCb;
    FoldNext(logs[from], at);
    assert Kept(Fold(logs[from][..at + 1]), cert.view, cert.instance);
  }

  lemma CommitKeeps(c: Config, logs: Logs, shares: set<Share>, p: Replica, l: Local, from: Replica, cert: Cert)
    requires Delivering(c, logs, l, from, Commit(cert)) && StreamInv(c, logs, shares, l, p, from)
    requires HandleCommit(c, Bump(l, from), from, cert).Some?
    ensures var l' := HandleCommit(c, Bump(l, from), from, cert).value;
            StreamInv(c, logs, shares, l', p, from) && Advances(p, l, l')
  {
    hide ValidInv, SeenInv, Pinned, CertValid;
    var l' := HandleCommit(c, Bump(l, from), from, cert).value;
    PeerAdvances(c, logs, l, l', from);
    SeenAdvances(c, logs, l, l', p, from);
    ValidStays(c, logs, shares, l, l', p, from);
    CommitPinned(c, logs, l, from, cert);
    assert CertsInv(c, logs, shares, l', from);
  }

  lemma SealViewKeeps(c: Config, logs: Logs, shares: set<Share>, p: Replica, l: Local, from: Replica)
    requires Delivering(c, logs, l, from, SealView) && StreamInv(c, logs, shares, l, p, from)
    requires HandleSealView(c, Bump(l, from), from).Some?
    ensures var l' := AfterBroadcast(HandleSealView(c, Bump(l, from), from).value, if from == p then SealView else Malformed);
            StreamInv(c, logs, shares, l', p, from) && Advances(p, l, l')
  {
    hide ValidInv, CertsInv, SeenInv;
    var l' := AfterBroadcast(HandleSealView(c, Bump(l, from), from).value, if from == p then SealView else Malformed);
    PeerAdvances(c, logs, l, l', from);
    CertsAdvance(c, logs, shares, l, l', from);
    ReachShrinks(p, l, l');
    SeenAdvances(c, logs, l, l', p, from);
    ValidStays(c, logs, shares, l, l', p, from);
  }

  lemma NewViewGood(c: Config, logs: Logs, shares: set<Share>, seals: set<SealShare>, v: View, states: seq<VcState>)
    requires c.Valid() && |logs| == c.n && SealsInv(c, logs, shares, seals)
    requires |states| == c.Quorum() && Distinct(states) && AllOfView(states, v) && AllValid(c, seals, states)
    ensures GoodNewView(c, logs, shares, v, states)
  {
    hide StateGood, SealsInv, StateValid;
    forall k | 0 <= k < |states| ensures StateGood(c, logs, shares, states[k].replica, v - 1, states[k].commits) {
      CertifiedStateIsGood(c, logs, shares, seals, states[k]);
    }
    assert states[0].view + 1 == v;
  }

  /** The message is noted, the view to be changed first. */
  lemma NewViewPushed(c: Config, logs: Logs, shares: set<Share>, p: Replica, l: Local, from: Replica, v: View, states: seq<VcState>, l': Local)
    requires Delivering(c, logs, l, from, NewView(v, states)) && StreamInv(c, logs, shares, l, p, from)
    requires Shaped(c, l') && l'.peers == Bump(l, from).peers && l'.slots == l.slots && l'.certified == l.certified
    requires l'.pending == l.pending && l'.buffered == l.buffered
    ensures StreamInv(c, logs, shares, l', p, from) && Advances(p, l, l')
  {
    hide ValidInv, CertsInv, SeenInv;
    PeerAdvances(c, logs, l, l', from);
    CertsAdvance(c, logs, shares, l, l', from);
    SeenAdvances(c, logs, l, l', p, from);
    ValidStays(c, logs, shares, l, l', p, from);
  }

  /** The valid values of a NewView are set. */
  lemma OpenedKeeps(c: Config, logs: Logs, shares: set<Share>, p: Replica, l: Local, from: Replica, v: View, states: seq<VcState>)
    requires p < c.n && from < c.n && StreamInv(c, logs, shares, l, p, from) && v <= l.peers[p].view
    requires GoodNewView(c, logs, shares, v, states)
    ensures StreamInv(c, logs, shares, Opened(c, l, from, v, states), p, from) && Advances(p, l, Opened(c, l, from, v, states))
  {
    hide CertsInv, SeenInv, GoodNewView, Best;
    var l' := Opened(c, l, from, v, states);
    assert ValidInv(c, logs, shares, l', p, from);
    assert PeerInv(c, logs, l', from);
    OpenedSeen(c, logs, shares, p, l, from, v, states);
  }

  lemma OpenedSeen(c: Config, logs: Logs, shares: set<Share>, p: Replica, l: Local, from: Replica, v: View, states: seq<VcState>)
    requires |logs| == c.n && Shaped(c, l) && p < c.n && from < c.n && CertsInv(c, logs, shares, l, from) && SeenInv(c, logs, l, p, from)
    ensures CertsInv(c, logs, shares, Opened(c, l, from, v, states), from) && SeenInv(c, logs, Opened(c, l, from, v, states), p, from)
  {
    hide Best, Pinned, CertValid, First;
  }

  lemma NewViewKeeps(c: Config, logs: Logs, shares: set<Share>, p: Replica, l: Local, from: Replica, v: View, states: seq<VcState>)
    requires p < c.n && Delivering(c, logs, l, from, NewView(v, states)) && StreamInv(c, logs, shares, l, p, from)
    requires HandleNewView(c, Bump(l, from), p, from, v, states).Some?
    requires GoodNewView(c, logs, shares, v, states)
    ensures var l' := HandleNewView(c, Bump(l, from), p, from, v, states).value;
            StreamInv(c, logs, shares, l', p, from) && Advances(p, l, l')
  {
    hide StreamInv, GoodNewView, Opened;
    var l1 := Bump(l, from);
    if l1.peers[p].view < v {
      NewViewPushed(c, logs, shares, p, l, from, v, states, HandleNewView(c, l1, p, from, v, states).value);
    } else {
      NewViewPushed(c, logs, shares, p, l, from, v, states, l1);
      OpenedKeeps(c, logs, shares, p, l1, from, v, states);
    }
  }

  // ---------- Prepares ----------

  /** What `handlePrepare` has checked before it inserts. */
  ghost predicate Inserting(c: Config, logs: Logs, l: Local, p: Replica, from: Replica, v: View, i: Instance, b: Batch) {
    && p < c.n
    && Delivering(c, logs, l, from, Prepare(v, i, b))
    && !IsByzantinePrepare(c, Bump(l, from), from, v, i, b)
    && v == l.peers[p].view
    && l.certified <= i
  }

  lemma InsertingFirst(c: Config, logs: Logs, shares: set<Share>, l: Local, p: Replica, from: Replica, v: View, i: Instance, b: Batch)
    requires Inserting(c, logs, l, p, from, v, i, b) && StreamInv(c, logs, shares, l, p, from)
    ensures Prepared(c, logs, v, i) == Some(b)
  {
    hide PeerInv, CertsInv, ValidInv;
    var at := l.peers[from].nextCb;
    FirstNext(logs[from], at, v, i);
    FirstPrefix(logs[from], at + 1, v, i);
    assert !OutOfReach(l, p, v, i);
  }

  lemma {:induction false} CommitsInWindow(window: nat, log: seq<Msg>)
    requires Accepted(window, log)
    ensures forall i :: i in Fold(log).commits ==> i < Fold(log).low + window
  {
    if log != [] {
      CommitsInWindow(window, log[..|log| - 1]);
    }
  }

  /** Above all checkpoints of the states, no value is left behind by the tail map. */
  lemma NotLeftBehind(c: Config, logs: Logs, shares: set<Share>, v: View, states: seq<VcState>, i: Instance)
    requires GoodNewView(c, logs, shares, v, states) && AboveCheckpoints(logs, states, v - 1, i)
    ensures !LeftBehind(c.window, states, i)
  {
    forall j | j in Best(states) ensures j < i + c.window {
      hide Best;
      var k := BestFrom(states, j);
      var log := logs[states[k].replica];
      assert StateGood(c, logs, shares, states[k].replica, v - 1, states[k].commits);
      CommitsInWindow(c.window, log[..SealPosBound(log, v - 1)]);
    }
  }

  lemma InsertingJustified(c: Config, logs: Logs, shares: set<Share>, l: Local, p: Replica, from: Replica, v: View, i: Instance, b: Batch)
    requires Inserting(c, logs, l, p, from, v, i, b) && StreamInv(c, logs, shares, l, p, from)
    requires var valid := l.peers[from].valid;
             v != 0 && valid.Some? ==> valid.value.view == v && AboveCheckpoints(logs, valid.value.states, v - 1, i)
    ensures Justified(c, logs, shares, v, i, b)
  {
    hide PeerInv, CertsInv, SeenInv, GoodNewView, Best, AboveCheckpoints, LeftBehind;
    if v != 0 {
      var nv := l.peers[from].valid.value;
      if i in Best(nv.states) {
        assert StillBinds(c.window, l, p, l.peers[from], nv, i);
        NotLeftBehind(c, logs, shares, v, nv.states, i);
      }
      assert Obeys(c, logs, shares, v, i, b, nv.states);
    }
  }

  ghost function Voters(c: Config, l: Local, v: View, i: Instance): set<Replica>
    requires Shaped(c, l)
  {
    set r: nat | r < c.n && Replays(l.buffered[r], v, i)
  }

  lemma VoterPinned(c: Config, logs: Logs, shares: set<Share>, l: Local, r: Replica, v: View, i: Instance)
    requires c.Valid() && |logs| == c.n > 0 && Shaped(c, l) && r < c.n && CertsInv(c, logs, shares, l, r)
    requires Replays(l.buffered[r], v, i) && SharesInv(c, logs, shares)
    ensures Pinned(logs[r], v, i)
    ensures Prepared(c, logs, v, i).Some? && Acked(shares, v, i, Prepared(c, logs, v, i).value)
  {
    hide SharesInv, Pinned, Prepared;
    var x := DropStale(l.buffered[r], v, i)[0];
    assert x in DropStale(l.buffered[r], v, i);
    CertifiedIsPrepared(c, logs, shares, x);
  }

  lemma InsertedSlot(c: Config, logs: Logs, shares: set<Share>, fast: set<FastCommit>, l: Local, p: Replica, from: Replica, v: View, i: Instance, b: Batch)
    requires c.Valid() && Inserting(c, logs, l, p, from, v, i, b) && SharesInv(c, logs, shares)
    requires forall q :: 0 <= q < c.n ==> StreamInv(c, logs, shares, l, p, q)
    requires var valid := l.peers[from].valid;
             v != 0 && valid.Some? ==> valid.value.view == v && AboveCheckpoints(logs, valid.value.states, v - 1, i)
    ensures SlotInv(c, logs, shares, fast, p, v, i, Slot(v, b, {}, Voters(c, l, v, i), false, false))
  {
    InsertingFirst(c, logs, shares, l, p, from, v, i, b);
    InsertingJustified(c, logs, shares, l, p, from, v, i, b);
    hide Justified, SharesInv, Pinned, Prepared, AboveCheckpoints;
    forall r | r in Voters(c, l, v, i) ensures Pinned(logs[r], v, i) && Acked(shares, v, i, b) {
      assert StreamInv(c, logs, shares, l, p, r);
      VoterPinned(c, logs, shares, l, r, v, i);
    }
  }

  lemma InsertOthers(c: Config, logs: Logs, l: Local, p: Replica, from: Replica, v: View, i: Instance, b: Batch)
    requires Inserting(c, logs, l, p, from, v, i, b)
    ensures forall q :: 0 <= q < c.n && q != from ==> SamePeer(l, Insert(c, Bump(l, from), from, v, i, b), q)
  {
    hide Replays, Evict, Decrement;
  }

  lemma InsertSender(c: Config, logs: Logs, shares: set<Share>, l: Local, p: Replica, from: Replica, v: View, i: Instance, b: Batch)
    requires Inserting(c, logs, l, p, from, v, i, b)
    requires StreamInv(c, logs, shares, l, p, from)
    ensures var l' := Insert(c, Bump(l, from), from, v, i, b);
            Advances(p, l, l') && StreamInv(c, logs, shares, l', p, from)
  {
    var l' := Insert(c, Bump(l, from), from, v, i, b);
    hide Fold, Accepted, First, Replays, Pinned, CertValid, Decrement;
    assert Advances(p, l, l');
    ReachShrinks(p, l, l');
    hide Advances;
    PeerAdvances(c, logs, l, l', from);
    CertsAdvance(c, logs, shares, l, l', from);
    SeenAdvances(c, logs, l, l', p, from);
    InsertValid(c, logs, shares, l, p, from, v, i, b);
    hide PeerInv, CertsInv, SeenInv, ValidInv;
    Together(c, logs, shares, l', p, from);
  }

  lemma InsertStreams(c: Config, logs: Logs, shares: set<Share>, l: Local, p: Replica, from: Replica, v: View, i: Instance, b: Batch)
    requires Inserting(c, logs, l, p, from, v, i, b)
    requires forall q :: 0 <= q < c.n ==> StreamInv(c, logs, shares, l, p, q)
    ensures var l' := Insert(c, Bump(l, from), from, v, i, b);
            Advances(p, l, l') && forall q :: 0 <= q < c.n ==> StreamInv(c, logs, shares, l', p, q)
  {
    hide StreamInv, SamePeer, Advances, Insert, IsByzantinePrepare;
    InsertSender(c, logs, shares, l, p, from, v, i, b);
    InsertOthers(c, logs, l, p, from, v, i, b);
    OtherStreamsStay(c, logs, shares, l, Insert(c, Bump(l, from), from, v, i, b), p, from);
  }

  /** What an insertion does to the valid values of its sender. */
  ghost predicate ValuesPruned(peer: Peer, peer': Peer, i: Instance) {
    && peer'.nextPrepare == i
    && (peer'.valid.Some? <==> peer.valid.Some?)
    && (peer'.valid.Some? ==>
          var nv, nv' := peer.valid.value, peer'.valid.value;
          && nv'.view == nv.view && nv'.states == nv.states
          && forall k :: k in nv.values && i < k ==> k in nv'.values && nv'.values[k] == nv.values[k])
  }

  lemma InsertPrunes(c: Config, l: Local, p: Replica, from: Replica, v: View, i: Instance, b: Batch)
    requires Shaped(c, l) && p < c.n && from < c.n
    ensures var l' := Insert(c, l, from, v, i, b);
            && ValuesPruned(l.peers[from], l'.peers[from], i) && l'.peers[p].view == l.peers[p].view && i in l'.slots && l'.certified == l.certified
  {
    hide Replays, AfterReplay, Evict, Decrement;
  }

  lemma InsertValid(c: Config, logs: Logs, shares: set<Share>, l: Local, p: Replica, from: Replica, v: View, i: Instance, b: Batch)
    requires Inserting(c, logs, l, p, from, v, i, b) && ValidInv(c, logs, shares, l, p, from)
    ensures ValidInv(c, logs, shares, Insert(c, Bump(l, from), from, v, i, b), p, from)
  {
    hide GoodNewView, Best, Insert, LeftBehind;
    var l' := Insert(c, Bump(l, from), from, v, i, b);
    InsertPrunes(c, Bump(l, from), p, from, v, i, b);
    var peer, peer' := l.peers[from], l'.peers[from];
    if peer'.valid.Some? {
      var nv, nv' := peer.valid.value, peer'.valid.value;
      forall j | j in Best(nv'.states) ensures StillBinds(c.window, l', p, peer', nv', j) {
        assert StillBinds(c.window, l, p, peer, nv, j);
      }
    }
  }

  lemma Together(c: Config, logs: Logs, shares: set<Share>, l: Local, p: Replica, q: Replica)
    requires |logs| == c.n && Shaped(c, l) && p < c.n && q < c.n
    requires PeerInv(c, logs, l, q) && CertsInv(c, logs, shares, l, q) && ValidInv(c, logs, shares, l, p, q) && SeenInv(c, logs, l, p, q)
    ensures StreamInv(c, logs, shares, l, p, q)
  {}
}
