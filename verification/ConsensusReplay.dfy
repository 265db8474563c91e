/** Verified commits that wait for their prepare: which of them a prepare replays, which it drops and
    which it leaves, and that a commit counts the same whether it is verified before or after. */
module ConsensusReplay {
  import opened Buffers
  import opened Options
  import opened ConsensusLog
  import opened ConsensusProtocol

  predicate For(x: Cert, v: View, i: Instance) {
    x.view == v && x.instance == i
  }

  /** The first k of the queue are older than (v, i), and the next one is not. */
  ghost predicate Leading(queue: seq<Cert>, v: View, i: Instance, k: nat) {
    && k <= |queue|
    && (forall j :: 0 <= j < k ==> Before(queue[j], v, i))
    && (k < |queue| ==> !Before(queue[k], v, i))
  }

  lemma {:induction false} DropStaleExactly(queue: seq<Cert>, v: View, i: Instance) returns (k: nat)
    ensures Leading(queue, v, i, k) && DropStale(queue, v, i) == queue[k..]
  {
    if queue != [] && Before(queue[0], v, i) {
      k := DropStaleExactly(queue[1..], v, i);
      assert queue[1..][k..] == queue[k + 1..];
      k := k + 1;
    } else {
      k := 0;
    }
  }

  /** For any queue: what leads and is older is dropped, the next one is replayed if it is for this
      prepare, and everything behind it stays as it is. */
  lemma ReplaysExactly(queue: seq<Cert>, v: View, i: Instance) returns (k: nat)
    ensures Leading(queue, v, i, k)
    ensures Replays(queue, v, i) <==> k < |queue| && For(queue[k], v, i)
    ensures AfterReplay(queue, v, i) == if Replays(queue, v, i) then queue[k + 1..] else queue[k..]
  {
    k := DropStaleExactly(queue, v, i);
  }

  /** Commits in increasing order of view and instance. */
  ghost predicate InOrder(queue: seq<Cert>) {
    forall a, b :: 0 <= a < b < |queue| ==> Before(queue[a], queue[b].view, queue[b].instance)
  }

  predicate Later(x: Cert, v: View, i: Instance) {
    !Before(x, v, i) && !For(x, v, i)
  }

  /** In a queue in order: a commit for this prepare is replayed wherever it is, and exactly the
      later ones stay. */
  lemma InOrderReplays(queue: seq<Cert>, v: View, i: Instance)
    requires InOrder(queue)
    ensures Replays(queue, v, i) <==> exists x :: x in queue && For(x, v, i)
    ensures InOrder(AfterReplay(queue, v, i)) && forall x :: x in AfterReplay(queue, v, i) <==> x in queue && Later(x, v, i)
  {
    var k := ReplaysExactly(queue, v, i);
    hide Replays, AfterReplay;
    var at := if Replays(queue, v, i) then k + 1 else k;
    forall j | 0 <= j < |queue| ensures For(queue[j], v, i) ==> j == k && at == k + 1
                                ensures Later(queue[j], v, i) <==> at <= j {
      if k < j {
        assert Before(queue[k], queue[j].view, queue[j].instance);
      }
    }
    var after := AfterReplay(queue, v, i);
    assert after == queue[at..];
    forall x | x in queue && Later(x, v, i) ensures x in after {
      var j :| 0 <= j < |queue| && queue[j] == x;
      assert after[j - at] == x;
    }
  }

  /** Otherwise one for this prepare is missed exactly if a later one was verified before it. */
  lemma MissedExactly(queue: seq<Cert>, v: View, i: Instance, j: nat)
    requires j < |queue| && For(queue[j], v, i) && forall k :: 0 <= k < j ==> !For(queue[k], v, i)
    ensures !Replays(queue, v, i) <==> exists k :: 0 <= k < j && Later(queue[k], v, i)
  {
    var at := ReplaysExactly(queue, v, i);
    if at < j {
      assert Later(queue[at], v, i);
    }
  }

  // ---------- The commits that wait ----------

  /** A verified commit without a slot waits: the newest ones are kept, as many as the window. */
  lemma CommitWaits(c: Config, l: Local, r: Replica, cert: Cert)
    requires Shaped(c, l) && r < c.n && cert.instance !in l.slots
    ensures HandleVerified(c, l, r, cert).Some?
    ensures HandleVerified(c, l, r, cert).value.buffered == l.buffered[r := Push(l.buffered[r], c.window, cert)]
  {}

  // ---------- The handler of a prepare ----------

  /** The prepare is for the view of the replica, and no checkpoint has overtaken it. */
  predicate Taken(c: Config, l: Local, me: Replica, from: Replica, v: View, i: Instance, b: Batch)
    requires Shaped(c, l) && me < c.n && from < c.n
  {
    HandlePrepare(c, l, me, from, v, i, b).Some? && v == l.peers[me].view && l.certified <= i
  }

  /** Exactly the replicas with a commit for the prepare waiting are counted, and of each exactly
      the later commits stay. */
  lemma PrepareReplays(c: Config, l: Local, me: Replica, from: Replica, v: View, i: Instance, b: Batch, r: Replica)
    requires Shaped(c, l) && me < c.n && from < c.n && Taken(c, l, me, from, v, i, b)
    requires r < c.n && InOrder(l.buffered[r])
    ensures var l' := HandlePrepare(c, l, me, from, v, i, b).value;
            && i in l'.slots && l'.slots[i].view == v && l'.slots[i].batch == b
            && (r in l'.slots[i].slow <==> exists x :: x in l.buffered[r] && For(x, v, i))
            && InOrder(l'.buffered[r])
            && forall x :: x in l'.buffered[r] <==> x in l.buffered[r] && Later(x, v, i)
  {
    InOrderReplays(l.buffered[r], v, i);
    hide IsByzantinePrepare, Replays, AfterReplay, Evict;
  }

  function Counted(peer: Peer): Peer {
    peer.(outstanding := Decrement(peer.outstanding))
  }

  /** A commit verified before its prepare is handled counts as one verified after it, but that the
      counter of commits under verification is decremented twice. */
  lemma CommitAndPrepareCommute(c: Config, l: Local, me: Replica, from: Replica, v: View, i: Instance, b: Batch, r: Replica, cert: Cert)
    requires Shaped(c, l) && me < c.n && from < c.n && Taken(c, l, me, from, v, i, b) && c.window > 0
    requires r < c.n && For(cert, v, i) && |l.buffered[r]| <= c.window && forall x :: x in l.buffered[r] ==> Before(x, v, i)
    ensures var first := HandleVerified(c, HandlePrepare(c, l, me, from, v, i, b).value, r, cert);
            var last := HandlePrepare(c, HandleVerified(c, l, r, cert).value, me, from, v, i, b);
            && first.Some? && last.Some?
            && i in first.value.slots && r in first.value.slots[i].slow
            && last.value == first.value.(peers := first.value.peers[r := Counted(first.value.peers[r])])
  {
    var w := HandleVerified(c, l, r, cert).value;
    assert i !in l.slots by { hide *; NotYetThere(c, l, me, from, v, i, b); }
    hide HandlePrepare, IsByzantinePrepare, Replays, AfterReplay, Insert, Decrement;
    Waits(c, l, r, cert);
    hide HandleVerified;
    QueueThen(l.buffered[r], cert, v, i, c.window);
    TakenAlike(c, l, w, me, from, v, i, b);
    InsertsCommute(c, l, w, from, v, i, b, r, cert);
  }

  lemma NotYetThere(c: Config, l: Local, me: Replica, from: Replica, v: View, i: Instance, b: Batch)
    requires Shaped(c, l) && me < c.n && from < c.n && Taken(c, l, me, from, v, i, b)
    ensures i !in l.slots
  {}

  lemma Waits(c: Config, l: Local, r: Replica, cert: Cert)
    requires Shaped(c, l) && r < c.n && cert.instance !in l.slots
    ensures HandleVerified(c, l, r, cert) ==
              Some(l.(peers := l.peers[r := Counted(l.peers[r])], pending := l.pending[r := l.pending[r] - multiset{cert}],
                      buffered := l.buffered[r := Push(l.buffered[r], c.window, cert)]))
  {}

  /** What is under verification does not matter for a prepare. */
  lemma TakenAlike(c: Config, l: Local, w: Local, me: Replica, from: Replica, v: View, i: Instance, b: Batch)
    requires Shaped(c, l) && Shaped(c, w) && me < c.n && from < c.n && Taken(c, l, me, from, v, i, b)
    requires w.slots == l.slots && w.minKey == l.minKey && w.certified == l.certified
    requires forall q :: 0 <= q < c.n ==> w.peers[q] == l.peers[q] || w.peers[q] == Counted(l.peers[q])
    ensures HandlePrepare(c, l, me, from, v, i, b) == Some(Insert(c, l, from, v, i, b))
    ensures HandlePrepare(c, w, me, from, v, i, b) == Some(Insert(c, w, from, v, i, b))
  {
    hide Insert, Decrement;
    assert w.peers[from].(outstanding := 0) == l.peers[from].(outstanding := 0);
    assert w.peers[me].(outstanding := 0) == l.peers[me].(outstanding := 0);
  }

  lemma InsertsCommute(c: Config, l: Local, w: Local, from: Replica, v: View, i: Instance, b: Batch, r: Replica, cert: Cert)
    requires Shaped(c, l) && Shaped(c, w) && from < c.n && r < c.n && For(cert, v, i)
    requires w == l.(peers := l.peers[r := Counted(l.peers[r])], pending := l.pending[r := l.pending[r] - multiset{cert}],
                     buffered := l.buffered[r := w.buffered[r]])
    requires Replays(w.buffered[r], v, i) && !Replays(l.buffered[r], v, i)
    requires AfterReplay(w.buffered[r], v, i) == [] && AfterReplay(l.buffered[r], v, i) == []
    ensures var first, last := HandleVerified(c, Insert(c, l, from, v, i, b), r, cert), Insert(c, w, from, v, i, b);
            && first.Some? && i in first.value.slots && r in first.value.slots[i].slow
            && last == first.value.(peers := first.value.peers[r := Counted(first.value.peers[r])])
  {
    hide Replays, AfterReplay, Evict, PeerAfterPrepare, Insert, HandleVerified, Voters, Decrement;
    var p, last := Insert(c, l, from, v, i, b), Insert(c, w, from, v, i, b);
    Inserted(c, l, from, v, i, b);
    Inserted(c, w, from, v, i, b);
    SameVoters(c, l, w, v, i, r);
    assert r !in p.slots[i].slow by { NotVoter(c, l, v, i, r); }
    Counts(c, p, r, cert);
    SamePeer(l.peers[r], r == from, i);
    var peers := p.peers[r := Counted(p.peers[r])];
    assert last.peers == peers[r := Counted(peers[r])];
    assert last.buffered == p.buffered;
  }

  lemma Inserted(c: Config, l: Local, from: Replica, v: View, i: Instance, b: Batch)
    requires Shaped(c, l) && from < c.n
    ensures var p := Insert(c, l, from, v, i, b);
            && p == l.(slots := Evict(l.slots, c.window, i)[i := Slot(v, b, {}, Voters(c, l, v, i), false, false)], minKey := i,
                       buffered := p.buffered, peers := p.peers)
            && Shaped(c, p)
            && (forall q :: 0 <= q < c.n ==> p.buffered[q] == AfterReplay(l.buffered[q], v, i))
            && forall q :: 0 <= q < c.n ==> p.peers[q] == PeerAfterPrepare(l.peers[q], q == from, Replays(l.buffered[q], v, i), i)
  {
    hide Replays, AfterReplay, Evict, PeerAfterPrepare;
  }

  lemma Counts(c: Config, p: Local, r: Replica, cert: Cert)
    requires Shaped(c, p) && r < c.n && cert.instance in p.slots && r !in p.slots[cert.instance].slow
    ensures var slot := p.slots[cert.instance];
            HandleVerified(c, p, r, cert) ==
              Some(p.(peers := p.peers[r := Counted(p.peers[r])], pending := p.pending[r := p.pending[r] - multiset{cert}],
                      slots := p.slots[cert.instance := slot.(slow := slot.slow + {r})]))
  {}

  function Voters(c: Config, l: Local, v: View, i: Instance): set<Replica>
    requires Shaped(c, l)
  {
    set q: nat | q < c.n && Replays(l.buffered[q], v, i)
  }

  lemma NotVoter(c: Config, l: Local, v: View, i: Instance, r: Replica)
    requires Shaped(c, l) && r < c.n && !Replays(l.buffered[r], v, i)
    ensures r !in Voters(c, l, v, i)
  {}

  lemma SamePeer(peer: Peer, isSender: bool, i: Instance)
    ensures PeerAfterPrepare(Counted(peer), isSender, true, i) == Counted(Counted(PeerAfterPrepare(peer, isSender, false, i)))
  {}

  lemma QueueThen(queue: seq<Cert>, cert: Cert, v: View, i: Instance, window: nat)
    requires For(cert, v, i) && |queue| <= window && window > 0 && forall x :: x in queue ==> Before(x, v, i)
    ensures var kept := Push(queue, window, cert);
            Replays(kept, v, i) && AfterReplay(kept, v, i) == [] && !Replays(queue, v, i) && AfterReplay(queue, v, i) == []
  {
    var kept := Push(queue, window, cert);
    var k := ReplaysExactly(queue, v, i);
    var m := ReplaysExactly(kept, v, i);
    assert kept[|kept| - 1] == cert;
    assert forall j :: 0 <= j < |kept| - 1 ==> kept[j] in queue;
  }

  lemma SameVoters(c: Config, l: Local, w: Local, v: View, i: Instance, r: Replica)
    requires Shaped(c, l) && Shaped(c, w) && r < c.n && w.buffered == l.buffered[r := w.buffered[r]]
    requires Replays(w.buffered[r], v, i) && !Replays(l.buffered[r], v, i)
    ensures Voters(c, w, v, i) == Voters(c, l, v, i) + {r}
  {
    hide Replays;
  }
}
