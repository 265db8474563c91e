/** One replica as an object whose handlers update its fields, proved to be the handlers of
    the protocol. */
module ConsensusReplica {
  import opened Options
  import opened ConsensusLog
  import opened ConsensusProtocol

  // ---------- The values of a NewView ----------

  /** `NewViewMessage::validValues`: the states one after the other, each commit compared
      with the best one so far; then into a tail map. */
  method ValidValues(window: nat, states: seq<VcState>) returns (values: map<Instance, Batch>)
    ensures values == Batches(window, Best(states))
  {
    hide Merge;
    var best: map<Instance, Entry> := map[];
    for n := 0 to |states|
      invariant best == Best(states[..n])
    {
      assert states[..n + 1][..n] == states[..n];
      best := MergeInto(best, states[n].commits);
    }
    assert states[..|states|] == states;
    values := map i | i in best && (forall j :: j in best ==> j < i + window) :: best[i].batch;
  }

  /** The inner loop: a commit replaces the best one if it is of a later view. */
  method MergeInto(best: map<Instance, Entry>, commits: map<Instance, Entry>) returns (merged: map<Instance, Entry>)
    ensures merged == Merge(best, commits)
  {
    merged := best;
    var left := commits.Keys;
    while left != {}
      invariant left <= commits.Keys
      invariant merged.Keys == best.Keys + (commits.Keys - left)
      invariant forall i :: i in merged && i in left ==> merged[i] == best[i]
      invariant forall i :: i in merged && i !in left ==> merged[i] == Merge(best, commits)[i]
      decreases left
    {
      var i :| i in left;
      if i !in merged || merged[i].view < commits[i].view {
        merged := merged[i := commits[i]];
      }
      left := left - {i};
    }
  }

  // ---------- Changing the view ----------

  /** The loop of `handleNewView`: SealView is broadcast until view v is entered; None while a
      fast commit is not committed. */
  function SealUp(c: Config, l: Local, me: nat, v: View): (r: Option<Local>)
    requires Shaped(c, l) && me < c.n
    ensures r.Some? ==> Shaped(c, r.value) && v <= r.value.peers[me].view
    decreases v - l.peers[me].view
  {
    if v <= l.peers[me].view then Some(l)
    else if !AllCommitted(l, me) || Handle(c, l, me, me, SealView).None? then None
    else SealUp(c, AfterBroadcast(Handle(c, l, me, me, SealView).value, SealView), me, v)
  }

  /** `handleCbMessage` as steps of the protocol, while there is slack: the message is handled, and if
      that calls for another view, the views below are sealed and the handler of the NewView ends. */
  function Receive(c: Config, l: Local, me: nat, from: nat, m: Msg): (r: Option<Local>)
    requires Shaped(c, l) && me < c.n && from < c.n
    ensures r.Some? ==> Shaped(c, r.value)
  {
    var h := Handle(c, l, me, from, m);
    if h.None? || !m.NewView? || m.newView <= l.peers[me].view then h
    else
      var up := SealUp(c, h.value, me, m.newView);
      if up.None? || Idle(up.value) then None else Some(Opened(c, Popped(up.value), from, m.newView, m.states))
  }

  /** The calls under way do not matter while views are sealed. */
  lemma {:induction false} CallsCommute(c: Config, l: Local, me: nat, v: View, frames: seq<Frame>)
    requires Shaped(c, l) && me < c.n
    ensures SealUp(c, l.(frames := frames), me, v).Some? <==> SealUp(c, l, me, v).Some?
    ensures SealUp(c, l, me, v).Some? ==> SealUp(c, l.(frames := frames), me, v).value == SealUp(c, l, me, v).value.(frames := frames)
    ensures SealUp(c, l, me, v).Some? ==> SealUp(c, l, me, v).value.frames == l.frames
    decreases v - l.peers[me].view
  {
    if l.peers[me].view < v && AllCommitted(l, me) && Handle(c, l, me, me, SealView).Some? {
      var l1 := AfterBroadcast(Handle(c, l, me, me, SealView).value, SealView);
      var k := l.(frames := frames);
      assert Handle(c, k, me, me, SealView).Some?;
      assert AfterBroadcast(Handle(c, k, me, me, SealView).value, SealView) == l1.(frames := frames);
      CallsCommute(c, l1, me, v, frames);
    }
  }

  /** The result of the checks of the certificates of a message, in their order; that of a
      checkpoint is checked unless it is one's own or known. */
  predicate ChecksPass(c: Config, l: Local, me: nat, from: nat, m: Msg, checks: seq<bool>) {
    match m
    case Checkpoint(_, low) => from == me || low == l.certified || (checks != [] && checks[0])
    case NewView(_, states) => |states| <= |checks| && forall k :: 0 <= k < |states| ==> checks[k]
    case _ => true
  }

  // ---------- The replica ----------

  class Replica {
    const c: Config
    const me: nat
    const peers: array<Peer>
    const pending: array<multiset<Cert>>
    const buffered: array<seq<Cert>>
    var slots: map<Instance, Slot>
    var minKey: Instance
    var certified: Instance
    var certifiedAt: Instance
    var nextToDecide: Instance
    var sentAbove: Instance

    ghost predicate Valid()
      reads this
    {
      peers.Length == c.n && pending.Length == c.n && buffered.Length == c.n && me < c.n
    }

    /** The fields, as the state of the protocol between calls. */
    function State(): Local
      reads this, peers, pending, buffered
    {
      Local(peers[..], slots, minKey, certified, certifiedAt, pending[..], buffered[..], nextToDecide, sentAbove, [])
    }

    constructor (c: Config, me: nat)
      requires me < c.n
      ensures Valid() && State() == InitLocal(c) && fresh(peers) && fresh(pending) && fresh(buffered)
    {
      this.c, this.me := c, me;
      peers := new Peer[c.n](_ => FRESH);
      pending := new multiset<Cert>[c.n](_ => multiset{});
      buffered := new seq<Cert>[c.n](_ => []);
      slots, minKey, certified, certifiedAt, nextToDecide, sentAbove := map[], 0, 0, 0, 0, 0;
    }

    /** `handleVerifiedCommit`: counted for its instance, or kept for later; false where the
        source throws. */
    method CountCommit(from: nat, cert: Cert) returns (ok: bool)
      requires Valid() && from < c.n
      modifies this`slots, peers, buffered
      ensures var l := old(State());
              var peers' := l.peers[from := l.peers[from].(outstanding := Decrement(l.peers[from].outstanding))];
              if cert.instance !in l.slots then
                ok && State() == l.(peers := peers', buffered := l.buffered[from := Bounded(l.buffered[from] + [cert])])
              else if from in l.slots[cert.instance].slow then !ok
              else ok && State() == l.(peers := peers', slots := l.slots[cert.instance := Counted(l.slots[cert.instance], from)])
    {
      peers[from] := peers[from].(outstanding := Decrement(peers[from].outstanding));
      if cert.instance !in slots {
        buffered[from] := buffered[from] + [cert];
        if |buffered[from]| > c.window {
          buffered[from] := buffered[from][1..];
        }
        return true;
      }
      if from in slots[cert.instance].slow {
        return false;
      }
      slots := slots[cert.instance := Counted(slots[cert.instance], from)];
      ok := true;
    }

    function Bounded(queue: seq<Cert>): seq<Cert> {
      if |queue| > c.window then queue[1..] else queue
    }

    function Counted(slot: Slot, from: nat): Slot {
      slot.(slow := slot.slow + {from})
    }

    /** A certificate whose verification finished. */
    method VerifiedCommit(from: nat, cert: Cert) returns (ok: bool)
      requires Valid() && from < c.n
      modifies this`slots, peers, buffered, pending
      ensures ok <==> HandleVerified(c, old(State()), from, cert).Some?
      ensures ok ==> Some(State()) == HandleVerified(c, old(State()), from, cert)
    {
      pending[from] := pending[from] - multiset{cert};
      ok := CountCommit(from, cert);
    }

    method Commit(from: nat, cert: Cert) returns (ok: bool)
      requires Valid() && from < c.n
      modifies peers, pending
      ensures ok <==> HandleCommit(c, old(State()), from, cert).Some?
      ensures ok ==> Some(State()) == HandleCommit(c, old(State()), from, cert)
    {
      var peer := peers[from];
      if cert.instance >= peer.low + c.window || cert.view != peer.view {
        return false;
      }
      if cert.instance in peer.commits && peer.commits[cert.instance].view >= cert.view {
        return false;
      }
      peers[from] := peer.(commits := peer.commits[cert.instance := Entry(cert.view, cert.batch)], outstanding := Increment(peer.outstanding));
      pending[from] := pending[from] + multiset{cert};
      ok := true;
    }

    /** `handleCheckpoint`; `genuine` is the result of the check of the certificate, if made. */
    method Checkpoint(from: nat, index: Instance, low: Instance, genuine: bool) returns (ok: bool)
      requires Valid() && from < c.n
      modifies this`certified, this`certifiedAt, peers
      ensures ok <==> HandleCheckpoint(c, old(State()), from, index, low).Some? && (from == me || low == old(certified) || genuine)
      ensures ok ==> Some(State()) == HandleCheckpoint(c, old(State()), from, index, low)
    {
      if index <= peers[from].low {
        return false;
      }
      if from != me && certified != low && !genuine {
        return false;
      }
      peers[from] := peers[from].(low := low, commits := Prune(peers[from].commits, low));
      if certified < low {
        certified, certifiedAt := low, index;
      }
      ok := true;
    }

    method SealViewOf(from: nat) returns (ok: bool)
      requires Valid() && from < c.n
      modifies peers
      ensures ok <==> HandleSealView(c, old(State()), from).Some?
      ensures ok ==> Some(State()) == HandleSealView(c, old(State()), from)
    {
      if peers[from].outstanding != 0 {
        return false;
      }
      peers[from] := peers[from].(view := peers[from].view + 1);
      ok := true;
    }

    /** `changeView`, once the wait is over: false before. */
    method ChangeView() returns (ok: bool)
      requires Valid()
      modifies this`slots, this`minKey, peers
      ensures ok <==> AllCommitted(old(State()), me) && Handle(c, old(State()), me, me, SealView).Some?
      ensures ok ==> State() == AfterBroadcast(Handle(c, old(State()), me, me, SealView).value, SealView)
    {
      var all := CommittedAll();
      if !all {
        return false;
      }
      peers[me] := peers[me].(nextCb := peers[me].nextCb + 1);
      assert State() == Bump(old(State()), me);
      ok := SealViewOf(me);
      if ok {
        slots, minKey := map[], 0;
      }
    }

    /** The loop of `isByzantine(from, new_view)` over the certificates. */
    method CertificatesPass(states: seq<VcState>, checks: seq<bool>) returns (all: bool)
      ensures all <==> |states| <= |checks| && forall k :: 0 <= k < |states| ==> checks[k]
    {
      if |checks| < |states| {
        return false;
      }
      for k := 0 to |states|
        invariant forall j :: 0 <= j < k ==> checks[j]
      {
        if !checks[k] {
          return false;
        }
      }
      all := true;
    }

    /** `handleNewView`; false as well while the wait in `changeView` lasts. */
    method NewViewFrom(from: nat, v: View, states: seq<VcState>, checks: seq<bool>) returns (ok: bool)
      requires Valid() && from < c.n
      modifies this`slots, this`minKey, peers
      ensures var up := SealUp(c, old(State()), me, v);
              && (ok <==> ChecksPass(c, old(State()), me, from, NewView(v, states), checks) && |states| == c.Quorum() && up.Some?)
              && (ok ==> State() == Opened(c, up.value, from, v, states))
    {
      hide Best, Batches, Handle;
      if |states| != c.Quorum() {
        return false;
      }
      var pass := CertificatesPass(states, checks);
      if !pass {
        return false;
      }
      while peers[me].view < v
        invariant SealUp(c, State(), me, v) == SealUp(c, old(State()), me, v)
        decreases v - peers[me].view
      {
        ghost var before := State();
        var sealed := ChangeView();
        if !sealed {
          return false;
        }
        OneMoreView(before);
      }
      var values := ValidValues(c.window, states);
      peers[from] := peers[from].(nextPrepare := peers[from].low, valid := Some(ConsensusProtocol.Valid(v, states, values)));
      ok := true;
    }

    lemma OneMoreView(l: Local)
      requires Shaped(c, l) && me < c.n && Handle(c, l, me, me, SealView).Some?
      ensures Handle(c, l, me, me, SealView).value.peers[me].view == l.peers[me].view + 1
      ensures AfterBroadcast(Handle(c, l, me, me, SealView).value, SealView).peers[me].view == l.peers[me].view + 1
    {}

    /** One turn of the loop that replays buffered commits for an inserted instance. */
    method ReplayOne(r: nat, v: View, i: Instance)
      requires Valid() && r < c.n && i in slots && r !in slots[i].slow
      modifies this`slots, peers, buffered
      ensures buffered[r] == AfterReplay(old(buffered[r]), v, i)
      ensures Replays(old(buffered[r]), v, i) ==>
                peers[r] == old(peers[r]).(outstanding := Decrement(old(peers[r]).outstanding)) && slots == old(slots)[i := Counted(old(slots)[i], r)]
      ensures !Replays(old(buffered[r]), v, i) ==> peers[r] == old(peers[r]) && slots == old(slots)
      ensures forall q: nat :: q < c.n && q != r ==> peers[q] == old(peers[q]) && buffered[q] == old(buffered[q])
    {
      while buffered[r] != [] && Before(buffered[r][0], v, i)
        invariant buffered[..] == old(buffered[..])[r := buffered[r]]
        invariant DropStale(buffered[r], v, i) == DropStale(old(buffered[r]), v, i)
        invariant peers[..] == old(peers[..]) && slots == old(slots)
        decreases |buffered[r]|
      {
        buffered[r] := buffered[r][1..];
      }
      if buffered[r] != [] && buffered[r][0].view == v && buffered[r][0].instance == i {
        var ok := CountCommit(r, buffered[r][0]);
        buffered[r] := buffered[r][1..];
      }
    }

    /** `isByzantine(from, prepare)`: the checks in the order of the source. */
    method Refuses(from: nat, v: View, i: Instance, b: Batch) returns (bad: bool)
      requires Valid() && from < c.n
      ensures bad == IsByzantinePrepare(c, State(), from, v, i, b)
    {
      var peer := peers[from];
      if c.Leader(v) != from {
        return true;
      }
      if peer.view != v {
        return true;
      }
      if i in slots {
        return true;
      }
      if peer.nextPrepare > i {
        return true;
      }
      if !(peer.low <= i < peer.low + c.window) {
        return true;
      }
      if v != 0 {
        if peer.valid.None? {
          return true;
        }
        if i in peer.valid.value.values && peer.valid.value.values[i] != b {
          return true;
        }
      }
      bad := false;
    }

    /** The peer while buffered commits are replayed: the sender's next prepare is set. */
    function Replaying(peer: Peer, isSender: bool, replayed: bool, i: Instance): Peer {
      var p1 := if replayed then peer.(outstanding := Decrement(peer.outstanding)) else peer;
      if isSender then p1.(nextPrepare := i) else p1
    }

    function VotersBelow(buffers: seq<seq<Cert>>, r: nat, v: View, i: Instance): set<nat>
      requires r <= |buffers|
    {
      set q: nat | q < r && Replays(buffers[q], v, i)
    }

    lemma NextVoter(buffers: seq<seq<Cert>>, r: nat, v: View, i: Instance)
      requires r < |buffers|
      ensures r !in VotersBelow(buffers, r, v, i)
      ensures VotersBelow(buffers, r + 1, v, i) == if Replays(buffers[r], v, i) then VotersBelow(buffers, r, v, i) + {r} else VotersBelow(buffers, r, v, i)
    {
      hide Replays;
    }

    /** The loop over all buffers. */
    method ReplayAll(from: nat, v: View, i: Instance, b: Batch, ghost l: Local, ghost base: map<Instance, Slot>)
      requires Valid() && from < c.n && Shaped(c, l) && i !in base
      requires peers[..] == l.peers[from := l.peers[from].(nextPrepare := i)] && buffered[..] == l.buffered
      requires slots == base[i := Slot(v, b, {}, {}, false, false)]
      modifies this`slots, peers, buffered
      ensures slots == base[i := Slot(v, b, {}, VotersBelow(l.buffered, c.n, v, i), false, false)]
      ensures forall q: nat :: q < c.n ==> peers[q] == Replaying(l.peers[q], q == from, Replays(l.buffered[q], v, i), i)
      ensures forall q: nat :: q < c.n ==> buffered[q] == AfterReplay(l.buffered[q], v, i)
    {
      assert VotersBelow(l.buffered, 0, v, i) == {};
      hide VotersBelow, Replays, AfterReplay, Decrement, State;
      for r := 0 to c.n
        invariant slots == base[i := Slot(v, b, {}, VotersBelow(l.buffered, r, v, i), false, false)]
        invariant forall q: nat :: q < r ==> peers[q] == Replaying(l.peers[q], q == from, Replays(l.buffered[q], v, i), i)
        invariant forall q: nat :: q < r ==> buffered[q] == AfterReplay(l.buffered[q], v, i)
        invariant forall q: nat :: r <= q < c.n ==> peers[q] == Replaying(l.peers[q], q == from, false, i) && buffered[q] == l.buffered[q]
      {
        NextVoter(l.buffered, r, v, i);
        ReplayOne(r, v, i);
        assert slots == base[i := slots[i]];
      }
    }

    /** `handlePrepare` */
    method Prepare(from: nat, v: View, i: Instance, b: Batch) returns (ok: bool)
      requires Valid() && from < c.n
      modifies this`slots, this`minKey, peers, buffered
      ensures ok <==> HandlePrepare(c, old(State()), me, from, v, i, b).Some?
      ensures ok ==> Some(State()) == HandlePrepare(c, old(State()), me, from, v, i, b)
    {
      var bad := Refuses(from, v, i, b);
      if bad {
        return false;
      }
      if v != peers[me].view {
        return true;
      }
      if i < certified {
        return true;
      }
      ghost var l := State();
      peers[from] := peers[from].(nextPrepare := i);
      if i < minKey {
        return false;
      }
      minKey := i;
      var base := Evict(slots, c.window, i);
      slots := base[i := Slot(v, b, {}, {}, false, false)];
      ReplayAll(from, v, i, b, l, base);
      if peers[from].valid.Some? {
        var valid := peers[from].valid.value;
        peers[from] := peers[from].(valid := Some(valid.(values := map k | k in valid.values && i < k :: valid.values[k])));
      }
      Inserted(from, v, i, b, l, base);
      ok := true;
    }

    lemma Inserted(from: nat, v: View, i: Instance, b: Batch, l: Local, base: map<Instance, Slot>)
      requires Valid() && from < c.n && Shaped(c, l)
      requires base == Evict(l.slots, c.window, i) && slots == base[i := Slot(v, b, {}, VotersBelow(l.buffered, c.n, v, i), false, false)]
      requires forall q: nat :: q < c.n ==> peers[q] == PeerAfterPrepare(l.peers[q], q == from, Replays(l.buffered[q], v, i), i)
      requires forall q: nat :: q < c.n ==> buffered[q] == AfterReplay(l.buffered[q], v, i)
      requires minKey == i && certified == l.certified && certifiedAt == l.certifiedAt && sentAbove == l.sentAbove && l.frames == [] && nextToDecide == l.nextToDecide && pending[..] == l.pending
      ensures State() == Insert(c, l, from, v, i, b)
    {
      var r := Insert(c, l, from, v, i, b);
      var voters := set q: nat | q < c.n && Replays(l.buffered[q], v, i);
      assert VotersBelow(l.buffered, c.n, v, i) == voters;
      hide Replays, AfterReplay, Evict, PeerAfterPrepare, VotersBelow;
      forall q: nat | q < c.n ensures peers[q] == r.peers[q] && buffered[q] == r.buffered[q] {
        assert q in voters <==> Replays(l.buffered[q], v, i);
      }
      assert peers[..] == r.peers && buffered[..] == r.buffered;
    }

    /** `handleCbMessage`, given the results of the checks of the certificates. */
    method HandleCb(from: nat, m: Msg, checks: seq<bool>) returns (ok: bool)
      requires Valid() && from < c.n
      modifies this, peers, pending, buffered
      ensures ok <==> Receive(c, old(State()), me, from, m).Some? && ChecksPass(c, old(State()), me, from, m, checks)
      ensures ok ==> Some(State()) == Receive(c, old(State()), me, from, m)
    {
      hide HandlePrepare, HandleCommit, HandleCheckpoint, HandleSealView, SealUp;
      ghost var l := State();
      peers[from] := peers[from].(nextCb := peers[from].nextCb + 1);
      assert State() == Bump(l, from);
      match m
      case Malformed => ok := true;
      case Prepare(v, i, b) => ok := Prepare(from, v, i, b);
      case Commit(cert) => ok := Commit(from, cert);
      case Checkpoint(index, low) => ok := Checkpoint(from, index, low, checks != [] && checks[0]);
      case SealView => ok := SealViewOf(from);
      case NewView(v, states) =>
        ok := NewViewFrom(from, v, states, checks);
        Followed(l, from, v, states);
    }

    lemma Followed(l: Local, from: nat, v: View, states: seq<VcState>)
      requires Shaped(c, l) && me < c.n && from < c.n && Idle(l)
      ensures var r, up := Receive(c, l, me, from, NewView(v, states)), SealUp(c, Bump(l, from), me, v);
              && (r.Some? <==> |states| == c.Quorum() && up.Some?)
              && (r.Some? ==> r.value == Opened(c, up.value, from, v, states))
    {
      hide Best, Batches, SealUp, Opened;
      var k := Bump(l, from);
      assert k.peers[me].view == l.peers[me].view;
      if |states| == c.Quorum() && l.peers[me].view < v {
        CallsCommute(c, k, me, v, [Opening(from, v, states)]);
        assert k.frames + [Opening(from, v, states)] == [Opening(from, v, states)];
        assert Handle(c, l, me, from, NewView(v, states)) == Some(k.(frames := [Opening(from, v, states)]));
      } else if v <= k.peers[me].view {
        Entered(k, v);
      }
    }

    lemma Entered(l: Local, v: View)
      requires Shaped(c, l) && me < c.n && v <= l.peers[me].view
      ensures SealUp(c, l, me, v) == Some(l)
    {}

    /** A broadcast of one's own: the message is handled first, then instances are dropped
        below a checkpoint, or all of them with a seal. */
    method Broadcast(m: Msg, checks: seq<bool>) returns (ok: bool)
      requires Valid()
      modifies this, peers, pending, buffered
      ensures ok <==> Receive(c, Sending(old(State()), m), me, me, m).Some? && ChecksPass(c, old(State()), me, me, m, checks)
      ensures ok ==> State() == AfterBroadcast(Receive(c, Sending(old(State()), m), me, me, m).value, m)
    {
      hide Receive;
      if m.Checkpoint? {
        sentAbove := m.low;
      }
      assert State() == Sending(old(State()), m);
      ok := HandleCb(me, m, checks);
      if ok {
        match m
        case Checkpoint(_, low) =>
          slots := map k | k in slots && low <= k :: slots[k];
        case SealView =>
          slots, minKey := map[], 0;
        case _ =>
      }
    }

    /** `tryCertifyPrepare`, the step Certify: nothing happens while a request is not known. */
    method TryCertify(i: Instance, requestsValid: bool) returns (signed: bool)
      requires Valid()
      modifies this`slots
      ensures signed <==> requestsValid && HandleCertify(old(State()), i).Some?
      ensures State() == if signed then HandleCertify(old(State()), i).value else old(State())
    {
      if i !in slots || slots[i].certified || !requestsValid {
        return false;
      }
      slots := slots[i := slots[i].(certified := true)];
      signed := true;
    }

    /** `pollPrepareCertificatePromises`, once all promised: the local part of the step SendFast. */
    method PromisesPolled(i: Instance)
      requires Valid()
      modifies this`slots
      ensures State() == HandlePromises(old(State()), me, i)
    {
      if i in slots {
        slots := slots[i := slots[i].(fast := slots[i].fast + {me})];
      }
    }

    /** `pollFastCommits`, the local part of the step RecvFast; false where the source throws. */
    method FastCommitPolled(from: nat, i: Instance) returns (ok: bool)
      requires Valid()
      modifies this`slots
      ensures ok <==> HandleFast(old(State()), from, i).Some?
      ensures State() == if ok then HandleFast(old(State()), from, i).value else old(State())
    {
      if i !in slots {
        return true;
      }
      if from in slots[i].fast {
        return false;
      }
      slots := slots[i := slots[i].(fast := slots[i].fast + {from})];
      ok := true;
    }

    /** The check in the loop of `changeView`. */
    method CommittedAll() returns (all: bool)
      requires Valid()
      ensures all <==> AllCommitted(State(), me)
    {
      all := true;
      var left := slots.Keys;
      while left != {} && all
        invariant left <= slots.Keys
        invariant all ==> forall i :: i in slots && i !in left && me in slots[i].fast ==> me in slots[i].slow
        invariant !all ==> exists i :: i in slots && me in slots[i].fast && me !in slots[i].slow
        decreases left
      {
        var i :| i in left;
        if me in slots[i].fast && me !in slots[i].slow {
          all := false;
        }
        left := left - {i};
      }
    }

    /** `pollDecision`, the step Decide: returns the decision it records. */
    method PollDecision() returns (decided: Option<Decision>)
      requires Valid()
      modifies this`slots, this`nextToDecide
      ensures decided.Some? <==> HandleDecide(c, old(State())).Some?
      ensures decided.Some? ==> decided.value == DecisionOf(c, me, old(nextToDecide), old(slots)[old(nextToDecide)])
      ensures State() == if decided.Some? then HandleDecide(c, old(State())).value else old(State())
    {
      var i := nextToDecide;
      if i !in slots || slots[i].decided {
        return None;
      }
      if |slots[i].fast| != c.n && |slots[i].slow| < c.Quorum() {
        return None;
      }
      decided := Some(DecisionOf(c, me, i, slots[i]));
      slots := slots[i := slots[i].(decided := true)];
      nextToDecide := i + 1;
    }
  }
}
