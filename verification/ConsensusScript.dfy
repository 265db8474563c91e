/** Building runs of the code step by step: each lemma here takes a state that is reached by a run
    in which every step passes all checks but k, and leads to the next one. */
module ConsensusScript {
  import opened Options
  import opened ConsensusLog
  import opened ConsensusProtocol

  // ---------- Runs that pass all checks but one ----------

  /** What a run without check k may fail: a valid certificate alone keeps checkpoints from going back. */
  predicate Excused(k: Check, x: Check) {
    x == k || (k.CheckpointsForward? && x.CheckpointCertificate?)
  }

  ghost predicate OthersPass(c: Config, k: Check, s: State, step: Step)
    requires Sane(c, s)
  {
    forall x :: !Excused(k, x) ==> Passes(x, c, s, step)
  }

  ghost predicate IsRunBut(c: Config, k: Check, states: seq<State>, steps: seq<Step>) {
    && IsRun(c, states, steps)
    && forall j :: 0 <= j < |steps| ==> OthersPass(c, k, states[j], steps[j])
  }

  ghost predicate EndsIn(c: Config, k: Check, states: seq<State>, steps: seq<Step>, s: State) {
    IsRunBut(c, k, states, steps) && states[|states| - 1] == s
  }

  ghost predicate Reaches(c: Config, k: Check, s: State) {
    c.n > 0 && Sane(c, s) && exists states, steps :: EndsIn(c, k, states, steps, s)
  }

  /** No call is under way, and no replica has thrown. */
  ghost predicate Quiescent(s: State) {
    s.halted == {} && forall p :: 0 <= p < |s.locals| ==> Idle(s.locals[p])
  }

  /** Between two steps of a script. */
  ghost predicate Reached(c: Config, k: Check, s: State) {
    Reaches(c, k, s) && Quiescent(s)
  }

  lemma Start(c: Config, k: Check) returns (s: State)
    requires c.n > 0
    ensures Reached(c, k, s) && Sane(c, s) && Init(c, s)
  {
    s := State(seq(c.n, _ => []), seq(c.n, _ => InitLocal(c)), {}, {}, {}, {}, {}, {});
    assert Sane(c, s) && Init(c, s);
    assert EndsIn(c, k, [s], [], s);
  }

  lemma Takes(c: Config, k: Check, s: State, step: Step, s': State)
    requires Reaches(c, k, s) && Sane(c, s') && Next(c, s, step, s') && OthersPass(c, k, s, step)
    ensures Reaches(c, k, s')
  {
    hide Next, Init, OthersPass, Sane;
    var states, steps :| EndsIn(c, k, states, steps, s);
    Extended(c, k, states, steps, step, s');
    assert EndsIn(c, k, states + [s'], steps + [step], s');
  }

  lemma Advance(c: Config, k: Check, s: State, step: Step, s': State)
    requires Reached(c, k, s) && Sane(c, s') && Quiescent(s') && Next(c, s, step, s') && OthersPass(c, k, s, step)
    ensures Reached(c, k, s')
  {
    hide Next, OthersPass, Sane, Reaches, Quiescent;
    Takes(c, k, s, step, s');
  }

  lemma Extended(c: Config, k: Check, states: seq<State>, steps: seq<Step>, step: Step, s': State)
    requires IsRunBut(c, k, states, steps) && Sane(c, s') && Sane(c, states[|states| - 1])
    requires Next(c, states[|states| - 1], step, s') && OthersPass(c, k, states[|states| - 1], step)
    ensures IsRunBut(c, k, states + [s'], steps + [step])
  {
    hide Next, Init, OthersPass, Sane;
    var states', steps' := states + [s'], steps + [step];
    forall j | 0 <= j < |steps'| ensures Next(c, states'[j], steps'[j], states'[j + 1]) {
      if j < |steps| {
        assert Next(c, states[j], steps[j], states[j + 1]);
      }
    }
    forall j | 0 <= j < |steps'| ensures OthersPass(c, k, states'[j], steps'[j]) {
      if j < |steps| {
        assert OthersPass(c, k, states[j], steps[j]);
      }
    }
  }

  // ---------- Shorthands ----------

  function SetLocal(s: State, p: Replica, l: Local): State
    requires p < |s.locals|
  {
    s.(locals := s.locals[p := l])
  }

  function SetPeer(l: Local, q: Replica, peer: Peer): Local
    requires q < |l.peers|
  {
    l.(peers := l.peers[q := peer])
  }

  function Append(s: State, p: Replica, m: Msg): State
    requires p < |s.logs|
  {
    s.(logs := s.logs[p := s.logs[p] + [m]])
  }

  ghost predicate Acts(c: Config, s: State, p: Replica) {
    && c.Correct(p) && Sane(c, s)
  }

  /** The next message of the stream of `from` at p. */
  ghost predicate Hears(c: Config, s: State, p: Replica, from: Replica, m: Msg) {
    && Acts(c, s, p) && from < c.n && from != p
    && s.locals[p].peers[from].nextCb < |s.logs[from]|
    && s.logs[from][s.locals[p].peers[from].nextCb] == m
  }

  lemma IsQuiescent(c: Config, k: Check, s: State, p: Replica)
    requires Reached(c, k, s) && p < |s.locals|
    ensures Idle(s.locals[p]) && s.halted == {} && forall q :: 0 <= q < |s.locals| ==> s.locals[q].frames == []
  {
    hide Reaches;
  }

  lemma StaysQuiescent(c: Config, k: Check, s: State, s': State, p: Replica)
    requires Reached(c, k, s) && s'.halted == s.halted && p < |s.locals| && |s'.locals| == |s.locals| && Idle(s'.locals[p])
    requires forall q :: 0 <= q < |s.locals| && q != p ==> s'.locals[q] == s.locals[q]
    ensures Quiescent(s')
  {
    hide Reaches;
  }

  lemma DeliverStep(c: Config, k: Check, s: State, p: Replica, from: Replica, m: Msg, l': Local, s': State)
    requires Reached(c, k, s) && Hears(c, s, p, from, m) && Handle(c, s.locals[p], p, from, m) == Some(l') && Checked(c, s, p, m)
    requires l'.frames == s.locals[p].frames
    requires s' == SetLocal(s, p, l').(seals := SealsAfter(s, p, from, m))
    requires forall x :: !Excused(k, x) ==> PassesMsg(x, c, s.logs, s.seals, s.checkpoints, p, s.locals[p], from, m)
    ensures Reached(c, k, s')
  {
    IsQuiescent(c, k, s, p);
    hide Reaches, Handle, Checked, PassesMsg, SealsAfter, Excused;
    StaysQuiescent(c, k, s, s', p);
    Advance(c, k, s, Deliver(p, from), s');
  }

  /** The checks do not look at calls under way. */
  lemma BegunPasses(x: Check, c: Config, logs: seq<seq<Msg>>, seals: set<SealShare>, checkpoints: set<CheckpointShare>, p: Replica, l: Local, m: Msg)
    requires Shaped(c, l) && p < c.n && PassesMsg(x, c, logs, seals, checkpoints, p, l, p, m)
    ensures PassesMsg(x, c, logs, seals, checkpoints, p, Begun(l, m), p, m)
  {
    hide AboveCheckpoints, Distinct, AllOfView, AllValid, CheckpointCertified;
  }

  lemma BegunAlone(l: Local, m: Msg)
    requires Idle(l)
    ensures Waits(Begun(l, m), m) && Popped(Begun(l, m)) == Sending(l, m)
  {}

  lemma BeginStep(c: Config, k: Check, s: State, p: Replica, m: Msg) returns (s1: State)
    requires Reached(c, k, s) && Acts(c, s, p) && CanBegin(c, s, p, m)
    ensures Reaches(c, k, s1) && s1 == SetLocal(s, p, Begun(s.locals[p], m)) && Sane(c, s1) && s.halted == {}
  {
    IsQuiescent(c, k, s, p);
    hide Reaches, CanBegin, Quiescent;
    s1 := SetLocal(s, p, Begun(s.locals[p], m));
    Takes(c, k, s, Begin(p, m), s1);
  }

  /** The two steps of a broadcast for which there is slack. */
  lemma BothSteps(c: Config, k: Check, s: State, p: Replica, m: Msg, l': Local, s': State) returns (s1: State)
    requires Reached(c, k, s) && Acts(c, s, p) && CanBegin(c, s, p, m) && Shaped(c, l') && l'.frames == s.locals[p].frames
    requires var r := Handle(c, Sending(s.locals[p], m), p, p, m); r.Some? && AfterBroadcast(r.value, m) == l'
    requires s' == SetLocal(Append(s, p, m), p, l').(seals := SealsAfter(s, p, p, m))
    requires forall x :: !Excused(k, x) ==> PassesMsg(x, c, s.logs, s.seals, s.checkpoints, p, s.locals[p], p, m)
    ensures Reaches(c, k, s1) && s1 == SetLocal(s, p, Begun(s.locals[p], m)) && Sane(c, s1) && Sane(c, s')
    ensures Next(c, s1, Broadcast(p, m), s') && OthersPass(c, k, s1, Broadcast(p, m))
  {
    IsQuiescent(c, k, s, p);
    var l := s.locals[p];
    s1 := BeginStep(c, k, s, p, m);
    BegunAlone(l, m);
    hide Reaches, Handle, AfterBroadcast, CanBegin, Excused;
    assert SealsAfter(s1, p, p, m) == SealsAfter(s, p, p, m);
    forall x | !Excused(k, x) ensures Passes(x, c, s1, Broadcast(p, m)) {
      BegunPasses(x, c, s.logs, s.seals, s.checkpoints, p, l, m);
    }
    hide PassesMsg, SealsAfter, Passes, Begun, Sending;
    assert s1.locals[p := l'] == s.locals[p := l'];
  }

  lemma BroadcastStep(c: Config, k: Check, s: State, p: Replica, m: Msg, l': Local, s': State)
    requires Reached(c, k, s) && Acts(c, s, p) && CanBegin(c, s, p, m) && Shaped(c, l') && l'.frames == s.locals[p].frames
    requires var r := Handle(c, Sending(s.locals[p], m), p, p, m); r.Some? && AfterBroadcast(r.value, m) == l'
    requires s' == SetLocal(Append(s, p, m), p, l').(seals := SealsAfter(s, p, p, m))
    requires forall x :: !Excused(k, x) ==> PassesMsg(x, c, s.logs, s.seals, s.checkpoints, p, s.locals[p], p, m)
    ensures Reached(c, k, s')
  {
    IsQuiescent(c, k, s, p);
    var s1 := BothSteps(c, k, s, p, m, l', s');
    StaysQuiescent(c, k, s, s', p);
    hide Reaches, Handle, AfterBroadcast, CanBegin, Excused, PassesMsg, SealsAfter, OthersPass, Next, Sending;
    Takes(c, k, s1, Broadcast(p, m), s');
  }

  // ---------- Streams of Byzantine replicas ----------

  lemma Forges(c: Config, k: Check, s: State, q: Replica, m: Msg) returns (s': State)
    requires Reached(c, k, s) && Sane(c, s) && q < c.n && !c.Correct(q)
    ensures Reached(c, k, s') && Sane(c, s') && s' == Append(s, q, m)
  {
    s' := Append(s, q, m);
    assert Sane(c, s');
    hide Reached, Sane;
    Advance(c, k, s, Byzantine(q, m), s');
  }

  lemma {:induction false} ForgesAll(c: Config, k: Check, s: State, q: Replica, log: seq<Msg>) returns (s': State)
    requires Reached(c, k, s) && Sane(c, s) && q < c.n && !c.Correct(q)
    ensures Reached(c, k, s') && Sane(c, s') && s' == s.(logs := s.logs[q := s.logs[q] + log])
  {
    hide Reached;
    if log == [] {
      s' := s;
      assert s.logs[q] + log == s.logs[q] && s.logs[q := s.logs[q]] == s.logs;
    } else {
      var n := |log| - 1;
      var s1 := ForgesAll(c, k, s, q, log[..n]);
      s' := Forges(c, k, s1, q, log[n]);
      assert s.logs[q] + log[..n] + [log[n]] == s.logs[q] + log;
      assert s'.logs == s.logs[q := s.logs[q] + log];
    }
  }

  // ---------- Prepares ----------

  /** The slot an inserted prepare gets, while no commit for it is buffered. */
  function NewSlot(v: View, b: Batch): Slot { Slot(v, b, {}, {}, false, false) }

  function PruneValues(valid: Option<Valid>, i: Instance): Option<Valid> {
    if valid.None? then None
    else Some(valid.value.(values := map k | k in valid.value.values && i < k :: valid.value.values[k]))
  }

  function AfterPrepare(peer: Peer, i: Instance): Peer {
    peer.(nextCb := peer.nextCb + 1, nextPrepare := i, valid := PruneValues(peer.valid, i))
  }

  function NoBuffers(n: nat): seq<seq<Cert>> { seq(n, _ => []) }

  function Prepares(l: Local, from: Replica, v: View, i: Instance, b: Batch): Local
    requires from < |l.peers|
  {
    SetPeer(l, from, AfterPrepare(l.peers[from], i)).(slots := l.slots[i := NewSlot(v, b)], minKey := i, buffered := NoBuffers(|l.buffered|))
  }

  /** The buffered commits are all older than (v, i). */
  predicate StaleOnly(l: Local, v: View, i: Instance) {
    forall q :: 0 <= q < |l.buffered| ==> forall x :: x in l.buffered[q] ==> Before(x, v, i)
  }

  /** The prepare passes the checks of the code and is inserted. */
  predicate PrepareOk(c: Config, l: Local, p: Replica, from: Replica, v: View, i: Instance, b: Batch)
    requires Shaped(c, l) && p < c.n && from < c.n
  {
    var peer := l.peers[from];
    && c.Leader(v) == from && peer.view == v && v == l.peers[p].view
    && i !in l.slots && peer.nextPrepare <= i && l.minKey <= i && l.certified <= i
    && peer.low <= i < peer.low + c.window
    && (v != 0 ==> peer.valid.Some? && (i in peer.valid.value.values ==> peer.valid.value.values[i] == b))
  }

  /** ... and the omitted ones, but k. */
  ghost predicate PrepareChecked(k: Check, logs: seq<seq<Msg>>, peer: Peer, v: View, i: Instance) {
    v != 0 && peer.valid.Some? ==>
      && (k.ValuesView? || peer.valid.value.view == v)
      && (k.AboveCheckpoint? || AboveCheckpoints(logs, peer.valid.value.states, v - 1, i))
  }

  predicate InWindow(c: Config, l: Local, i: Instance) {
    forall j :: j in l.slots ==> i < j + c.window
  }

  lemma {:induction false} AllDropped(queue: seq<Cert>, v: View, i: Instance)
    requires forall x :: x in queue ==> Before(x, v, i)
    ensures DropStale(queue, v, i) == []
  {
    if queue != [] {
      assert queue[0] in queue;
      AllDropped(queue[1..], v, i);
    }
  }

  lemma NothingReplayed(c: Config, l: Local, v: View, i: Instance)
    requires Shaped(c, l) && StaleOnly(l, v, i)
    ensures (set q: nat | q < c.n && Replays(l.buffered[q], v, i)) == {}
    ensures seq(c.n, q requires 0 <= q < c.n => AfterReplay(l.buffered[q], v, i)) == NoBuffers(c.n)
  {
    hide DropStale, Before;
    forall q: nat | q < c.n ensures !Replays(l.buffered[q], v, i) && AfterReplay(l.buffered[q], v, i) == [] {
      AllDropped(l.buffered[q], v, i);
    }
  }

  lemma PlainInsert(c: Config, l: Local, p: Replica, from: Replica, v: View, i: Instance, b: Batch)
    requires Shaped(c, l) && p < c.n && from < c.n && PrepareOk(c, l, p, from, v, i, b) && StaleOnly(l, v, i) && InWindow(c, l, i)
    ensures Handle(c, l, p, from, Prepare(v, i, b)) == Some(Prepares(l, from, v, i, b))
  {
    var l1 := Bump(l, from);
    assert !IsByzantinePrepare(c, l1, from, v, i, b);
    NothingReplayed(c, l1, v, i);
    assert Evict(l.slots, c.window, i) == l.slots;
    hide Replays, AfterReplay, IsByzantinePrepare, PrepareOk, StaleOnly, InWindow, Evict;
    assert Insert(c, l1, from, v, i, b).peers == Prepares(l, from, v, i, b).peers;
  }

  /** p hears a prepare and inserts it. */
  lemma Inserts(c: Config, k: Check, s: State, p: Replica, from: Replica, v: View, i: Instance, b: Batch) returns (s': State)
    requires Reached(c, k, s) && Hears(c, s, p, from, Prepare(v, i, b)) && PrepareOk(c, s.locals[p], p, from, v, i, b)
    requires StaleOnly(s.locals[p], v, i) && InWindow(c, s.locals[p], i) && PrepareChecked(k, s.logs, s.locals[p].peers[from], v, i)
    ensures Reached(c, k, s') && Sane(c, s') && s' == SetLocal(s, p, Prepares(s.locals[p], from, v, i, b))
  {
    hide Reached, Handle, AboveCheckpoints;
    s' := SetLocal(s, p, Prepares(s.locals[p], from, v, i, b));
    PlainInsert(c, s.locals[p], p, from, v, i, b);
    DeliverStep(c, k, s, p, from, Prepare(v, i, b), Prepares(s.locals[p], from, v, i, b), s');
  }

  /** The only buffered commit, of r, is for (v, i). */
  predicate ReplaysOnly(l: Local, r: Replica, v: View, i: Instance) {
    && r < |l.buffered| && |l.buffered[r]| == 1 && l.buffered[r][0].view == v && l.buffered[r][0].instance == i
    && forall q :: 0 <= q < |l.buffered| && q != r ==> l.buffered[q] == []
  }

  function Replaying(l: Local, from: Replica, v: View, i: Instance, b: Batch, r: Replica): Local
    requires from < |l.peers| && r < |l.peers|
  {
    var l1 := Prepares(l, from, v, i, b);
    SetPeer(l1, r, l1.peers[r].(outstanding := Decrement(l1.peers[r].outstanding))).(slots := l.slots[i := NewSlot(v, b).(slow := {r})])
  }

  lemma OneReplayed(c: Config, l: Local, r: Replica, v: View, i: Instance)
    requires Shaped(c, l) && ReplaysOnly(l, r, v, i)
    ensures (set q: nat | q < c.n && Replays(l.buffered[q], v, i)) == {r}
    ensures seq(c.n, q requires 0 <= q < c.n => AfterReplay(l.buffered[q], v, i)) == NoBuffers(c.n)
  {
    forall q: nat | q < c.n ensures (Replays(l.buffered[q], v, i) <==> q == r) && AfterReplay(l.buffered[q], v, i) == [] {}
    hide Replays, AfterReplay;
  }

  lemma ReplayingPeers(c: Config, l: Local, from: Replica, v: View, i: Instance, b: Batch, r: Replica)
    requires Shaped(c, l) && from < c.n && r < c.n && r != from
    ensures forall q: nat :: q < c.n ==> PeerAfterPrepare(Bump(l, from).peers[q], q == from, q in {r}, i) == Replaying(l, from, v, i, b, r).peers[q]
  {
    hide Decrement, NoBuffers;
  }

  lemma ReplayingInsert(c: Config, l: Local, p: Replica, from: Replica, v: View, i: Instance, b: Batch, r: Replica)
    requires Shaped(c, l) && p < c.n && from < c.n && PrepareOk(c, l, p, from, v, i, b) && r != from && ReplaysOnly(l, r, v, i) && InWindow(c, l, i)
    ensures Handle(c, l, p, from, Prepare(v, i, b)) == Some(Replaying(l, from, v, i, b, r))
  {
    var l1 := Bump(l, from);
    assert !IsByzantinePrepare(c, l1, from, v, i, b);
    OneReplayed(c, l1, r, v, i);
    assert Evict(l.slots, c.window, i) == l.slots;
    hide Replays, AfterReplay, IsByzantinePrepare, InWindow, Evict;
    ReplayingPeers(c, l, from, v, i, b, r);
    hide Decrement, PrepareOk, ReplaysOnly, PeerAfterPrepare, AfterPrepare;
    assert Insert(c, l1, from, v, i, b).peers == Replaying(l, from, v, i, b, r).peers;
  }

  /** p hears a prepare and inserts it, and counts the commit of r that waited for it. */
  lemma InsertsAndReplays(c: Config, k: Check, s: State, p: Replica, from: Replica, v: View, i: Instance, b: Batch, r: Replica) returns (s': State)
    requires Reached(c, k, s) && Hears(c, s, p, from, Prepare(v, i, b)) && PrepareOk(c, s.locals[p], p, from, v, i, b) && r < c.n && r != from
    requires ReplaysOnly(s.locals[p], r, v, i) && InWindow(c, s.locals[p], i) && PrepareChecked(k, s.logs, s.locals[p].peers[from], v, i)
    ensures Reached(c, k, s') && Sane(c, s') && s' == SetLocal(s, p, Replaying(s.locals[p], from, v, i, b, r))
  {
    hide Reached, Handle, AboveCheckpoints;
    s' := SetLocal(s, p, Replaying(s.locals[p], from, v, i, b, r));
    ReplayingInsert(c, s.locals[p], p, from, v, i, b, r);
    DeliverStep(c, k, s, p, from, Prepare(v, i, b), Replaying(s.locals[p], from, v, i, b, r), s');
  }

  /** Inserting i pushes instance `out` out of the window, and only that. */
  predicate Evicts(c: Config, l: Local, i: Instance, out: Instance) {
    out + c.window <= i && forall j :: j in l.slots && j != out ==> i < j + c.window
  }

  lemma EvictingInsert(c: Config, l: Local, p: Replica, from: Replica, v: View, i: Instance, b: Batch, out: Instance)
    requires Shaped(c, l) && p < c.n && from < c.n && PrepareOk(c, l, p, from, v, i, b) && StaleOnly(l, v, i) && Evicts(c, l, i, out)
    ensures Handle(c, l, p, from, Prepare(v, i, b)) == Some(Prepares(l.(slots := l.slots - {out}), from, v, i, b))
  {
    var l1 := Bump(l, from);
    assert !IsByzantinePrepare(c, l1, from, v, i, b);
    NothingReplayed(c, l1, v, i);
    assert Evict(l.slots, c.window, i) == l.slots - {out};
    hide Replays, AfterReplay, IsByzantinePrepare, PrepareOk, StaleOnly, Evicts, Evict;
    assert Insert(c, l1, from, v, i, b).peers == Prepares(l, from, v, i, b).peers;
  }

  /** p hears a prepare and inserts it, which pushes instance `out` out of the window. */
  lemma InsertsAndEvicts(c: Config, k: Check, s: State, p: Replica, from: Replica, v: View, i: Instance, b: Batch, out: Instance) returns (s': State)
    requires Reached(c, k, s) && Hears(c, s, p, from, Prepare(v, i, b)) && PrepareOk(c, s.locals[p], p, from, v, i, b)
    requires StaleOnly(s.locals[p], v, i) && Evicts(c, s.locals[p], i, out) && PrepareChecked(k, s.logs, s.locals[p].peers[from], v, i)
    requires k.NoEviction?
    ensures Reached(c, k, s') && Sane(c, s') && s' == SetLocal(s, p, Prepares(s.locals[p].(slots := s.locals[p].slots - {out}), from, v, i, b))
  {
    hide Reached, Handle, AboveCheckpoints;
    var l' := Prepares(s.locals[p].(slots := s.locals[p].slots - {out}), from, v, i, b);
    s' := SetLocal(s, p, l');
    EvictingInsert(c, s.locals[p], p, from, v, i, b, out);
    DeliverStep(c, k, s, p, from, Prepare(v, i, b), l', s');
  }

  /** The leader of view 0 prepares. */
  lemma Proposes(c: Config, k: Check, s: State, p: Replica, i: Instance, b: Batch) returns (s': State)
    requires Reached(c, k, s) && Acts(c, s, p) && PrepareOk(c, s.locals[p], p, p, 0, i, b) && s.locals[p].peers[p].valid.None?
    requires StaleOnly(s.locals[p], 0, i) && InWindow(c, s.locals[p], i)
    ensures Reached(c, k, s') && Sane(c, s') && s' == SetLocal(Append(s, p, Prepare(0, i, b)), p, Prepares(s.locals[p], p, 0, i, b))
  {
    IsQuiescent(c, k, s, p);
    hide Reached, Handle;
    s' := SetLocal(Append(s, p, Prepare(0, i, b)), p, Prepares(s.locals[p], p, 0, i, b));
    PlainInsert(c, s.locals[p], p, p, 0, i, b);
    BroadcastStep(c, k, s, p, Prepare(0, i, b), Prepares(s.locals[p], p, 0, i, b), s');
  }

  /** p hears a prepare of a view it is not in. */
  lemma Ignores(c: Config, k: Check, s: State, p: Replica, from: Replica, v: View, i: Instance, b: Batch) returns (s': State)
    requires Reached(c, k, s) && Hears(c, s, p, from, Prepare(v, i, b)) && v != s.locals[p].peers[p].view
    requires !IsByzantinePrepare(c, s.locals[p], from, v, i, b) && PrepareChecked(k, s.logs, s.locals[p].peers[from], v, i)
    ensures Reached(c, k, s') && Sane(c, s') && s' == SetLocal(s, p, Bump(s.locals[p], from))
  {
    hide Reached, AboveCheckpoints, Insert;
    s' := SetLocal(s, p, Bump(s.locals[p], from));
    DeliverStep(c, k, s, p, from, Prepare(v, i, b), Bump(s.locals[p], from), s');
  }

  // ---------- Signatures, fast commits, decisions, checkpoints ----------

  lemma Certifies(c: Config, k: Check, s: State, p: Replica, i: Instance) returns (s': State)
    requires Reached(c, k, s) && Acts(c, s, p) && i in s.locals[p].slots && !s.locals[p].slots[i].certified
    ensures Reached(c, k, s') && Sane(c, s')
    ensures var slot := s.locals[p].slots[i];
            s' == SetLocal(s, p, s.locals[p].(slots := s.locals[p].slots[i := slot.(certified := true)])).(shares := s.shares + {Share(p, slot.view, i, slot.batch)})
  {
    IsQuiescent(c, k, s, p);
    hide Reached;
    var slot := s.locals[p].slots[i];
    s' := SetLocal(s, p, s.locals[p].(slots := s.locals[p].slots[i := slot.(certified := true)])).(shares := s.shares + {Share(p, slot.view, i, slot.batch)});
    StaysQuiescent(c, k, s, s', p);
    Advance(c, k, s, Certify(p, i), s');
  }

  lemma SendsFast(c: Config, k: Check, s: State, p: Replica, i: Instance) returns (s': State)
    requires Reached(c, k, s) && Acts(c, s, p) && i in s.locals[p].slots && s.locals[p].slots[i].certified
    requires c.n > 0 && Promised(c, s.shares, p, s.locals[p].slots[i].view, i)
    ensures Reached(c, k, s') && Sane(c, s')
    ensures s' == SetLocal(s, p, HandlePromises(s.locals[p], p, i)).(fast := s.fast + {FastCommit(p, s.locals[p].slots[i].view, i)})
  {
    IsQuiescent(c, k, s, p);
    hide Reached, Promised;
    s' := SetLocal(s, p, HandlePromises(s.locals[p], p, i)).(fast := s.fast + {FastCommit(p, s.locals[p].slots[i].view, i)});
    StaysQuiescent(c, k, s, s', p);
    Advance(c, k, s, SendFast(p, i), s');
  }

  lemma GetsFast(c: Config, k: Check, s: State, p: Replica, from: Replica, v: View, i: Instance) returns (s': State)
    requires Reached(c, k, s) && Acts(c, s, p) && from < c.n && from != p && (c.Correct(from) ==> FastCommit(from, v, i) in s.fast)
    requires i in s.locals[p].slots && from !in s.locals[p].slots[i].fast && (k.FastView? || s.locals[p].slots[i].view == v)
    ensures Reached(c, k, s') && Sane(c, s') && s' == SetLocal(s, p, HandleFast(s.locals[p], from, i).value)
  {
    IsQuiescent(c, k, s, p);
    hide Reached;
    s' := SetLocal(s, p, HandleFast(s.locals[p], from, i).value);
    StaysQuiescent(c, k, s, s', p);
    Advance(c, k, s, RecvFast(p, from, v, i), s');
  }

  lemma Decides(c: Config, k: Check, s: State, p: Replica) returns (s': State)
    requires Reached(c, k, s) && Acts(c, s, p) && HandleDecide(c, s.locals[p]).Some?
    ensures Reached(c, k, s') && Sane(c, s')
    ensures var i := s.locals[p].nextToDecide;
            s' == SetLocal(s, p, HandleDecide(c, s.locals[p]).value).(decisions := s.decisions + {DecisionOf(c, p, i, s.locals[p].slots[i])})
  {
    IsQuiescent(c, k, s, p);
    hide Reached;
    var i := s.locals[p].nextToDecide;
    s' := SetLocal(s, p, HandleDecide(c, s.locals[p]).value).(decisions := s.decisions + {DecisionOf(c, p, i, s.locals[p].slots[i])});
    hide Decidable, DecisionOf;
    StaysQuiescent(c, k, s, s', p);
    Advance(c, k, s, Decide(p), s');
  }

  lemma Signs(c: Config, k: Check, s: State, p: Replica, low: Instance) returns (s': State)
    requires Reached(c, k, s) && Acts(c, s, p) && low <= s.locals[p].nextToDecide
    ensures Reached(c, k, s') && Sane(c, s') && s' == s.(checkpoints := s.checkpoints + {CheckpointShare(p, low)})
  {
    IsQuiescent(c, k, s, p);
    hide Reached;
    s' := s.(checkpoints := s.checkpoints + {CheckpointShare(p, low)});
    StaysQuiescent(c, k, s, s', p);
    Advance(c, k, s, SignCheckpoint(p, low), s');
  }

  /** p signs the checkpoint of all it decided, and adopts it once certified. */
  lemma Adopts(c: Config, k: Check, s: State, p: Replica, low: Instance, signers: set<Replica>) returns (s': State)
    requires Reached(c, k, s) && Acts(c, s, p) && s.locals[p].certified < low <= s.locals[p].nextToDecide
    requires SignedCheckpoint(c, s.checkpoints + {CheckpointShare(p, low)}, low, signers)
    ensures Reached(c, k, s') && Sane(c, s')
    ensures s' == SetLocal(s, p, s.locals[p].(certified := low, certifiedAt := low)).(checkpoints := s.checkpoints + {CheckpointShare(p, low)})
  {
    IsQuiescent(c, k, s, p);
    hide Reached;
    var s1 := Signs(c, k, s, p, low);
    s' := SetLocal(s1, p, s1.locals[p].(certified := low, certifiedAt := low));
    StaysQuiescent(c, k, s1, s', p);
    Advance(c, k, s1, AdoptCheckpoint(p, low), s');
  }

  function Pruned(l: Local, from: Replica, low: Instance): Local
    requires from < |l.peers|
  {
    var peer := l.peers[from];
    SetPeer(l, from, peer.(nextCb := peer.nextCb + 1, low := low, commits := Prune(peer.commits, low)))
  }

  function Above(slots: map<Instance, Slot>, low: Instance): map<Instance, Slot> {
    map i | i in slots && low <= i :: slots[i]
  }

  lemma NoneAbove(slots: map<Instance, Slot>, low: Instance)
    requires forall i :: i in slots ==> i < low
    ensures Above(slots, low) == map[]
  {}

  lemma PrunesAll(commits: map<Instance, Entry>, low: Instance)
    requires forall i :: i in commits ==> i < low
    ensures Prune(commits, low) == map[]
  {}

  lemma SetTwice<T>(a: seq<T>, i: nat, x: T, y: T)
    requires i < |a|
    ensures a[i := x][i := y] == a[i := y]
  {}

  /** What p is like once it has broadcast the checkpoint it adopted. */
  function AfterCheckpoint(l: Local, p: Replica): Local
    requires p < |l.peers|
  {
    Pruned(l, p, l.certified).(slots := Above(l.slots, l.certified), sentAbove := l.certified)
  }

  predicate MayCheckpoint(l: Local, p: Replica)
    requires p < |l.peers|
  {
    l.peers[p].low < l.certifiedAt && l.peers[p].low <= l.certified && l.sentAbove < l.certified
  }

  lemma CheckpointSteps(c: Config, k: Check, s: State, p: Replica, s': State) returns (s1: State)
    requires Reached(c, k, s) && Acts(c, s, p) && MayCheckpoint(s.locals[p], p)
    requires s' == SetLocal(Append(s, p, Checkpoint(s.locals[p].certifiedAt, s.locals[p].certified)), p, AfterCheckpoint(s.locals[p], p))
    ensures Reaches(c, k, s1) && s1 == SetLocal(s, p, Begun(s.locals[p], Checkpoint(s.locals[p].certifiedAt, s.locals[p].certified)))
    ensures Sane(c, s1) && Sane(c, s') && Reached(c, k, s')
    ensures var m := Checkpoint(s.locals[p].certifiedAt, s.locals[p].certified);
            Next(c, s1, Broadcast(p, m), s') && OthersPass(c, k, s1, Broadcast(p, m))
  {
    IsQuiescent(c, k, s, p);
    hide Reached, Prune;
    var l, m := s.locals[p], Checkpoint(s.locals[p].certifiedAt, s.locals[p].certified);
    var l' := AfterCheckpoint(l, p);
    SetTwice(l.peers, p, Bump(l, p).peers[p], l'.peers[p]);
    s1 := BothSteps(c, k, s, p, m, l', s');
    hide Next, OthersPass, Handle, AfterBroadcast;
    BroadcastStep(c, k, s, p, m, l', s');
  }

  /** p broadcasts the checkpoint it adopted. */
  lemma Checkpoints(c: Config, k: Check, s: State, p: Replica) returns (s': State)
    requires Reached(c, k, s) && Acts(c, s, p) && MayCheckpoint(s.locals[p], p)
    ensures Reached(c, k, s') && Sane(c, s')
    ensures s' == SetLocal(Append(s, p, Checkpoint(s.locals[p].certifiedAt, s.locals[p].certified)), p, AfterCheckpoint(s.locals[p], p))
  {
    hide Reached, Next, OthersPass, Begun;
    s' := SetLocal(Append(s, p, Checkpoint(s.locals[p].certifiedAt, s.locals[p].certified)), p, AfterCheckpoint(s.locals[p], p));
    var s1 := CheckpointSteps(c, k, s, p, s');
  }

  lemma SignedPasses(c: Config, checkpoints: set<CheckpointShare>, p: Replica, index: Instance, low: Instance, signers: set<Replica>)
    requires SignedCheckpoint(c, checkpoints, index, signers) && (low == index || CheckpointShare(p, index) in checkpoints)
    ensures CheckpointChecked(c, checkpoints, p, index, low)
  {
    forall r | r in signers && c.Correct(r) ensures CheckpointPasses(checkpoints, p, r, index, low) {
      assert CheckpointShare(r, index) in checkpoints;
    }
    assert PassedCheckpoint(c, checkpoints, p, index, low, signers);
  }

  lemma HearsCheckpoint(c: Config, k: Check, s: State, p: Replica, from: Replica, low: Instance, signers: set<Replica>) returns (s': State)
    requires Reached(c, k, s) && Hears(c, s, p, from, Checkpoint(low, low)) && s.locals[p].peers[from].low < low
    requires SignedCheckpoint(c, s.checkpoints, low, signers) && s.locals[p].certified < low
    ensures Reached(c, k, s') && Sane(c, s') && s' == SetLocal(s, p, Pruned(s.locals[p], from, low).(certified := low, certifiedAt := low))
  {
    SignedPasses(c, s.checkpoints, p, low, low, signers);
    hide Reached, Prune, CheckpointChecked;
    var l := s.locals[p];
    var l' := Pruned(l, from, low).(certified := low, certifiedAt := low);
    SetTwice(l.peers, from, Bump(l, from).peers[from], l'.peers[from]);
    s' := SetLocal(s, p, l');
    DeliverStep(c, k, s, p, from, Checkpoint(low, low), l', s');
  }

  /** A checkpoint vouched for by the signatures of another one, which p remembers. */
  lemma HearsForged(c: Config, k: Check, s: State, p: Replica, from: Replica, index: Instance, low: Instance, signers: set<Replica>) returns (s': State)
    requires Reached(c, k, s) && Hears(c, s, p, from, Checkpoint(index, low)) && s.locals[p].peers[from].low < index
    requires k.CheckpointsForward? || (k.CheckpointCertificate? && s.locals[p].peers[from].low <= low)
    requires SignedCheckpoint(c, s.checkpoints, index, signers) && CheckpointShare(p, index) in s.checkpoints
    ensures Reached(c, k, s') && Sane(c, s')
    ensures var l := s.locals[p];
            s' == SetLocal(s, p, if low <= l.certified then Pruned(l, from, low) else Pruned(l, from, low).(certified := low, certifiedAt := index))
  {
    SignedPasses(c, s.checkpoints, p, index, low, signers);
    hide Reached, Prune, CheckpointChecked;
    var l := s.locals[p];
    var l' := if low <= l.certified then Pruned(l, from, low) else Pruned(l, from, low).(certified := low, certifiedAt := index);
    SetTwice(l.peers, from, Bump(l, from).peers[from], l'.peers[from]);
    s' := SetLocal(s, p, l');
    DeliverStep(c, k, s, p, from, Checkpoint(index, low), l', s');
  }

  // ---------- Commits ----------

  predicate CommitOk(c: Config, peer: Peer, cert: Cert) {
    && cert.instance < peer.low + c.window && cert.view == peer.view
    && (cert.instance in peer.commits ==> peer.commits[cert.instance].view < cert.view)
  }

  function AfterCommit(peer: Peer, cert: Cert): Peer {
    peer.(nextCb := peer.nextCb + 1, commits := peer.commits[cert.instance := Entry(cert.view, cert.batch)])
  }

  /** Received, and under verification. */
  function Receives(l: Local, from: Replica, cert: Cert): Local
    requires from < |l.peers| && from < |l.pending|
  {
    var peer := AfterCommit(l.peers[from], cert);
    SetPeer(l, from, peer.(outstanding := Increment(peer.outstanding))).(pending := l.pending[from := l.pending[from] + multiset{cert}])
  }

  /** Received, verified and counted. */
  function Counts(l: Local, from: Replica, cert: Cert): Local
    requires from < |l.peers| && cert.instance in l.slots
  {
    var slot := l.slots[cert.instance];
    SetPeer(l, from, AfterCommit(l.peers[from], cert)).(slots := l.slots[cert.instance := slot.(slow := slot.slow + {from})])
  }

  /** Received, verified and buffered. */
  function Buffers(l: Local, from: Replica, cert: Cert): Local
    requires from < |l.peers| && from < |l.buffered|
  {
    SetPeer(l, from, AfterCommit(l.peers[from], cert)).(buffered := l.buffered[from := l.buffered[from] + [cert]])
  }

  lemma ReceivesLocal(c: Config, l: Local, p: Replica, from: Replica, cert: Cert)
    requires Shaped(c, l) && p < c.n && from < c.n && CommitOk(c, l.peers[from], cert)
    ensures Handle(c, l, p, from, Commit(cert)) == Some(Receives(l, from, cert))
  {
    SetTwice(l.peers, from, Bump(l, from).peers[from], Receives(l, from, cert).peers[from]);
  }

  lemma CountsLocal(c: Config, l: Local, from: Replica, cert: Cert)
    requires Shaped(c, l) && from < c.n && cert.instance in l.slots && from !in l.slots[cert.instance].slow && l.peers[from].outstanding + 1 < SIZE_T
    ensures HandleVerified(c, Receives(l, from, cert), from, cert) == Some(Counts(l, from, cert))
  {
    var r := HandleVerified(c, Receives(l, from, cert), from, cert).value;
    assert r.peers == Counts(l, from, cert).peers;
    assert l.pending[from] + multiset{cert} - multiset{cert} == l.pending[from];
    assert r.pending == l.pending;
  }

  lemma BuffersLocal(c: Config, l: Local, from: Replica, cert: Cert)
    requires Shaped(c, l) && from < c.n && cert.instance !in l.slots && |l.buffered[from]| < c.window && l.peers[from].outstanding + 1 < SIZE_T
    ensures HandleVerified(c, Receives(l, from, cert), from, cert) == Some(Buffers(l, from, cert))
  {
    var r := HandleVerified(c, Receives(l, from, cert), from, cert).value;
    assert r.peers == Buffers(l, from, cert).peers;
    assert l.pending[from] + multiset{cert} - multiset{cert} == l.pending[from];
    assert r.pending == l.pending;
  }

  lemma HearsCommit(c: Config, k: Check, s: State, p: Replica, from: Replica, cert: Cert) returns (s': State)
    requires Reached(c, k, s) && Hears(c, s, p, from, Commit(cert)) && CommitOk(c, s.locals[p].peers[from], cert)
    ensures Reached(c, k, s') && Sane(c, s') && s' == SetLocal(s, p, Receives(s.locals[p], from, cert))
  {
    hide Reached, Handle;
    s' := SetLocal(s, p, Receives(s.locals[p], from, cert));
    ReceivesLocal(c, s.locals[p], p, from, cert);
    DeliverStep(c, k, s, p, from, Commit(cert), Receives(s.locals[p], from, cert), s');
  }

  /** The checks of a certificate taken from verification, but k. */
  ghost predicate VerifiedChecked(c: Config, k: Check, s: State, p: Replica, from: Replica, cert: Cert)
    requires p < |s.locals|
  {
    && (from != p ==> CertChecked(c, s.shares, p, cert))
    && (k.CommitCertificate? || CertValid(c, s.shares, cert))
    && (k.CommitView? || (cert.instance in s.locals[p].slots ==> s.locals[p].slots[cert.instance].view == cert.view))
  }

  lemma VerifiedStep(c: Config, k: Check, s: State, p: Replica, from: Replica, cert: Cert, l': Local, s': State)
    requires Reached(c, k, s) && Acts(c, s, p) && from < c.n && cert in s.locals[p].pending[from]
    requires HandleVerified(c, s.locals[p], from, cert) == Some(l') && VerifiedChecked(c, k, s, p, from, cert) && s' == SetLocal(s, p, l')
    ensures Reached(c, k, s')
  {
    IsQuiescent(c, k, s, p);
    hide Reached, HandleVerified, CertChecked, CertValid;
    StaysQuiescent(c, k, s, s', p);
    Advance(c, k, s, Verified(p, from, cert), s');
  }

  lemma HearsAndCounts(c: Config, k: Check, s: State, p: Replica, from: Replica, cert: Cert) returns (s': State)
    requires Reached(c, k, s) && Hears(c, s, p, from, Commit(cert)) && CommitOk(c, s.locals[p].peers[from], cert)
    requires cert.instance in s.locals[p].slots && from !in s.locals[p].slots[cert.instance].slow && s.locals[p].peers[from].outstanding == 0
    requires VerifiedChecked(c, k, s, p, from, cert)
    ensures Reached(c, k, s') && Sane(c, s') && s' == SetLocal(s, p, Counts(s.locals[p], from, cert))
  {
    hide Reached, CertChecked, CertValid, HandleVerified, CommitOk;
    var s1 := HearsCommit(c, k, s, p, from, cert);
    CountsLocal(c, s.locals[p], from, cert);
    s' := SetLocal(s1, p, Counts(s.locals[p], from, cert));
    VerifiedStep(c, k, s1, p, from, cert, Counts(s.locals[p], from, cert), s');
    SetTwice(s.locals, p, Receives(s.locals[p], from, cert), Counts(s.locals[p], from, cert));
  }

  lemma HearsAndBuffers(c: Config, k: Check, s: State, p: Replica, from: Replica, cert: Cert) returns (s': State)
    requires Reached(c, k, s) && Hears(c, s, p, from, Commit(cert)) && CommitOk(c, s.locals[p].peers[from], cert)
    requires cert.instance !in s.locals[p].slots && |s.locals[p].buffered[from]| < c.window && s.locals[p].peers[from].outstanding == 0
    requires VerifiedChecked(c, k, s, p, from, cert)
    ensures Reached(c, k, s') && Sane(c, s') && s' == SetLocal(s, p, Buffers(s.locals[p], from, cert))
  {
    hide Reached, CertChecked, CertValid, HandleVerified, CommitOk;
    var s1 := HearsCommit(c, k, s, p, from, cert);
    BuffersLocal(c, s.locals[p], from, cert);
    s' := SetLocal(s1, p, Buffers(s.locals[p], from, cert));
    VerifiedStep(c, k, s1, p, from, cert, Buffers(s.locals[p], from, cert), s');
    SetTwice(s.locals, p, Receives(s.locals[p], from, cert), Buffers(s.locals[p], from, cert));
  }

  /** p broadcasts a commit and counts it. */
  lemma Commits(c: Config, k: Check, s: State, p: Replica, cert: Cert) returns (s': State)
    requires Reached(c, k, s) && Acts(c, s, p) && CommitOk(c, s.locals[p].peers[p], cert) && s.locals[p].peers[p].low <= cert.instance
    requires Share(p, cert.view, cert.instance, cert.batch) in s.shares && CertValid(c, s.shares, cert)
    requires cert.instance in s.locals[p].slots && p !in s.locals[p].slots[cert.instance].slow && s.locals[p].peers[p].outstanding == 0
    requires s.locals[p].slots[cert.instance].view == cert.view
    ensures Reached(c, k, s') && Sane(c, s') && s' == SetLocal(Append(s, p, Commit(cert)), p, Counts(s.locals[p], p, cert))
  {
    IsQuiescent(c, k, s, p);
    hide Reached, CertChecked, CertValid, HandleVerified, Handle;
    var l := s.locals[p];
    var s1 := SetLocal(Append(s, p, Commit(cert)), p, Receives(l, p, cert));
    ReceivesLocal(c, l, p, p, cert);
    BroadcastStep(c, k, s, p, Commit(cert), Receives(l, p, cert), s1);
    CountsLocal(c, l, p, cert);
    s' := SetLocal(s1, p, Counts(l, p, cert));
    VerifiedStep(c, k, s1, p, p, cert, Counts(l, p, cert), s');
    SetTwice(s.locals, p, Receives(l, p, cert), Counts(l, p, cert));
  }

  // ---------- View changes ----------

  function NextView(l: Local, from: Replica): Local
    requires from < |l.peers|
  {
    var peer := l.peers[from];
    SetPeer(l, from, peer.(nextCb := peer.nextCb + 1, view := peer.view + 1))
  }

  lemma Seals(c: Config, k: Check, s: State, p: Replica) returns (s': State)
    requires Reached(c, k, s) && Acts(c, s, p) && AllCommitted(s.locals[p], p)
    requires s.locals[p].peers[p].outstanding == 0 && s.locals[p].pending[p] == multiset{}
    ensures Reached(c, k, s') && Sane(c, s')
    ensures var l := s.locals[p];
            s' == SetLocal(Append(s, p, SealView), p, NextView(l, p).(slots := map[], minKey := 0)).(seals := s.seals + {SealShare(p, p, l.peers[p].view, l.peers[p].commits)})
  {
    IsQuiescent(c, k, s, p);
    hide Reached;
    var l := s.locals[p];
    var l' := NextView(l, p).(slots := map[], minKey := 0);
    SetTwice(l.peers, p, Bump(l, p).peers[p], l'.peers[p]);
    s' := SetLocal(Append(s, p, SealView), p, l').(seals := s.seals + {SealShare(p, p, l.peers[p].view, l.peers[p].commits)});
    BroadcastStep(c, k, s, p, SealView, l', s');
  }

  lemma HearsSeal(c: Config, k: Check, s: State, p: Replica, from: Replica) returns (s': State)
    requires Reached(c, k, s) && Hears(c, s, p, from, SealView) && s.locals[p].peers[from].outstanding == 0
    requires k.NothingPending? || s.locals[p].pending[from] == multiset{}
    ensures Reached(c, k, s') && Sane(c, s')
    ensures var peer := s.locals[p].peers[from];
            s' == SetLocal(s, p, NextView(s.locals[p], from)).(seals := s.seals + {SealShare(p, from, peer.view, peer.commits)})
  {
    hide Reached;
    var l := s.locals[p];
    SetTwice(l.peers, from, Bump(l, from).peers[from], NextView(l, from).peers[from]);
    s' := SetLocal(s, p, NextView(l, from)).(seals := s.seals + {SealShare(p, from, l.peers[from].view, l.peers[from].commits)});
    DeliverStep(c, k, s, p, from, SealView, NextView(l, from), s');
  }

  function Follows(l: Local, from: Replica, v: View, states: seq<VcState>, values: map<Instance, Batch>): Local
    requires from < |l.peers|
  {
    var peer := l.peers[from];
    SetPeer(l, from, peer.(nextCb := peer.nextCb + 1, nextPrepare := peer.low, valid := Some(Valid(v, states, values))))
  }

  /** The certificates of a NewView pass at p, and all checks but k. */
  ghost predicate NewViewChecked(c: Config, k: Check, seals: set<SealShare>, p: Replica, v: View, states: seq<VcState>) {
    && |states| == c.Quorum()
    && (forall j :: 0 <= j < |states| ==> StateChecked(c, seals, p, states[j]))
    && (k.StateCertificates? || AllValid(c, seals, states))
    && (k.DistinctStates? || Distinct(states))
    && (k.StatesView? || AllOfView(states, v))
  }

  lemma HearsNewView(c: Config, k: Check, s: State, p: Replica, from: Replica, v: View, states: seq<VcState>, values: map<Instance, Batch>) returns (s': State)
    requires Reached(c, k, s) && Hears(c, s, p, from, NewView(v, states)) && v <= s.locals[p].peers[p].view
    requires NewViewChecked(c, k, s.seals, p, v, states) && values == Batches(c.window, Best(states))
    ensures Reached(c, k, s') && Sane(c, s') && s' == SetLocal(s, p, Follows(s.locals[p], from, v, states, values))
  {
    hide Reached, StateChecked, AllValid, Distinct, AllOfView, Best, Batches;
    var l := s.locals[p];
    var l' := Follows(l, from, v, states, values);
    SetTwice(l.peers, from, Bump(l, from).peers[from], l'.peers[from]);
    s' := SetLocal(s, p, l');
    DeliverStep(c, k, s, p, from, NewView(v, states), l', s');
  }

  // ---------- Certificates ----------

  lemma ValidIsChecked(c: Config, shares: set<Share>, p: Replica, cert: Cert)
    requires CertValid(c, shares, cert)
    ensures CertChecked(c, shares, p, cert)
  {
    forall r | r in cert.signers && c.Correct(r) ensures SharePasses(shares, p, r, cert) {
      assert Share(r, cert.view, cert.instance, cert.batch) in shares;
    }
  }

  lemma ValidStateIsChecked(c: Config, seals: set<SealShare>, p: Replica, st: VcState)
    requires StateValid(c, seals, st)
    ensures StateChecked(c, seals, p, st)
  {
    forall r | r in st.signers && c.Correct(r) ensures SealPasses(seals, p, r, st) {
      assert SealShare(r, st.replica, st.view, st.commits) in seals;
    }
  }

  // ---------- Checkpoints ----------

  ghost predicate NoCheckpoints(log: seq<Msg>) {
    forall m :: m in log ==> !m.Checkpoint?
  }

  lemma {:induction false} LowStaysZero(log: seq<Msg>)
    requires NoCheckpoints(log)
    ensures Fold(log).low == 0
  {
    if log != [] {
      LowStaysZero(log[..|log| - 1]);
      assert log[|log| - 1] in log;
    }
  }

  lemma NothingBelow(logs: seq<seq<Msg>>, states: seq<VcState>, v: View, i: Instance)
    requires forall k :: 0 <= k < |states| && states[k].replica < |logs| ==> NoCheckpoints(logs[states[k].replica])
    ensures AboveCheckpoints(logs, states, v, i)
  {
    hide NoCheckpoints;
    forall k | 0 <= k < |states| && states[k].replica < |logs| && SealPos(logs[states[k].replica], v).Some?
      ensures var log := logs[states[k].replica]; Fold(log[..SealPosBound(log, v)]).low == 0
    {
      var log := logs[states[k].replica];
      PrefixPlain(log, SealPosBound(log, v));
      LowStaysZero(log[..SealPosBound(log, v)]);
    }
  }

  lemma PrefixPlain(log: seq<Msg>, k: nat)
    requires k <= |log| && NoCheckpoints(log)
    ensures NoCheckpoints(log[..k])
  {}
}
