/** Tail consistent broadcast as a state machine over its receivers, for one
    broadcaster of any behaviour. Handlers are functions on the state of one
    receiver, `None` where the source throws (such a receiver stops). The registers
    of a correct receiver are regular: a read returns a write no older than the last
    one completed before the read began. Everything a Byzantine receiver or the
    broadcaster contributes is arbitrary. */
module TailCbProtocol {
  import opened Options
  import opened Quorums

  type Replica = nat
  type Index = nat
  type Byte = bv8
  type Bytes = seq<Byte>

  /** From this size on, receivers echo the hash of a message. */
  const HASH_THRESHOLD := 8192
  const HASH_LENGTH := 32

  /** `hash` covers the index and the data; `verify` checks a signature of the broadcaster. */
  datatype Config = Config(n: nat, byzantine: set<Replica>, tail: nat,
                           hash: (Index, Bytes) -> Bytes, verify: (Bytes, Bytes) -> bool) {
    predicate Correct(r: Replica) { r < n && r !in byzantine }

    ghost predicate Valid() {
      && tail > 0
      && (forall k, m :: |hash(k, m)| == HASH_LENGTH)
      && forall s, g, h :: verify(s, g) && verify(s, h) ==> g == h
    }

    /** The register that holds CB index k, and the incarnation it has then. */
    function Slot(k: Index): nat
      requires tail > 0
    {
      k % tail
    }

    function Incarnation(k: Index): nat
      requires tail > 0
    {
      k / tail + 1
    }
  }

  /** An echo in its buffer: `stale` is what the buffer holds beyond the end of the echo. */
  datatype Echo = Echo(index: Index, data: Bytes, stale: Bytes)

  /** What a receiver echoes for the message it accepted at index k. */
  function EchoOf(c: Config, k: Index, data: Bytes): Bytes {
    if |data| < HASH_THRESHOLD then data else c.hash(k, data)
  }

  /** The comparison of `MessageData::echoed`. The raw one only walks over the left
      operand: a shorter echo is compared together with what follows it in its buffer. */
  predicate Matches(c: Config, k: Index, data: Bytes, e: Echo) {
    if |data| < HASH_THRESHOLD then data <= e.data + e.stale
    else |e.data| == HASH_LENGTH && e.data == c.hash(k, data)
  }

  /** `MessageData` */
  datatype Data = Data(data: Bytes, echoes: set<Replica>, match_: bool, sig: Option<Bytes>, checked: nat)

  /** The content of a register. */
  datatype Register = Register(hash: Bytes, sig: Bytes)

  /** An outstanding read of the register of `owner`, begun after incarnation `floor` was complete. */
  datatype Read = Read(index: Index, owner: Replica, floor: nat)

  /** A signature under verification in the thread pool. */
  datatype Check =
    | OwnCheck(index: Index, hash: Bytes, sig: Bytes)
    | RegisterCheck(index: Index, owner: Replica, content: Register)

  /** The fields of class Receiver. */
  datatype Local = Local(msgs: map<Index, Data>, latest: Option<Index>, buffered: seq<seq<Echo>>,
                         writes: map<nat, Index>, outReads: set<Read>, checks: multiset<Check>)

  const IDLE := Local(map[], None, [], map[], {}, multiset{})

  /** The first key of an ordered map. */
  predicate IsFirst(msgs: map<Index, Data>, k: Index) {
    k in msgs && forall j :: j in msgs ==> k <= j
  }

  lemma {:induction false} FirstExists(keys: set<Index>) returns (k: Index)
    requires keys != {}
    ensures k in keys && forall j :: j in keys ==> k <= j
    decreases |keys|
  {
    var x :| x in keys;
    var others := keys - {x};
    k := x;
    if others != {} {
      var rest := FirstExists(others);
      k := if x < rest then x else rest;
    }
    assert forall j :: j in keys ==> j == x || j in others;
  }

  function FirstKey(msgs: map<Index, Data>): (k: Index)
    requires msgs != map[]
    ensures IsFirst(msgs, k)
  {
    assert exists k :: IsFirst(msgs, k) by {
      var k := FirstExists(msgs.Keys);
      assert IsFirst(msgs, k);
    }
    var k :| IsFirst(msgs, k);
    k
  }

  function Without<T>(m: map<nat, T>, k: nat): map<nat, T> {
    map j | j in m && j != k :: m[j]
  }

  // ---------- Messages and echoes ----------

  function DropOlder(queue: seq<Echo>, k: Index): (r: seq<Echo>)
    ensures forall e :: e in r ==> e in queue
  {
    if queue != [] && queue[0].index < k then DropOlder(queue[1..], k) else queue
  }

  predicate Replays(queue: seq<Echo>, k: Index) {
    var q := DropOlder(queue, k);
    q != [] && q[0].index == k
  }

  function AfterReplay(queue: seq<Echo>, k: Index): (r: seq<Echo>)
    ensures forall e :: e in r ==> e in queue
  {
    var q := DropOlder(queue, k);
    if Replays(queue, k) then q[1..] else q
  }

  /** A message whose buffered echoes have been replayed. */
  function Fresh(c: Config, buffered: seq<seq<Echo>>, k: Index, data: Bytes): Data {
    var echoed := set q: Replica | q < |buffered| && Replays(buffered[q], k);
    Data(data, echoed,
         forall q: Replica :: q < |buffered| && Replays(buffered[q], k) ==> Matches(c, k, data, DropOlder(buffered[q], k)[0]),
         None, 0)
  }

  /** `handleMessage`; the flag tells that the message was taken and echoed. */
  function HandleMessage(c: Config, l: Local, k: Index, data: Bytes): Option<(Local, bool)> {
    if k in l.msgs || (l.latest.Some? && k <= l.latest.value) then None
    else if exists j :: j in l.msgs && k <= j then Some((l, false))
    else
      var msgs := l.msgs[k := Fresh(c, l.buffered, k, data)];
      var kept := if |msgs| > c.tail then Without(msgs, FirstKey(msgs)) else msgs;
      Some((l.(msgs := kept, buffered := seq(|l.buffered|, q requires 0 <= q < |l.buffered| => AfterReplay(l.buffered[q], k))), true))
  }

  /** `MessageData::echoed` */
  function Echoed(c: Config, d: Data, q: Replica, e: Echo): Data {
    d.(match_ := d.match_ && Matches(c, e.index, d.data, e), echoes := d.echoes + {q})
  }

  /** `handleEcho` */
  function HandleEcho(c: Config, l: Local, q: Replica, e: Echo): Option<Local>
    requires q < |l.buffered|
  {
    if (l.latest.Some? && e.index < l.latest.value) || (l.msgs != map[] && forall j :: j in l.msgs ==> e.index < j) then Some(l)
    else if e.index in l.msgs then
      if q in l.msgs[e.index].echoes then None
      else Some(l.(msgs := l.msgs[e.index := Echoed(c, l.msgs[e.index], q, e)]))
    else
      var queue := l.buffered[q];
      if queue != [] && e.index < queue[|queue| - 1].index then None
      else
        var longer := queue + [e];
        Some(l.(buffered := l.buffered[q := if |longer| > c.tail then longer[1..] else longer]))
  }

  // ---------- Signatures and registers ----------

  /** `handleSignature` */
  function HandleSignature(c: Config, l: Local, k: Index, sig: Bytes): Option<Local> {
    if k !in l.msgs then Some(l)
    else if l.msgs[k].sig.Some? then None
    else Some(l.(msgs := l.msgs[k := l.msgs[k].(sig := Some(sig))],
                 checks := l.checks + multiset{OwnCheck(k, c.hash(k, l.msgs[k].data), sig)}))
  }

  /** Whether handling this finished check writes to the own register. */
  predicate Writes(l: Local, check: Check) {
    check.OwnCheck? && check.index in l.msgs
  }

  /** `checkedAReceiver` */
  function Checked(l: Local, k: Index): Local
    requires k in l.msgs
  {
    l.(msgs := l.msgs[k := l.msgs[k].(checked := l.msgs[k].checked + 1)])
  }

  /** `pollSignatureVerifications`, for one finished verification. `last` is the
      incarnation of the latest write to the own register. */
  function HandleCheck(c: Config, l: Local, check: Check, last: nat): Option<Local>
    requires c.tail > 0
  {
    var rest := l.(checks := l.checks - multiset{check});
    var k := check.index;
    if k !in l.msgs then Some(rest)
    else
      match check
      case OwnCheck(_, hash, sig) =>
        if !c.verify(sig, hash) || c.Slot(k) in l.writes || c.Incarnation(k) <= last || l.msgs[k].sig.None? then None
        else Some(rest.(writes := l.writes[c.Slot(k) := k]))
      case RegisterCheck(_, _, content) =>
        if c.verify(content.sig, content.hash) then None else Some(Checked(rest, k))
  }

  /** `pollWriteCompletions`, for one completed write; `begun` are the reads to begin. */
  function HandleWritten(l: Local, slot: nat, begun: set<Read>): Local
    requires slot in l.writes
  {
    l.(writes := Without(l.writes, slot), outReads := if l.writes[slot] in l.msgs then l.outReads + begun else l.outReads)
  }

  /** What a read found: an incarnation and the content written under it; incarnation
      0 is the initial content. */
  datatype Found = Found(incarnation: nat, content: Register)

  /** `pollReadCompletions`, for one completed read. */
  function HandleRead(c: Config, l: Local, read: Read, found: Found): Option<Local>
    requires c.tail > 0
  {
    var rest := l.(outReads := l.outReads - {read});
    var k := read.index;
    if found.incarnation > c.Incarnation(k) then None
    else if k !in l.msgs then Some(rest)
    else if found.incarnation < c.Incarnation(k) || l.msgs[k].sig == Some(found.content.sig) then Some(Checked(rest, k))
    else Some(rest.(checks := l.checks + multiset{RegisterCheck(k, read.owner, found.content)}))
  }

  predicate Cleared(c: Config, l: Local, read: Read, found: Found)
    requires c.tail > 0
  {
    var k := read.index;
    k in l.msgs && (found.incarnation < c.Incarnation(k) || l.msgs[k].sig == Some(found.content.sig))
  }

  predicate FastPath(c: Config, d: Data) {
    |d.echoes| + 1 == c.n && d.match_
  }

  predicate Pollable(c: Config, d: Data) {
    FastPath(c, d) || d.checked + 1 == c.n
  }

  /** `poll` */
  function HandlePoll(c: Config, l: Local): Option<Local> {
    if l.msgs == map[] || !Pollable(c, l.msgs[FirstKey(l.msgs)]) then None
    else
      var k := FirstKey(l.msgs);
      Some(l.(latest := Some(k), msgs := Without(l.msgs, k)))
  }

  // ---------- Global state ----------

  datatype Delivery = Delivery(receiver: Replica, index: Index, data: Bytes, fast: bool)

  /** Receiver states, the registers (what was written for which index, and the last
      complete incarnation of each slot), and the history: what correct receivers
      accepted (and so echoed), whom they cleared, and what they delivered, in order. */
  datatype State = State(locals: seq<Local>, written: map<(Replica, Index), Register>, done: map<(Replica, nat), nat>,
                         last: map<(Replica, nat), nat>, accepted: map<(Replica, Index), Bytes>,
                         cleared: set<(Replica, Index, Replica)>, delivered: seq<Delivery>)

  function Get(m: map<(Replica, nat), nat>, p: Replica, slot: nat): nat {
    if (p, slot) in m then m[(p, slot)] else 0
  }

  ghost predicate Init(c: Config, s: State) {
    s == State(seq(c.n, _ => IDLE.(buffered := seq(c.n, _ => []))), map[], map[], map[], map[], {}, [])
  }

  predicate Sane(c: Config, s: State) {
    |s.locals| == c.n && forall p: Replica :: p < c.n ==> |s.locals[p].buffered| == c.n
  }

  /** What a read of `owner` may return. */
  ghost predicate Readable(c: Config, s: State, read: Read, found: Found)
    requires c.tail > 0
  {
    c.Correct(read.owner) ==>
      && read.floor <= found.incarnation
      && (found.incarnation != 0 ==>
            exists k: Index :: c.Slot(k) == c.Slot(read.index) && c.Incarnation(k) == found.incarnation &&
              (read.owner, k) in s.written && s.written[(read.owner, k)] == found.content)
  }

  /** The reads begun when the write of index k completes. */
  function ReadsOf(c: Config, s: State, p: Replica, k: Index): set<Read>
    requires c.tail > 0
  {
    set q | q in Group(c.n) && q != p :: Read(k, q, Get(s.done, q, c.Slot(k)))
  }

  datatype Step =
    | Message(p: Replica, k: Index, data: Bytes)
    | Echoes(p: Replica, q: Replica, e: Echo)
    | Signature(p: Replica, k: Index, sig: Bytes)
    | Verified(p: Replica, check: Check)
    | Written(p: Replica, slot: nat)
    | Completed(p: Replica, read: Read, found: Found)
    | Poll(p: Replica)

  ghost predicate Next(c: Config, s: State, step: Step, s': State)
    requires Sane(c, s) && c.tail > 0
  {
    && c.Correct(step.p)
    && var p := step.p;
       var l := s.locals[p];
       match step
       case Message(_, k, data) =>
         var r := HandleMessage(c, l, k, data);
         && r.Some?
         && s' == s.(locals := s.locals[p := r.value.0],
                     accepted := if r.value.1 then s.accepted[(p, k) := data] else s.accepted)
       case Echoes(_, q, e) =>
         && q < c.n && q != p
         && (c.Correct(q) ==> (q, e.index) in s.accepted && e.data == EchoOf(c, e.index, s.accepted[(q, e.index)]))
         && var r := HandleEcho(c, l, q, e);
            r.Some? && s' == s.(locals := s.locals[p := r.value])
       case Signature(_, k, sig) =>
         var r := HandleSignature(c, l, k, sig);
         r.Some? && s' == s.(locals := s.locals[p := r.value])
       case Verified(_, check) =>
         && check in l.checks
         && var k := check.index;
            var r := HandleCheck(c, l, check, Get(s.last, p, c.Slot(k)));
            && r.Some?
            && s' == if Writes(l, check)
                     then s.(locals := s.locals[p := r.value],
                             written := s.written[(p, k) := Register(c.hash(k, l.msgs[k].data), l.msgs[k].sig.value)],
                             last := s.last[(p, c.Slot(k)) := c.Incarnation(k)])
                     else s.(locals := s.locals[p := r.value],
                             cleared := if k in l.msgs then s.cleared + {(p, k, check.owner)} else s.cleared)
       case Written(_, slot) =>
         && slot in l.writes
         && s' == s.(locals := s.locals[p := HandleWritten(l, slot, ReadsOf(c, s, p, l.writes[slot]))],
                     done := s.done[(p, slot) := Get(s.last, p, slot)])
       case Completed(_, read, found) =>
         && read in l.outReads && Readable(c, s, read, found)
         && var r := HandleRead(c, l, read, found);
            && r.Some?
            && s' == s.(locals := s.locals[p := r.value],
                        cleared := if Cleared(c, l, read, found) then s.cleared + {(p, read.index, read.owner)} else s.cleared)
       case Poll(_) =>
         var r := HandlePoll(c, l);
         && r.Some?
         && var k := FirstKey(l.msgs);
            s' == s.(locals := s.locals[p := r.value],
                     delivered := s.delivered + [Delivery(p, k, l.msgs[k].data, FastPath(c, l.msgs[k]))])
  }

  ghost predicate IsRun(c: Config, states: seq<State>, steps: seq<Step>) {
    && c.tail > 0
    && |states| == |steps| + 1
    && Init(c, states[0])
    && (forall i :: 0 <= i < |states| ==> Sane(c, states[i]))
    && forall i :: 0 <= i < |steps| ==> Next(c, states[i], steps[i], states[i + 1])
  }
}
