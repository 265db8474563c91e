/** What a receiver delivers from a ring that is overwritten under it: increasing message
    numbers, the payload sent under each, and a gap only where the ring was overwritten. */
module TailP2pDelivery {
  import opened TailP2p

  // ---------- The sender's writes, in order ----------

  /** The messages ever sent, and the checksum. */
  datatype Sender = Sender(tail: nat, payload: nat -> Bytes, hash: Bytes -> nat) {
    /** A checksum of a message matches that message only. */
    ghost predicate Valid() {
      tail > 0 && forall d: Bytes, s: nat :: hash(d) == hash(payload(s)) ==> d == payload(s)
    }

    /** The number of primitive writes before message s: one each for hash, incarnation and
        size, and one per byte. */
    function Begin(s: nat): nat {
      if s == 0 then 0 else Begin(s - 1) + 3 + |payload(s - 1)|
    }

    /** When write k of message s is visible: 0 is the hash, 1 the incarnation, 2 the size,
        3 + i byte i of the data. */
    function At(s: nat, k: nat): nat {
      Begin(s) + k + 1
    }
  }

  lemma {:induction false} BeginOrder(q: Sender, a: nat, b: nat)
    requires a < b
    ensures q.Begin(a) + 3 + |q.payload(a)| <= q.Begin(b)
    decreases b
  {
    if a < b - 1 {
      BeginOrder(q, a, b - 1);
    }
  }

  /** All writes of a message come before all writes of a later one. */
  lemma AtOrder(q: Sender, a: nat, j: nat, b: nat, k: nat)
    requires a < b && j < 3 + |q.payload(a)|
    ensures q.At(a, j) < q.At(b, k)
  {
    BeginOrder(q, a, b);
  }

  // ---------- What the receiver may read ----------

  /** The times of the reads of one try, in the order of the reads. */
  datatype Times = Times(first: nat, hash: nat, size: nat, bytes: seq<nat>, again: nat)

  ghost predicate InOrder(t: Times) {
    && t.first <= t.hash <= t.size <= t.again
    && forall i :: 0 <= i < |t.bytes| ==> t.size <= t.bytes[i] <= t.again
  }

  /** The slot's incarnation field at time t. */
  ghost predicate ReadsIncarnation(q: Sender, x: nat, t: nat, incarnation: nat)
    requires x < q.tail
  {
    if incarnation == 0 then t < q.At(x, 1)
    else
      var s := Num(MsgId(incarnation, x), q.tail);
      s >= 0 && q.At(s, 1) <= t < q.At(s + q.tail, 1)
  }

  /** The field written last by some message of the slot, with that message's content. */
  ghost predicate Holds(q: Sender, x: nat, t: nat, k: nat, incarnation: nat) {
    var s := Num(MsgId(incarnation, x), q.tail);
    incarnation > 0 && s >= 0 && q.At(s, k) <= t < q.At(s + q.tail, k)
  }

  /** Before the first message of the slot its hash is arbitrary and its size is 0. */
  ghost predicate ReadsHash(q: Sender, x: nat, t: nat, hash: nat)
    requires x < q.tail
  {
    t < q.At(x, 0) || exists i: nat :: Holds(q, x, t, 0, i) && hash == q.hash(q.payload(Num(MsgId(i, x), q.tail)))
  }

  ghost predicate ReadsSize(q: Sender, x: nat, t: nat, size: nat)
    requires x < q.tail
  {
    (t < q.At(x, 2) && size == 0) || exists i: nat :: Holds(q, x, t, 2, i) && size == |q.payload(Num(MsgId(i, x), q.tail))|
  }

  /** A byte written by a message of the slot, and not overwritten by the next, is that message's. */
  ghost predicate ReadsByte(q: Sender, x: nat, t: nat, i: nat, byte: bv8)
    requires x < q.tail
  {
    forall n: nat :: ByteOf(q, x, t, i, n) ==> byte == q.payload(Num(MsgId(n, x), q.tail))[i]
  }

  ghost predicate ByteOf(q: Sender, x: nat, t: nat, i: nat, n: nat) {
    var s := Num(MsgId(n, x), q.tail);
    n > 0 && s >= 0 && i < |q.payload(s)| && q.At(s, 3 + i) <= t < q.At(s + q.tail, 3)
  }

  ghost predicate Sees(q: Sender, x: nat, t: Times, view: View)
    requires x < q.tail
  {
    && InOrder(t) && |t.bytes| == |view.data|
    && ReadsIncarnation(q, x, t.first, view.incarnation)
    && ReadsHash(q, x, t.hash, view.hash)
    && ReadsSize(q, x, t.size, |view.data|)
    && (forall i: nat :: i < |view.data| ==> ReadsByte(q, x, t.bytes[i], i, view.data[i]))
    && ReadsIncarnation(q, x, t.again, view.again)
  }

  // ---------- One try ----------

  lemma FirstOfSlot(q: Sender, x: nat, i: nat)
    requires i > 0
    ensures Num(MsgId(i, x), q.tail) >= x
  {
    assert (i - 1) * q.tail >= 0;
  }

  /** Messages of one slot are at least the tail apart. */
  lemma Apart(q: Sender, x: nat, i: nat, j: nat)
    requires x < q.tail && 0 < i < j
    ensures Num(MsgId(i, x), q.tail) + q.tail <= Num(MsgId(j, x), q.tail)
    ensures j == i + 1 ==> Num(MsgId(i, x), q.tail) + q.tail == Num(MsgId(j, x), q.tail)
  {
    Times1(i - 1, q.tail);
    TimesMonotone(i, j - 1, q.tail);
  }

  lemma Times1(a: nat, t: nat)
    ensures (a + 1) * t == a * t + t
  {}

  lemma TimesMonotone(a: nat, b: nat, t: nat)
    requires a <= b
    ensures a * t <= b * t
  {}

  lemma AtMonotone(q: Sender, a: nat, b: nat, k: nat)
    requires a <= b && k < 3
    ensures q.At(a, k) <= q.At(b, k)
  {
    if a < b {
      AtOrder(q, a, k, b, k);
    }
  }

  /** Only one message of the slot is the last writer of a field. */
  lemma OneHolder(q: Sender, x: nat, t: nat, k: nat, i: nat, j: nat)
    requires x < q.tail && k < 3 && Holds(q, x, t, k, i) && Holds(q, x, t, k, j)
    ensures i == j
  {
    hide Sender.At, Num;
    if i < j {
      Apart(q, x, i, j);
      AtMonotone(q, Num(MsgId(i, x), q.tail) + q.tail, Num(MsgId(j, x), q.tail), k);
    } else if j < i {
      Apart(q, x, j, i);
      AtMonotone(q, Num(MsgId(j, x), q.tail) + q.tail, Num(MsgId(i, x), q.tail), k);
    }
  }

  /** What the two equal reads of the incarnation tell. */
  lemma Unchanged(q: Sender, x: nat, t: Times, view: View)
    requires x < q.tail && Sees(q, x, t, view) && view.incarnation > 0 && view.again == view.incarnation
    ensures var s := Num(MsgId(view.incarnation, x), q.tail);
            s >= x && q.At(s, 1) <= t.first && t.again < q.At(s + q.tail, 1)
    ensures t.first <= t.hash <= t.size <= t.again
  {
    FirstOfSlot(q, x, view.incarnation);
    hide Sender.At, ReadsHash, ReadsSize, ReadsByte, Num;
  }

  /** The hash is that of the message scanned, or of the next one of its slot. */
  lemma WhoseHash(q: Sender, x: nat, t: Times, view: View)
    requires x < q.tail && Sees(q, x, t, view) && view.incarnation > 0 && view.again == view.incarnation
    ensures var s := Num(MsgId(view.incarnation, x), q.tail);
            s >= 0 && (view.hash == q.hash(q.payload(s)) || q.At(s + q.tail, 0) <= t.hash)
  {
    Unchanged(q, x, t, view);
    var inc := view.incarnation;
    var s := Num(MsgId(inc, x), q.tail);
    AtFields(q, s);
    AtMonotone(q, x, s, 0);
    if t.hash < q.At(s + q.tail, 0) {
      assert Holds(q, x, t.hash, 0, inc);
      hide Sender.At, Num;
      var i: nat :| Holds(q, x, t.hash, 0, i) && view.hash == q.hash(q.payload(Num(MsgId(i, x), q.tail)));
      OneHolder(q, x, t.hash, 0, i, inc);
    }
  }

  lemma AtFields(q: Sender, s: nat)
    ensures q.At(s, 0) < q.At(s, 1) < q.At(s, 2) < q.At(s, 3)
  {}

  /** If the next message had begun when the hash was read, the size and the data are all
      of the message scanned. */
  lemma WholeMessage(q: Sender, x: nat, t: Times, view: View)
    requires x < q.tail && Sees(q, x, t, view) && view.incarnation > 0 && view.again == view.incarnation
    requires var s := Num(MsgId(view.incarnation, x), q.tail); s >= 0 && q.At(s + q.tail, 0) <= t.hash
    ensures view.data == q.payload(Num(MsgId(view.incarnation, x), q.tail))
  {
    Unchanged(q, x, t, view);
    var inc := view.incarnation;
    var s := Num(MsgId(inc, x), q.tail);
    AtOrder(q, s, 2, s + q.tail, 0);
    AtFields(q, s + q.tail);
    AtMonotone(q, x, s, 2);
    assert Holds(q, x, t.size, 2, inc);
    assert |view.data| == |q.payload(s)| by {
      hide Sender.At, Num;
      var i: nat :| Holds(q, x, t.size, 2, i) && |view.data| == |q.payload(Num(MsgId(i, x), q.tail))|;
      OneHolder(q, x, t.size, 2, i, inc);
    }
    forall i: nat | i < |view.data| ensures view.data[i] == q.payload(s)[i] {
      AtOrder(q, s, 3 + i, s + q.tail, 0);
      assert t.size <= t.bytes[i] <= t.again;
      assert ByteOf(q, x, t.bytes[i], i, inc);
      assert ReadsByte(q, x, t.bytes[i], i, view.data[i]);
    }
  }

  /** If the incarnation did not change around the reads and the checksum matches, the data
      is the message of that incarnation. */
  lemma RightPayload(q: Sender, x: nat, t: Times, view: View)
    requires q.Valid() && x < q.tail && Sees(q, x, t, view)
    requires view.incarnation > 0 && view.again == view.incarnation && view.hash == q.hash(view.data)
    ensures var s := Num(MsgId(view.incarnation, x), q.tail);
            s >= 0 && view.data == q.payload(s)
  {
    WhoseHash(q, x, t, view);
    hide Sees, Sender.At, Num;
    var s := Num(MsgId(view.incarnation, x), q.tail);
    if view.hash != q.hash(q.payload(s)) {
      WholeMessage(q, x, t, view);
    }
  }

  // ---------- Runs ----------

  datatype Delivery = Delivery(id: int, data: Bytes)

  /** The receiver, how far the sender has got, and what was delivered, in order. */
  datatype State = State(scan: Scan, now: nat, delivered: seq<Delivery>)

  datatype Step = Step(view: View, times: Times)

  ghost predicate Next(q: Sender, s: State, step: Step, s': State)
    requires q.tail > 0
  {
    var x := s.scan.next.index;
    var (scan, result) := TryPoll(s.scan, q.tail, q.hash, step.view);
    && x < q.tail
    && s.now <= step.times.first && Sees(q, x, step.times, step.view)
    && s'.now >= step.times.again
    && s'.scan == scan
    && s'.delivered == s.delivered + if result.Polled? then [Delivery(Num(MsgId(step.view.incarnation, x), q.tail), result.data)] else []
  }

  ghost predicate IsRun(q: Sender, states: seq<State>, steps: seq<Step>) {
    && q.tail > 0 && |states| == |steps| + 1
    && states[0].scan == INITIAL && states[0].delivered == []
    && forall i :: 0 <= i < |steps| ==> Next(q, states[i], steps[i], states[i + 1])
  }

  /** Either the receiver waits for the next message, or it has seen a message one round or
      more ahead and looks for the oldest one still in the ring. */
  ghost predicate ScanOk(q: Sender, scan: Scan, now: nat) {
    var b := Num(scan.best, q.tail);
    && IsId(scan.next, q.tail) && IsId(scan.best, q.tail) && b >= 0
    && (scan.straggling.Some? ==> IsId(scan.straggling.value, q.tail))
    && if scan.next == scan.best then scan.straggling.Some? ==> Num(scan.straggling.value, q.tail) < b + q.tail
       else
         && scan.straggling.Some?
         && var m := Num(scan.straggling.value, q.tail);
            && Num(scan.next, q.tail) == m + 1
            && b + q.tail <= m && q.At(m, 1) <= now
  }

  /** The ring's slot of message s was overwritten. */
  predicate Overwritten(q: Sender, s: nat, now: nat) {
    q.At(s + q.tail, 1) <= now
  }

  ghost predicate Delivered(delivered: seq<Delivery>, id: int) {
    exists i :: 0 <= i < |delivered| && delivered[i].id == id
  }

  ghost predicate DeliveredOk(q: Sender, s: State) {
    && (forall i, j :: 0 <= i < j < |s.delivered| ==> s.delivered[i].id < s.delivered[j].id)
    && (forall i :: 0 <= i < |s.delivered| ==> 0 <= s.delivered[i].id < Num(s.scan.best, q.tail) && s.delivered[i].data == q.payload(s.delivered[i].id))
    && (forall id: nat :: id < Num(s.scan.best, q.tail) ==> Delivered(s.delivered, id) || Overwritten(q, id, s.now))
  }

  /** The incarnation read when the try began. */
  lemma FirstRead(q: Sender, x: nat, t: Times, view: View)
    requires x < q.tail && Sees(q, x, t, view) && view.incarnation > 0
    ensures var s := Num(MsgId(view.incarnation, x), q.tail);
            s >= 0 && q.At(s, 1) <= t.first < q.At(s + q.tail, 1)
    ensures t.first <= t.again
  {
    hide Sender.At, ReadsHash, ReadsSize, ReadsByte, Num;
  }

  /** Past a straggling message, the next slot holds the message after it, or the one a
      round before that. */
  lemma Falling(q: Sender, next: MsgId, m: nat, t: nat, id: MsgId)
    requires q.tail > 0 && IsId(next, q.tail) && IsId(id, q.tail) && id.index == next.index && Num(next, q.tail) == m + 1
    requires Num(id, q.tail) >= 0 && q.At(m, 1) <= t < q.At(Num(id, q.tail) + q.tail, 1)
    ensures Num(id, q.tail) == m + 1 - q.tail || Num(id, q.tail) >= m + 1
  {
    hide Sender.At, Num;
    var s: nat := Num(id, q.tail);
    if s + q.tail <= m {
      AtMonotone(q, s + q.tail, m, 1);
    }
    if s < m + 1 {
      SameSlot(next, id, q.tail);
    }
  }

  /** The message scanned is not older than the one waited for; past a straggling one it is
      the next in the ring or its predecessor by one round. */
  lemma Scanned(q: Sender, scan: Scan, now: nat, step: Step)
    requires q.tail > 0 && ScanOk(q, scan, now) && now <= step.times.first && Sees(q, scan.next.index, step.times, step.view)
    requires step.view.incarnation >= scan.best.incarnation
    ensures var id := MsgId(step.view.incarnation, scan.next.index);
            && IsId(id, q.tail)
            && var s := Num(id, q.tail);
               && Num(scan.best, q.tail) <= s && q.At(s, 1) <= step.times.again
               && (scan.next == scan.best ==> id == scan.best || s >= Num(scan.best, q.tail) + q.tail)
               && (scan.next != scan.best ==>
                     scan.straggling.Some? && (s == Num(scan.straggling.value, q.tail) + 1 - q.tail || s > Num(scan.straggling.value, q.tail)))
  {
    var id := MsgId(step.view.incarnation, scan.next.index);
    FirstRead(q, scan.next.index, step.times, step.view);
    hide Sees, Sender.At, Num;
    if scan.next == scan.best {
      NumOrder(id, scan.best, q.tail);
      if id != scan.best {
        NotBefore(id, scan.best, q.tail);
        SameSlot(id, scan.best, q.tail);
      }
    } else {
      Falling(q, scan.next, Num(scan.straggling.value, q.tail), step.times.first, id);
    }
  }

  lemma NotBefore(id: MsgId, best: MsgId, tail: nat)
    requires IsId(id, tail) && IsId(best, tail) && id.index == best.index && id.incarnation >= best.incarnation && id != best
    ensures Num(id, tail) > Num(best, tail)
  {
    NumOrder(id, best, tail);
  }

  /** A try that goes on scanning. */
  lemma ScanOn(q: Sender, scan: Scan, now: nat, step: Step)
    requires q.tail > 0 && ScanOk(q, scan, now) && now <= step.times.first && Sees(q, scan.next.index, step.times, step.view)
    requires TryPoll(scan, q.tail, q.hash, step.view).1.Straggling? && TryPoll(scan, q.tail, q.hash, step.view).0 != scan
    ensures ScanOk(q, TryPoll(scan, q.tail, q.hash, step.view).0, step.times.again)
    ensures TryPoll(scan, q.tail, q.hash, step.view).0.best == scan.best
  {
    var id := MsgId(step.view.incarnation, scan.next.index);
    Scanned(q, scan, now, step);
    NumSuccessor(id, q.tail);
    if scan.straggling.Some? {
      NumOrder(scan.straggling.value, id, q.tail);
    }
    NumOrder(Successor(id, q.tail), scan.best, q.tail);
    hide Sees, Sender.At, Num, Successor;
  }

  /** A delivery: the message waited for, or the oldest one left in the ring. */
  lemma ScanDelivers(q: Sender, scan: Scan, now: nat, step: Step)
    requires q.Valid() && ScanOk(q, scan, now) && now <= step.times.first && Sees(q, scan.next.index, step.times, step.view)
    requires TryPoll(scan, q.tail, q.hash, step.view).1.Polled?
    ensures var id, b := Num(MsgId(step.view.incarnation, scan.next.index), q.tail), Num(scan.best, q.tail);
            var scan' := TryPoll(scan, q.tail, q.hash, step.view).0;
            && ScanOk(q, scan', step.times.again) && Num(scan'.best, q.tail) == id + 1
            && 0 <= b <= id
            && TryPoll(scan, q.tail, q.hash, step.view).1.data == q.payload(id)
            && forall s: nat :: b <= s < id ==> Overwritten(q, s, step.times.again)
  {
    var id := MsgId(step.view.incarnation, scan.next.index);
    Scanned(q, scan, now, step);
    FirstRead(q, scan.next.index, step.times, step.view);
    RightPayload(q, scan.next.index, step.times, step.view);
    NumSuccessor(id, q.tail);
    if scan.straggling.Some? {
      NumOrder(scan.straggling.value, id, q.tail);
    }
    hide Sees, Sender.At, Num, Successor, Sender.Valid;
    var b, n := Num(scan.best, q.tail), Num(id, q.tail);
    forall s: nat | b <= s < n ensures Overwritten(q, s, step.times.again) {
      AtMonotone(q, s + q.tail, Num(scan.straggling.value, q.tail), 1);
    }
  }

  lemma TryKeeps(q: Sender, s: State, step: Step, s': State)
    requires q.Valid() && ScanOk(q, s.scan, s.now) && DeliveredOk(q, s) && Next(q, s, step, s')
    ensures ScanOk(q, s'.scan, s'.now) && DeliveredOk(q, s')
  {
    var result := TryPoll(s.scan, q.tail, q.hash, step.view).1;
    FirstTimes(q, s.scan.next.index, step.times, step.view);
    if result.Polled? {
      ScanDelivers(q, s.scan, s.now, step);
      hide Sees, Sender.At, Num, TryPoll, Sender.Valid;
      Later(q, s'.scan, step.times.again, s'.now);
      OneMore(q, s, Num(MsgId(step.view.incarnation, s.scan.next.index), q.tail), result.data, step.times.again, s');
    } else {
      if s'.scan != s.scan {
        ScanOn(q, s.scan, s.now, step);
        Later(q, s'.scan, step.times.again, s'.now);
      } else {
        Later(q, s.scan, s.now, s'.now);
      }
      assert s'.delivered == s.delivered && s'.scan.best == s.scan.best;
      hide Sees, Sender.At, Num, TryPoll, Sender.Valid;
      NoMore(q, s, s');
    }
  }

  lemma FirstTimes(q: Sender, x: nat, t: Times, view: View)
    requires x < q.tail && Sees(q, x, t, view)
    ensures t.first <= t.again
  {
    hide Sender.At, ReadsHash, ReadsSize, ReadsByte, ReadsIncarnation;
  }

  lemma Later(q: Sender, scan: Scan, now: nat, later: nat)
    requires q.tail > 0 && ScanOk(q, scan, now) && now <= later
    ensures ScanOk(q, scan, later)
  {
    hide Sender.At, Num;
  }

  lemma NoMore(q: Sender, s: State, s': State)
    requires q.tail > 0 && DeliveredOk(q, s) && s'.delivered == s.delivered && s'.scan.best == s.scan.best && s.now <= s'.now
    ensures DeliveredOk(q, s')
  {
    hide Sender.At, Num;
    forall id: nat | id < Num(s'.scan.best, q.tail) ensures Delivered(s'.delivered, id) || Overwritten(q, id, s'.now) {
      assert Delivered(s.delivered, id) || Overwritten(q, id, s.now);
    }
  }

  lemma OneMore(q: Sender, s: State, n: nat, data: Bytes, t: nat, s': State)
    requires q.tail > 0 && DeliveredOk(q, s) && s.now <= t <= s'.now && data == q.payload(n)
    requires s'.delivered == s.delivered + [Delivery(n, data)] && Num(s'.scan.best, q.tail) == n + 1
    requires 0 <= Num(s.scan.best, q.tail) <= n && forall i: nat :: Num(s.scan.best, q.tail) <= i < n ==> Overwritten(q, i, t)
    ensures DeliveredOk(q, s')
  {
    hide Sender.At, Num;
    forall id: nat | id < n + 1 ensures Delivered(s'.delivered, id) || Overwritten(q, id, s'.now) {
      if id == n {
        assert s'.delivered[|s.delivered|].id == id;
      } else if id < Num(s.scan.best, q.tail) {
        assert Delivered(s.delivered, id) || Overwritten(q, id, s.now);
        if Delivered(s.delivered, id) {
          var i :| 0 <= i < |s.delivered| && s.delivered[i].id == id;
          assert s'.delivered[i].id == id;
        }
      } else {
        assert Overwritten(q, id, t);
      }
    }
  }

  lemma {:induction false} RunKeeps(q: Sender, states: seq<State>, steps: seq<Step>, i: nat)
    requires q.Valid() && IsRun(q, states, steps) && i < |states|
    ensures ScanOk(q, states[i].scan, states[i].now) && DeliveredOk(q, states[i])
  {
    hide Next, ScanOk, DeliveredOk, Sender.Valid;
    if i == 0 {
      Beginning(q, states[0]);
    } else {
      RunKeeps(q, states, steps, i - 1);
      TryKeeps(q, states[i - 1], steps[i - 1], states[i]);
    }
  }

  lemma Beginning(q: Sender, s: State)
    requires q.tail > 0 && s.scan == INITIAL && s.delivered == []
    ensures ScanOk(q, s.scan, s.now) && DeliveredOk(q, s)
  {
    hide Sender.At;
  }

  /** Against any sender that writes concurrently, in order: message numbers delivered are
      strictly increasing, each payload is the one sent under its number, and a message
      before the last delivered one is missing only if its slot had been overwritten. */
  lemma RunsDeliver(q: Sender, states: seq<State>, steps: seq<Step>, i: nat)
    requires q.Valid() && IsRun(q, states, steps) && i < |states|
    ensures var d := states[i].delivered;
            && (forall a, b :: 0 <= a < b < |d| ==> d[a].id < d[b].id)
            && (forall a :: 0 <= a < |d| ==> d[a].id >= 0 && d[a].data == q.payload(d[a].id))
            && (forall a, id: nat :: 0 <= a < |d| && id < d[a].id ==> Delivered(d, id) || Overwritten(q, id, states[i].now))
  {
    RunKeeps(q, states, steps, i);
    hide IsRun, ScanOk, Sender.At, Num, Sender.Valid, Delivered, Overwritten;
  }
}
