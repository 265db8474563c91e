/** That messages are delivered, and when: a message that is whole is taken by the try that scans its
    slot, and while nothing is written a poll delivers if the ring holds an undelivered message, but
    for one case in which it takes the next poll. */
module TailP2pProgress {
  import opened Options
  import opened TailP2p
  import opened TailP2pDelivery

  // ---------- One try at a whole message ----------

  /** Message s was written before the try began, and the next one of its slot was not begun before
      it ended. */
  ghost predicate Whole(q: Sender, s: nat, t: Times) {
    q.Begin(s) + 3 + |q.payload(s)| <= t.first && t.again <= q.Begin(s + q.tail)
  }

  /** The try reads that very message. */
  lemma SeesWhole(q: Sender, id: MsgId, t: Times, view: View)
    requires IsId(id, q.tail) && Num(id, q.tail) >= 0 && Sees(q, id.index, t, view) && Whole(q, Num(id, q.tail), t)
    ensures view.incarnation == id.incarnation && view.again == id.incarnation
    ensures view.data == q.payload(Num(id, q.tail)) && view.hash == q.hash(view.data)
  {
    var x, i, s := id.index, id.incarnation, Num(id, q.tail);
    FirstOfSlot(q, x, i);
    AtMonotone(q, x, s, 0);
    AtMonotone(q, x, s, 1);
    AtMonotone(q, x, s, 2);
    ReadsOne(q, x, i, t.first, view.incarnation);
    ReadsOne(q, x, i, t.again, view.again);
    assert id == MsgId(i, x);
    assert Holds(q, x, t.hash, 0, i) && Holds(q, x, t.size, 2, i);
    assert view.hash == q.hash(q.payload(s)) by {
      hide Sender.At, Num;
      var j: nat :| Holds(q, x, t.hash, 0, j) && view.hash == q.hash(q.payload(Num(MsgId(j, x), q.tail)));
      OneHolder(q, x, t.hash, 0, j, i);
    }
    assert |view.data| == |q.payload(s)| by {
      hide Sender.At, Num;
      var j: nat :| Holds(q, x, t.size, 2, j) && |view.data| == |q.payload(Num(MsgId(j, x), q.tail))|;
      OneHolder(q, x, t.size, 2, j, i);
    }
    forall b: nat | b < |view.data| ensures view.data[b] == q.payload(s)[b] {
      assert t.size <= t.bytes[b] <= t.again;
      assert ByteOf(q, x, t.bytes[b], b, i);
      assert ReadsByte(q, x, t.bytes[b], b, view.data[b]);
    }
  }

  lemma ReadsOne(q: Sender, x: nat, i: nat, t: nat, read: nat)
    requires x < q.tail && i > 0 && Num(MsgId(i, x), q.tail) >= x
    requires q.At(Num(MsgId(i, x), q.tail), 1) <= t < q.At(Num(MsgId(i, x), q.tail) + q.tail, 1) && ReadsIncarnation(q, x, t, read)
    ensures read == i
  {
    AtMonotone(q, x, Num(MsgId(i, x), q.tail), 1);
    hide Sender.At, Num;
    assert Holds(q, x, t, 1, i);
    if read > 0 {
      assert Holds(q, x, t, 1, read);
      OneHolder(q, x, t, 1, read, i);
    }
  }

  /** What a try does when it reads the whole message with this id. */
  lemma TryWhole(q: Sender, scan: Scan, id: MsgId, t: Times, view: View)
    requires IsId(id, q.tail) && Num(id, q.tail) >= 0 && scan.next.index == id.index
    requires Sees(q, id.index, t, view) && Whole(q, Num(id, q.tail), t) && scan.best.incarnation <= id.incarnation
    ensures TryPoll(scan, q.tail, q.hash, view) ==
              if scan.best == id || (scan.straggling.Some? && Greater(scan.straggling.value, id))
              then (Scan(Successor(id, q.tail), Successor(id, q.tail), scan.straggling), Polled(q.payload(Num(id, q.tail))))
              else (Scan(Successor(id, q.tail), scan.best, Some(id)), Straggling)
  {
    SeesWhole(q, id, t, view);
    hide Sees, Num, Whole;
  }

  /** However the sender writes meanwhile: a try at the slot of the message waited for, if that is
      whole, delivers it, and waits for its successor. */
  lemma WaitedForIsDelivered(q: Sender, scan: Scan, now: nat, t: Times, view: View)
    requires q.tail > 0 && ScanOk(q, scan, now) && scan.next == scan.best
    requires Sees(q, scan.next.index, t, view) && Whole(q, Num(scan.best, q.tail), t)
    ensures TryPoll(scan, q.tail, q.hash, view) ==
              (Scan(Successor(scan.best, q.tail), Successor(scan.best, q.tail), scan.straggling), Polled(q.payload(Num(scan.best, q.tail))))
  {
    TryWhole(q, scan, scan.best, t, view);
  }

  /** And past a straggling message, so does a try that finds the slot behind it a round older. */
  lemma FallingEdgeIsDelivered(q: Sender, scan: Scan, now: nat, s: nat, t: Times, view: View)
    requires q.tail > 1 && ScanOk(q, scan, now) && scan.next != scan.best
    requires s + q.tail == Num(scan.straggling.value, q.tail) + 1 && Sees(q, scan.next.index, t, view) && Whole(q, s, t)
    ensures TryPoll(scan, q.tail, q.hash, view) == (Scan(IdOf(s + 1, q.tail), IdOf(s + 1, q.tail), scan.straggling), Polled(q.payload(s)))
  {
    var id := IdOf(s, q.tail);
    NumOfId(s, q.tail);
    SuccessorOf(s, q.tail);
    OneRound(scan.next, s, q.tail);
    NumOrder(scan.straggling.value, id, q.tail);
    NumOrder(scan.best, id, q.tail);
    hide Sees, Num, Whole, TryPoll, Sender.At;
    TryWhole(q, scan, id, t, view);
  }

  // ---------- Ids and numbers ----------

  function IdOf(s: nat, tail: nat): MsgId
    requires tail > 0
  {
    MsgId(s / tail + 1, s % tail)
  }

  lemma NumOfId(s: nat, tail: nat)
    requires tail > 0
    ensures IsId(IdOf(s, tail), tail) && Num(IdOf(s, tail), tail) == s
  {
    assert s == (s / tail) * tail + s % tail;
  }

  lemma IdOfNum(id: MsgId, tail: nat)
    requires IsId(id, tail) && Num(id, tail) >= 0
    ensures IdOf(Num(id, tail), tail) == id
  {
    NumOfId(Num(id, tail), tail);
    NumOrder(id, IdOf(Num(id, tail), tail), tail);
  }

  lemma SuccessorOf(s: nat, tail: nat)
    requires tail > 0
    ensures Successor(IdOf(s, tail), tail) == IdOf(s + 1, tail)
  {
    NumOfId(s, tail);
    NumOfId(s + 1, tail);
    NumSuccessor(IdOf(s, tail), tail);
    NumOrder(Successor(IdOf(s, tail), tail), IdOf(s + 1, tail), tail);
  }

  lemma OneRound(id: MsgId, s: nat, tail: nat)
    requires tail > 0 && IsId(id, tail) && Num(id, tail) == s + tail
    ensures IdOf(s, tail).index == id.index && id.incarnation == IdOf(s, tail).incarnation + 1
  {
    var older := IdOf(s, tail);
    NumOfId(s, tail);
    assert Num(MsgId(older.incarnation + 1, older.index), tail) == s + tail by {
      assert older.incarnation * tail == (older.incarnation - 1) * tail + tail;
    }
    NumOrder(MsgId(older.incarnation + 1, older.index), id, tail);
  }

  // ---------- A poll while nothing is written ----------

  /** The first n messages are written, and nothing else, while the try lasts. */
  ghost predicate Quiet(q: Sender, n: nat, t: Times) {
    q.Begin(n) <= t.first && t.again <= q.Begin(n)
  }

  lemma BeginMonotone(q: Sender, a: nat, b: nat)
    requires a <= b
    ensures q.Begin(a) <= q.Begin(b)
  {
    if a < b {
      BeginOrder(q, a, b);
    }
  }

  /** Everything left in the ring is whole. */
  lemma RingIsWhole(q: Sender, n: nat, t: Times, s: nat)
    requires Quiet(q, n, t) && s < n <= s + q.tail
    ensures Whole(q, s, t)
  {
    BeginMonotone(q, s + 1, n);
    BeginMonotone(q, n, s + q.tail);
    hide Sender.Begin;
    BeginNext(q, s);
  }

  lemma BeginNext(q: Sender, s: nat)
    ensures q.Begin(s + 1) == q.Begin(s) + 3 + |q.payload(s)|
  {}

  /** The message that the slot scanned next holds, of the n messages sent. */
  ghost predicate InSlot(scan: Scan, n: nat, tail: nat, s: nat)
    requires tail > 0
  {
    s < n <= s + tail && IdOf(s, tail).index == scan.next.index
  }

  /** It is delivered at once. */
  predicate AtOnce(scan: Scan, tail: nat, s: nat)
    requires tail > 0
  {
    scan.best == IdOf(s, tail) || (scan.straggling.Some? && Greater(scan.straggling.value, IdOf(s, tail)))
  }

  /** The states while the receiver looks for the oldest message, from message s on. */
  function Passing(scan: Scan, tail: nat, s: nat): Scan
    requires tail > 0
  {
    Scan(IdOf(s + 1, tail), scan.best, Some(IdOf(s, tail)))
  }

  function Taken(scan: Scan, tail: nat, s: nat): Scan
    requires tail > 0
  {
    Scan(IdOf(s + 1, tail), IdOf(s + 1, tail), scan.straggling)
  }

  lemma TryQuiet(q: Sender, scan: Scan, n: nat, s: nat, t: Times, view: View)
    requires q.tail > 0 && InSlot(scan, n, q.tail, s) && Quiet(q, n, t) && Sees(q, scan.next.index, t, view)
    requires IsId(scan.best, q.tail) && 0 <= Num(scan.best, q.tail) <= s
    ensures TryPoll(scan, q.tail, q.hash, view) ==
              if AtOnce(scan, q.tail, s) then (Taken(scan, q.tail, s), Polled(q.payload(s))) else (Passing(scan, q.tail, s), Straggling)
  {
    NumOfId(s, q.tail);
    SuccessorOf(s, q.tail);
    RingIsWhole(q, n, t, s);
    NumOrder(scan.best, IdOf(s, q.tail), q.tail);
    hide Sees, Num, Whole, TryPoll, Quiet, Sender.Begin, Sender.At;
    TryWhole(q, scan, IdOf(s, q.tail), t, view);
  }

  /** The i-th try of several, as far as it is made, sees its slot while nothing is written. */
  ghost predicate SeesAt(q: Sender, scan: Scan, n: nat, views: seq<View>, times: seq<Times>, i: nat)
    requires q.tail > 0 && i < |views| == |times|
  {
    var x := Tries(scan, q.tail, q.hash, views[..i]).next.index;
    Quiet(q, n, times[i]) && x < q.tail && Sees(q, x, times[i], views[i])
  }

  ghost predicate Polls(q: Sender, scan: Scan, n: nat, views: seq<View>, times: seq<Times>)
    requires q.tail > 0 && |views| == |times|
  {
    forall i: nat :: i < |views| && (forall j: nat :: j < i ==> TryAt(scan, q.tail, q.hash, views, j).Straggling?) ==> SeesAt(q, scan, n, views, times, i)
  }

  /** The undelivered message b, or a newer one, is waited for or looked for. */
  ghost predicate Waits(q: Sender, scan: Scan, n: nat) {
    && q.tail > 1 && IsId(scan.best, q.tail) && 0 <= Num(scan.best, q.tail) < n
    && (scan.straggling.Some? ==> IsId(scan.straggling.value, q.tail))
    && if scan.next == scan.best then scan.straggling.Some? ==> Num(scan.straggling.value, q.tail) < Num(scan.best, q.tail) + q.tail
       else
         && scan.straggling.Some?
         && var m := Num(scan.straggling.value, q.tail);
            Num(scan.best, q.tail) + q.tail <= m < n && IsId(scan.next, q.tail) && Num(scan.next, q.tail) == m + 1
  }

  /** Between polls, a receiver with an undelivered message is in such a state. */
  lemma ScanWaits(q: Sender, scan: Scan, n: nat)
    requires q.tail > 1 && ScanOk(q, scan, q.Begin(n)) && Num(scan.best, q.tail) < n
    ensures Waits(q, scan, n)
  {
    if scan.next != scan.best {
      var m := Num(scan.straggling.value, q.tail);
      if n <= m {
        BeginMonotone(q, n, m);
      }
    }
  }

  lemma NextRound(r: nat, tail: nat)
    requires tail > 0
    ensures IdOf(r + tail, tail).index == IdOf(r, tail).index
  {
    NumOfId(r + tail, tail);
    OneRound(IdOf(r + tail, tail), r, tail);
  }

  /** A slot that was written holds the newest of its messages. */
  lemma {:induction false} SlotHolds(scan: Scan, n: nat, tail: nat, r: nat) returns (s: nat)
    requires tail > 0 && r < n && IdOf(r, tail).index == scan.next.index
    ensures InSlot(scan, n, tail, s) && (s == r || r + tail <= s)
    decreases n - r
  {
    if n <= r + tail {
      s := r;
    } else {
      NextRound(r, tail);
      s := SlotHolds(scan, n, tail, r + tail);
    }
  }

  /** What a poll scans first. */
  lemma FirstInSlot(q: Sender, scan: Scan, n: nat) returns (s: nat)
    requires Waits(q, scan, n)
    ensures InSlot(scan, n, q.tail, s) && Num(scan.best, q.tail) <= s
    ensures !AtOnce(scan, q.tail, s) ==> Num(scan.best, q.tail) + q.tail <= s
  {
    var b: nat := Num(scan.best, q.tail);
    IdOfNum(scan.best, q.tail);
    if scan.next == scan.best {
      s := SlotHolds(scan, n, q.tail, b);
    } else {
      var r: nat := Num(scan.straggling.value, q.tail) + 1 - q.tail;
      OneRound(scan.next, r, q.tail);
      s := SlotHolds(scan, n, q.tail, r);
      NumOfId(s, q.tail);
      NumOrder(scan.straggling.value, IdOf(s, q.tail), q.tail);
    }
  }

  lemma NextTry(q: Sender, scan: Scan, n: nat, views: seq<View>, times: seq<Times>, i: nat, s: nat)
    requires q.tail > 0 && i < |views| == |times| && Polls(q, scan, n, views, times)
    requires forall j: nat :: j < i ==> TryAt(scan, q.tail, q.hash, views, j) == Straggling
    requires var now := Tries(scan, q.tail, q.hash, views[..i]);
             InSlot(now, n, q.tail, s) && IsId(now.best, q.tail) && 0 <= Num(now.best, q.tail) <= s
    ensures var now := Tries(scan, q.tail, q.hash, views[..i]);
            (Tries(scan, q.tail, q.hash, views[..i + 1]), TryAt(scan, q.tail, q.hash, views, i)) ==
              if AtOnce(now, q.tail, s) then (Taken(now, q.tail, s), Polled(q.payload(s))) else (Passing(now, q.tail, s), Straggling)
  {
    assert SeesAt(q, scan, n, views, times, i);
    assert views[..i + 1][..i] == views[..i];
    TryQuiet(q, Tries(scan, q.tail, q.hash, views[..i]), n, s, times[i], views[i]);
    hide Sees, Num, TryPoll, AtOnce, Polls, Quiet;
  }

  /** Scanning on from message s, which is not delivered, every newer message is passed. */
  lemma {:induction false} PassesOn(q: Sender, scan: Scan, n: nat, views: seq<View>, times: seq<Times>, s: nat, i: nat)
    requires Waits(q, scan, n) && |views| == |times| && Polls(q, scan, n, views, times)
    requires InSlot(scan, n, q.tail, s) && !AtOnce(scan, q.tail, s) && Num(scan.best, q.tail) <= s
    requires 1 <= i <= n - s && i <= |views|
    ensures Tries(scan, q.tail, q.hash, views[..i]) == Passing(scan, q.tail, s + i - 1)
    ensures forall j: nat :: j < i ==> TryAt(scan, q.tail, q.hash, views, j) == Straggling
    decreases i
  {
    hide Sees, Polls, TryPoll, Quiet;
    if i == 1 {
      assert views[..0] == [];
      NextTry(q, scan, n, views, times, 0, s);
    } else {
      PassesOn(q, scan, n, views, times, s, i - 1);
      var u := s + i - 2;
      NotYet(q, scan, u);
      NextTry(q, scan, n, views, times, i - 1, u + 1);
    }
  }

  lemma NotYet(q: Sender, scan: Scan, u: nat)
    requires q.tail > 0 && IsId(scan.best, q.tail) && 0 <= Num(scan.best, q.tail) <= u
    ensures !AtOnce(Passing(scan, q.tail, u), q.tail, u + 1)
  {
    NumOfId(u, q.tail);
    NumOfId(u + 1, q.tail);
    NumOrder(IdOf(u, q.tail), IdOf(u + 1, q.tail), q.tail);
    NumOrder(scan.best, IdOf(u + 1, q.tail), q.tail);
    hide Num;
  }

  /** Past the newest message comes the oldest one in the ring. */
  lemma OldestAtOnce(q: Sender, scan: Scan, n: nat)
    requires q.tail > 1 && n >= q.tail
    ensures InSlot(Passing(scan, q.tail, n - 1), n, q.tail, n - q.tail) && AtOnce(Passing(scan, q.tail, n - 1), q.tail, n - q.tail)
  {
    NextRound(n - q.tail, q.tail);
    NumOfId(n - 1, q.tail);
    NumOfId(n - q.tail, q.tail);
    NumOrder(IdOf(n - 1, q.tail), IdOf(n - q.tail, q.tail), q.tail);
  }

  lemma StillWaits(q: Sender, scan: Scan, n: nat)
    requires Waits(q, scan, n) && Num(scan.best, q.tail) + q.tail < n
    ensures Waits(q, Passing(scan, q.tail, n - 1), n)
  {
    NumOfId(n - 1, q.tail);
    NumOfId(n, q.tail);
    NumOrder(IdOf(n, q.tail), scan.best, q.tail);
    hide Num;
  }

  /** While nothing is written and the ring holds an undelivered message, s being the one in the slot
      scanned first: a poll delivers it, or else the oldest one in the ring, unless it was that very
      one; then all its tries pass, and the first one of the next poll delivers it. */
  lemma PollDelivers(q: Sender, scan: Scan, n: nat, views: seq<View>, times: seq<Times>) returns (s: nat)
    requires Waits(q, scan, n) && |views| == |times| == q.tail && Polls(q, scan, n, views, times)
    ensures InSlot(scan, n, q.tail, s)
    ensures AtOnce(scan, q.tail, s) ==> TryAt(scan, q.tail, q.hash, views, 0) == Polled(q.payload(s))
    ensures !AtOnce(scan, q.tail, s) ==> n >= q.tail && forall j: nat :: j < n - s ==> TryAt(scan, q.tail, q.hash, views, j) == Straggling
    ensures !AtOnce(scan, q.tail, s) && n < s + q.tail ==> TryAt(scan, q.tail, q.hash, views, n - s) == Polled(q.payload(n - q.tail))
    ensures !AtOnce(scan, q.tail, s) && n == s + q.tail ==>
              var after := Tries(scan, q.tail, q.hash, views);
              && after.best == scan.best && Waits(q, after, n)
              && InSlot(after, n, q.tail, s) && AtOnce(after, q.tail, s)
  {
    s := FirstInSlot(q, scan, n);
    hide Sees, Polls, TryPoll, Quiet;
    if AtOnce(scan, q.tail, s) {
      assert views[..0] == [];
      NextTry(q, scan, n, views, times, 0, s);
    } else {
      PassesOn(q, scan, n, views, times, s, n - s);
      OldestAtOnce(q, scan, n);
      if n < s + q.tail {
        NextTry(q, scan, n, views, times, n - s, n - q.tail);
      } else {
        assert views[..q.tail] == views;
        StillWaits(q, scan, n);
      }
    }
  }

  /** With a ring of one slot, a receiver that was overtaken once never delivers again, however the
      sender writes. */
  lemma OneSlotIsStuck(q: Sender, scan: Scan, now: nat, step: Step)
    requires q.tail == 1 && ScanOk(q, scan, now) && scan.next != scan.best
    requires now <= step.times.first && Sees(q, scan.next.index, step.times, step.view)
    ensures var (scan', result) := TryPoll(scan, q.tail, q.hash, step.view);
            !result.Polled? && scan'.best == scan.best && scan'.next != scan'.best && ScanOk(q, scan', step.times.again)
  {
    FirstTimes(q, scan.next.index, step.times, step.view);
    if step.view.incarnation >= scan.best.incarnation {
      var id := MsgId(step.view.incarnation, scan.next.index);
      Scanned(q, scan, now, step);
      NumOrder(scan.straggling.value, id, q.tail);
      NumOrder(scan.best, id, q.tail);
      assert TryPoll(scan, q.tail, q.hash, step.view).0 != scan ==> ScanOk(q, TryPoll(scan, q.tail, q.hash, step.view).0, step.times.again) by {
        if TryPoll(scan, q.tail, q.hash, step.view).0 != scan {
          ScanOn(q, scan, now, step);
        }
      }
      NumSuccessor(id, q.tail);
      NumOrder(Successor(id, q.tail), scan.best, q.tail);
    }
    hide Sees, Sender.At, Num, Successor;
    TailP2pDelivery.Later(q, scan, now, step.times.again);
  }
}
