/** Tail point-to-point delivery: a ring that the sender overwrites while the receiver
    scans it. The sender's writes become visible in order (hash, incarnation, size, data of
    one message, then of the next); the receiver reads incarnation, hash, size, data and the
    incarnation again. Message number s is in slot s % tail under incarnation s / tail + 1. */
module TailP2p {
  import opened Options

  type Bytes = seq<bv8>

  // ---------- The receiver ----------

  /** `MsgId`: an incarnation and the index of a slot. */
  datatype MsgId = MsgId(incarnation: nat, index: nat)

  const FIRST := MsgId(1, 0)

  predicate Greater(a: MsgId, b: MsgId) {
    a.incarnation > b.incarnation || (a.incarnation == b.incarnation && a.index > b.index)
  }

  function Successor(id: MsgId, tail: nat): MsgId {
    if id.index + 1 >= tail then MsgId(id.incarnation + 1, 0) else MsgId(id.incarnation, id.index + 1)
  }

  /** What one try reads from the slot it scans, in this order. */
  datatype View = View(incarnation: nat, hash: nat, data: Bytes, again: nat)

  datatype Result = Polled(data: Bytes) | Empty | Straggling

  datatype Scan = Scan(next: MsgId, best: MsgId, straggling: Option<MsgId>)

  const INITIAL := Scan(FIRST, FIRST, None)

  /** `tryPoll` */
  function TryPoll(r: Scan, tail: nat, hash: Bytes -> nat, view: View): (Scan, Result) {
    if view.incarnation < r.best.incarnation then (r, Empty)
    else
      var scanning := MsgId(view.incarnation, r.next.index);
      if scanning == r.best || (r.straggling.Some? && Greater(r.straggling.value, scanning)) then
        if view.again != view.incarnation then (r, Straggling)
        else if view.hash == hash(view.data) then
          (Scan(Successor(scanning, tail), Successor(scanning, tail), r.straggling), Polled(view.data))
        else (r, Straggling)
      else (Scan(Successor(scanning, tail), r.best, Some(scanning)), Straggling)
  }

  /** `Receiver`; the memory it scans is a sequence of views, one per try. */
  class Receiver {
    const tail: nat
    const hash: Bytes -> nat
    var nextToScan: MsgId
    var bestToDeliver: MsgId
    var maxScannedStraggling: Option<MsgId>

    constructor (tail: nat, hash: Bytes -> nat)
      ensures this.tail == tail && this.hash == hash && State() == INITIAL
    {
      this.tail, this.hash := tail, hash;
      nextToScan, bestToDeliver, maxScannedStraggling := FIRST, FIRST, None;
    }

    function State(): Scan
      reads this
    {
      Scan(nextToScan, bestToDeliver, maxScannedStraggling)
    }

    method Try(view: View) returns (r: Result)
      modifies this
      ensures (State(), r) == TryPoll(old(State()), tail, hash, view)
    {
      if view.incarnation < bestToDeliver.incarnation {
        return Empty;
      }
      var scanning := MsgId(view.incarnation, nextToScan.index);
      if scanning == bestToDeliver || (maxScannedStraggling.Some? && Greater(maxScannedStraggling.value, scanning)) {
        if view.again != view.incarnation {
          return Straggling;
        }
        if view.hash == hash(view.data) {
          bestToDeliver := Successor(scanning, tail);
          nextToScan := bestToDeliver;
          return Polled(view.data);
        }
        return Straggling;
      }
      maxScannedStraggling := Some(scanning);
      nextToScan := Successor(scanning, tail);
      r := Straggling;
    }

    /** `poll`: as many tries as there are slots, until one delivers or finds nothing. */
    method Poll(views: seq<View>) returns (data: Option<Bytes>, tries: nat)
      requires |views| == tail
      modifies this
      ensures tries <= tail && State() == Tries(old(State()), tail, hash, views[..tries])
      ensures forall i: nat :: i + 1 < tries ==> TryAt(old(State()), tail, hash, views, i) == Straggling
      ensures data.Some? ==> tries > 0 && TryAt(old(State()), tail, hash, views, tries - 1) == Polled(data.value)
      ensures data.None? && tries < tail ==> tries > 0 && TryAt(old(State()), tail, hash, views, tries - 1) == Empty
      ensures data.None? && tries == tail > 0 ==> !TryAt(old(State()), tail, hash, views, tries - 1).Polled?
    {
      tries := 0;
      while tries < tail
        invariant tries <= tail && State() == Tries(old(State()), tail, hash, views[..tries])
        invariant forall i: nat :: i < tries ==> TryAt(old(State()), tail, hash, views, i) == Straggling
      {
        assert views[..tries + 1][..tries] == views[..tries];
        var r := Try(views[tries]);
        tries := tries + 1;
        if r.Polled? {
          return Some(r.data), tries;
        }
        if r.Empty? {
          return None, tries;
        }
      }
      data := None;
    }
  }

  /** The result of the i-th of several tries. */
  function TryAt(r: Scan, tail: nat, hash: Bytes -> nat, views: seq<View>, i: nat): Result
    requires i < |views|
  {
    TryPoll(Tries(r, tail, hash, views[..i]), tail, hash, views[i]).1
  }

  function Tries(r: Scan, tail: nat, hash: Bytes -> nat, views: seq<View>): Scan {
    if views == [] then r else TryPoll(Tries(r, tail, hash, views[..|views| - 1]), tail, hash, views[|views| - 1]).0
  }

  // ---------- Message numbers ----------

  /** The number of the message with this id; incarnation 0 is the initial content. */
  function Num(id: MsgId, tail: nat): int {
    (id.incarnation - 1) * tail + id.index
  }

  predicate IsId(id: MsgId, tail: nat) {
    id.incarnation > 0 && id.index < tail
  }

  lemma NumOrder(a: MsgId, b: MsgId, tail: nat)
    requires IsId(a, tail) && IsId(b, tail)
    ensures Greater(a, b) <==> Num(a, tail) > Num(b, tail)
    ensures a == b <==> Num(a, tail) == Num(b, tail)
  {
    if a.incarnation > b.incarnation {
      assert (a.incarnation - 1) * tail >= b.incarnation * tail == (b.incarnation - 1) * tail + tail;
    } else if a.incarnation < b.incarnation {
      assert (b.incarnation - 1) * tail >= a.incarnation * tail == (a.incarnation - 1) * tail + tail;
    }
  }

  lemma NumSuccessor(id: MsgId, tail: nat)
    requires IsId(id, tail)
    ensures IsId(Successor(id, tail), tail) && Num(Successor(id, tail), tail) == Num(id, tail) + 1
  {
    if id.index + 1 >= tail {
      assert id.incarnation * tail == (id.incarnation - 1) * tail + tail;
    }
  }

  /** Ids of one slot differ by multiples of the tail. */
  lemma SameSlot(a: MsgId, b: MsgId, tail: nat)
    requires IsId(a, tail) && IsId(b, tail) && a.index == b.index && Num(a, tail) > Num(b, tail)
    ensures Num(a, tail) >= Num(b, tail) + tail
  {
    NumOrder(a, b, tail);
    assert (a.incarnation - 1) * tail >= b.incarnation * tail == (b.incarnation - 1) * tail + tail;
  }
}
