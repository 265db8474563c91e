/** The reader of single-writer registers: what it makes of the two copied subslots. */
module SwmrReader {
  import opened Options
  import opened SwmrRegister
  import opened SwmrAccess

  /** A copied subslot: whether its checksum holds, its stored incarnation and its value. */
  datatype Subslot<+V> = Subslot(hashOk: bool, incarnation: nat, value: V)

  /** The outcome of one completed read; the last one is "the writer is Byzantine". */
  datatype Polled<+V> = Value(value: V, incarnation: nat) | Reschedule | Accuse

  /** Stored incarnations are two ahead of reported ones, in 64 bits. */
  function Reported(stored: nat): nat {
    if stored < 2 then stored + 0x1_0000_0000_0000_0000 - 2 else stored - 2
  }

  /** The newest intact subslot, the first of two equal ones. */
  function Newest<V>(subslots: seq<Subslot<V>>): Option<nat>
    requires |subslots| == 2
  {
    if !subslots[0].hashOk then (if subslots[1].hashOk then Some(1) else None)
    else if subslots[1].hashOk && subslots[0].incarnation < subslots[1].incarnation then Some(1)
    else Some(0)
  }

  function Outcome<V>(subslots: seq<Subslot<V>>, start: nat, now: nat, cooldown: nat): Polled<V>
    requires |subslots| == 2
  {
    var best := Newest(subslots);
    if best.Some? then Value(subslots[best.value].value, Reported(subslots[best.value].incarnation))
    else if start + cooldown < now then Reschedule
    else Accuse
  }

  /** The part of `pollCompletion` that judges one read. */
  method Judge<V>(subslots: seq<Subslot<V>>, start: nat, now: nat, cooldown: nat) returns (r: Polled<V>)
    requires |subslots| == 2
    ensures r == Outcome(subslots, start, now, cooldown)
  {
    var best: Option<(nat, nat)> := None;
    var subslot := 0;
    while subslot < 2
      invariant 0 <= subslot <= 2
      invariant best.Some? ==> best.value.1 < subslot && subslots[best.value.1].hashOk && best.value.0 == subslots[best.value.1].incarnation
      invariant forall i :: 0 <= i < subslot && subslots[i].hashOk ==>
                  best.Some? && (subslots[i].incarnation < best.value.0 || (subslots[i].incarnation == best.value.0 && best.value.1 <= i))
    {
      if subslots[subslot].hashOk {
        if best.None? || best.value.0 < subslots[subslot].incarnation {
          best := Some((subslots[subslot].incarnation, subslot));
        }
      }
      subslot := subslot + 1;
    }
    if best.Some? {
      r := Value(subslots[best.value.1].value, Reported(best.value.0));
    } else if start + cooldown < now {
      r := Reschedule;
    } else {
      r := Accuse;
    }
  }

  /** The buffer holds what the read copied: torn subslots fail their checksum. */
  ghost predicate Holds<V>(h: History<V>, copies: seq<Copy>, subslots: seq<Subslot<V>>)
    requires |copies| == 2 && |subslots| == 2
  {
    forall i: nat :: i < 2 ==>
      match copies[i]
      case Torn => !subslots[i].hashOk
      case Intact(w) => w < |h| && subslots[i] == Subslot(true, h[w].incarnation, h[w].value)
  }

  /** The reader picks the newest write it copied. */
  lemma PicksBest<V>(h: History<V>, cooldown: nat, copies: seq<Copy>, subslots: seq<Subslot<V>>)
    requires WellFormed(h, cooldown) && |copies| == 2 && |subslots| == 2 && Holds(h, copies, subslots)
    ensures Newest(subslots).Some? <==> Best(copies).Some?
    ensures Best(copies).Some? ==>
              var i := Newest(subslots).value;
              Best(copies).value < |h| && subslots[i].incarnation == h[Best(copies).value].incarnation && subslots[i].value == h[Best(copies).value].value
  {
    if copies[0].Intact? && copies[1].Intact? {
      var a, b := copies[0].write, copies[1].write;
      if a < b {
        Later(h, cooldown, a, b);
      } else if b < a {
        Later(h, cooldown, b, a);
      }
    }
  }

  /** Judged within the cooldown, a read of a correct writer's register returns a value
      written no earlier than the last write completed before the read began, under its own
      incarnation; the writer is not accused. */
  lemma ShortReadsReturnWrites<V>(h: History<V>, cooldown: nat, start: nat, end: nat, now: nat, copies: seq<Copy>, subslots: seq<Subslot<V>>, k: nat)
    returns (w: nat)
    requires WellFormed(h, cooldown) && h[1].done <= start <= end <= now && now - start <= cooldown
    requires k < |h| && Before(h, k, start)
    requires MayRead(h, start, end, copies) && |subslots| == 2 && Holds(h, copies, subslots)
    ensures w < |h| && h[k].incarnation <= h[w].incarnation && h[w].incarnation >= 2
    ensures Outcome(subslots, start, now, cooldown) == Value(h[w].value, h[w].incarnation - 2)
  {
    ShortReadsAreFresh(h, cooldown, start, end, copies, k);
    PicksBest(h, cooldown, copies, subslots);
    w := Best(copies).value;
    hide WellFormed, Best, Newest, Holds;
  }

  /** A longer read may return an older incarnation than one that was complete before it
      began, even the wrapped-around one of the first initializing write. */
  lemma LongReadsMayBeStale<V>(h: History<V>, cooldown: nat, start: nat, end: nat, now: nat, k: nat)
    returns (copies: seq<Copy>, subslots: seq<Subslot<V>>)
    requires WellFormed(h, cooldown) && h[1].done <= start <= end <= now && TwoOverlap(h, start, end)
    requires IsLast(h, k, start)
    ensures 1 <= k && MayRead(h, start, end, copies) && |subslots| == 2 && Holds(h, copies, subslots)
    ensures Outcome(subslots, start, now, cooldown) == Value(h[k - 1].value, Reported(h[k - 1].incarnation))
  {
    var nothing;
    copies, nothing := StaleRead(h, cooldown, start, end, k);
    var filler := Subslot(false, 0, h[k - 1].value);
    var found := Subslot(true, h[k - 1].incarnation, h[k - 1].value);
    subslots := if copies[0].Torn? then [filler, found] else [found, filler];
  }

  /** However long it takes, no read of a correct writer's register makes the reader accuse it: where
      both subslots are torn, the read lasted longer than the cooldown and is repeated. */
  lemma CorrectIsNotAccused<V>(h: History<V>, cooldown: nat, start: nat, end: nat, now: nat, copies: seq<Copy>, subslots: seq<Subslot<V>>)
    requires WellFormed(h, cooldown) && h[1].done <= start <= end <= now
    requires MayRead(h, start, end, copies) && |subslots| == 2 && Holds(h, copies, subslots)
    ensures if subslots[0].hashOk || subslots[1].hashOk then Outcome(subslots, start, now, cooldown).Value?
            else Outcome(subslots, start, now, cooldown) == Reschedule
  {
    PicksBest(h, cooldown, copies, subslots);
    if !subslots[0].hashOk && !subslots[1].hashOk {
      if end - start <= cooldown {
        var k := LastExists(h, cooldown, start, |h|);
        ShortReadsAreFresh(h, cooldown, start, end, copies, k);
      }
    }
  }

  /** A writer is accused exactly if both subslots are bad and the read was judged within the cooldown. */
  lemma AccusedExactly<V>(subslots: seq<Subslot<V>>, start: nat, now: nat, cooldown: nat)
    requires |subslots| == 2 && start <= now
    ensures Outcome(subslots, start, now, cooldown) == Accuse <==> !subslots[0].hashOk && !subslots[1].hashOk && now - start <= cooldown
  {}
}
