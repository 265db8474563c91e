/** Why a host of the replicated register is regular: a read of it that lasts at most the cooldown
    returns what the replicated protocol lets it return. Longer reads may not. The incarnations of a
    register are two ahead of those of the protocol, since it is written twice to initialize it. */
module ReplicatedHosts {
  import opened SwmrRegister
  import Replicated = ReplicatedRegister

  /** What the protocol takes for stored at a host when a read of it starts: the last complete write. */
  ghost predicate StoredAt<V>(h: History<V>, start: nat, k: nat, stored: nat) {
    IsLast(h, k, start) && stored + 2 == h[k].incarnation
  }

  /** The write was posted to the host. */
  ghost predicate Holds<V>(host: Replicated.Host<V>, w: Write<V>) {
    w.incarnation >= 2 && w.incarnation - 2 in host.posted && host.posted[w.incarnation - 2] == w.value
  }

  /** All that was posted before the read ends is known to have been posted. */
  ghost predicate PostedBy<V>(h: History<V>, end: nat, host: Replicated.Host<V>) {
    forall i: nat :: 1 <= i < |h| && h[i].posted < end ==> Holds(host, h[i])
  }

  /** What a host may return, by the step Return of the protocol, with its value. */
  ghost predicate MayReturn<V>(h: History<V>, stored: nat, host: Replicated.Host<V>, copies: seq<Copy>)
    requires |copies| == 2
  {
    && Best(copies).Some? && Best(copies).value < |h|
    && var w := h[Best(copies).value];
       stored + 2 <= w.incarnation && Holds(host, w)
  }

  /** Everything a read of this interval may find, it may return. */
  ghost predicate Regular<V>(h: History<V>, start: nat, end: nat, stored: nat, host: Replicated.Host<V>) {
    forall copies :: MayRead(h, start, end, copies) ==> MayReturn(h, stored, host, copies)
  }

  lemma SafeReadReturns<V>(h: History<V>, cooldown: nat, start: nat, end: nat, copies: seq<Copy>, k: nat, stored: nat, host: Replicated.Host<V>)
    requires WellFormed(h, cooldown) && h[1].done <= start < end && !TwoOverlap(h, start, end)
    requires StoredAt(h, start, k, stored) && PostedBy(h, end, host) && MayRead(h, start, end, copies)
    ensures MayReturn(h, stored, host, copies)
  {
    SafeRead(h, cooldown, start, end, copies, k);
    assert Before(h, 1, start);
    var b := Best(copies).value;
    if k < b {
      Later(h, cooldown, k, b);
    }
    assert h[b].posted < end;
  }

  /** A host is regular for a read exactly if no two writes overlap it. */
  lemma RegularExactly<V>(h: History<V>, cooldown: nat, start: nat, end: nat, k: nat, stored: nat, host: Replicated.Host<V>)
    requires WellFormed(h, cooldown) && h[1].done <= start < end && StoredAt(h, start, k, stored) && PostedBy(h, end, host)
    ensures Regular(h, start, end, stored, host) <==> !TwoOverlap(h, start, end)
  {
    if TwoOverlap(h, start, end) {
      var stale, nothing := StaleRead(h, cooldown, start, end, k);
      assert MayRead(h, start, end, nothing) && !MayReturn(h, stored, host, nothing);
    } else {
      forall copies | MayRead(h, start, end, copies) ensures MayReturn(h, stored, host, copies) {
        SafeReadReturns(h, cooldown, start, end, copies, k, stored, host);
      }
    }
  }

  /** So it is for reads that last at most the cooldown. */
  lemma ShortReadsAreRegular<V>(h: History<V>, cooldown: nat, start: nat, end: nat, k: nat, stored: nat, host: Replicated.Host<V>)
    requires WellFormed(h, cooldown) && h[1].done <= start < end && end - start <= cooldown && StoredAt(h, start, k, stored) && PostedBy(h, end, host)
    ensures Regular(h, start, end, stored, host)
  {
    ShortOverlap(h, cooldown, start, end);
    RegularExactly(h, cooldown, start, end, k, stored, host);
  }
}
