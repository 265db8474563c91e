/** One single-writer register of two subslots: a write fills the subslots in turn and
    waits for a cooldown after the previous write completed; a read copies both subslots
    while writes may be in flight, and takes the newest one whose checksum holds. */
module SwmrRegister {
  import opened Options

  /** A write: its incarnation and value, when it was posted and when it was seen complete. */
  datatype Write<+V> = Write(incarnation: nat, value: V, posted: nat, done: nat)

  /** All writes to one register, in order. The first two initialize it. */
  type History<V> = seq<Write<V>>

  /** Write i goes to this subslot. */
  function SubslotOf(i: nat): nat {
    (i + 1) % 2
  }

  /** What a correct writer's history looks like, for writes i and i + 1. */
  ghost predicate Spaced<V>(h: History<V>, cooldown: nat, i: nat)
    requires i + 1 < |h|
  {
    && h[i].incarnation < h[i + 1].incarnation
    && h[i].done + (if i < 2 then 0 else cooldown) <= h[i + 1].posted
  }

  ghost predicate WellFormed<V>(h: History<V>, cooldown: nat) {
    && |h| >= 2 && h[0].incarnation == 1 && h[1].incarnation == 2
    && (forall i: nat :: i < |h| ==> h[i].posted < h[i].done)
    && forall i: nat :: i + 1 < |h| ==> Spaced(h, cooldown, i)
  }

  /** Write i changes its subslot at some time strictly inside the read. */
  predicate Overlaps<V>(h: History<V>, i: nat, start: nat, end: nat)
    requires i < |h|
  {
    h[i].posted < end && start < h[i].done
  }

  /** Write i was complete when the read began. */
  predicate Before<V>(h: History<V>, i: nat, start: nat)
    requires i < |h|
  {
    h[i].done <= start
  }

  /** What a read may find in a subslot: an intact write, or a torn one. */
  datatype Copy = Intact(write: nat) | Torn

  /** The read may copy write i: it was not yet replaced when the read began, and was
      posted before the read ended. */
  predicate MayCopy<V>(h: History<V>, slot: nat, i: nat, start: nat, end: nat) {
    && i < |h| && SubslotOf(i) == slot
    && (Before(h, i, start) || Overlaps(h, i, start, end))
    && (i + 2 < |h| ==> !Before(h, i + 2, start))
  }

  /** A copy is torn only if a write to the subslot overlaps the read. */
  predicate MayTear<V>(h: History<V>, slot: nat, start: nat, end: nat) {
    exists i: nat :: i < |h| && SubslotOf(i) == slot && Overlaps(h, i, start, end)
  }

  ghost predicate MayFind<V>(h: History<V>, slot: nat, start: nat, end: nat, copy: Copy) {
    match copy
    case Intact(i) => MayCopy(h, slot, i, start, end)
    case Torn => MayTear(h, slot, start, end)
  }

  /** What a read of both subslots may find. */
  ghost predicate MayRead<V>(h: History<V>, start: nat, end: nat, copies: seq<Copy>) {
    && |copies| == 2
    && forall slot: nat :: slot < 2 ==> MayFind(h, slot, start, end, copies[slot])
  }

  /** The newest intact copy. */
  function Best(copies: seq<Copy>): Option<nat>
    requires |copies| == 2
  {
    if copies[0].Torn? && copies[1].Torn? then None
    else if copies[0].Torn? || (copies[1].Intact? && copies[0].write < copies[1].write) then Some(copies[1].write)
    else Some(copies[0].write)
  }

  // ---------- The order of writes ----------

  lemma {:induction false} Later<V>(h: History<V>, cooldown: nat, i: nat, j: nat)
    requires WellFormed(h, cooldown) && i < j < |h|
    ensures h[i].incarnation < h[j].incarnation && h[i].done <= h[j].posted
    ensures i >= 2 ==> h[i].done + cooldown <= h[j].posted
    decreases j
  {
    assert Spaced(h, cooldown, j - 1);
    if i < j - 1 {
      Later(h, cooldown, i, j - 1);
    }
  }

  /** Two writes of the register, after its initialization, that overlap a read. */
  ghost predicate TwoOverlap<V>(h: History<V>, start: nat, end: nat) {
    exists i: nat, j: nat :: i < j < |h| && Overlaps(h, i, start, end) && Overlaps(h, j, start, end)
  }

  /** A read of at most the cooldown overlaps at most one write. */
  lemma ShortOverlap<V>(h: History<V>, cooldown: nat, start: nat, end: nat)
    requires WellFormed(h, cooldown) && h[1].done <= start <= end && end - start <= cooldown
    ensures !TwoOverlap(h, start, end)
  {
    if TwoOverlap(h, start, end) {
      var i: nat, j: nat :| i < j < |h| && Overlaps(h, i, start, end) && Overlaps(h, j, start, end);
      Later(h, cooldown, i, j);
      if i < 2 {
        if i == 0 {
          Later(h, cooldown, 0, 1);
        }
      }
    }
  }

  /** The last write complete when the read began. */
  ghost predicate IsLast<V>(h: History<V>, k: nat, start: nat) {
    k < |h| && Before(h, k, start) && forall i: nat :: k < i < |h| ==> !Before(h, i, start)
  }

  lemma {:induction false} LastExists<V>(h: History<V>, cooldown: nat, start: nat, n: nat) returns (k: nat)
    requires WellFormed(h, cooldown) && h[1].done <= start && 2 <= n <= |h|
    requires forall i: nat :: n <= i < |h| ==> !Before(h, i, start)
    ensures 1 <= k && IsLast(h, k, start)
    decreases n
  {
    if Before(h, n - 1, start) {
      k := n - 1;
    } else {
      k := LastExists(h, cooldown, start, n - 1);
    }
  }

  /** Writes that overlap the read are newer than the last complete one. */
  lemma OverlapAfter<V>(h: History<V>, cooldown: nat, start: nat, end: nat, k: nat, i: nat)
    requires WellFormed(h, cooldown) && IsLast(h, k, start) && i < |h| && Overlaps(h, i, start, end)
    ensures k < i && Overlaps(h, k + 1, start, end)
    ensures forall j: nat :: k < j <= i ==> Overlaps(h, j, start, end)
  {
    if i < k {
      Later(h, cooldown, i, k);
    }
    forall j: nat | k < j <= i ensures Overlaps(h, j, start, end) {
      assert !Before(h, j, start);
      if j < i {
        Later(h, cooldown, j, i);
      }
    }
  }

  /** The subslot of the last complete write is not torn if no two writes overlap the read. */
  lemma NotTorn<V>(h: History<V>, cooldown: nat, start: nat, end: nat, k: nat)
    requires WellFormed(h, cooldown) && IsLast(h, k, start) && !TwoOverlap(h, start, end)
    ensures !MayTear(h, SubslotOf(k), start, end)
  {
    forall i: nat | i < |h| && SubslotOf(i) == SubslotOf(k) ensures !Overlaps(h, i, start, end) {
      if Overlaps(h, i, start, end) {
        OverlapAfter(h, cooldown, start, end, k, i);
      }
    }
  }

  lemma BeforeAll<V>(h: History<V>, cooldown: nat, start: nat, k: nat, j: nat)
    requires WellFormed(h, cooldown) && IsLast(h, k, start) && j <= k
    ensures Before(h, j, start)
  {
    if j < k {
      Later(h, cooldown, j, k);
    }
  }

  /** Nor does that subslot hold an older write. */
  lemma NotOlder<V>(h: History<V>, cooldown: nat, start: nat, end: nat, k: nat, i: nat)
    requires WellFormed(h, cooldown) && IsLast(h, k, start) && MayCopy(h, SubslotOf(k), i, start, end)
    ensures k <= i
  {
    if i + 2 <= k {
      BeforeAll(h, cooldown, start, k, i + 2);
    }
  }

  /** A read that overlaps at most one write finds, in some subslot, an intact copy of a
      write no older than the last one complete when it began. */
  lemma SafeRead<V>(h: History<V>, cooldown: nat, start: nat, end: nat, copies: seq<Copy>, k: nat)
    requires WellFormed(h, cooldown) && h[1].done <= start <= end && !TwoOverlap(h, start, end)
    requires IsLast(h, k, start) && MayRead(h, start, end, copies)
    ensures Best(copies).Some? && k <= Best(copies).value < |h|
    ensures Best(copies).value == k || Overlaps(h, Best(copies).value, start, end)
  {
    var slot := SubslotOf(k);
    assert MayFind(h, slot, start, end, copies[slot]) && MayFind(h, 1 - slot, start, end, copies[1 - slot]);
    NotTorn(h, cooldown, start, end, k);
    hide MayTear, WellFormed, TwoOverlap;
    NotOlder(h, cooldown, start, end, k, copies[slot].write);
  }

  /** Otherwise the result may be older, even with an intact copy: the write before the
      last one, or nothing. */
  lemma StaleRead<V>(h: History<V>, cooldown: nat, start: nat, end: nat, k: nat) returns (stale: seq<Copy>, nothing: seq<Copy>)
    requires WellFormed(h, cooldown) && h[1].done <= start <= end && TwoOverlap(h, start, end)
    requires IsLast(h, k, start)
    ensures k >= 1 && (stale == [Intact(k - 1), Torn] || stale == [Torn, Intact(k - 1)])
    ensures MayRead(h, start, end, stale) && Best(stale) == Some(k - 1)
    ensures MayRead(h, start, end, nothing) && Best(nothing) == None
  {
    var i: nat, j: nat :| i < j < |h| && Overlaps(h, i, start, end) && Overlaps(h, j, start, end);
    assert Before(h, 1, start);
    OverlapAfter(h, cooldown, start, end, k, j);
    OverlapAfter(h, cooldown, start, end, k, i);
    assert Overlaps(h, k + 1, start, end) && Overlaps(h, k + 2, start, end);
    Later(h, cooldown, k - 1, k);
    var prev := SubslotOf(k - 1);
    assert SubslotOf(k + 1) == prev && SubslotOf(k + 2) == 1 - prev;
    stale := if prev == 0 then [Intact(k - 1), Torn] else [Torn, Intact(k - 1)];
    nothing := [Torn, Torn];
    assert MayCopy(h, prev, k - 1, start, end);
    assert MayTear(h, prev, start, end) && MayTear(h, 1 - prev, start, end);
  }

  /** Exactly: every read of this interval returns a write no older than the last complete
      one if and only if no two writes overlap it. */
  lemma ReadsAreFreshExactly<V>(h: History<V>, cooldown: nat, start: nat, end: nat, k: nat)
    requires WellFormed(h, cooldown) && h[1].done <= start <= end && IsLast(h, k, start)
    ensures (forall copies :: MayRead(h, start, end, copies) ==> Best(copies).Some? && k <= Best(copies).value) <==> !TwoOverlap(h, start, end)
  {
    if TwoOverlap(h, start, end) {
      var stale, nothing := StaleRead(h, cooldown, start, end, k);
    } else {
      forall copies | MayRead(h, start, end, copies) ensures Best(copies).Some? && k <= Best(copies).value {
        SafeRead(h, cooldown, start, end, copies, k);
      }
    }
  }

  /** With a writer that obeys the cooldown, a read that lasts at most the cooldown finds an
      intact subslot, and returns an incarnation no older than the last write completed
      before it began, with the value written under it. */
  lemma ShortReadsAreFresh<V>(h: History<V>, cooldown: nat, start: nat, end: nat, copies: seq<Copy>, k: nat)
    requires WellFormed(h, cooldown) && h[1].done <= start <= end && end - start <= cooldown
    requires k < |h| && Before(h, k, start) && MayRead(h, start, end, copies)
    ensures Best(copies).Some? && Best(copies).value < |h|
    ensures h[k].incarnation <= h[Best(copies).value].incarnation
    ensures h[Best(copies).value].incarnation >= 2
  {
    ShortOverlap(h, cooldown, start, end);
    var last := LastExists(h, cooldown, start, |h|);
    SafeRead(h, cooldown, start, end, copies, last);
    var b := Best(copies).value;
    if k < b {
      Later(h, cooldown, k, b);
    }
    if 1 < b {
      Later(h, cooldown, 1, b);
    }
  }
}
