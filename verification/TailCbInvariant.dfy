/** What every step of tail consistent broadcast keeps. */
module TailCbInvariant {
  import opened Options
  import opened Quorums
  import opened TailCbProtocol

  /** The comparison may succeed, for some content of the echo's buffer beyond the echo. */
  ghost predicate MayMatch(c: Config, k: Index, data: Bytes, other: Bytes) {
    exists stale :: Matches(c, k, data, Echo(k, EchoOf(c, k, other), stale))
  }

  /** Index k is behind what the receiver has in its tail or has polled. */
  predicate Seen(l: Local, k: Index) {
    (l.latest.Some? && k <= l.latest.value) || exists j :: j in l.msgs && k <= j
  }

  ghost predicate TailAccepted(p: Replica, l: Local, accepted: map<(Replica, Index), Bytes>) {
    forall k: Index :: k in l.msgs ==> (p, k) in accepted && accepted[(p, k)] == l.msgs[k].data
  }

  ghost predicate AllSeen(p: Replica, l: Local, accepted: map<(Replica, Index), Bytes>) {
    forall k: Index :: (p, k) in accepted ==> Seen(l, k)
  }

  ghost predicate TailNewer(l: Local) {
    l.latest.Some? ==> forall k: Index :: k in l.msgs ==> l.latest.value < k
  }

  /** The tail holds accepted messages, newer than the polled ones; none is accepted twice. */
  ghost predicate SeenOk(p: Replica, l: Local, accepted: map<(Replica, Index), Bytes>) {
    TailAccepted(p, l, accepted) && AllSeen(p, l, accepted) && TailNewer(l)
  }

  ghost predicate EchoFrom(c: Config, accepted: map<(Replica, Index), Bytes>, q: Replica, e: Echo) {
    c.Correct(q) ==> (q, e.index) in accepted && e.data == EchoOf(c, e.index, accepted[(q, e.index)])
  }

  ghost predicate EchoesMatch(c: Config, k: Index, d: Data, accepted: map<(Replica, Index), Bytes>) {
    d.match_ ==> forall q: Replica :: q in d.echoes && c.Correct(q) ==>
      (q, k) in accepted && MayMatch(c, k, d.data, accepted[(q, k)])
  }

  ghost predicate BufferedOk(c: Config, p: Replica, l: Local, accepted: map<(Replica, Index), Bytes>) {
    && |l.buffered| == c.n
    && p < c.n
    && l.buffered[p] == []
    && forall q: Replica, e :: q < c.n && e in l.buffered[q] ==> EchoFrom(c, accepted, q, e)
  }

  ghost predicate TailEchoes(c: Config, p: Replica, l: Local, accepted: map<(Replica, Index), Bytes>) {
    forall k: Index :: k in l.msgs ==>
      p !in l.msgs[k].echoes && l.msgs[k].echoes <= Group(c.n) && EchoesMatch(c, k, l.msgs[k], accepted)
  }

  /** Echoes are those of messages their senders accepted. */
  ghost predicate EchoOk(c: Config, p: Replica, l: Local, accepted: map<(Replica, Index), Bytes>) {
    BufferedOk(c, p, l, accepted) && TailEchoes(c, p, l, accepted)
  }

  /** A register holds the accepted message's hash under a valid signature. */
  ghost predicate WrittenOk(c: Config, p: Replica, k: Index, s: State)
    requires c.tail > 0
  {
    (p, k) in s.written ==>
      && (p, k) in s.accepted
      && s.written[(p, k)].hash == c.hash(k, s.accepted[(p, k)])
      && c.verify(s.written[(p, k)].sig, s.written[(p, k)].hash)
      && c.Incarnation(k) <= Get(s.last, p, c.Slot(k))
  }

  /** The own check, the write and the reads of an index follow each other. */
  ghost predicate PhaseOk(c: Config, p: Replica, k: Index, l: Local, s: State)
    requires c.tail > 0
  {
    && (k in l.msgs && (p, k) in s.written ==> l.msgs[k].sig == Some(s.written[(p, k)].sig))
    && (c.Slot(k) in l.writes && l.writes[c.Slot(k)] == k ==> (p, k) in s.written && Get(s.last, p, c.Slot(k)) == c.Incarnation(k))
    && (forall read :: read in l.outReads && read.index == k ==> ReadOk(c, p, k, s))
  }

  ghost predicate ReadOk(c: Config, p: Replica, k: Index, s: State)
    requires c.tail > 0
  {
    && (p, k) in s.written
    && c.Incarnation(k) <= Get(s.done, p, c.Slot(k))
  }

  ghost predicate CheckOk(c: Config, p: Replica, l: Local, s: State, check: Check)
    requires c.tail > 0
  {
    && (p, check.index) in s.accepted
    && match check
       case OwnCheck(k, h, sig) => k in l.msgs ==> l.msgs[k].sig == Some(sig) && h == c.hash(k, l.msgs[k].data)
       case RegisterCheck(k, _, _) => ReadOk(c, p, k, s)
  }

  ghost predicate SlotOk(c: Config, p: Replica, slot: nat, l: Local, s: State)
    requires c.tail > 0
  {
    && Get(s.done, p, slot) <= Get(s.last, p, slot)
    && (slot in l.writes ==> c.Slot(l.writes[slot]) == slot && Get(s.done, p, slot) < Get(s.last, p, slot))
  }

  ghost predicate RegisterOk(c: Config, p: Replica, l: Local, s: State)
    requires c.tail > 0
  {
    && (forall k: Index :: WrittenOk(c, p, k, s))
    && (forall slot: nat :: SlotOk(c, p, slot, l, s))
    && (forall k: Index :: PhaseOk(c, p, k, l, s))
    && (forall check :: check in l.checks ==> CheckOk(c, p, l, s, check))
  }

  function ClearedBy(c: Config, s: State, p: Replica, k: Index): set<Replica> {
    set q | q in Group(c.n) && (p, k, q) in s.cleared
  }

  /** Receiver p is checking, or has checked, q for index k. */
  ghost predicate Token(p: Replica, k: Index, q: Replica, l: Local, s: State) {
    (p, k, q) in s.cleared || (exists f :: Read(k, q, f) in l.outReads) || (exists w :: RegisterCheck(k, q, w) in l.checks)
  }

  /** Each other receiver is checked once per index: read, then maybe verified, then cleared. */
  ghost predicate OnceOk(c: Config, p: Replica, k: Index, q: Replica, l: Local, s: State)
    requires c.tail > 0
  {
    && (forall f, g :: Read(k, q, f) in l.outReads && Read(k, q, g) in l.outReads ==> f == g)
    && (forall w, x :: RegisterCheck(k, q, w) in l.checks && RegisterCheck(k, q, x) in l.checks ==> w == x)
    && (forall w :: l.checks[RegisterCheck(k, q, w)] <= 1)
    && (forall f, w :: Read(k, q, f) in l.outReads ==> RegisterCheck(k, q, w) !in l.checks)
    && ((p, k, q) in s.cleared ==> forall f :: Read(k, q, f) !in l.outReads)
    && ((p, k, q) in s.cleared ==> forall w :: RegisterCheck(k, q, w) !in l.checks)
    && (Token(p, k, q, l, s) ==>
          && q < c.n && q != p
          && !(c.Slot(k) in l.writes && l.writes[c.Slot(k)] == k)
          && ReadOk(c, p, k, s))
  }

  ghost predicate CheckedOk(c: Config, p: Replica, k: Index, l: Local, s: State) {
    k in l.msgs ==> l.msgs[k].checked == |ClearedBy(c, s, p, k)|
  }

  ghost predicate CountOk(c: Config, p: Replica, l: Local, s: State)
    requires c.tail > 0
  {
    && (forall k: Index, q: Replica :: OnceOk(c, p, k, q, l, s))
    && forall k: Index :: CheckedOk(c, p, k, l, s)
  }

  ghost predicate Done(c: Config, s: State, p: Replica, k: Index)
    requires c.tail > 0
  {
    c.Incarnation(k) <= Get(s.done, p, c.Slot(k))
  }

  ghost predicate HashAgree(c: Config, s: State, p: Replica, q: Replica, k: Index) {
    (p, k) in s.accepted && (q, k) in s.accepted && c.hash(k, s.accepted[(p, k)]) == c.hash(k, s.accepted[(q, k)])
  }

  /** Every read of p's register that q makes for index k begins after p wrote it. */
  ghost predicate Late(c: Config, s: State, q: Replica, p: Replica, k: Index)
    requires c.tail > 0 && Sane(c, s) && q < c.n
  {
    && Done(c, s, p, k)
    && (forall f :: Read(k, p, f) in s.locals[q].outReads ==> c.Incarnation(k) <= f)
    && ((q, k, p) in s.cleared ==> HashAgree(c, s, p, q, k))
  }

  /** Of two receivers that write and then read each other, one sees the other's write. */
  ghost predicate OrderOk(c: Config, s: State, p: Replica, q: Replica, k: Index)
    requires c.tail > 0 && Sane(c, s) && p < c.n && q < c.n
  {
    && (forall f :: Read(k, q, f) in s.locals[p].outReads ==> c.Incarnation(k) <= f || Late(c, s, q, p, k))
    && (forall w :: RegisterCheck(k, q, w) in s.locals[p].checks ==> (q, k) in s.written && w == s.written[(q, k)])
    && ((p, k, q) in s.cleared ==> HashAgree(c, s, p, q, k) || Late(c, s, q, p, k))
  }

  ghost predicate DeliveryOk(c: Config, s: State, d: Delivery)
    requires Sane(c, s)
  {
    && c.Correct(d.receiver)
    && (d.receiver, d.index) in s.accepted
    && s.accepted[(d.receiver, d.index)] == d.data
    && s.locals[d.receiver].latest.Some? && d.index <= s.locals[d.receiver].latest.value
    && (d.fast ==> forall q: Replica :: c.Correct(q) && q != d.receiver ==>
          (q, d.index) in s.accepted && MayMatch(c, d.index, d.data, s.accepted[(q, d.index)]))
    && (!d.fast ==> forall q: Replica :: c.Correct(q) && q != d.receiver ==> (d.receiver, d.index, q) in s.cleared)
  }

  /** Deliveries of one receiver are strictly increasing. */
  ghost predicate Increasing(delivered: seq<Delivery>) {
    forall i, j :: 0 <= i < j < |delivered| && delivered[i].receiver == delivered[j].receiver ==> delivered[i].index < delivered[j].index
  }

  ghost predicate Inv(c: Config, s: State)
    requires c.tail > 0
  {
    && Sane(c, s)
    && (forall p: Replica :: c.Correct(p) ==> SeenOk(p, s.locals[p], s.accepted))
    && (forall p: Replica :: c.Correct(p) ==> EchoOk(c, p, s.locals[p], s.accepted))
    && (forall p: Replica :: c.Correct(p) ==> RegisterOk(c, p, s.locals[p], s))
    && (forall p: Replica :: c.Correct(p) ==> CountOk(c, p, s.locals[p], s))
    && (forall p: Replica, q: Replica, k: Index :: c.Correct(p) && c.Correct(q) && p != q ==> OrderOk(c, s, p, q, k))
    && (forall d :: d in s.delivered ==> DeliveryOk(c, s, d))
    && Increasing(s.delivered)
  }
}
