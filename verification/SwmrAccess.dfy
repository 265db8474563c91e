/** The writer and the reader of arrays of single-writer registers. The writer's fields
    keep every register's history well formed; the reader returns what the register
    theory promises of a short read. */
module SwmrAccess {
  import opened Options
  import opened SwmrRegister

  /** `Writer::Register`; `value` is the content of the local buffer. */
  datatype Reg<+V> = Reg(incarnation: nat, value: V, scheduled: bool, lastWrite: Option<nat>, subslot: nat)

  predicate NoDuplicates(s: seq<nat>) {
    forall i, j :: 0 <= i < j < |s| ==> s[i] != s[j]
  }

  /** One register: its last complete write, and the write under way if it is scheduled. */
  ghost predicate RegOk<V>(reg: Reg<V>, h: History<V>, cooldown: nat, clock: nat) {
    && WellFormed(h, cooldown)
    && reg.lastWrite == (if |h| > 2 then Some(h[|h| - 1].done) else None)
    && h[|h| - 1].done <= clock
    && (if reg.scheduled
        then h[|h| - 1].incarnation < reg.incarnation && reg.subslot == SubslotOf(|h|)
        else h[|h| - 1].incarnation == reg.incarnation && h[|h| - 1].value == reg.value && reg.subslot == SubslotOf(|h| - 1))
  }

  /** The write under way was posted after the cooldown of the one before it. */
  ghost predicate FlyOk<V>(reg: Reg<V>, h: History<V>, posted: nat, cooldown: nat, clock: nat) {
    && reg.scheduled && posted <= clock && |h| >= 2
    && h[|h| - 1].done + (if |h| <= 2 then 0 else cooldown) <= posted
  }

  /** The turns of `pushToQp` from the i-th on: what is posted, in order, and the queue left. The
      bound is the length of the queue at each turn, which shrinks with every write posted. */
  function Pushes(queue: seq<nat>, cooling: set<nat>, busy: nat, limit: nat, i: nat): (r: (seq<nat>, seq<nat>))
    decreases |queue| - i
  {
    if i < |queue| && busy < limit then
      if queue[0] in cooling then Pushes(queue[1..] + [queue[0]], cooling, busy, limit, i + 1)
      else var rest := Pushes(queue[1..], cooling, busy + 1, limit, i + 1); ([queue[0]] + rest.0, rest.1)
    else ([], queue)
  }

  /** With room for all and none cooling, a call posts the first half of the queue only. */
  lemma {:induction false} PostsHalf(queue: seq<nat>, cooling: set<nat>, busy: nat, limit: nat, i: nat)
    requires (forall j :: 0 <= j < |queue| ==> queue[j] !in cooling) && busy + |queue| <= limit
    ensures var n := if i < |queue| then (|queue| - i + 1) / 2 else 0;
            Pushes(queue, cooling, busy, limit, i) == (queue[..n], queue[n..])
    decreases |queue| - i
  {
    if i < |queue| {
      var rest := queue[1..];
      PostsHalf(rest, cooling, busy + 1, limit, i + 1);
      var m := if i + 1 < |rest| then (|rest| - i) / 2 else 0;
      assert queue[..m + 1] == [queue[0]] + rest[..m] && queue[m + 1..] == rest[m..];
    }
  }

  /** What was posted so far, and what the remaining turns post. */
  function PushesAfter(posted: seq<nat>, queue: seq<nat>, cooling: set<nat>, busy: nat, limit: nat, i: nat): (seq<nat>, seq<nat>) {
    var rest := Pushes(queue, cooling, busy, limit, i);
    (posted + rest.0, rest.1)
  }

  lemma NextPush(posted: seq<nat>, queue: seq<nat>, cooling: set<nat>, busy: nat, limit: nat, i: nat)
    ensures var all := PushesAfter(posted, queue, cooling, busy, limit, i);
            if i >= |queue| || busy >= limit then all == (posted, queue)
            else if queue[0] in cooling then all == PushesAfter(posted, queue[1..] + [queue[0]], cooling, busy, limit, i + 1)
            else all == PushesAfter(posted + [queue[0]], queue[1..], cooling, busy + 1, limit, i + 1)
  {
    if i < |queue| && busy < limit && queue[0] !in cooling {
      var rest := Pushes(queue[1..], cooling, busy + 1, limit, i + 1);
      assert posted + ([queue[0]] + rest.0) == posted + [queue[0]] + rest.0;
    } else if i >= |queue| || busy >= limit {
      assert posted + [] == posted;
    }
  }

  lemma FirstPush(queue: seq<nat>, cooling: set<nat>, busy: nat, limit: nat)
    ensures PushesAfter([], queue, cooling, busy, limit, 0) == Pushes(queue, cooling, busy, limit, 0)
  {
    var rest := Pushes(queue, cooling, busy, limit, 0);
    assert [] + rest.0 == rest.0;
  }

  function PostedAt(flights: map<nat, nat>, posted: seq<nat>, now: nat): map<nat, nat> {
    if posted == [] then flights else PostedAt(flights, posted[..|posted| - 1], now)[posted[|posted| - 1] := now]
  }

  /** `swmr::Writer`, after `initializeRemoteRegisters`. Times are those of a steady clock. */
  class Writer<V> {
    const cooldown: nat
    const maxOutstanding: nat
    const registers: array<Reg<V>>
    var queued: seq<nat>
    var outstanding: nat
    /** The complete writes of each register, the writes in flight and when they were
        posted, and the time. */
    ghost var histories: seq<History<V>>
    ghost var inFlight: map<nat, nat>
    ghost var clock: nat

    ghost predicate RegisterOk(r: nat)
      requires r < registers.Length && registers.Length == |histories|
      reads this`histories, this`clock, registers
    {
      RegOk(registers[r], histories[r], cooldown, clock)
    }

    ghost predicate FlightOk(r: nat)
      requires r < registers.Length && registers.Length == |histories|
      reads this`histories, this`clock, this`inFlight, this`queued, registers
    {
      r in inFlight ==> r !in queued && FlyOk(registers[r], histories[r], inFlight[r], cooldown, clock)
    }

    ghost predicate Valid()
      reads this, registers
    {
      && |histories| == registers.Length
      && NoDuplicates(queued)
      && outstanding == |inFlight|
      && (forall r: nat :: r in queued ==> r < registers.Length && registers[r].scheduled)
      && (forall r: nat :: r in inFlight ==> r < registers.Length)
      && (forall r: nat :: r < registers.Length && registers[r].scheduled ==> r in queued || r in inFlight)
      && (forall r: nat :: r < registers.Length ==> RegisterOk(r) && FlightOk(r))
    }

    constructor (n: nat, cooldown: nat, maxOutstanding: nat, zero: V, ghost start: seq<History<V>>, ghost now: nat)
      requires |start| == n
      requires forall r: nat :: r < n ==> |start[r]| == 2 && WellFormed(start[r], cooldown) && start[r][1].value == zero && start[r][1].done <= now
      ensures Valid() && fresh(registers) && histories == start && registers.Length == n && this.cooldown == cooldown
    {
      this.cooldown, this.maxOutstanding := cooldown, maxOutstanding;
      registers := new Reg<V>[n](_ => Reg(2, zero, false, None, 0));
      queued, outstanding := [], 0;
      histories, inFlight, clock := start, map[], now;
    }

    /** `getSlot`: a register whose write is under way has no slot. */
    method HasSlot(r: nat) returns (ok: bool)
      requires Valid() && r < registers.Length
      ensures ok <==> !registers[r].scheduled
    {
      ok := !registers[r].scheduled;
    }

    /** The first part of `write`, into the slot of a register that has one, with the value put
        there. A custom incarnation is two less than the stored one; it must grow, or the source
        throws (`ok` is false). */
    method Enqueue(r: nat, value: V, custom: Option<nat>) returns (ok: bool)
      requires Valid() && r < registers.Length && !registers[r].scheduled
      modifies this`queued, registers
      ensures ok <==> (custom.Some? ==> old(registers[r].incarnation) < custom.value + 2)
      ensures ok ==> Valid() && queued == old(queued) + [r] && registers[r].scheduled && registers[r].value == value
      ensures ok ==> registers[r].incarnation == if custom.Some? then custom.value + 2 else old(registers[r].incarnation) + 1
      ensures !ok ==> registers[..] == old(registers[..]) && queued == old(queued)
      ensures forall j: nat :: j < registers.Length && j != r ==> registers[j] == old(registers[j])
    {
      hide WellFormed;
      var reg := registers[r];
      var incarnation := if custom.Some? then custom.value + 2 else reg.incarnation + 1;
      if incarnation <= reg.incarnation {
        return false;
      }
      assert RegisterOk(r) && FlightOk(r);
      registers[r] := Reg(incarnation, value, true, reg.lastWrite, (reg.subslot + 1) % 2);
      queued := queued + [r];
      forall j: nat | j < registers.Length ensures RegisterOk(j) && FlightOk(j) {
        assert old(RegisterOk(j) && FlightOk(j));
      }
      ok := true;
    }

    /** Whether a queued register may not be written yet. */
    predicate Cooling(r: nat, now: nat)
      requires r < registers.Length
      reads registers
    {
      registers[r].lastWrite.Some? && registers[r].lastWrite.value + cooldown > now
    }

    /** It may not exactly while the cooldown after its last write, but for those that initialized it,
        is not over. */
    lemma CoolingExactly(r: nat, now: nat)
      requires Valid() && r < registers.Length
      ensures |histories| == registers.Length && |histories[r]| >= 2
      ensures Cooling(r, now) <==> |histories[r]| > 2 && now < histories[r][|histories[r]| - 1].done + cooldown
    {
      assert RegisterOk(r);
      hide FlightOk, NoDuplicates;
    }

    ghost function CoolingAt(now: nat): set<nat>
      reads registers
    {
      set r: nat | r < registers.Length && Cooling(r, now)
    }

    /** `pushToQp`: posts queued writes; those still cooling go to the end of the queue. */
    method PushToQp(now: nat)
      requires Valid() && clock <= now
      modifies this`queued, this`outstanding, this`inFlight, this`clock
      ensures Valid() && clock == now
      ensures var r := Pushes(old(queued), CoolingAt(now), old(outstanding), maxOutstanding, 0);
              queued == r.1 && outstanding == old(outstanding) + |r.0| && inFlight == PostedAt(old(inFlight), r.0, now)
    {
      hide *;
      Wait(now);
      ghost var posted: seq<nat> := [];
      ghost var cooling := CoolingAt(now);
      NothingPosted(inFlight, now);
      FirstPush(queued, cooling, outstanding, maxOutstanding);
      var i := 0;
      while i < |queued| && outstanding < maxOutstanding
        invariant Valid() && clock == now && cooling == CoolingAt(now)
        invariant inFlight == PostedAt(old(inFlight), posted, now) && outstanding == old(outstanding) + |posted|
        invariant PushesAfter(posted, queued, cooling, outstanding, maxOutstanding, i) == Pushes(old(queued), cooling, old(outstanding), maxOutstanding, 0)
        decreases |queued| - i
      {
        ghost var r := queued[0];
        FrontIsRegister(now);
        NextPush(posted, queued, cooling, outstanding, maxOutstanding, i);
        PushOne(now);
        if r !in cooling {
          OneMorePosted(old(inFlight), posted, r, now);
          posted := posted + [r];
        }
        i := i + 1;
      }
      NextPush(posted, queued, cooling, outstanding, maxOutstanding, i);
    }

    lemma FrontIsRegister(now: nat)
      requires Valid() && queued != []
      ensures queued[0] < registers.Length && (queued[0] in CoolingAt(now) <==> Cooling(queued[0], now))
    {
      assert queued[0] in queued;
    }

    /** Time passes. */
    ghost method Wait(now: nat)
      requires Valid() && clock <= now
      modifies this`clock
      ensures Valid() && clock == now
    {
      clock := now;
      hide WellFormed;
      forall r: nat | r < registers.Length ensures RegisterOk(r) && FlightOk(r) {
        assert old(RegisterOk(r) && FlightOk(r));
      }
    }

    /** `write` */
    method Write(r: nat, value: V, custom: Option<nat>, now: nat) returns (ok: bool)
      requires Valid() && clock <= now && r < registers.Length && !registers[r].scheduled
      modifies this`queued, this`outstanding, this`inFlight, this`clock, registers
      ensures ok <==> (custom.Some? ==> old(registers[r].incarnation) < custom.value + 2)
      ensures ok ==> Valid() && clock == now && registers[r].scheduled && registers[r].value == value
      ensures ok ==> registers[r].incarnation == if custom.Some? then custom.value + 2 else old(registers[r].incarnation) + 1
      ensures forall j: nat :: j < registers.Length && j != r ==> registers[j] == old(registers[j])
      ensures ok ==>
                var p := Pushes(old(queued) + [r], CoolingAt(now), old(outstanding), maxOutstanding, 0);
                queued == p.1 && outstanding == old(outstanding) + |p.0| && inFlight == PostedAt(old(inFlight), p.0, now)
    {
      hide RegisterOk, FlightOk, NoDuplicates, Pushes;
      ok := Enqueue(r, value, custom);
      if ok {
        PushToQp(now);
      }
    }

    /** One turn of the loop: the front of the queue is posted, or goes to its end. */
    method PushOne(now: nat)
      requires Valid() && clock == now && queued != [] && queued[0] < registers.Length
      modifies this`queued, this`outstanding, this`inFlight
      ensures Valid()
      ensures var r := old(queued[0]);
              if Cooling(r, now) then queued == old(queued[1..]) + [r] && inFlight == old(inFlight) && outstanding == old(outstanding)
              else queued == old(queued[1..]) && inFlight == old(inFlight)[r := now] && r !in old(inFlight) && outstanding == old(outstanding) + 1
    {
      hide WellFormed, RegisterOk, NoDuplicates;
      var r := queued[0];
      ghost var before, rest := queued, queued[1..];
      assert r in queued && FlightOk(r) && RegisterOk(r);
      Rotate(queued);
      if registers[r].lastWrite.Some? && registers[r].lastWrite.value + cooldown > now {
        queued := queued[1..] + [r];
      } else {
        Posted(r, now);
        queued := queued[1..];
        inFlight := inFlight[r := now];
        outstanding := outstanding + 1;
      }
      forall j: nat | j < registers.Length ensures RegisterOk(j) && FlightOk(j) {
        assert old(RegisterOk(j) && FlightOk(j));
        assert j in before <==> j == r || j in rest;
        assert j in queued ==> j in before;
      }
    }

    /** A register that is not cooling may be written now. */
    lemma Posted(r: nat, now: nat)
      requires r < registers.Length == |histories| && RegisterOk(r) && clock == now
      requires !(registers[r].lastWrite.Some? && registers[r].lastWrite.value + cooldown > now)
      ensures |histories[r]| >= 2
      ensures histories[r][|histories[r]| - 1].done + (if |histories[r]| <= 2 then 0 else cooldown) <= now
    {}

    /** What a completion makes of a register: unscheduled, its write complete at `now`. */
    ghost predicate Landed(r: nat, reg: Reg<V>, h: History<V>, posted: nat, now: nat)
      requires r < registers.Length == |histories|
      reads this`histories, this`inFlight, registers
    {
      && r !in inFlight
      && registers[r] == reg.(lastWrite := Some(now), scheduled := false)
      && histories[r] == h + [SwmrRegister.Write(reg.incarnation, reg.value, posted, now)]
    }

    /** `pollCompletion`: the network reports writes that were posted, each once. */
    method PollCompletion(completed: seq<nat>, now: nat)
      requires Valid() && clock < now && NoDuplicates(completed)
      requires forall r: nat :: r in completed ==> r in inFlight && r < registers.Length
      modifies this`outstanding, this`inFlight, this`histories, this`clock, registers
      ensures Valid() && clock == now && |histories| == registers.Length
      ensures forall r: nat :: r in completed ==> Landed(r, old(registers[r]), old(histories)[r], old(inFlight)[r], now)
      ensures forall r: nat :: r < registers.Length && r !in completed ==>
                registers[r] == old(registers[r]) && histories[r] == old(histories)[r] && (r in inFlight <==> r in old(inFlight))
    {
      hide Valid, RegisterOk, FlightOk, WellFormed, NoDuplicates;
      Sizes();
      ghost var regs, hs := registers[..], histories;
      Tick(now);
      ghost var flights := inFlight;
      Sizes();
      var i := 0;
      while i < |completed|
        invariant 0 <= i <= |completed| && Valid() && clock == now && |histories| == registers.Length == |hs|
        invariant forall r: nat :: r in completed[..i] ==> r < registers.Length && r in flights
        invariant forall r: nat :: r in completed[..i] ==> Landed(r, regs[r], hs[r], flights[r], now)
        invariant forall r: nat :: r < registers.Length && r !in completed[..i] ==>
                    registers[r] == regs[r] && histories[r] == hs[r] && (r in inFlight <==> r in flights)
        invariant forall r: nat :: r in inFlight ==> r in flights && inFlight[r] == flights[r]
      {
        Split(completed, i);
        var r := completed[i];
        assert r in completed && r !in completed[..i];
        Complete(r, now);
        i := i + 1;
      }
      assert completed[..|completed|] == completed;
    }

    lemma Sizes()
      requires Valid()
      ensures |histories| == registers.Length
    {}
    ghost method Tick(now: nat)
      requires Valid() && clock < now
      modifies this`clock
      ensures Valid() && clock == now
      ensures forall r: nat :: r in inFlight ==> inFlight[r] < now
    {
      hide WellFormed;
      clock := now;
      forall j: nat | j < registers.Length ensures RegisterOk(j) && FlightOk(j) && (j in inFlight ==> inFlight[j] < now) {
        assert old(RegisterOk(j) && FlightOk(j));
      }
    }

    /** One completion. */
    method Complete(r: nat, now: nat)
      requires Valid() && clock == now && r in inFlight && inFlight[r] < now && r < registers.Length
      modifies this`outstanding, this`inFlight, this`histories, registers
      ensures Valid()
      ensures inFlight == old(inFlight) - {r}
      ensures registers[r] == old(registers[r]).(lastWrite := Some(now), scheduled := false)
      ensures |histories| == |old(histories)|
      ensures histories[r] == old(histories[r]) + [SwmrRegister.Write(old(registers[r].incarnation), old(registers[r].value), old(inFlight[r]), now)]
      ensures forall j: nat :: j < registers.Length && j != r ==> registers[j] == old(registers[j]) && histories[j] == old(histories[j])
    {
      hide NoDuplicates;
      assert RegisterOk(r) && FlightOk(r);
      ghost var h := histories[r];
      ghost var w := SwmrRegister.Write(registers[r].incarnation, registers[r].value, inFlight[r], now);
      LandedOk(registers[r], h, w, cooldown, clock);
      hide WellFormed, RegOk, FlyOk;
      assert |inFlight - {r}| == |inFlight| - 1 by {
        FewerFlights(inFlight, r);
      }
      registers[r] := registers[r].(lastWrite := Some(now), scheduled := false);
      outstanding := outstanding - 1;
      histories := histories[r := histories[r] + [w]];
      inFlight := inFlight - {r};
      forall j: nat | j < registers.Length ensures RegisterOk(j) && FlightOk(j) {
        assert old(RegisterOk(j) && FlightOk(j));
      }
    }
  }

  lemma NothingPosted(flights: map<nat, nat>, now: nat)
    ensures PostedAt(flights, [], now) == flights
  {}

  lemma OneMorePosted(flights: map<nat, nat>, posted: seq<nat>, r: nat, now: nat)
    ensures PostedAt(flights, posted + [r], now) == PostedAt(flights, posted, now)[r := now]
  {
    assert (posted + [r])[..|posted|] == posted;
  }

  lemma FewerFlights(m: map<nat, nat>, r: nat)
    requires r in m
    ensures |m - {r}| == |m| - 1
  {
    assert (m - {r}).Keys == m.Keys - {r};
    assert |m.Keys| == |m| && |(m - {r}).Keys| == |m - {r}|;
  }

  lemma Split(s: seq<nat>, i: nat)
    requires i < |s| && NoDuplicates(s)
    ensures s[i] in s[i..] && s[i] !in s[i + 1..] && s[i] !in s[..i]
    ensures forall r: nat :: r in s[i + 1..] ==> r in s[i..]
    ensures forall r: nat :: r in s[..i + 1] <==> r == s[i] || r in s[..i]
  {
    assert s[i..] == [s[i]] + s[i + 1..];
    assert s[..i + 1] == s[..i] + [s[i]];
  }

  /** A write posted after the cooldown keeps the history well formed. */
  lemma OneMore<V>(h: History<V>, cooldown: nat, w: SwmrRegister.Write<V>)
    requires WellFormed(h, cooldown) && w.posted < w.done && h[|h| - 1].incarnation < w.incarnation
    requires h[|h| - 1].done + (if |h| <= 2 then 0 else cooldown) <= w.posted
    ensures WellFormed(h + [w], cooldown)
  {
    var all := h + [w];
    forall i: nat | i + 1 < |all| ensures Spaced(all, cooldown, i) {
      if i + 1 < |h| {
        assert Spaced(h, cooldown, i);
      }
    }
  }

  lemma LandedOk<V>(reg: Reg<V>, h: History<V>, w: SwmrRegister.Write<V>, cooldown: nat, clock: nat)
    requires RegOk(reg, h, cooldown, clock) && reg.scheduled
    requires w.incarnation == reg.incarnation && w.value == reg.value && w.posted < w.done == clock
    requires |h| >= 2 && h[|h| - 1].done + (if |h| <= 2 then 0 else cooldown) <= w.posted
    ensures RegOk(reg.(lastWrite := Some(clock), scheduled := false), h + [w], cooldown, clock)
  {
    OneMore(h, cooldown, w);
    hide WellFormed;
  }

  lemma Rotate(queue: seq<nat>)
    requires queue != [] && NoDuplicates(queue)
    ensures NoDuplicates(queue[1..]) && NoDuplicates(queue[1..] + [queue[0]]) && queue[0] !in queue[1..]
    ensures forall j: nat :: j in queue <==> j == queue[0] || j in queue[1..]
    ensures forall j: nat :: j in queue[1..] + [queue[0]] <==> j in queue
  {
    var r, rest := queue[0], queue[1..];
    assert queue == [r] + rest;
    forall i, j | 0 <= i < j < |rest| + 1 ensures (rest + [r])[i] != (rest + [r])[j] {
      assert rest[i] == queue[i + 1];
      assert j < |rest| ==> rest[j] == queue[j + 1];
    }
  }
}
