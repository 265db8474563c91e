/** The replicated register over hosts that are registers of two subslots: a run with the time of
    every step, in which a host returns what some read of its register finds. With a writer that
    obeys the cooldown, and reads that last no longer or meet one write at most, it is a run of
    the replicated protocol. */
module ReplicatedTimed {
  import opened Options
  import opened SwmrRegister
  import opened ReplicatedHosts
  import R = ReplicatedRegister

  /** Step i is taken at times[i]; a write that host h takes at step i is posted at posts(h, i),
      since it may have to wait; what is under way in the end completes at the horizon. */
  datatype Run<!V> = Run(states: seq<R.State<V>>, steps: seq<R.Step<V>>, times: seq<nat>, posts: (nat, nat) -> nat, horizon: nat)

  ghost predicate Shaped<V>(n: nat, run: Run<V>) {
    && |run.states| == |run.steps| + 1 && |run.times| == |run.steps|
    && (forall i :: 0 <= i < |run.states| ==> |run.states[i].hosts| == n)
    && (forall i :: 0 <= i < |run.times| ==> 2 < run.times[i] < run.horizon)
    && (forall i, j :: 0 <= i < j < |run.times| ==> run.times[i] < run.times[j])
    && 2 < run.horizon
  }

  // ---------- Histories ----------

  /** The two writes that initialize a register. */
  function Initial<V>(zero: V): History<V> {
    [Write(1, zero, 0, 1), Write(2, zero, 1, 2)]
  }

  predicate Posts<V>(a: R.Host<V>, b: R.Host<V>) {
    a.flying.None? && b.flying.Some?
  }

  predicate Lands<V>(a: R.Host<V>, b: R.Host<V>) {
    a.flying.Some? && b.flying.None?
  }

  /** The writes to host h in the first i steps. */
  ghost function HistoryOf<V>(n: nat, zero: V, run: Run<V>, h: nat, i: nat): (r: History<V>)
    requires Shaped(n, run) && h < n && i < |run.states|
    ensures |r| >= 2
  {
    if i == 0 then Initial(zero)
    else
      var prev := HistoryOf(n, zero, run, h, i - 1);
      var a, b := run.states[i - 1].hosts[h], run.states[i].hosts[h];
      if Posts(a, b) then prev + [Write(b.flying.value + 2, run.states[i].buffer, run.posts(h, i - 1), run.horizon)]
      else if Lands(a, b) then prev[|prev| - 1 := prev[|prev| - 1].(done := run.times[i - 1])]
      else prev
  }

  ghost function FullHistory<V>(n: nat, zero: V, run: Run<V>, h: nat): History<V>
    requires Shaped(n, run) && h < n
  {
    HistoryOf(n, zero, run, h, |run.steps|)
  }

  // ---------- Timed runs ----------

  /** What host h is found to hold for job j at step i: a read of its register from start to end,
      repeated or not, since the host was asked at step i0. */
  ghost predicate Found<V>(n: nat, zero: V, cooldown: nat, run: Run<V>, i0: nat, i: nat, j: nat, h: nat, found: nat, value: V,
                           start: nat, end: nat, copies: seq<Copy>)
    requires Shaped(n, run) && h < n && i0 < i < |run.steps|
  {
    var full := FullHistory(n, zero, run, h);
    && run.steps[i0] == R.ReadHost(j, h) && run.times[i0] <= start < end <= run.times[i]
    && (end - start <= cooldown || !TwoOverlap(full, start, end))
    && MayRead(full, start, end, copies)
    && Best(copies).Some? && Best(copies).value < |full|
    && full[Best(copies).value].incarnation == found + 2 && full[Best(copies).value].value == value
  }

  ghost predicate Returns<V>(n: nat, zero: V, cooldown: nat, run: Run<V>, i: nat, j: nat, h: nat, found: nat, value: V)
    requires Shaped(n, run) && h < n && i < |run.steps|
  {
    exists i0: nat, start: nat, end: nat, copies :: i0 < i && Found(n, zero, cooldown, run, i0, i, j, h, found, value, start, end, copies)
  }

  /** Steps are those of the protocol, but for what a host returns. */
  ghost predicate TimedNext<V(!new)>(n: nat, zero: V, cooldown: nat, run: Run<V>, i: nat)
    requires Shaped(n, run) && i < |run.steps|
  {
    var s, s' := run.states[i], run.states[i + 1];
    match run.steps[i]
    case Return(j, h, found) =>
      && j < |s.jobs| && h < n && h in s.jobs[j].begun && h !in s.jobs[j].polled
      && exists value :: Returns(n, zero, cooldown, run, i, j, h, found, value)
                         && s' == s.(jobs := s.jobs[j := s.jobs[j].(polled := s.jobs[j].polled[h := (found, value)])])
    case _ => R.Next(s, run.steps[i], s')
  }

  /** A write taken by a host is posted once the cooldown after the previous one is over, and
      completes after that. */
  ghost predicate CoolsDown<V>(n: nat, zero: V, cooldown: nat, run: Run<V>, i: nat, h: nat)
    requires Shaped(n, run) && i < |run.steps| && h < n
  {
    var a, b, prev := run.states[i].hosts[h], run.states[i + 1].hosts[h], HistoryOf(n, zero, run, h, i);
    var last := prev[|prev| - 1];
    && (Posts(a, b) ==> run.times[i] <= run.posts(h, i) < run.horizon && (|prev| > 2 ==> last.done + cooldown <= run.posts(h, i)))
    && (Lands(a, b) ==> last.posted < run.times[i])
  }

  ghost predicate IsTimedRun<V(!new)>(n: nat, zero: V, cooldown: nat, run: Run<V>) {
    && Shaped(n, run)
    && R.Init(n, zero, run.states[0])
    && (forall i :: 0 <= i < |run.steps| ==> TimedNext(n, zero, cooldown, run, i))
    && forall i: nat, h: nat :: i < |run.steps| && h < n ==> CoolsDown(n, zero, cooldown, run, i, h)
  }

  // ---------- Histories record the hosts ----------

  /** The time reached after i steps. */
  ghost function Now<V>(run: Run<V>, i: nat): nat
    requires i <= |run.times|
  {
    if i == 0 then 2 else run.times[i - 1]
  }

  ghost predicate Records<V>(cooldown: nat, horizon: nat, now: nat, host: R.Host<V>, hist: History<V>) {
    && WellFormed(hist, cooldown)
    && (forall k :: 1 <= k < |hist| ==> Holds(host, hist[k]))
    && (forall k :: 0 <= k < |hist| - 1 ==> hist[k].done <= now)
    && var last := hist[|hist| - 1];
       if host.flying.Some? then
         && |hist| > 2 && last.done == horizon && last.incarnation == host.flying.value + 2 && hist[|hist| - 2].incarnation == host.stored + 2
       else last.done <= now && last.incarnation == host.stored + 2
  }

  lemma RecordsStart<V>(cooldown: nat, horizon: nat, zero: V)
    ensures Records(cooldown, horizon, 2, R.Host(map[0 := zero], 0, None, false), Initial(zero))
  {}

  lemma RecordsPost<V>(cooldown: nat, horizon: nat, now: nat, time: nat, posted: nat, a: R.Host<V>, b: R.Host<V>, hist: History<V>, value: V)
    requires Records(cooldown, horizon, now, a, hist) && now < time <= posted < horizon && Posts(a, b)
    requires |hist| > 2 ==> hist[|hist| - 1].done + cooldown <= posted
    requires b.stored == a.stored < b.flying.value && b.posted == a.posted[b.flying.value := value]
    ensures Records(cooldown, horizon, time, b, hist + [Write(b.flying.value + 2, value, posted, horizon)])
  {
    var hist' := hist + [Write(b.flying.value + 2, value, posted, horizon)];
    forall i: nat | i + 1 < |hist'| ensures Spaced(hist', cooldown, i) {
      if i + 1 < |hist| {
        assert Spaced(hist, cooldown, i);
      }
    }
    forall k | 1 <= k < |hist'| ensures Holds(b, hist'[k]) {
      if k < |hist| {
        assert Holds(a, hist[k]);
        if k < |hist| - 1 {
          Later(hist, cooldown, k, |hist| - 1);
        }
      }
    }
  }

  lemma RecordsLand<V>(cooldown: nat, horizon: nat, now: nat, time: nat, a: R.Host<V>, b: R.Host<V>, hist: History<V>)
    requires Records(cooldown, horizon, now, a, hist) && now < time < horizon && Lands(a, b) && hist[|hist| - 1].posted < time
    requires b.stored == a.flying.value && b.posted == a.posted
    ensures Records(cooldown, horizon, time, b, hist[|hist| - 1 := hist[|hist| - 1].(done := time)])
  {
    var last := |hist| - 1;
    var hist' := hist[last := hist[last].(done := time)];
    forall i: nat | i + 1 < |hist'| ensures Spaced(hist', cooldown, i) {
      assert Spaced(hist, cooldown, i);
    }
    forall k | 1 <= k < |hist'| ensures Holds(b, hist'[k]) {
      assert Holds(a, hist[k]);
    }
  }

  lemma RecordsStay<V>(cooldown: nat, horizon: nat, now: nat, time: nat, a: R.Host<V>, b: R.Host<V>, hist: History<V>)
    requires Records(cooldown, horizon, now, a, hist) && now < time && b.posted == a.posted && b.stored == a.stored && b.flying == a.flying
    ensures Records(cooldown, horizon, time, b, hist)
  {
    forall k | 1 <= k < |hist| ensures Holds(b, hist[k]) {
      assert Holds(a, hist[k]);
    }
  }

  /** What a step of the protocol does to one host. */
  ghost predicate HostSteps<V>(a: R.Host<V>, b: R.Host<V>, value: V) {
    || (Posts(a, b) && b.stored == a.stored < b.flying.value && b.posted == a.posted[b.flying.value := value])
    || (Lands(a, b) && b.stored == a.flying.value && b.posted == a.posted)
    || (b.posted == a.posted && b.stored == a.stored && b.flying == a.flying)
  }

  /** The writer and the hosts, without the reads. */
  function Bare<V>(s: R.State<V>): R.State<V> { s.(jobs := []) }

  lemma BareKeeps<V(!new)>(n: nat, zero: V, cooldown: nat, run: Run<V>, i: nat)
    requires Shaped(n, run) && i < |run.steps| && TimedNext(n, zero, cooldown, run, i) && R.Inv(n, Bare(run.states[i]))
    ensures R.Inv(n, Bare(run.states[i + 1]))
  {
    hide R.Inv, Returns;
    var s, step, s' := run.states[i], run.steps[i], run.states[i + 1];
    if step.Write? || step.Land? || step.Push? || step.Complete? {
      assert R.Next(Bare(s), step, Bare(s'));
      R.StepKeeps(n, Bare(s), step, Bare(s'));
    } else {
      assert Bare(s') == Bare(s);
    }
  }

  lemma StepsHost<V(!new)>(n: nat, zero: V, cooldown: nat, run: Run<V>, i: nat, h: nat)
    requires Shaped(n, run) && i < |run.steps| && TimedNext(n, zero, cooldown, run, i) && R.Inv(n, Bare(run.states[i])) && h < n
    ensures HostSteps(run.states[i].hosts[h], run.states[i + 1].hosts[h], run.states[i + 1].buffer)
  {
    hide R.JobOk, R.Holding, Returns;
    var s := run.states[i];
    assert R.HostOk(s.incarnation, s.values, s.hosts[h]);
  }

  ghost predicate RecordsAll<V>(n: nat, zero: V, cooldown: nat, run: Run<V>, i: nat)
    requires Shaped(n, run) && i < |run.states|
  {
    forall h: nat :: h < n ==> Records(cooldown, run.horizon, Now(run, i), run.states[i].hosts[h], HistoryOf(n, zero, run, h, i))
  }

  lemma StepRecords<V>(n: nat, zero: V, cooldown: nat, run: Run<V>, i: nat, h: nat)
    requires Shaped(n, run) && i < |run.steps| && h < n && CoolsDown(n, zero, cooldown, run, i, h)
    requires HostSteps(run.states[i].hosts[h], run.states[i + 1].hosts[h], run.states[i + 1].buffer)
    requires Records(cooldown, run.horizon, Now(run, i), run.states[i].hosts[h], HistoryOf(n, zero, run, h, i))
    ensures Records(cooldown, run.horizon, Now(run, i + 1), run.states[i + 1].hosts[h], HistoryOf(n, zero, run, h, i + 1))
  {
    hide Records;
    var a, b, hist := run.states[i].hosts[h], run.states[i + 1].hosts[h], HistoryOf(n, zero, run, h, i);
    var now, time := Now(run, i), run.times[i];
    if Posts(a, b) {
      RecordsPost(cooldown, run.horizon, now, time, run.posts(h, i), a, b, hist, run.states[i + 1].buffer);
    } else if Lands(a, b) {
      RecordsLand(cooldown, run.horizon, now, time, a, b, hist);
    } else {
      RecordsStay(cooldown, run.horizon, now, time, a, b, hist);
    }
  }

  lemma {:induction false} RunRecords<V(!new)>(n: nat, zero: V, cooldown: nat, run: Run<V>, i: nat)
    requires IsTimedRun(n, zero, cooldown, run) && i < |run.states|
    ensures R.Inv(n, Bare(run.states[i])) && RecordsAll(n, zero, cooldown, run, i)
  {
    hide R.Inv, Records, HostSteps, TimedNext, CoolsDown;
    if i == 0 {
      R.InitHolds(n, zero, run.states[0]);
      RecordsStart(cooldown, run.horizon, zero);
    } else {
      RunRecords(n, zero, cooldown, run, i - 1);
      BareKeeps(n, zero, cooldown, run, i - 1);
      forall h: nat | h < n
        ensures Records(cooldown, run.horizon, Now(run, i), run.states[i].hosts[h], HistoryOf(n, zero, run, h, i))
      {
        StepsHost(n, zero, cooldown, run, i - 1, h);
        StepRecords(n, zero, cooldown, run, i - 1, h);
      }
    }
  }

  // ---------- The histories at the end ----------

  /** What a history recorded by now becomes: complete writes stay, others complete later, and
      what is posted comes after now. */
  ghost predicate Becomes<V>(now: nat, a: History<V>, b: History<V>) {
    && |a| <= |b|
    && (forall k :: 0 <= k < |a| ==> b[k].(done := 0) == a[k].(done := 0))
    && (forall k :: 0 <= k < |a| && a[k].done <= now ==> b[k].done == a[k].done)
    && (forall k :: 0 <= k < |a| && now < a[k].done ==> now < b[k].done)
    && (forall k :: |a| <= k < |b| ==> now < b[k].posted)
  }

  /** How a history goes on at this time. */
  ghost predicate GoesOn<V>(now: nat, time: nat, b: History<V>, c: History<V>) {
    || c == b
    || (|c| == |b| + 1 && c[..|b|] == b && time <= c[|b|].posted)
    || (|b| > 0 && now < b[|b| - 1].done && c == b[|b| - 1 := b[|b| - 1].(done := time)])
  }

  lemma BecomesOn<V>(start: nat, now: nat, time: nat, a: History<V>, b: History<V>, c: History<V>)
    requires Becomes(start, a, b) && start <= now < time && GoesOn(now, time, b, c)
    ensures Becomes(start, a, c)
  {}

  lemma HistoryGoesOn<V>(n: nat, zero: V, cooldown: nat, run: Run<V>, h: nat, i: nat)
    requires Shaped(n, run) && h < n && i < |run.steps| && CoolsDown(n, zero, cooldown, run, i, h)
    requires Records(cooldown, run.horizon, Now(run, i), run.states[i].hosts[h], HistoryOf(n, zero, run, h, i))
    ensures GoesOn(Now(run, i), run.times[i], HistoryOf(n, zero, run, h, i), HistoryOf(n, zero, run, h, i + 1))
  {
    hide WellFormed, Holds;
  }

  lemma {:induction false} HistoryBecomes<V(!new)>(n: nat, zero: V, cooldown: nat, run: Run<V>, h: nat, i: nat, m: nat)
    requires IsTimedRun(n, zero, cooldown, run) && h < n && i <= m < |run.states|
    ensures Becomes(Now(run, i), HistoryOf(n, zero, run, h, i), HistoryOf(n, zero, run, h, m))
    decreases m
  {
    hide TimedNext, CoolsDown, Records, GoesOn, R.Inv, R.Init;
    if i == m {
      hide HistoryOf;
    } else {
      HistoryBecomes(n, zero, cooldown, run, h, i, m - 1);
      RunRecords(n, zero, cooldown, run, m - 1);
      HistoryGoesOn(n, zero, cooldown, run, h, m - 1);
      hide Becomes, HistoryOf;
      BecomesOn(Now(run, i), Now(run, m - 1), run.times[m - 1], HistoryOf(n, zero, run, h, i),
                HistoryOf(n, zero, run, h, m - 1), HistoryOf(n, zero, run, h, m));
    }
  }

  // ---------- What a host returns ----------

  lemma SameHosts<V(!new)>(n: nat, zero: V, cooldown: nat, run: Run<V>, i: nat, h: nat)
    requires Shaped(n, run) && i < |run.steps| && h < n && TimedNext(n, zero, cooldown, run, i)
    requires run.steps[i].ReadHost? || run.steps[i].Return?
    ensures run.states[i + 1].hosts == run.states[i].hosts
    ensures HistoryOf(n, zero, run, h, i + 1) == HistoryOf(n, zero, run, h, i)
  {
    hide Returns;
  }

  /** At a read step: what is recorded by then, and the history it becomes. */
  lemma AtRead<V(!new)>(n: nat, zero: V, cooldown: nat, run: Run<V>, i: nat, h: nat)
    requires IsTimedRun(n, zero, cooldown, run) && i < |run.steps| && (run.steps[i].ReadHost? || run.steps[i].Return?) && h < n
    ensures Records(cooldown, run.horizon, run.times[i], run.states[i].hosts[h], HistoryOf(n, zero, run, h, i))
    ensures Becomes(run.times[i], HistoryOf(n, zero, run, h, i), FullHistory(n, zero, run, h))
  {
    hide TimedNext, CoolsDown, Records, Becomes, R.Inv, R.Init;
    SameHosts(n, zero, cooldown, run, i, h);
    RunRecords(n, zero, cooldown, run, i + 1);
    HistoryBecomes(n, zero, cooldown, run, h, i + 1, |run.steps|);
    hide HistoryOf;
  }

  lemma FullWellFormed<V(!new)>(n: nat, zero: V, cooldown: nat, run: Run<V>, h: nat)
    requires IsTimedRun(n, zero, cooldown, run) && h < n
    ensures WellFormed(FullHistory(n, zero, run, h), cooldown) && FullHistory(n, zero, run, h)[1].done == 2
  {
    var full, end := FullHistory(n, zero, run, h), |run.steps|;
    RunRecords(n, zero, cooldown, run, end);
    HistoryBecomes(n, zero, cooldown, run, h, 0, end);
    assert HistoryOf(n, zero, run, h, 0) == Initial(zero);
    hide TimedNext, CoolsDown, R.Inv, R.Init, Holds, HistoryOf, IsTimedRun, WellFormed;
    assert Records(cooldown, run.horizon, Now(run, end), run.states[end].hosts[h], full);
  }

  lemma LastComplete<V>(cooldown: nat, horizon: nat, now: nat, host: R.Host<V>, hist: History<V>, full: History<V>) returns (k: nat)
    requires Records(cooldown, horizon, now, host, hist) && Becomes(now, hist, full) && WellFormed(full, cooldown) && now < horizon
    ensures StoredAt(full, now, k, host.stored)
  {
    k := if host.flying.Some? then |hist| - 2 else |hist| - 1;
    hide Holds;
    forall i: nat | k < i < |full| ensures !Before(full, i, now) {}
  }

  /** What the protocol takes for stored when the read starts is the last complete write. */
  lemma ReadStarts<V(!new)>(n: nat, zero: V, cooldown: nat, run: Run<V>, i: nat, j: nat, h: nat) returns (k: nat)
    requires IsTimedRun(n, zero, cooldown, run) && i < |run.steps| && run.steps[i] == R.ReadHost(j, h) && h < n
    ensures StoredAt(FullHistory(n, zero, run, h), run.times[i], k, run.states[i].hosts[h].stored)
  {
    hide TimedNext, CoolsDown, HistoryOf, Records, Becomes, FullHistory, WellFormed, StoredAt;
    AtRead(n, zero, cooldown, run, i, h);
    FullWellFormed(n, zero, cooldown, run, h);
    k := LastComplete(cooldown, run.horizon, run.times[i], run.states[i].hosts[h], HistoryOf(n, zero, run, h, i), FullHistory(n, zero, run, h));
  }

  lemma PostedHold<V>(cooldown: nat, horizon: nat, now: nat, host: R.Host<V>, hist: History<V>, full: History<V>)
    requires Records(cooldown, horizon, now, host, hist) && Becomes(now, hist, full)
    ensures PostedBy(full, now, host)
  {
    forall k: nat | 1 <= k < |full| && full[k].posted < now ensures Holds(host, full[k]) {
      assert k < |hist|;
      assert Holds(host, hist[k]) && full[k].(done := 0) == hist[k].(done := 0);
    }
  }

  /** All that was posted before the read ends is at the host. */
  lemma ReadEnds<V(!new)>(n: nat, zero: V, cooldown: nat, run: Run<V>, i: nat, h: nat)
    requires IsTimedRun(n, zero, cooldown, run) && i < |run.steps| && run.steps[i].Return? && h < n
    ensures PostedBy(FullHistory(n, zero, run, h), run.times[i], run.states[i].hosts[h])
  {
    hide TimedNext, CoolsDown, HistoryOf, Records, Becomes, FullHistory, PostedBy;
    AtRead(n, zero, cooldown, run, i, h);
    PostedHold(cooldown, run.horizon, run.times[i], run.states[i].hosts[h], HistoryOf(n, zero, run, h, i), FullHistory(n, zero, run, h));
  }

  lemma {:induction false} BegunStays<V(!new)>(n: nat, zero: V, cooldown: nat, run: Run<V>, i0: nat, i: nat, j: nat, h: nat)
    requires IsTimedRun(n, zero, cooldown, run) && i0 < i < |run.states| && run.steps[i0] == R.ReadHost(j, h)
    ensures h < n && j < |run.states[i].jobs| && h in run.states[i].jobs[j].begun
    ensures run.states[i].jobs[j].begun[h] == run.states[i0].hosts[h].stored
    decreases i
  {
    hide Returns, CoolsDown, R.Highest;
    assert TimedNext(n, zero, cooldown, run, i - 1);
    if i0 < i - 1 {
      BegunStays(n, zero, cooldown, run, i0, i - 1, j, h);
    }
  }

  /** A read that starts later, and ends earlier, returns what the protocol lets the host return. */
  lemma LaterReadReturns<V>(h: History<V>, cooldown: nat, asked: nat, start: nat, end: nat, now: nat, copies: seq<Copy>, k: nat,
                            stored: nat, host: R.Host<V>)
    requires WellFormed(h, cooldown) && h[1].done <= asked <= start < end <= now && (end - start <= cooldown || !TwoOverlap(h, start, end))
    requires StoredAt(h, asked, k, stored) && PostedBy(h, now, host) && MayRead(h, start, end, copies)
    ensures MayReturn(h, stored, host, copies)
  {
    hide TwoOverlap, Holds;
    if end - start <= cooldown {
      ShortOverlap(h, cooldown, start, end);
    }
    var last := LastExists(h, cooldown, start, |h|);
    assert Before(h, k, start);
    if k < last {
      Later(h, cooldown, k, last);
    }
    if 1 < last {
      Later(h, cooldown, 1, last);
    }
    SafeReadReturns(h, cooldown, start, end, copies, last, h[last].incarnation - 2, host);
  }

  /** The protocol lets a host return what a read of its register finds. */
  lemma ReturnsWithin<V(!new)>(n: nat, zero: V, cooldown: nat, run: Run<V>, i: nat, j: nat, h: nat, found: nat, value: V)
    requires IsTimedRun(n, zero, cooldown, run) && i < |run.steps| && run.steps[i] == R.Return(j, h, found) && h < n
    requires j < |run.states[i].jobs| && h in run.states[i].jobs[j].begun && Returns(n, zero, cooldown, run, i, j, h, found, value)
    ensures var host := run.states[i].hosts[h];
            found in host.posted && host.posted[found] == value && run.states[i].jobs[j].begun[h] <= found
  {
    hide TimedNext, CoolsDown, FullHistory, WellFormed, TwoOverlap, MayRead, StoredAt, PostedBy, R.Init;
    var i0: nat, start: nat, end: nat, copies :| i0 < i && Found(n, zero, cooldown, run, i0, i, j, h, found, value, start, end, copies);
    var full, host := FullHistory(n, zero, run, h), run.states[i].hosts[h];
    BegunStays(n, zero, cooldown, run, i0, i, j, h);
    FullWellFormed(n, zero, cooldown, run, h);
    var k := ReadStarts(n, zero, cooldown, run, i0, j, h);
    ReadEnds(n, zero, cooldown, run, i, h);
    LaterReadReturns(full, cooldown, run.times[i0], start, end, run.times[i], copies, k, run.states[i0].hosts[h].stored, host);
  }

  /** With a writer that obeys the cooldown, hosts whose reads last no longer, or meet one write at
      most, let the replicated register take the steps of its protocol only. */
  lemma TimedRunsAreRuns<V(!new)>(n: nat, zero: V, cooldown: nat, run: Run<V>)
    requires IsTimedRun(n, zero, cooldown, run)
    ensures R.IsRun(n, zero, run.states, run.steps)
  {
    hide R.Init, CoolsDown, Returns;
    forall i | 0 <= i < |run.steps| ensures R.Next(run.states[i], run.steps[i], run.states[i + 1]) {
      assert TimedNext(n, zero, cooldown, run, i);
      match run.steps[i]
      case Return(j, h, found) =>
        var s, s' := run.states[i], run.states[i + 1];
        var value :| Returns(n, zero, cooldown, run, i, j, h, found, value)
                     && s' == s.(jobs := s.jobs[j := s.jobs[j].(polled := s.jobs[j].polled[h := (found, value)])]);
        ReturnsWithin(n, zero, cooldown, run, i, j, h, found, value);
      case _ =>
    }
  }

  /** So a read of an odd number of such hosts returns an incarnation no older than the last one
      complete when it began, with the value written under it. */
  lemma TimedRunsAreRegular<V(!new)>(n: nat, zero: V, cooldown: nat, run: Run<V>, i: nat, j: nat)
    requires n % 2 == 1 && IsTimedRun(n, zero, cooldown, run) && i < |run.states|
    requires j < |run.states[i].jobs| && run.states[i].jobs[j].result.Some?
    ensures var job := run.states[i].jobs[j];
            job.floor <= job.result.value.0 && job.result.value.0 in run.states[i].values &&
            run.states[i].values[job.result.value.0] == job.result.value.1
  {
    TimedRunsAreRuns(n, zero, cooldown, run);
    R.RunsAreRegular(n, zero, run.states, run.steps, i, j);
  }
}
