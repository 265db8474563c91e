/** A register replicated over n hosts, each of them a regular single-writer register. A
    write is complete at (n + 1) / 2 hosts, a read returns the highest incarnation of
    (n + 1) / 2 hosts; slow hosts keep a pending write that later writes supersede. */
module ReplicatedRegister {
  import opened Options
  import opened Quorums

  function Quorum(n: nat): nat { (n + 1) / 2 }

  /** One host: everything posted to it, the incarnation it completed last, the one under
      way, and whether the latest write still waits for its turn. */
  datatype Host<V> = Host(posted: map<nat, V>, stored: nat, flying: Option<nat>, pending: bool)

  /** One read: the last incarnation complete when it began, the hosts it began to read
      (and what they had stored then), what the hosts returned, and the result. */
  datatype Job<V> = Job(floor: nat, begun: map<nat, nat>, polled: map<nat, (nat, V)>, result: Option<(nat, V)>)

  /** The writer's register, the hosts and the reads; `values` and `complete` are history:
      what was written under each incarnation, and the last complete one. */
  datatype State<V> = State(incarnation: nat, buffer: V, outstanding: bool, hosts: seq<Host<V>>, jobs: seq<Job<V>>,
                            values: map<nat, V>, complete: nat)

  datatype Step<V> =
    | Write(incarnation: nat, value: V)
    | Land(h: nat)
    | Push(h: nat)
    | Complete
    | Begin
    | ReadHost(j: nat, h: nat)
    | Return(j: nat, h: nat, found: nat)
    | Finish(j: nat, r: (nat, V))

  /** `pushToWriter`: the buffer is copied to a host whose slot is free. */
  function Pushed<V>(host: Host<V>, incarnation: nat, buffer: V): Host<V> {
    if host.pending && host.flying.None? then Host(host.posted[incarnation := buffer], host.stored, Some(incarnation), false) else host
  }

  function Done<V>(host: Host<V>): bool { !host.pending && host.flying.None? }

  function DoneHosts<V>(hosts: seq<Host<V>>): set<nat> {
    set h: nat | h in Group(|hosts|) && Done(hosts[h])
  }

  ghost predicate Init<V>(n: nat, zero: V, s: State<V>) {
    s == State(0, zero, false, seq(n, _ => Host(map[0 := zero], 0, None, false)), [], map[0 := zero], 0)
  }

  /** The highest incarnation of a read. */
  ghost predicate Highest<V>(polled: map<nat, (nat, V)>, r: (nat, V)) {
    (exists h :: h in polled && polled[h] == r) && forall h :: h in polled ==> polled[h].0 <= r.0
  }

  ghost predicate Next<V>(s: State<V>, step: Step<V>, s': State<V>) {
    match step
    case Write(incarnation, value) =>
      && !s.outstanding && s.incarnation < incarnation
      && s' == s.(incarnation := incarnation, buffer := value, outstanding := true, values := s.values[incarnation := value],
                  hosts := seq(|s.hosts|, h requires 0 <= h < |s.hosts| => Pushed(s.hosts[h].(pending := true), incarnation, value)))
    case Land(h) =>
      && h < |s.hosts| && s.hosts[h].flying.Some?
      && s' == s.(hosts := s.hosts[h := s.hosts[h].(stored := s.hosts[h].flying.value, flying := None)])
    case Push(h) =>
      && h < |s.hosts|
      && s' == s.(hosts := s.hosts[h := Pushed(s.hosts[h], s.incarnation, s.buffer)])
    case Complete =>
      && s.outstanding && |DoneHosts(s.hosts)| >= Quorum(|s.hosts|)
      && s' == s.(outstanding := false, complete := s.incarnation)
    case Begin =>
      s' == s.(jobs := s.jobs + [Job(s.complete, map[], map[], None)])
    case ReadHost(j, h) =>
      && j < |s.jobs| && h < |s.hosts| && h !in s.jobs[j].begun
      && s' == s.(jobs := s.jobs[j := s.jobs[j].(begun := s.jobs[j].begun[h := s.hosts[h].stored])])
    case Return(j, h, found) =>
      && j < |s.jobs| && h < |s.hosts| && h in s.jobs[j].begun && h !in s.jobs[j].polled
      && found in s.hosts[h].posted && s.jobs[j].begun[h] <= found
      && s' == s.(jobs := s.jobs[j := s.jobs[j].(polled := s.jobs[j].polled[h := (found, s.hosts[h].posted[found])])])
    case Finish(j, r) =>
      && j < |s.jobs| && s.jobs[j].result.None? && |s.jobs[j].polled| >= Quorum(|s.hosts|)
      && Highest(s.jobs[j].polled, r) && s' == s.(jobs := s.jobs[j := s.jobs[j].(result := Some(r))])
  }

  ghost predicate IsRun<V>(n: nat, zero: V, states: seq<State<V>>, steps: seq<Step<V>>) {
    && |states| == |steps| + 1
    && Init(n, zero, states[0])
    && forall i :: 0 <= i < |steps| ==> Next(states[i], steps[i], states[i + 1])
  }

  // ---------- What every step keeps ----------

  /** A host holds what was written, no newer than the latest write; one that is done holds
      the latest. */
  ghost predicate HostOk<V>(incarnation: nat, values: map<nat, V>, host: Host<V>) {
    && host.stored in host.posted && host.stored <= incarnation
    && (host.flying.Some? ==> host.flying.value in host.posted && host.stored < host.flying.value <= incarnation)
    && (forall x :: x in host.posted ==> x in values && values[x] == host.posted[x])
    && (Done(host) ==> host.stored == incarnation)
    && (host.pending && host.flying.Some? ==> host.flying.value < incarnation)
    && (host.pending && host.flying.None? ==> host.stored < incarnation)
    && (!host.pending && host.flying.Some? ==> host.flying.value == incarnation)
  }

  lemma HostWritten<V>(incarnation: nat, values: map<nat, V>, host: Host<V>, next: nat, value: V)
    requires HostOk(incarnation, values, host) && incarnation < next && forall x :: x in values ==> x <= incarnation
    ensures HostOk(next, values[next := value], Pushed(host.(pending := true), next, value))
  {}

  lemma HostLanded<V>(incarnation: nat, values: map<nat, V>, host: Host<V>)
    requires HostOk(incarnation, values, host) && host.flying.Some?
    ensures HostOk(incarnation, values, host.(stored := host.flying.value, flying := None))
  {}

  lemma HostPushed<V>(incarnation: nat, values: map<nat, V>, host: Host<V>)
    requires HostOk(incarnation, values, host) && incarnation in values
    ensures HostOk(incarnation, values, Pushed(host, incarnation, values[incarnation]))
  {}

  /** The hosts at which a read that is to return at least x will find it. */
  function Holding<V>(hosts: seq<Host<V>>, begun: map<nat, nat>, x: nat): set<nat> {
    set h: nat | h in Group(|hosts|) && (if h in begun then x <= begun[h] else x <= hosts[h].stored)
  }

  ghost predicate JobOk<V>(n: nat, s: State<V>, job: Job<V>) {
    && |Holding(s.hosts, job.begun, job.floor)| >= Quorum(n)
    && (forall h :: h in job.begun ==> h < n)
    && (forall h :: h in job.polled ==> h in job.begun && PolledOk(s, job, h))
    && (job.result.Some? ==> ResultOk(n, s, job))
  }

  ghost predicate PolledOk<V>(s: State<V>, job: Job<V>, h: nat)
    requires h in job.polled && h in job.begun
  {
    job.begun[h] <= job.polled[h].0 && job.polled[h].0 in s.values && s.values[job.polled[h].0] == job.polled[h].1
  }

  ghost predicate ResultOk<V>(n: nat, s: State<V>, job: Job<V>)
    requires job.result.Some?
  {
    && job.result.value.0 in s.values && s.values[job.result.value.0] == job.result.value.1
    && (n % 2 == 1 ==> job.floor <= job.result.value.0)
  }

  ghost predicate Inv<V>(n: nat, s: State<V>) {
    && |s.hosts| == n && s.complete <= s.incarnation
    && s.incarnation in s.values && s.values[s.incarnation] == s.buffer
    && (forall x :: x in s.values ==> x <= s.incarnation)
    && (forall h: nat :: h < n ==> HostOk(s.incarnation, s.values, s.hosts[h]))
    && |Holding(s.hosts, map[], s.complete)| >= Quorum(n)
    && (forall j: nat :: j < |s.jobs| ==> JobOk(n, s, s.jobs[j]))
  }

  /** Hosts only gain. */
  ghost predicate Gains<V>(a: seq<Host<V>>, b: seq<Host<V>>) {
    |a| == |b| && forall h: nat :: h < |a| ==> a[h].stored <= b[h].stored
  }

  lemma HoldingGrows<V>(a: seq<Host<V>>, b: seq<Host<V>>, begun: map<nat, nat>, x: nat)
    requires Gains(a, b)
    ensures |Holding(a, begun, x)| <= |Holding(b, begun, x)|
  {
    SubsetSize(Holding(a, begun, x), Holding(b, begun, x));
  }

  lemma JobGrows<V>(n: nat, s: State<V>, s': State<V>, job: Job<V>)
    requires JobOk(n, s, job) && Gains(s.hosts, s'.hosts)
    requires forall x :: x in s.values ==> x in s'.values && s'.values[x] == s.values[x]
    ensures JobOk(n, s', job)
  {
    HoldingGrows(s.hosts, s'.hosts, job.begun, job.floor);
    hide Holding, Gains;
  }

  /** Every host that is done holds the latest write. */
  lemma DoneHold<V>(n: nat, s: State<V>)
    requires |s.hosts| == n && forall h: nat :: h < n ==> HostOk(s.incarnation, s.values, s.hosts[h])
    ensures |DoneHosts(s.hosts)| <= |Holding(s.hosts, map[], s.incarnation)|
  {
    assert DoneHosts(s.hosts) <= Holding(s.hosts, map[], s.incarnation);
    SubsetSize(DoneHosts(s.hosts), Holding(s.hosts, map[], s.incarnation));
  }

  /** What a step at the hosts keeps, given that it keeps every host. */
  lemma HostsKeep<V>(n: nat, s: State<V>, s': State<V>)
    requires Inv(n, s) && Gains(s.hosts, s'.hosts) && s'.jobs == s.jobs && s'.complete == s.complete
    requires s.incarnation <= s'.incarnation && s'.incarnation in s'.values && s'.values[s'.incarnation] == s'.buffer
    requires forall x :: x in s'.values ==> x <= s'.incarnation
    requires forall x :: x in s.values ==> x in s'.values && s'.values[x] == s.values[x]
    requires forall h: nat :: h < n ==> HostOk(s'.incarnation, s'.values, s'.hosts[h])
    ensures Inv(n, s')
  {
    HoldingGrows(s.hosts, s'.hosts, map[], s.complete);
    hide Holding, HostOk, JobOk;
    forall j: nat | j < |s'.jobs| ensures JobOk(n, s', s'.jobs[j]) {
      JobGrows(n, s, s', s.jobs[j]);
    }
    hide Gains;
  }

  lemma WriteKeeps<V>(n: nat, s: State<V>, step: Step<V>, s': State<V>)
    requires Inv(n, s) && Next(s, step, s') && (step.Write? || step.Land? || step.Push?)
    ensures Inv(n, s')
  {
    hide Holding, JobOk;
    forall h: nat | h < n ensures HostOk(s'.incarnation, s'.values, s'.hosts[h]) {
      assert HostOk(s.incarnation, s.values, s.hosts[h]);
      match step
      case Write(incarnation, value) => HostWritten(s.incarnation, s.values, s.hosts[h], incarnation, value);
      case Land(_) => if h == step.h { HostLanded(s.incarnation, s.values, s.hosts[h]); }
      case Push(_) => if h == step.h { HostPushed(s.incarnation, s.values, s.hosts[h]); }
    }
    assert Gains(s.hosts, s'.hosts) by {
      if step.Land? {
        assert HostOk(s.incarnation, s.values, s.hosts[step.h]);
      }
    }
    hide HostOk, Gains, Inv;
    HostsKeep(n, s, s');
  }

  lemma CompleteKeeps<V>(n: nat, s: State<V>, s': State<V>)
    requires Inv(n, s) && Next(s, Step<V>.Complete, s')
    ensures Inv(n, s')
  {
    DoneHold(n, s);
    hide Holding, HostOk;
    forall j: nat | j < |s'.jobs| ensures JobOk(n, s', s'.jobs[j]) {
      assert JobOk(n, s, s.jobs[j]);
    }
  }

  /** A read that returned from a quorum of an odd number of hosts met one that holds. */
  lemma QuorumsMeet<V>(n: nat, s: State<V>, job: Job<V>) returns (h: nat)
    requires n % 2 == 1 && |s.hosts| == n && JobOk(n, s, job) && |job.polled| >= Quorum(n)
    ensures h in job.polled && job.floor <= job.polled[h].0
  {
    var holding := Holding(s.hosts, job.begun, job.floor);
    assert job.polled.Keys <= Group(n);
    assert |job.polled.Keys| == |job.polled|;
    h := Intersect(n, holding, job.polled.Keys);
  }

  lemma HostBegun<V>(n: nat, s: State<V>, job: Job<V>, h: nat)
    requires JobOk(n, s, job) && |s.hosts| == n && h < n && h !in job.begun
    ensures JobOk(n, s, job.(begun := job.begun[h := s.hosts[h].stored]))
  {
    var begun := job.begun[h := s.hosts[h].stored];
    assert Holding(s.hosts, begun, job.floor) == Holding(s.hosts, job.begun, job.floor);
    hide Holding;
    forall g | g in job.polled ensures g in begun && begun[g] == job.begun[g] && PolledOk(s, job, g) {}
  }

  lemma HostReturns<V>(n: nat, s: State<V>, job: Job<V>, h: nat, found: nat)
    requires JobOk(n, s, job) && |s.hosts| == n && h < n && HostOk(s.incarnation, s.values, s.hosts[h])
    requires h in job.begun && h !in job.polled && found in s.hosts[h].posted && job.begun[h] <= found
    ensures JobOk(n, s, job.(polled := job.polled[h := (found, s.hosts[h].posted[found])]))
  {
    hide Holding;
    var job' := job.(polled := job.polled[h := (found, s.hosts[h].posted[found])]);
    forall g | g in job'.polled ensures g in job'.begun && PolledOk(s, job', g) {
      if g != h {
        assert PolledOk(s, job, g);
      }
    }
  }

  lemma JobFinishes<V>(n: nat, s: State<V>, job: Job<V>, r: (nat, V))
    requires JobOk(n, s, job) && |s.hosts| == n && |job.polled| >= Quorum(n) && Highest(job.polled, r)
    ensures JobOk(n, s, job.(result := Some(r)))
  {
    hide Holding;
    var h :| h in job.polled && job.polled[h] == r;
    assert PolledOk(s, job, h);
    if n % 2 == 1 {
      var g := QuorumsMeet(n, s, job);
    }
    var job' := job.(result := Some(r));
    forall g | g in job'.polled ensures g in job'.begun && PolledOk(s, job', g) {
      assert PolledOk(s, job, g);
    }
  }

  lemma JobKeeps<V>(n: nat, s: State<V>, step: Step<V>, s': State<V>)
    requires Inv(n, s) && Next(s, step, s') && (step.Begin? || step.ReadHost? || step.Return? || step.Finish?)
    ensures Inv(n, s')
  {
    hide HostOk, Holding, JobOk, Highest;
    assert s' == s.(jobs := s'.jobs);
    forall j: nat | j < |s'.jobs| ensures JobOk(n, s', s'.jobs[j]) {
      if j < |s.jobs| {
        assert JobOk(n, s, s.jobs[j]);
        OtherJobs(n, s, s', s.jobs[j]);
      }
      match step
      case Begin => if j == |s.jobs| { JobBegins(n, s'); }
      case ReadHost(_, h) => if j == step.j { HostBegun(n, s', s.jobs[j], h); }
      case Return(_, h, found) =>
        if j == step.j {
          assert HostOk(s.incarnation, s.values, s.hosts[h]);
          HostReturns(n, s', s.jobs[j], h, found);
        }
      case Finish(_, r) => if j == step.j { JobFinishes(n, s', s.jobs[j], r); }
    }
  }

  lemma OtherJobs<V>(n: nat, s: State<V>, s': State<V>, job: Job<V>)
    requires JobOk(n, s, job) && s' == s.(jobs := s'.jobs)
    ensures JobOk(n, s', job)
  {}

  lemma JobBegins<V>(n: nat, s: State<V>)
    requires |Holding(s.hosts, map[], s.complete)| >= Quorum(n)
    ensures JobOk(n, s, Job(s.complete, map[], map[], None))
  {}

  lemma StepKeeps<V>(n: nat, s: State<V>, step: Step<V>, s': State<V>)
    requires Inv(n, s) && Next(s, step, s')
    ensures Inv(n, s')
  {
    hide Inv, Next;
    if step.Write? || step.Land? || step.Push? {
      WriteKeeps(n, s, step, s');
    } else if step.Complete? {
      CompleteKeeps(n, s, s');
    } else {
      JobKeeps(n, s, step, s');
    }
  }

  lemma InitHolds<V>(n: nat, zero: V, s: State<V>)
    requires Init(n, zero, s)
    ensures Inv(n, s)
  {
    assert Holding(s.hosts, map[], 0) == Group(n);
    GroupSize(n);
  }

  lemma {:induction false} RunKeeps<V>(n: nat, zero: V, states: seq<State<V>>, steps: seq<Step<V>>, i: nat)
    requires IsRun(n, zero, states, steps) && i < |states|
    ensures Inv(n, states[i])
  {
    hide Inv, Next, Init;
    if i == 0 {
      InitHolds(n, zero, states[0]);
    } else {
      RunKeeps(n, zero, states, steps, i - 1);
      StepKeeps(n, states[i - 1], steps[i - 1], states[i]);
    }
  }

  /** For any odd number of hosts: a read returns an incarnation no older than the last one
      complete when it began, with the value written under it. */
  lemma RunsAreRegular<V>(n: nat, zero: V, states: seq<State<V>>, steps: seq<Step<V>>, i: nat, j: nat)
    requires n % 2 == 1 && IsRun(n, zero, states, steps) && i < |states| && j < |states[i].jobs|
    requires states[i].jobs[j].result.Some?
    ensures var job := states[i].jobs[j];
            job.floor <= job.result.value.0 && job.result.value.0 in states[i].values &&
            states[i].values[job.result.value.0] == job.result.value.1
  {
    RunKeeps(n, zero, states, steps, i);
    assert JobOk(n, states[i], states[i].jobs[j]);
  }

  // ---------- An even number of hosts ----------

  ghost predicate Reached<V(!new)>(n: nat, zero: V, s: State<V>) {
    exists states: seq<State<V>>, steps: seq<Step<V>> :: IsRun(n, zero, states, steps) && states[|states| - 1] == s
  }

  lemma Proceed<V(!new)>(n: nat, zero: V, s: State<V>, step: Step<V>, s': State<V>)
    requires Reached(n, zero, s) && Next(s, step, s')
    ensures Reached(n, zero, s')
  {
    hide Next, Init;
    var states: seq<State<V>>, steps: seq<Step<V>> :| IsRun(n, zero, states, steps) && states[|states| - 1] == s;
    var states', steps' := states + [s'], steps + [step];
    forall i | 0 <= i < |steps'| ensures Next(states'[i], steps'[i], states'[i + 1]) {
      if i < |steps| {
        assert Next(states[i], steps[i], states[i + 1]);
      }
    }
    assert IsRun(n, zero, states', steps');
  }

  function Written<V>(zero: V, one: V, landed: bool): Host<V> {
    Host(map[0 := zero, 1 := one], if landed then 1 else 0, if landed then None else Some(1), false)
  }

  /** Incarnation 1 has landed at the first k hosts. */
  function Landed<V>(n: nat, zero: V, one: V, k: nat, outstanding: bool, jobs: seq<Job<V>>): State<V> {
    State(1, one, outstanding, seq(n, h requires 0 <= h < n => Written(zero, one, h < k)), jobs,
          map[0 := zero, 1 := one], if outstanding then 0 else 1)
  }

  lemma HostAt<V>(n: nat, zero: V, one: V, k: nat, outstanding: bool, jobs: seq<Job<V>>, h: nat)
    requires h < n
    ensures Landed(n, zero, one, k, outstanding, jobs).hosts[h] == Written(zero, one, h < k)
  {}

  lemma FirstPush<V>(zero: V, one: V)
    ensures Pushed(Host(map[0 := zero], 0, None, true), 1, one) == Written(zero, one, false)
  {
    assert map[0 := zero][1 := one] == map[0 := zero, 1 := one];
  }

  lemma FirstWrite<V(!new)>(n: nat, zero: V, one: V)
    ensures Reached(n, zero, Landed(n, zero, one, 0, true, []))
  {
    var s' := Landed(n, zero, one, 0, true, []);
    var blank := Host(map[0 := zero], 0, None, false);
    var s := State(0, zero, false, seq(n, _ => blank), [], map[0 := zero], 0);
    assert IsRun(n, zero, [s], []);
    FirstPush(zero, one);
    var hosts := seq(|s.hosts|, h requires 0 <= h < |s.hosts| => Pushed(s.hosts[h].(pending := true), 1, one));
    forall h: nat | h < n ensures hosts[h] == s'.hosts[h] {
      HostAt(n, zero, one, 0, true, [], h);
      assert s.hosts[h] == blank;
    }
    assert hosts == s'.hosts;
    assert s.values[1 := one] == s'.values;
    hide Reached, IsRun;
    Proceed(n, zero, s, Write(1, one), s');
  }

  lemma {:induction false} SomeLand<V(!new)>(n: nat, zero: V, one: V, k: nat)
    requires k <= n
    ensures Reached(n, zero, Landed(n, zero, one, k, true, []))
  {
    if k == 0 {
      FirstWrite(n, zero, one);
    } else {
      SomeLand(n, zero, one, k - 1);
      hide Reached;
      var s, s' := Landed(n, zero, one, k - 1, true, []), Landed(n, zero, one, k, true, []);
      HostAt(n, zero, one, k - 1, true, [], k - 1);
      var landed := s.hosts[k - 1 := s.hosts[k - 1].(stored := 1, flying := None)];
      forall h: nat | h < n ensures s'.hosts[h] == landed[h] {
        HostAt(n, zero, one, k, true, [], h);
        HostAt(n, zero, one, k - 1, true, [], h);
      }
      assert s'.hosts == landed;
      Proceed(n, zero, s, Land(k - 1), s');
    }
  }

  /** The k hosts from m on. */
  function Upper(m: nat, k: nat): (r: set<nat>)
    ensures |r| == k && forall h :: h in r <==> m <= h < m + k
  {
    if k == 0 then {} else Upper(m, k - 1) + {m + k - 1}
  }

  /** A read that has polled k of the other half. */
  function Polling<V>(zero: V, m: nat, k: nat): Job<V> {
    Job(1, map h | h in Upper(m, k) :: 0, map h | h in Upper(m, k) :: (0, zero), None)
  }

  lemma BeginPolling<V(!new)>(m: nat, zero: V, one: V)
    requires 0 < m
    ensures Reached(2 * m, zero, Landed(2 * m, zero, one, m, false, [Polling(zero, m, 0)]))
  {
    var n := 2 * m;
    SomeLand(n, zero, one, m);
    hide Reached;
    var s, c := Landed(n, zero, one, m, true, []), Landed(n, zero, one, m, false, []);
    forall h: nat | h < m ensures Done(s.hosts[h]) {
      HostAt(n, zero, one, m, true, [], h);
    }
    HalfDone(m, s.hosts);
    Proceed(n, zero, s, Step<V>.Complete, c);
    assert Polling(zero, m, 0) == Job(1, map[], map[], None);
    Proceed(n, zero, c, Step<V>.Begin, Landed(n, zero, one, m, false, [Polling(zero, m, 0)]));
  }

  lemma {:induction false} OtherHalf<V(!new)>(m: nat, zero: V, one: V, k: nat)
    requires 0 < m && k <= m
    ensures Reached(2 * m, zero, Landed(2 * m, zero, one, m, false, [Polling(zero, m, k)]))
  {
    if k == 0 {
      BeginPolling(m, zero, one);
    } else {
      OtherHalf(m, zero, one, k - 1);
      hide Reached;
      OneMorePoll(m, zero, one, k - 1);
    }
  }

  lemma OneMorePoll<V(!new)>(m: nat, zero: V, one: V, k: nat)
    requires 0 < m && k < m
    requires Reached(2 * m, zero, Landed(2 * m, zero, one, m, false, [Polling(zero, m, k)]))
    ensures Reached(2 * m, zero, Landed(2 * m, zero, one, m, false, [Polling(zero, m, k + 1)]))
  {
    hide Reached;
    var n, h := 2 * m, m + k;
    var before, after := Polling(zero, m, k), Polling(zero, m, k + 1);
    var s, s' := Landed(n, zero, one, m, false, [before]), Landed(n, zero, one, m, false, [after]);
    HostAt(n, zero, one, m, false, [before], h);
    var half := before.(begun := after.begun);
    assert after.begun == before.begun[h := 0];
    assert after.polled == before.polled[h := (0, zero)];
    var t := s.(jobs := [half]);
    assert t.jobs == s.jobs[0 := half] && s'.jobs == t.jobs[0 := after];
    hide Landed, Polling;
    Proceed(n, zero, s, ReadHost(0, h), t);
    Proceed(n, zero, t, Return(0, h, 0), s');
  }

  lemma HalfDone<V>(m: nat, hosts: seq<Host<V>>)
    requires |hosts| == 2 * m && forall h: nat :: h < m ==> Done(hosts[h])
    ensures |DoneHosts(hosts)| >= Quorum(2 * m)
  {
    GroupSize(m);
    SubsetSize(Group(m), DoneHosts(hosts));
  }

  lemma HalfPolled<V>(zero: V, m: nat)
    ensures |Polling(zero, m, m).polled| == m
  {
    var p := Polling(zero, m, m).polled;
    assert p.Keys == Upper(m, m) && |p.Keys| == |p|;
  }

  /** For every even number of hosts, the quorums need not meet: a write that is complete
      is missed by a read that begins afterwards. */
  lemma EvenRunsMiss<V(!new)>(m: nat, zero: V, one: V) returns (states: seq<State<V>>, steps: seq<Step<V>>)
    requires m > 0
    ensures IsRun(2 * m, zero, states, steps)
    ensures var jobs := states[|states| - 1].jobs; |jobs| == 1 && jobs[0].floor == 1 && jobs[0].result == Some((0, zero))
  {
    OtherHalf(m, zero, one, m);
    var job := Polling(zero, m, m);
    var s := Landed(2 * m, zero, one, m, false, [job]);
    var s' := Landed(2 * m, zero, one, m, false, [job.(result := Some((0, zero)))]);
    HalfPolled(zero, m);
    assert m in job.polled && job.polled[m] == (0, zero);
    assert s'.jobs == s.jobs[0 := job.(result := Some((0, zero)))];
    Proceed(2 * m, zero, s, Finish(0, (0, zero)), s');
    hide Next, Init;
    states, steps :| IsRun(2 * m, zero, states, steps) && states[|states| - 1] == s';
  }
}
