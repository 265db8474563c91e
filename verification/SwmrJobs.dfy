/** The reader of single-writer registers as an object: the buffers its reads go through. */
module SwmrJobs {
  import opened Options
  import opened SwmrAccess
  import opened SwmrReader

  /** A job is named by its buffer. */
  type Job = nat

  datatype Queued = Queued(job: Job, index: nat)
  datatype Reading = Reading(job: Job, index: nat, start: nat)
  datatype Completed<+V> = Completed(value: V, incarnation: nat)

  function QueuedJobs(s: seq<Queued>): (r: multiset<Job>) {
    if s == [] then multiset{} else QueuedJobs(s[..|s| - 1]) + multiset{s[|s| - 1].job}
  }

  function ReadingJobs(s: seq<Reading>): multiset<Job> {
    if s == [] then multiset{} else ReadingJobs(s[..|s| - 1]) + multiset{s[|s| - 1].job}
  }

  lemma {:induction false} QueuedFirst(s: seq<Queued>)
    requires s != []
    ensures QueuedJobs(s) == QueuedJobs(s[1..]) + multiset{s[0].job}
  {
    var end := |s| - 1;
    if end > 0 {
      QueuedFirst(s[..end]);
      assert s[..end][1..] == s[1..][..end - 1];
    }
  }

  lemma {:induction false} ReadingFirst(s: seq<Reading>)
    requires s != []
    ensures ReadingJobs(s) == ReadingJobs(s[1..]) + multiset{s[0].job}
  {
    var end := |s| - 1;
    if end > 0 {
      ReadingFirst(s[..end]);
      assert s[..end][1..] == s[1..][..end - 1];
    }
  }

  lemma QueuedLast(s: seq<Queued>, q: Queued)
    ensures QueuedJobs(s + [q]) == QueuedJobs(s) + multiset{q.job}
  {
    assert (s + [q])[..|s|] == s;
  }

  lemma ReadingLast(s: seq<Reading>, r: Reading)
    ensures ReadingJobs(s + [r]) == ReadingJobs(s) + multiset{r.job}
  {
    assert (s + [r])[..|s|] == s;
  }

  /** Every buffer is in exactly one place. */
  ghost predicate Conserved<V>(jobs: set<Job>, pool: seq<Job>, queued: seq<Queued>, reading: seq<Reading>, completed: map<Job, Completed<V>>) {
    multiset(pool) + QueuedJobs(queued) + ReadingJobs(reading) + multiset(completed.Keys) == multiset(jobs)
  }

  lemma MovePosted<V>(jobs: set<Job>, pool: seq<Job>, queued: seq<Queued>, reading: seq<Reading>, completed: map<Job, Completed<V>>, r: Reading)
    requires Conserved(jobs, pool, queued, reading, completed) && queued != [] && r.job == queued[0].job
    ensures Conserved(jobs, pool, queued[1..], reading + [r], completed)
  {
    QueuedFirst(queued);
    ReadingLast(reading, r);
  }

  lemma MoveTaken<V>(jobs: set<Job>, pool: seq<Job>, queued: seq<Queued>, reading: seq<Reading>, completed: map<Job, Completed<V>>, q: Queued)
    requires Conserved(jobs, pool, queued, reading, completed) && pool != [] && q.job == pool[|pool| - 1]
    ensures Conserved(jobs, pool[..|pool| - 1], queued + [q], reading, completed)
  {
    assert pool == pool[..|pool| - 1] + [q.job];
    QueuedLast(queued, q);
  }

  lemma MoveReleased<V>(jobs: set<Job>, pool: seq<Job>, queued: seq<Queued>, reading: seq<Reading>, completed: map<Job, Completed<V>>, job: Job)
    requires Conserved(jobs, pool, queued, reading, completed) && job in completed
    ensures Conserved(jobs, pool + [job], queued, reading, completed - {job})
  {
    assert completed.Keys == (completed - {job}).Keys + {job};
  }

  lemma MoveAgain<V>(jobs: set<Job>, pool: seq<Job>, queued: seq<Queued>, reading: seq<Reading>, completed: map<Job, Completed<V>>, q: Queued)
    requires Conserved(jobs, pool, queued, reading, completed) && reading != [] && q.job == reading[0].job
    ensures Conserved(jobs, pool, queued + [q], reading[1..], completed)
  {
    ReadingFirst(reading);
    QueuedLast(queued, q);
  }

  /** A buffer being read holds no result. */
  lemma MoveCompleted<V>(jobs: set<Job>, pool: seq<Job>, queued: seq<Queued>, reading: seq<Reading>, completed: map<Job, Completed<V>>, v: Completed<V>)
    requires Conserved(jobs, pool, queued, reading, completed) && reading != []
    ensures reading[0].job !in completed
    ensures Conserved(jobs, pool, queued, reading[1..], completed[reading[0].job := v])
  {
    var job := reading[0].job;
    ReadingFirst(reading);
    var rest := multiset(pool) + QueuedJobs(queued) + ReadingJobs(reading[1..]);
    assert multiset(jobs)[job] <= 1;
    assert multiset(jobs)[job] == rest[job] + 1 + multiset(completed.Keys)[job];
    assert job !in completed.Keys;
    assert completed[job := v].Keys == completed.Keys + {job};
  }

  class Reader<V> {
    const maxOutstanding: nat
    const cooldown: nat
    ghost const jobs: set<Job>
    var bufferPool: seq<Job>
    var queuedReads: seq<Queued>
    var outstandingReads: seq<Reading>
    var completedReads: map<Job, Completed<V>>

    ghost predicate Valid()
      reads this
    {
      maxOutstanding > 0 && Conserved(jobs, bufferPool, queuedReads, outstandingReads, completedReads)
    }

    /** A read that waits does so behind outstanding ones, whose completion lets it proceed. */
    predicate Pushed()
      reads this
    {
      |outstandingReads| >= maxOutstanding || queuedReads == []
    }

    constructor (buffers: seq<Job>, maxOutstanding: nat, cooldown: nat)
      requires maxOutstanding > 0 && forall i, j :: 0 <= i < j < |buffers| ==> buffers[i] != buffers[j]
      ensures Valid() && Pushed() && bufferPool == buffers && queuedReads == [] && outstandingReads == [] && completedReads == map[]
      ensures this.maxOutstanding == maxOutstanding && this.cooldown == cooldown
    {
      this.maxOutstanding, this.cooldown := maxOutstanding, cooldown;
      jobs := set j | j in buffers;
      bufferPool, queuedReads, outstandingReads, completedReads := buffers, [], [], map[];
      new;
      forall j ensures multiset(buffers)[j] == if j in buffers then 1 else 0 {
        Once(buffers, j);
      }
      assert completedReads.Keys == {};
    }

    static lemma {:induction false} Once(s: seq<Job>, j: Job)
      requires forall i, k :: 0 <= i < k < |s| ==> s[i] != s[k]
      ensures multiset(s)[j] == if j in s then 1 else 0
    {
      if s != [] {
        var end := |s| - 1;
        Once(s[..end], j);
        assert s == s[..end] + [s[end]];
      }
    }

    /** Queued reads are posted in order, as long as the queue pair takes them. */
    method PushToQp(now: nat) returns (ghost n: nat)
      requires Valid()
      modifies this`queuedReads, this`outstandingReads
      ensures Valid() && Pushed()
      ensures n <= |old(queuedReads)| && PostedFirst(old(queuedReads), old(outstandingReads), queuedReads, outstandingReads, n, now)
    {
      hide Conserved;
      n := 0;
      assert queuedReads[0..] == queuedReads;
      while |outstandingReads| < maxOutstanding && queuedReads != []
        invariant Valid() && n <= |old(queuedReads)|
        invariant PostedFirst(old(queuedReads), old(outstandingReads), queuedReads, outstandingReads, n, now)
        decreases |queuedReads|
      {
        var q := queuedReads[0];
        MovePosted(jobs, bufferPool, queuedReads, outstandingReads, completedReads, Reading(q.job, q.index, now));
        queuedReads := queuedReads[1..];
        outstandingReads := outstandingReads + [Reading(q.job, q.index, now)];
        n := n + 1;
      }
    }

    /** The first n queued reads now are outstanding, begun now. */
    ghost predicate PostedFirst(queued: seq<Queued>, outstanding: seq<Reading>, queued': seq<Queued>, outstanding': seq<Reading>, n: nat, now: nat)
      requires n <= |queued|
    {
      && queued' == queued[n..]
      && outstanding' == outstanding + seq(n, i requires 0 <= i < n => Reading(queued[i].job, queued[i].index, now))
    }

    /** `read`: none when all buffers are in use. */
    method Read(index: nat, now: nat) returns (job: Option<Job>, ghost n: nat)
      requires Valid()
      modifies this`bufferPool, this`queuedReads, this`outstandingReads
      ensures Valid() && (job.None? <==> old(bufferPool) == []) && (job.Some? ==> Pushed())
      ensures job.Some? ==> old(bufferPool) == bufferPool + [job.value]
      ensures job.Some? ==>
                var queued := old(queuedReads) + [Queued(job.value, index)];
                n <= |queued| && PostedFirst(queued, old(outstandingReads), queuedReads, outstandingReads, n, now)
      ensures job.None? ==> bufferPool == old(bufferPool) && queuedReads == old(queuedReads) && outstandingReads == old(outstandingReads)
    {
      if bufferPool == [] {
        return None, 0;
      }
      var buffer := bufferPool[|bufferPool| - 1];
      hide *;
      MoveTaken(jobs, bufferPool, queuedReads, outstandingReads, completedReads, Queued(buffer, index));
      bufferPool := bufferPool[..|bufferPool| - 1];
      assert old(bufferPool) == bufferPool + [buffer];
      queuedReads := queuedReads + [Queued(buffer, index)];
      n := PushToQp(now);
      job := Some(buffer);
    }

    method Poll(job: Job) returns (result: Option<Completed<V>>)
      ensures result == if job in completedReads then Some(completedReads[job]) else None
    {
      result := if job in completedReads then Some(completedReads[job]) else None;
    }

    /** `release`: false where the source throws. */
    method Release(job: Job) returns (ok: bool)
      requires Valid()
      modifies this`bufferPool, this`completedReads
      ensures Valid() && ok == (job in old(completedReads))
      ensures ok ==> bufferPool == old(bufferPool) + [job] && completedReads == old(completedReads) - {job}
      ensures !ok ==> bufferPool == old(bufferPool) && completedReads == old(completedReads)
    {
      if job !in completedReads {
        return false;
      }
      hide Conserved;
      MoveReleased(jobs, bufferPool, queuedReads, outstandingReads, completedReads, job);
      bufferPool := bufferPool + [job];
      completedReads := completedReads - {job};
      ok := true;
    }

    /** `pollCompletion`, for the oldest outstanding read: a value is stored for its job, or the
        read waits again; false where the source throws. */
    method Complete(job: Job, subslots: seq<Subslot<V>>, now: nat) returns (ok: bool)
      requires Valid() && |subslots| == 2 && outstandingReads != []
      modifies this`queuedReads, this`outstandingReads, this`completedReads
      ensures outstandingReads == old(outstandingReads)[1..]
      ensures var r := old(outstandingReads)[0];
              var outcome := Outcome(subslots, r.start, now, cooldown);
              && (ok <==> job == r.job && !outcome.Accuse?)
              && (ok ==> Valid())
              && (ok && outcome.Value? ==> queuedReads == old(queuedReads) && completedReads == old(completedReads)[job := Completed(outcome.value, outcome.incarnation)])
              && (ok && outcome.Reschedule? ==> queuedReads == old(queuedReads) + [Queued(job, r.index)] && completedReads == old(completedReads))
    {
      hide Conserved, Outcome;
      var r := outstandingReads[0];
      ghost var reading := outstandingReads;
      outstandingReads := outstandingReads[1..];
      if job != r.job {
        return false;
      }
      var outcome := Judge(subslots, r.start, now, cooldown);
      match outcome
      case Value(value, incarnation) =>
        MoveCompleted(jobs, bufferPool, queuedReads, reading, completedReads, Completed(value, incarnation));
        completedReads := completedReads[job := Completed(value, incarnation)];
        ok := true;
      case Reschedule =>
        MoveAgain(jobs, bufferPool, queuedReads, reading, completedReads, Queued(job, r.index));
        queuedReads := queuedReads + [Queued(job, r.index)];
        ok := true;
      case Accuse =>
        ok := false;
    }

    /** `tick`: completions of the oldest reads, in order, then waiting reads are posted. */
    method Tick(completions: seq<(Job, seq<Subslot<V>>)>, now: nat) returns (ok: bool, ghost n: nat)
      requires Valid() && Pushed() && |completions| <= |outstandingReads| && TwoEach(completions)
      modifies this`queuedReads, this`outstandingReads, this`completedReads
      ensures ok ==> Valid() && Pushed()
      ensures var r := AfterCompletions(old(queuedReads), old(outstandingReads), old(completedReads), completions, now, cooldown);
              && (ok <==> r.Some?)
              && (ok ==> completedReads == r.value.1)
              && (ok && old(outstandingReads) != [] ==>
                    n <= |r.value.0| && PostedFirst(r.value.0, old(outstandingReads)[|completions|..], queuedReads, outstandingReads, n, now))
      ensures old(outstandingReads) == [] ==> queuedReads == old(queuedReads) && outstandingReads == []
    {
      hide Conserved, Outcome, PostedFirst, AfterCompletions;
      ghost var reading, queued, completed := outstandingReads, queuedReads, completedReads;
      NoCompletions(queued, reading, completed, now, cooldown);
      n := 0;
      if outstandingReads != [] {
        for i := 0 to |completions|
          invariant Valid() && outstandingReads == reading[i..]
          invariant AfterCompletions(queued, reading, completed, completions[..i], now, cooldown) == Some((queuedReads, completedReads))
        {
          NextCompletion(queued, reading, completed, completions, i, now, cooldown);
          ok := Complete(completions[i].0, completions[i].1, now);
          if !ok {
            NeverAfter(queued, reading, completed, completions, i + 1, now, cooldown);
            return;
          }
        }
        assert completions[..|completions|] == completions;
        n := PushToQp(now);
      } else {
        assert completions == [];
      }
      ok := true;
    }
  }

  predicate TwoEach<V>(completions: seq<(Job, seq<Subslot<V>>)>) {
    forall i :: 0 <= i < |completions| ==> |completions[i].1| == 2
  }

  /** The results and the reads to repeat after completions of the oldest reads; none where the
      source throws. */
  function AfterCompletions<V>(queued: seq<Queued>, reading: seq<Reading>, completed: map<Job, Completed<V>>,
                               completions: seq<(Job, seq<Subslot<V>>)>, now: nat, cooldown: nat): Option<(seq<Queued>, map<Job, Completed<V>>)>
    requires |completions| <= |reading| && TwoEach(completions)
  {
    if completions == [] then Some((queued, completed))
    else
      var n := |completions| - 1;
      var before := AfterCompletions(queued, reading, completed, completions[..n], now, cooldown);
      var (job, subslots) := completions[n];
      var outcome := Outcome(subslots, reading[n].start, now, cooldown);
      if before.None? || job != reading[n].job then None
      else match outcome
           case Value(value, incarnation) => Some((before.value.0, before.value.1[job := Completed(value, incarnation)]))
           case Reschedule => Some((before.value.0 + [Queued(job, reading[n].index)], before.value.1))
           case Accuse => None
  }

  lemma NoCompletions<V>(queued: seq<Queued>, reading: seq<Reading>, completed: map<Job, Completed<V>>, now: nat, cooldown: nat)
    ensures AfterCompletions(queued, reading, completed, [], now, cooldown) == Some((queued, completed))
  {}

  lemma NextCompletion<V>(queued: seq<Queued>, reading: seq<Reading>, completed: map<Job, Completed<V>>,
                          completions: seq<(Job, seq<Subslot<V>>)>, i: nat, now: nat, cooldown: nat)
    requires i < |completions| <= |reading| && TwoEach(completions)
    ensures var before := AfterCompletions(queued, reading, completed, completions[..i], now, cooldown);
            var after := AfterCompletions(queued, reading, completed, completions[..i + 1], now, cooldown);
            var (job, subslots) := completions[i];
            after == if before.None? || job != reading[i].job then None
                     else match Outcome(subslots, reading[i].start, now, cooldown)
                          case Value(value, incarnation) => Some((before.value.0, before.value.1[job := Completed(value, incarnation)]))
                          case Reschedule => Some((before.value.0 + [Queued(job, reading[i].index)], before.value.1))
                          case Accuse => None
  {
    hide Outcome;
    assert completions[..i + 1][..i] == completions[..i];
  }

  lemma {:induction false} NeverAfter<V>(queued: seq<Queued>, reading: seq<Reading>, completed: map<Job, Completed<V>>,
                                         completions: seq<(Job, seq<Subslot<V>>)>, i: nat, now: nat, cooldown: nat)
    requires i <= |completions| <= |reading| && TwoEach(completions)
    requires AfterCompletions(queued, reading, completed, completions[..i], now, cooldown).None?
    ensures AfterCompletions(queued, reading, completed, completions, now, cooldown).None?
    decreases |completions| - i
  {
    if i < |completions| {
      NextCompletion(queued, reading, completed, completions, i, now, cooldown);
      NeverAfter(queued, reading, completed, completions, i + 1, now, cooldown);
    } else {
      assert completions[..i] == completions;
    }
  }
}
