/** One receiver as an object whose handlers update its fields, proved to be the handlers of
    the protocol. */
module TailCbReceiver {
  import opened Options
  import opened TailCbProtocol

  /** Handling completed writes one after the other. */
  function AfterWrites(l: Local, slots: seq<nat>, begun: map<nat, set<Read>>): (r: Local)
    requires forall s :: s in slots ==> s in l.writes && s in begun
    requires forall i, j :: 0 <= i < j < |slots| ==> slots[i] != slots[j]
    ensures r.msgs == l.msgs
    ensures r.writes.Keys == l.writes.Keys - set s | s in slots
    ensures forall s :: s in r.writes ==> r.writes[s] == l.writes[s]
  {
    if slots == [] then l
    else
      var end := |slots| - 1;
      var l1 := AfterWrites(l, slots[..end], begun);
      assert slots == slots[..end] + [slots[end]];
      HandleWritten(l1, slots[end], begun[slots[end]])
  }

  lemma AfterOneMore(l: Local, slots: seq<nat>, slot: nat, begun: map<nat, set<Read>>)
    requires forall s :: s in slots ==> s in l.writes && s in begun
    requires forall i, j :: 0 <= i < j < |slots| ==> slots[i] != slots[j]
    requires slot in l.writes && slot in begun && slot !in slots
    ensures forall s :: s in slots + [slot] <==> s in slots || s == slot
    ensures forall i, j :: 0 <= i < j < |slots + [slot]| ==> (slots + [slot])[i] != (slots + [slot])[j]
    ensures slot in AfterWrites(l, slots, begun).writes
    ensures AfterWrites(l, slots + [slot], begun) == HandleWritten(AfterWrites(l, slots, begun), slot, begun[slot])
  {
    assert (slots + [slot])[..|slots|] == slots;
  }

  /** The effect of several completed reads, None from the first on at which the receiver throws. */
  function AfterReads(c: Config, l: Local, completed: seq<(Read, Found)>): Option<Local>
    requires c.tail > 0
  {
    if completed == [] then Some(l)
    else
      var n := |completed| - 1;
      var before := AfterReads(c, l, completed[..n]);
      if before.None? then None else HandleRead(c, before.value, completed[n].0, completed[n].1)
  }

  lemma {:induction false} AfterPrefix(c: Config, l: Local, completed: seq<(Read, Found)>, i: nat)
    requires c.tail > 0 && i <= |completed| && AfterReads(c, l, completed[..i]).None?
    ensures AfterReads(c, l, completed).None?
    decreases |completed|
  {
    var n := |completed| - 1;
    if i == |completed| {
      assert completed[..i] == completed;
    } else {
      assert completed[..n][..i] == completed[..i];
      AfterPrefix(c, l, completed[..n], i);
    }
  }

  class Receiver {
    const c: Config
    const buffered: array<seq<Echo>>
    var msgs: map<Index, Data>
    var latest: Option<Index>
    var writes: map<nat, Index>
    var outReads: set<Read>
    var checks: multiset<Check>

    ghost predicate Valid()
      reads this
    {
      c.tail > 0 && buffered.Length == c.n
    }

    /** The fields, as the state of the protocol. */
    function State(): Local
      reads this, buffered
    {
      Local(msgs, latest, buffered[..], writes, outReads, checks)
    }

    constructor (c: Config)
      requires c.tail > 0
      ensures this.c == c && Valid() && State() == IDLE.(buffered := seq(c.n, _ => [])) && fresh(buffered)
    {
      this.c := c;
      buffered := new seq<Echo>[c.n](_ => []);
      msgs, latest, writes, outReads, checks := map[], None, map[], {}, multiset{};
    }

    // ---------- Messages and echoes ----------

    /** `handleMessage`: the message is stored, the oldest one may drop out, buffered echoes are
        replayed, and an echo goes out. False where the source throws. */
    method HandleMessage(k: Index, data: Bytes) returns (ok: bool, echo: Option<Bytes>)
      requires Valid()
      modifies this`msgs, buffered
      ensures var r := TailCbProtocol.HandleMessage(c, old(State()), k, data);
              && (ok <==> r.Some?)
              && (ok ==> r == Some((State(), echo.Some?)) && (echo.Some? ==> echo == Some(EchoOf(c, k, data))))
    {
      if k in msgs || (latest.Some? && k <= latest.value) {
        return false, None;
      }
      if exists j :: j in msgs && k <= j {
        return true, None;
      }
      ghost var l := State();
      var stored := ReplayEchoes(k, data);
      assert buffered[..] == seq(|l.buffered|, q requires 0 <= q < |l.buffered| => AfterReplay(l.buffered[q], k));
      msgs := msgs[k := stored];
      if |msgs| > c.tail {
        msgs := Without(msgs, FirstKey(msgs));
      }
      ok := true;
      echo := if |data| < HASH_THRESHOLD then Some(data) else Some(c.hash(k, data));
    }

    /** The loop over the buffers of all receivers. */
    method ReplayEchoes(k: Index, data: Bytes) returns (d: Data)
      requires Valid()
      modifies buffered
      ensures d == Fresh(c, old(buffered[..]), k, data)
      ensures buffered[..] == seq(c.n, q requires 0 <= q < c.n => AfterReplay(old(buffered[q]), k))
    {
      hide Replays, AfterReplay, Matches;
      ghost var queues := buffered[..];
      d := Data(data, {}, true, None, 0);
      for q := 0 to c.n
        invariant d == d.(data := data, sig := None, checked := 0)
        invariant d.echoes == set r: Replica | r < q && Replays(queues[r], k)
        invariant d.match_ <==> AllMatch(queues, q, k, data)
        invariant forall r: Replica :: r < q ==> buffered[r] == AfterReplay(queues[r], k)
        invariant forall r: Replica :: q <= r < c.n ==> buffered[r] == queues[r]
      {
        d := ReplayOne(q, k, d);
        AllMatchNext(queues, q, k, data);
      }
    }

    ghost predicate AllMatch(queues: seq<seq<Echo>>, q: nat, k: Index, data: Bytes)
      requires q <= |queues|
    {
      forall r: Replica :: r < q && Replays(queues[r], k) ==> Matches(c, k, data, DropOlder(queues[r], k)[0])
    }

    lemma AllMatchNext(queues: seq<seq<Echo>>, q: nat, k: Index, data: Bytes)
      requires q < |queues|
      ensures AllMatch(queues, q + 1, k, data) <==>
              AllMatch(queues, q, k, data) && (Replays(queues[q], k) ==> Matches(c, k, data, DropOlder(queues[q], k)[0]))
    {
      hide Matches;
    }

    /** One turn: older echoes are dropped, and one for the message is counted. */
    method ReplayOne(q: Replica, k: Index, d: Data) returns (r: Data)
      requires Valid() && q < c.n && q !in d.echoes
      modifies buffered
      ensures buffered[..] == old(buffered[..])[q := AfterReplay(old(buffered[q]), k)]
      ensures Replays(old(buffered[q]), k) ==> DropOlder(old(buffered[q]), k)[0].index == k
      ensures r == if Replays(old(buffered[q]), k) then Echoed(c, d, q, DropOlder(old(buffered[q]), k)[0]) else d
    {
      while buffered[q] != [] && buffered[q][0].index < k
        invariant buffered[..] == old(buffered[..])[q := buffered[q]]
        invariant DropOlder(buffered[q], k) == DropOlder(old(buffered[q]), k)
        decreases |buffered[q]|
      {
        buffered[q] := buffered[q][1..];
      }
      r := d;
      if buffered[q] != [] && buffered[q][0].index == k {
        r := Echoed(c, d, q, buffered[q][0]);
        buffered[q] := buffered[q][1..];
      }
    }

    /** `handleEcho` */
    method HandleEcho(q: Replica, e: Echo) returns (ok: bool)
      requires Valid() && q < c.n
      modifies this`msgs, buffered
      ensures ok <==> TailCbProtocol.HandleEcho(c, old(State()), q, e).Some?
      ensures ok ==> Some(State()) == TailCbProtocol.HandleEcho(c, old(State()), q, e)
    {
      hide Matches;
      if (latest.Some? && e.index < latest.value) || (msgs != map[] && forall j :: j in msgs ==> e.index < j) {
        return true;
      }
      if e.index in msgs {
        if q in msgs[e.index].echoes {
          return false;
        }
        msgs := msgs[e.index := Echoed(c, msgs[e.index], q, e)];
        return true;
      }
      if buffered[q] != [] && e.index < buffered[q][|buffered[q]| - 1].index {
        return false;
      }
      ghost var longer := buffered[q] + [e];
      buffered[q] := buffered[q] + [e];
      if |buffered[q]| > c.tail {
        buffered[q] := buffered[q][1..];
      }
      assert buffered[..] == old(buffered[..])[q := if |longer| > c.tail then longer[1..] else longer];
      ok := true;
    }

    // ---------- Signatures and registers ----------

    /** `handleSignature` */
    method HandleSignature(k: Index, sig: Bytes) returns (ok: bool)
      requires Valid()
      modifies this`msgs, this`checks
      ensures ok <==> TailCbProtocol.HandleSignature(c, old(State()), k, sig).Some?
      ensures ok ==> Some(State()) == TailCbProtocol.HandleSignature(c, old(State()), k, sig)
    {
      if k !in msgs {
        return true;
      }
      if msgs[k].sig.Some? {
        return false;
      }
      msgs := msgs[k := msgs[k].(sig := Some(sig))];
      checks := checks + multiset{OwnCheck(k, c.hash(k, msgs[k].data), sig)};
      ok := true;
    }

    /** One finished verification; `last` is the incarnation of the latest write to the own
        register. What is written is the hash of the stored message and its signature. */
    method SignatureVerified(check: Check, last: nat) returns (ok: bool, write: Option<(nat, nat, Register)>)
      requires Valid()
      modifies this`msgs, this`writes, this`checks
      ensures var l := old(State());
              var r := HandleCheck(c, l, check, last);
              var k := check.index;
              && (ok <==> r.Some?)
              && (ok ==> r == Some(State()) && (write.Some? <==> Writes(l, check)))
              && (ok && write.Some? ==> l.msgs[k].sig.Some? && write.value == (c.Slot(k), c.Incarnation(k), Register(c.hash(k, l.msgs[k].data), l.msgs[k].sig.value)))
    {
      checks := checks - multiset{check};
      var k := check.index;
      if k !in msgs {
        return true, None;
      }
      var d := msgs[k];
      match check
      case OwnCheck(_, hash, sig) =>
        if !c.verify(sig, hash) || c.Slot(k) in writes || c.Incarnation(k) <= last || d.sig.None? {
          return false, None;
        }
        write := Some((c.Slot(k), c.Incarnation(k), Register(c.hash(k, d.data), d.sig.value)));
        writes := writes[c.Slot(k) := k];
        ok := true;
      case RegisterCheck(_, _, content) =>
        if c.verify(content.sig, content.hash) {
          return false, None;
        }
        msgs := msgs[k := d.(checked := d.checked + 1)];
        ok, write := true, None;
    }

    /** One completed write. */
    method WriteCompleted(slot: nat, begun: set<Read>)
      requires Valid() && slot in writes
      modifies this`writes, this`outReads
      ensures State() == HandleWritten(old(State()), slot, begun)
    {
      if writes[slot] in msgs {
        outReads := outReads + begun;
      }
      writes := Without(writes, slot);
    }

    /** `pollWriteCompletions`: every completed write leaves the map, and if its message is still
        there the reads `begun` for its slot begin. */
    method PollWriteCompletions(completed: set<nat>, begun: map<nat, set<Read>>) returns (order: seq<nat>)
      requires Valid() && completed <= begun.Keys
      modifies this`writes, this`outReads
      ensures forall s :: s in order <==> s in completed && s in old(writes)
      ensures forall i, j :: 0 <= i < j < |order| ==> order[i] != order[j]
      ensures State() == AfterWrites(old(State()), order, begun)
    {
      hide HandleWritten;
      ghost var l := State();
      order := [];
      var left := completed * writes.Keys;
      ghost var all := left;
      while left != {}
        invariant left <= all && all == completed * l.writes.Keys
        invariant forall s :: s in order <==> s in all && s !in left
        invariant forall i, j :: 0 <= i < j < |order| ==> order[i] != order[j]
        invariant State() == AfterWrites(l, order, begun)
        decreases left
      {
        var slot :| slot in left;
        assert slot in l.writes && slot in begun && slot !in order;
        AfterOneMore(l, order, slot, begun);
        WriteCompleted(slot, begun[slot]);
        order, left := order + [slot], left - {slot};
      }
    }

    /** `pollReadCompletions`, for one completed read. */
    method ReadCompleted(read: Read, found: Found) returns (ok: bool)
      requires Valid()
      modifies this`msgs, this`outReads, this`checks
      ensures ok <==> HandleRead(c, old(State()), read, found).Some?
      ensures ok ==> Some(State()) == HandleRead(c, old(State()), read, found)
    {
      var k := read.index;
      if found.incarnation > c.Incarnation(k) {
        return false;
      }
      outReads := outReads - {read};
      if k !in msgs {
        return true;
      }
      if found.incarnation < c.Incarnation(k) || msgs[k].sig == Some(found.content.sig) {
        msgs := msgs[k := msgs[k].(checked := msgs[k].checked + 1)];
      } else {
        checks := checks + multiset{RegisterCheck(k, read.owner, found.content)};
      }
      ok := true;
    }

    /** `pollReadCompletions`: the reads found complete, one after the other, each with what it
        found; false where the source throws, and then the later ones are not looked at. */
    method PollReadCompletions(completed: seq<(Read, Found)>) returns (ok: bool)
      requires Valid()
      modifies this`msgs, this`outReads, this`checks
      ensures ok <==> AfterReads(c, old(State()), completed).Some?
      ensures ok ==> Some(State()) == AfterReads(c, old(State()), completed)
    {
      hide HandleRead;
      ghost var l := State();
      for i := 0 to |completed|
        invariant Some(State()) == AfterReads(c, l, completed[..i])
      {
        assert completed[..i + 1][..i] == completed[..i];
        var (read, found) := completed[i];
        ok := ReadCompleted(read, found);
        if !ok {
          AfterPrefix(c, l, completed, i + 1);
          return;
        }
      }
      assert completed[..|completed|] == completed;
      ok := true;
    }

    /** `poll`: the oldest message, once all echoes match or all registers are checked. */
    method Poll() returns (polled: Option<(Index, Bytes)>)
      requires Valid()
      modifies this`msgs, this`latest
      ensures polled.Some? <==> HandlePoll(c, old(State())).Some?
      ensures polled.None? ==> State() == old(State())
      ensures polled.Some? ==> Some(State()) == HandlePoll(c, old(State()))
      ensures polled.Some? ==> IsFirst(old(msgs), polled.value.0) && polled.value.1 == old(msgs)[polled.value.0].data
    {
      if msgs == map[] {
        return None;
      }
      var k := FirstKey(msgs);
      var d := msgs[k];
      var fast := |d.echoes| + 1 == c.n && d.match_;
      if !fast && d.checked + 1 != c.n {
        return None;
      }
      latest := Some(k);
      polled := Some((k, d.data));
      msgs := Without(msgs, k);
    }
  }
}
