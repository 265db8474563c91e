/** Consistency of tail consistent broadcast: over every run, what two correct receivers
    deliver for one index is equal, unless the two messages can be confused by the way
    echoes are compared. And every receiver delivers in strictly increasing order. */
module TailCbConsistency {
  import opened Options
  import opened Quorums
  import opened TailCbProtocol
  import opened TailCbInvariant
  import opened TailCbSteps
  import opened TailCbEchoes
  import opened TailCbRegisters
  import opened TailCbCounts
  import opened TailCbOrder
  import opened TailCbFrames

  // ---------- Counts ----------

  lemma VerifiedCounts(c: Config, s: State, p: Replica, check: Check, s': State)
    requires c.tail > 0 && Sane(c, s) && c.Correct(p) && Next(c, s, Verified(p, check), s')
    requires RegisterOk(c, p, s.locals[p], s) && CountOk(c, p, s.locals[p], s)
    ensures CountOk(c, p, s'.locals[p], s')
  {
    var l := s.locals[p];
    var k := check.index;
    hide Config.Slot, Config.Incarnation, RegisterOk, CountOk, Readable;
    if Writes(l, check) {
      WriteCounts(c, p, k, l, s'.locals[p], s, s');
    } else if check.RegisterCheck? {
      ClearCounts(c, p, k, check.owner, check.content, l, s'.locals[p], s, s');
    } else {
      DropCounts(c, p, check, l, s, s');
    }
  }

  lemma DropCounts(c: Config, p: Replica, check: Check, l: Local, s: State, s': State)
    requires c.tail > 0 && CountOk(c, p, l, s) && check.OwnCheck?
    requires s'.written == s.written && s'.done == s.done && s'.cleared == s.cleared
    ensures CountOk(c, p, l.(checks := l.checks - multiset{check}), s')
  {
    var l' := l.(checks := l.checks - multiset{check});
    hide Config.Slot, Config.Incarnation, OnceOk;
    forall j: Index, q: Replica ensures OnceOk(c, p, j, q, l', s') {
      assert OnceOk(c, p, j, q, l, s);
      DropOnce(c, p, check, j, q, l, l', s, s');
    }
    forall j: Index ensures CheckedOk(c, p, j, l', s') {
      assert CheckedOk(c, p, j, l, s);
      SameCleared(c, p, s, s', j);
    }
  }

  lemma DropOnce(c: Config, p: Replica, check: Check, j: Index, q: Replica, l: Local, l': Local, s: State, s': State)
    requires c.tail > 0 && OnceOk(c, p, j, q, l, s) && check.OwnCheck?
    requires l' == l.(checks := l.checks - multiset{check})
    requires s'.written == s.written && s'.done == s.done && s'.cleared == s.cleared
    ensures OnceOk(c, p, j, q, l', s')
  {
    hide Config.Slot, Config.Incarnation;
    assert forall w :: l'.checks[RegisterCheck(j, q, w)] == l.checks[RegisterCheck(j, q, w)];
    assert forall w :: RegisterCheck(j, q, w) in l'.checks <==> RegisterCheck(j, q, w) in l.checks;
    assert Token(p, j, q, l', s') ==> Token(p, j, q, l, s);
  }

  lemma CompletedCounts(c: Config, s: State, p: Replica, read: Read, found: Found, s': State)
    requires c.tail > 0 && Sane(c, s) && c.Correct(p) && Next(c, s, Completed(p, read, found), s')
    requires CountOk(c, p, s.locals[p], s)
    ensures CountOk(c, p, s'.locals[p], s')
  {
    CompletedState(c, s, s', p, read, found);
    CompletedShape(c, s, s', p, read, found);
    hide Config.Slot, Config.Incarnation, CountOk, Readable, HandleRead, Cleared;
    ReadCounts(c, p, read, found, s.locals[p], s, s');
  }

  lemma CountsKeep(c: Config, s: State, step: Step, s': State, p: Replica)
    requires c.tail > 0 && Inv(c, s) && Next(c, s, step, s') && c.Correct(p)
    ensures Sane(c, s') && CountOk(c, p, s'.locals[p], s')
  {
    StepShape(c, s, step, s');
    var l := s.locals[p];
    assert Sane(c, s) && RegisterOk(c, p, l, s) && CountOk(c, p, l, s);
    if p != step.p {
      StepRegisters(c, s, step, s');
      OthersRegisters(p, step.p, s, s');
      SamePlace(p, l, s.accepted);
      hide *;
      FastCounts(c, p, l, l, s, s');
    } else if IsFast(step) {
      FastShape(c, s, step, s');
      FastState(c, s, step, s');
      StepSame(p, s, s');
      hide *;
      FastCounts(c, p, l, s'.locals[p], s, s');
    } else {
      hide Inv, RegisterOk, CountOk;
      match step
      case Signature(_, k, sig) => SignatureShape(c, s, p, k, sig, s'); hide Next, HandleSignature; SignatureCounts(c, p, k, sig, s, s');
      case Verified(_, check) => VerifiedCounts(c, s, p, check, s');
      case Written(_, slot) => WrittenShape(c, s, s', p, slot); hide Next, HandleWritten; WrittenCounts(c, p, slot, l, s, s');
      case Completed(_, read, found) => CompletedCounts(c, s, p, read, found, s');
    }
  }

  lemma StepSame(p: Replica, s: State, s': State)
    requires s'.written == s.written && s'.done == s.done && s'.last == s.last && s'.cleared == s.cleared
    ensures SameRegisters(p, s, s')
  {}

  // ---------- Order ----------

  /** The reader q was late: what it clears now agrees. */
  lemma LateReader(c: Config, s: State, s': State, p: Replica, q: Replica, read: Read, found: Found)
    requires c.tail > 0 && c.Valid() && Inv(c, s) && c.Correct(p) && c.Correct(q) && p != q && read.owner == p
    requires Next(c, s, Completed(q, read, found), s') && Sane(c, s') && Late(c, s, q, p, read.index)
    ensures Late(c, s', q, p, read.index)
  {
    var k := read.index;
    assert Sane(c, s) && RegisterOk(c, q, s.locals[q], s) && RegisterOk(c, p, s.locals[p], s);
    assert WrittenOk(c, p, k, s);
    CompletedShape(c, s, s', q, read, found);
    assert read == Read(k, p, read.floor);
    hide Inv, Next, Config.Slot, Config.Incarnation, RegisterOk, WrittenOk, HandleRead, Readable, Cleared;
    if (q, k, p) in s'.cleared && (q, k, p) !in s.cleared {
      ReadAgrees(c, s, q, read, found);
    }
  }

  lemma CompletedOthers(c: Config, s: State, s': State, w: Replica, read: Read, found: Found, p: Replica, q: Replica, k: Index)
    requires c.tail > 0 && c.Valid() && Inv(c, s) && c.Correct(w) && c.Correct(p) && c.Correct(q) && p != q
    requires Next(c, s, Completed(w, read, found), s')
    ensures Sane(c, s') && OrderOk(c, s', p, q, k)
  {
    assert OrderOk(c, s, p, q, k) && Sane(c, s);
    CompletedShape(c, s, s', w, read, found);
    hide Config.Slot, Config.Incarnation, OrderOk, NothingBegun, Grows, Inv, Next, Late, ReadDone, HandleRead, Readable, Cleared;
    if w == p && read.owner == q && read.index == k {
      ReadOrder(c, s, s', read, found, p);
    } else {
      ReadBegunNothing(c, s, s', w, read, found, p, q, k);
      CompletedGrows(c, s, s', w, read, found);
      if w == q && read.owner == p && read.index == k {
        if Late(c, s, q, p, k) {
          LateReader(c, s, s', p, q, read, found);
        }
        OrderStays(c, s, s', p, q, k);
      } else {
        ReadBegunNothing(c, s, s', w, read, found, q, p, k);
        PairStays(c, s, s', p, q, k);
      }
    }
  }

  lemma CompletedGrows(c: Config, s: State, s': State, w: Replica, read: Read, found: Found)
    requires c.tail > 0 && Sane(c, s) && c.Correct(w) && Next(c, s, Completed(w, read, found), s')
    ensures Grows(c, s, s')
  {
    CompletedState(c, s, s', w, read, found);
    CompletedShape(c, s, s', w, read, found);
    hide Next;
    GrowsRefl(c, s, s');
  }

  lemma QuietOrder(c: Config, s: State, step: Step, s': State, p: Replica, q: Replica, k: Index)
    requires c.tail > 0 && Inv(c, s) && Next(c, s, step, s') && (IsFast(step) || step.Signature?)
    requires c.Correct(p) && c.Correct(q) && p != q
    ensures Sane(c, s') && OrderOk(c, s', p, q, k)
  {
    assert Sane(c, s) && OrderOk(c, s, p, q, k);
    AcceptedExtends(c, s, step, s');
    if IsFast(step) {
      FastShape(c, s, step, s');
      FastState(c, s, step, s');
    } else {
      SignatureShape(c, s, step.p, step.k, step.sig, s');
    }
    hide Inv, Next, OrderOk, HandleSignature, Extends, Config.Slot, Config.Incarnation;
    QuietBegunNothing(c, s, step.p, s', p, q, k);
    QuietBegunNothing(c, s, step.p, s', q, p, k);
    assert Grows(c, s, s');
    hide NothingBegun, Grows;
    PairStays(c, s, s', p, q, k);
  }

  lemma QuietBegunNothing(c: Config, s: State, w: Replica, s': State, p: Replica, q: Replica, k: Index)
    requires c.tail > 0 && Sane(c, s) && Sane(c, s') && p < c.n && q < c.n && w < c.n
    requires s'.locals == s.locals[w := s'.locals[w]] && s'.cleared == s.cleared
    requires s'.locals[w].outReads == s.locals[w].outReads
    requires forall check :: check in s'.locals[w].checks && check.RegisterCheck? ==> check in s.locals[w].checks
    ensures NothingBegun(c, s, s', p, q, k)
  {}

  lemma OrderKeeps(c: Config, s: State, step: Step, s': State, p: Replica, q: Replica, k: Index)
    requires c.tail > 0 && c.Valid() && Inv(c, s) && Next(c, s, step, s') && c.Correct(p) && c.Correct(q) && p != q
    ensures Sane(c, s') && OrderOk(c, s', p, q, k)
  {
    assert Sane(c, s) && c.Correct(step.p);
    if IsFast(step) || step.Signature? {
      QuietOrder(c, s, step, s', p, q, k);
    } else {
      hide Inv, Next, OrderOk;
      match step
      case Verified(w, check) => VerifiedOrder(c, s, s', w, check, p, q, k);
      case Written(w, slot) => WrittenOrder(c, s, s', w, slot, p, q, k);
      case Completed(w, read, found) => CompletedOthers(c, s, s', w, read, found, p, q, k);
    }
  }

  // ---------- Deliveries ----------

  lemma DeliveryStays(c: Config, s: State, s': State, d: Delivery)
    requires Sane(c, s) && Sane(c, s') && DeliveryOk(c, s, d) && Extends(s.accepted, s'.accepted)
    requires forall x :: x in s.cleared ==> x in s'.cleared
    requires s'.locals[d.receiver].latest.Some? && s.locals[d.receiver].latest.value <= s'.locals[d.receiver].latest.value
    ensures DeliveryOk(c, s', d)
  {
    hide MayMatch;
  }

  /** All correct receivers but p are among those p cleared, if p cleared all but one of the group. */
  lemma ClearedAll(c: Config, s: State, p: Replica, k: Index)
    requires c.tail > 0 && Sane(c, s) && p < c.n && CountOk(c, p, s.locals[p], s) && k in s.locals[p].msgs
    requires s.locals[p].msgs[k].checked + 1 == c.n
    ensures forall q: Replica :: q < c.n && q != p ==> (p, k, q) in s.cleared
  {
    var l := s.locals[p];
    assert CheckedOk(c, p, k, l, s);
    assert p !in ClearedBy(c, s, p, k) by {
      assert OnceOk(c, p, k, p, l, s);
      assert (p, k, p) in s.cleared ==> Token(p, k, p, l, s);
    }
    EveryOther(c.n, p, ClearedBy(c, s, p, k));
    forall q: Replica | q < c.n && q != p ensures (p, k, q) in s.cleared {
      assert q in ClearedBy(c, s, p, k);
    }
  }

  lemma EveryOther(n: nat, p: nat, a: set<nat>)
    requires p < n && a <= Group(n) && p !in a && |a| + 1 == n
    ensures forall q: nat :: q < n && q != p ==> q in a
  {
    GroupSize(n);
    assert |a + {p}| == n;
    SubsetSize(a + {p}, Group(n));
  }

  lemma EchoedAll(c: Config, p: Replica, k: Index, l: Local, accepted: map<(Replica, Index), Bytes>)
    requires TailEchoes(c, p, l, accepted) && p < c.n && k in l.msgs && FastPath(c, l.msgs[k])
    ensures forall q: Replica :: c.Correct(q) && q != p ==> (q, k) in accepted && MayMatch(c, k, l.msgs[k].data, accepted[(q, k)])
  {
    hide MayMatch;
    EveryOther(c.n, p, l.msgs[k].echoes);
  }

  /** The state after a poll, and what is known about the delivered message. */
  lemma PolledOk(c: Config, s: State, p: Replica, k: Index)
    requires c.tail > 0 && Inv(c, s) && c.Correct(p) && k in s.locals[p].msgs && Pollable(c, s.locals[p].msgs[k])
    ensures Sane(c, s) && (p, k) in s.accepted && s.accepted[(p, k)] == s.locals[p].msgs[k].data
    ensures s.locals[p].latest.Some? ==> s.locals[p].latest.value < k
    ensures FastPath(c, s.locals[p].msgs[k]) ==> forall q: Replica :: c.Correct(q) && q != p ==>
              (q, k) in s.accepted && MayMatch(c, k, s.locals[p].msgs[k].data, s.accepted[(q, k)])
    ensures !FastPath(c, s.locals[p].msgs[k]) ==> forall q: Replica :: c.Correct(q) && q != p ==> (p, k, q) in s.cleared
  {
    var l := s.locals[p];
    assert SeenOk(p, l, s.accepted) && EchoOk(c, p, l, s.accepted) && CountOk(c, p, l, s);
    assert TailAccepted(p, l, s.accepted) && TailNewer(l);
    hide Inv, BufferedOk, TailEchoes, CountOk, AllSeen, MayMatch, SeenOk;
    if FastPath(c, l.msgs[k]) {
      EchoedAll(c, p, k, l, s.accepted);
    } else {
      ClearedAll(c, s, p, k);
    }
  }

  lemma PollDelivers(c: Config, s: State, p: Replica, s': State)
    requires c.tail > 0 && Inv(c, s) && Next(c, s, Poll(p), s')
    ensures Sane(c, s') && |s'.delivered| == |s.delivered| + 1
    ensures s'.delivered == s.delivered + [s'.delivered[|s.delivered|]]
    ensures DeliveryOk(c, s', s'.delivered[|s.delivered|]) && s'.delivered[|s.delivered|].receiver == p
    ensures s.locals[p].latest.Some? ==> s.locals[p].latest.value < s'.delivered[|s.delivered|].index
    ensures s'.locals[p].latest == Some(s'.delivered[|s.delivered|].index)
    ensures s'.accepted == s.accepted && s'.cleared == s.cleared
  {
    assert Sane(c, s);
    Polled(c, s.locals[p]);
    FastState(c, s, Poll(p), s');
    PolledOk(c, s, p, FirstKey(s.locals[p].msgs));
    hide Inv, HandlePoll, FirstKey, Pollable, FastPath, MayMatch;
  }

  /** A receiver never goes back. */
  lemma LatestGrows(c: Config, s: State, step: Step, s': State, p: Replica)
    requires c.tail > 0 && Inv(c, s) && Next(c, s, step, s') && c.Correct(p)
    ensures Sane(c, s')
    ensures s.locals[p].latest.Some? ==> s'.locals[p].latest.Some? && s.locals[p].latest.value <= s'.locals[p].latest.value
    ensures !step.Poll? ==> s'.delivered == s.delivered
    ensures forall x :: x in s.cleared ==> x in s'.cleared
  {
    StepShape(c, s, step, s');
    assert Sane(c, s);
    if step.Poll? {
      PollDelivers(c, s, step.p, s');
    } else {
      hide Inv;
      QuietLatest(c, s, step, s');
      hide Next;
    }
  }

  lemma QuietLatest(c: Config, s: State, step: Step, s': State)
    requires c.tail > 0 && Sane(c, s) && Next(c, s, step, s') && !step.Poll?
    ensures s'.delivered == s.delivered && s'.locals[step.p].latest == s.locals[step.p].latest
    ensures forall x :: x in s.cleared ==> x in s'.cleared
  {
    hide Config.Slot, Config.Incarnation;
    match step
    case Message(p, k, data) => Taken(c, s.locals[p], k, data); hide HandleMessage;
    case Echoes(_, q, e) => hide Matches, EchoOf;
    case Signature(_, k, sig) =>
    case Verified(_, check) => hide Get;
    case Written(_, slot) => hide ReadsOf;
    case Completed(_, read, found) => hide Readable;
  }

  lemma DeliveriesKeep(c: Config, s: State, step: Step, s': State, d: Delivery)
    requires c.tail > 0 && Inv(c, s) && Next(c, s, step, s') && d in s'.delivered
    ensures Sane(c, s') && DeliveryOk(c, s', d)
  {
    AcceptedExtends(c, s, step, s');
    if step.Poll? {
      PollDelivers(c, s, step.p, s');
    }
    if d in s.delivered {
      assert DeliveryOk(c, s, d);
      LatestGrows(c, s, step, s', d.receiver);
      assert Sane(c, s);
      hide Inv, Next;
      DeliveryStays(c, s, s', d);
    } else {
      LatestGrows(c, s, step, s', step.p);
      hide Inv, Next, DeliveryOk;
    }
  }

  lemma AppendIncreasing(delivered: seq<Delivery>, d: Delivery)
    requires Increasing(delivered)
    requires forall i :: 0 <= i < |delivered| && delivered[i].receiver == d.receiver ==> delivered[i].index < d.index
    ensures Increasing(delivered + [d])
  {}

  lemma IncreasingKeeps(c: Config, s: State, step: Step, s': State)
    requires c.tail > 0 && Inv(c, s) && Next(c, s, step, s')
    ensures Increasing(s'.delivered)
  {
    if step.Poll? {
      PollDelivers(c, s, step.p, s');
      var d := s'.delivered[|s.delivered|];
      forall i | 0 <= i < |s.delivered| && s.delivered[i].receiver == d.receiver
        ensures s.delivered[i].index < d.index
      {
        assert DeliveryOk(c, s, s.delivered[i]);
        hide Next, SeenOk, EchoOk, RegisterOk, CountOk, OrderOk;
      }
      assert Increasing(s.delivered);
      hide *;
      AppendIncreasing(s.delivered, d);
    } else {
      assert Sane(c, s) && c.Correct(step.p);
      LatestGrows(c, s, step, s', step.p);
      assert Increasing(s.delivered);
      hide *;
    }
  }

  lemma ReceiverKeeps(c: Config, s: State, step: Step, s': State, p: Replica)
    requires c.tail > 0 && Inv(c, s) && Next(c, s, step, s') && c.Correct(p)
    ensures Sane(c, s')
    ensures SeenOk(p, s'.locals[p], s'.accepted) && EchoOk(c, p, s'.locals[p], s'.accepted)
    ensures RegisterOk(c, p, s'.locals[p], s') && CountOk(c, p, s'.locals[p], s')
  {
    hide Inv, Next, SeenOk, EchoOk, RegisterOk, CountOk;
    RegistersKeep(c, s, step, s', p);
    SeenKeeps(c, s, step, s', p);
    EchoKeeps(c, s, step, s', p);
    CountsKeep(c, s, step, s', p);
  }

  lemma StepKeeps(c: Config, s: State, step: Step, s': State)
    requires c.tail > 0 && c.Valid() && Inv(c, s) && Next(c, s, step, s')
    ensures Inv(c, s')
  {
    StepShape(c, s, step, s');
    IncreasingKeeps(c, s, step, s');
    hide Next, Sane, SeenOk, EchoOk, RegisterOk, CountOk, OrderOk, DeliveryOk, Increasing;
    assert Inv(c, s') by {
      hide Inv;
      forall p: Replica | c.Correct(p)
        ensures Sane(c, s') && p < |s'.locals|
        ensures SeenOk(p, s'.locals[p], s'.accepted) && EchoOk(c, p, s'.locals[p], s'.accepted)
        ensures RegisterOk(c, p, s'.locals[p], s') && CountOk(c, p, s'.locals[p], s')
      {
        SaneCount(c, s', p);
        ReceiverKeeps(c, s, step, s', p);
      }
      forall p: Replica, q: Replica, k: Index | c.Correct(p) && c.Correct(q) && p != q ensures OrderOk(c, s', p, q, k) {
        OrderKeeps(c, s, step, s', p, q, k);
      }
      forall d | d in s'.delivered ensures DeliveryOk(c, s', d) {
        DeliveriesKeep(c, s, step, s', d);
      }
      InvFrom(c, s');
    }
  }

  lemma SaneCount(c: Config, s: State, p: Replica)
    requires Sane(c, s) && c.Correct(p)
    ensures p < |s.locals|
  {}

  lemma InvFrom(c: Config, s: State)
    requires c.tail > 0 && Sane(c, s) && Increasing(s.delivered)
    requires forall p: Replica :: c.Correct(p) ==> SeenOk(p, s.locals[p], s.accepted) && EchoOk(c, p, s.locals[p], s.accepted)
    requires forall p: Replica :: c.Correct(p) ==> RegisterOk(c, p, s.locals[p], s) && CountOk(c, p, s.locals[p], s)
    requires forall p: Replica, q: Replica, k: Index :: c.Correct(p) && c.Correct(q) && p != q ==> OrderOk(c, s, p, q, k)
    requires forall d :: d in s.delivered ==> DeliveryOk(c, s, d)
    ensures Inv(c, s)
  {
    hide SeenOk, EchoOk, RegisterOk, CountOk, OrderOk, DeliveryOk, Increasing;
  }

  lemma InitHolds(c: Config, s: State)
    requires c.tail > 0 && Init(c, s)
    ensures Inv(c, s)
  {
    hide Config.Slot, Config.Incarnation;
    forall p: Replica | c.Correct(p)
      ensures RegisterOk(c, p, s.locals[p], s) && CountOk(c, p, s.locals[p], s)
    {
      forall k: Index ensures CheckedOk(c, p, k, s.locals[p], s) {}
    }
  }

  lemma {:induction false} RunKeeps(c: Config, states: seq<State>, steps: seq<Step>, i: nat)
    requires c.Valid() && IsRun(c, states, steps) && i < |states|
    ensures Inv(c, states[i])
  {
    hide Inv, Next, Init, Sane;
    if i == 0 {
      InitHolds(c, states[0]);
    } else {
      RunKeeps(c, states, steps, i - 1);
      StepKeeps(c, states[i - 1], steps[i - 1], states[i]);
    }
  }

  // ---------- The guarantee ----------

  /** Two different messages that the comparison of echoes may take for each other:
      of two short ones, one is a prefix of the other; a short one and the hash of a
      long one likewise. */
  predicate Confusable(c: Config, k: Index, a: Bytes, b: Bytes) {
    if |a| < HASH_THRESHOLD && |b| < HASH_THRESHOLD then a <= b || b <= a
    else if |a| < HASH_THRESHOLD then a <= c.hash(k, b) || c.hash(k, b) <= a
    else if |b| < HASH_THRESHOLD then b == c.hash(k, a)
    else false
  }

  predicate Collide(c: Config, k: Index, a: Bytes, b: Bytes) {
    a != b && c.hash(k, a) == c.hash(k, b)
  }

  /** The comparison of a message with the echo of another may succeed exactly for
      equal, confusable and colliding ones. */
  lemma MayMatchExactly(c: Config, k: Index, a: Bytes, b: Bytes)
    requires c.Valid()
    ensures MayMatch(c, k, a, b) <==>
      a == b || Confusable(c, k, a, b) || (|a| >= HASH_THRESHOLD && |b| >= HASH_THRESHOLD && Collide(c, k, a, b))
  {
    var e := EchoOf(c, k, b);
    if |a| < HASH_THRESHOLD {
      if a <= e {
        assert Matches(c, k, a, Echo(k, e, []));
      } else if e <= a {
        assert a == e + a[|e|..];
        assert Matches(c, k, a, Echo(k, e, a[|e|..]));
      } else {
        forall stale ensures !Matches(c, k, a, Echo(k, e, stale)) {
          if a <= e + stale {
            Prefixes(a, e, stale);
          }
        }
      }
    } else {
      assert Matches(c, k, a, Echo(k, e, [])) <==> e == c.hash(k, a);
      assert forall stale :: Matches(c, k, a, Echo(k, e, stale)) <==> e == c.hash(k, a);
    }
  }

  lemma Prefixes(a: Bytes, e: Bytes, rest: Bytes)
    requires a <= e + rest
    ensures a <= e || e <= a
  {
    if |a| <= |e| {
      assert a == (e + rest)[..|a|] == e[..|a|];
    } else {
      assert a[..|e|] == (e + rest)[..|e|] == e;
    }
  }

  /** Whatever the broadcaster and any number of Byzantine receivers do: if two correct
      receivers deliver different messages for one index, one of them took the fast
      path and its message may match the other's echo, or their hashes collide. */
  lemma RunsAreConsistent(c: Config, states: seq<State>, steps: seq<Step>, i: nat, d: Delivery, e: Delivery)
    requires c.Valid() && IsRun(c, states, steps) && i < |states|
    requires d in states[i].delivered && e in states[i].delivered && d.index == e.index && d.data != e.data
    ensures d.receiver != e.receiver
    ensures Collide(c, d.index, d.data, e.data)
         || (d.fast && Confusable(c, d.index, d.data, e.data))
         || (e.fast && Confusable(c, d.index, e.data, d.data))
  {
    var s, k := states[i], d.index;
    var p, q := d.receiver, e.receiver;
    RunKeeps(c, states, steps, i);
    assert DeliveryOk(c, s, d) && DeliveryOk(c, s, e);
    MayMatchExactly(c, k, d.data, e.data);
    MayMatchExactly(c, k, e.data, d.data);
    assert p != q;
    if !d.fast && !e.fast {
      assert OrderOk(c, s, p, q, k) && OrderOk(c, s, q, p, k);
    }
    hide IsRun, SeenOk, EchoOk, RegisterOk, CountOk, MayMatch, Confusable, Config.Slot, Config.Incarnation;
  }

  /** Every receiver delivers in strictly increasing order, and so each index at most once. */
  lemma RunsDeliverInOrder(c: Config, states: seq<State>, steps: seq<Step>, i: nat, a: nat, b: nat)
    requires c.Valid() && IsRun(c, states, steps) && i < |states|
    requires a < b < |states[i].delivered| && states[i].delivered[a].receiver == states[i].delivered[b].receiver
    ensures states[i].delivered[a].index < states[i].delivered[b].index
  {
    RunKeeps(c, states, steps, i);
    hide IsRun, SeenOk, EchoOk, RegisterOk, CountOk, OrderOk, DeliveryOk;
  }
}
