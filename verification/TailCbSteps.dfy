/** Every step keeps the invariant of tail consistent broadcast. */
module TailCbSteps {
  import opened Options
  import opened TailCbProtocol
  import opened TailCbInvariant

  // ---------- What the handlers do to the tail ----------

  /** A message that is taken is the newest of the tail and stays in it. */
  lemma Taken(c: Config, l: Local, k: Index, data: Bytes)
    requires c.tail > 0 && HandleMessage(c, l, k, data).Some?
    ensures var (l', taken) := HandleMessage(c, l, k, data).value;
            if !taken then l' == l
            else
              && l' == l.(msgs := l'.msgs, buffered := l'.buffered)
              && |l'.buffered| == |l.buffered|
              && (forall q: Replica :: q < |l.buffered| ==> l'.buffered[q] == AfterReplay(l.buffered[q], k))
              && k !in l.msgs
              && (forall j :: j in l.msgs ==> j < k)
              && (l.latest.Some? ==> l.latest.value < k)
              && k in l'.msgs && l'.msgs[k] == Fresh(c, l.buffered, k, data)
              && (forall j :: j in l'.msgs && j != k ==> j in l.msgs && l'.msgs[j] == l.msgs[j])
  {
    var msgs := l.msgs[k := Fresh(c, l.buffered, k, data)];
    if |msgs| > c.tail {
      hide Fresh;
      var first := FirstKey(msgs);
      if HandleMessage(c, l, k, data).value.1 {
        assert first == k ==> msgs.Keys == {k} && |msgs| == |msgs.Keys|;
      }
    }
  }

  lemma Polled(c: Config, l: Local)
    requires HandlePoll(c, l).Some?
    ensures l.msgs != map[]
    ensures var k := FirstKey(l.msgs);
            && Pollable(c, l.msgs[k])
            && (forall j :: j in l.msgs ==> k <= j)
            && HandlePoll(c, l).value == l.(latest := Some(k), msgs := Without(l.msgs, k))
  {}

  // ---------- Accepted and seen messages ----------

  /** Accepted messages are never replaced. */
  lemma AcceptedStay(c: Config, s: State, step: Step, s': State, p: Replica, k: Index)
    requires c.tail > 0 && Inv(c, s) && Next(c, s, step, s') && (p, k) in s.accepted
    ensures (p, k) in s'.accepted && s'.accepted[(p, k)] == s.accepted[(p, k)]
  {
    hide EchoOk, RegisterOk, CountOk, OrderOk, DeliveryOk, Increasing, Fresh, HandleEcho, HandleCheck, HandleRead, HandleSignature, HandlePoll, Readable;
    assert SeenOk(step.p, s.locals[step.p], s.accepted);
  }

  lemma SeenBefore(l: Local, l': Local, k: Index, j: Index)
    requires k in l'.msgs && (forall i :: i in l.msgs ==> i < k) && (l.latest.Some? ==> l.latest.value < k)
    requires j == k || Seen(l, j)
    ensures Seen(l', j)
  {}

  lemma MessageAllSeen(p: Replica, l: Local, l': Local, k: Index, data: Bytes, accepted: map<(Replica, Index), Bytes>)
    requires AllSeen(p, l, accepted)
    requires k in l'.msgs && (forall i :: i in l.msgs ==> i < k) && (l.latest.Some? ==> l.latest.value < k)
    ensures AllSeen(p, l', accepted[(p, k) := data])
  {
    hide Seen;
    forall j | (p, j) in accepted[(p, k) := data] ensures Seen(l', j) {
      SeenBefore(l, l', k, j);
    }
  }

  lemma MessageTail(c: Config, p: Replica, l: Local, k: Index, data: Bytes, accepted: map<(Replica, Index), Bytes>)
    requires c.tail > 0 && TailAccepted(p, l, accepted)
    requires HandleMessage(c, l, k, data).Some? && HandleMessage(c, l, k, data).value.1
    ensures TailAccepted(p, HandleMessage(c, l, k, data).value.0, accepted[(p, k) := data])
    ensures TailNewer(l) ==> TailNewer(HandleMessage(c, l, k, data).value.0)
  {
    Taken(c, l, k, data);
    hide HandleMessage;
    assert HandleMessage(c, l, k, data).value.0.msgs[k].data == data;
  }

  lemma MessageSeen(c: Config, p: Replica, l: Local, k: Index, data: Bytes, accepted: map<(Replica, Index), Bytes>)
    requires c.tail > 0 && SeenOk(p, l, accepted)
    requires HandleMessage(c, l, k, data).Some? && HandleMessage(c, l, k, data).value.1
    ensures SeenOk(p, HandleMessage(c, l, k, data).value.0, accepted[(p, k) := data])
  {
    Taken(c, l, k, data);
    hide HandleMessage, AllSeen, TailAccepted, TailNewer;
    MessageTail(c, p, l, k, data, accepted);
    MessageAllSeen(p, l, HandleMessage(c, l, k, data).value.0, k, data, accepted);
  }

  lemma SeenPast(l: Local, k: Index, j: Index)
    requires k in l.msgs && Seen(l, j) && (l.latest.Some? ==> l.latest.value < k)
    ensures Seen(l.(latest := Some(k), msgs := Without(l.msgs, k)), j)
  {
    if k < j {
      var i :| i in l.msgs && j <= i;
      assert i in Without(l.msgs, k);
    }
  }

  lemma PollAllSeen(p: Replica, l: Local, k: Index, accepted: map<(Replica, Index), Bytes>)
    requires AllSeen(p, l, accepted) && k in l.msgs && (l.latest.Some? ==> l.latest.value < k)
    ensures AllSeen(p, l.(latest := Some(k), msgs := Without(l.msgs, k)), accepted)
  {
    hide Seen;
    forall j | (p, j) in accepted ensures Seen(l.(latest := Some(k), msgs := Without(l.msgs, k)), j) {
      SeenPast(l, k, j);
    }
  }

  lemma PollTail(c: Config, p: Replica, l: Local, accepted: map<(Replica, Index), Bytes>)
    requires HandlePoll(c, l).Some?
    ensures TailNewer(HandlePoll(c, l).value)
    ensures TailAccepted(p, l, accepted) ==> TailAccepted(p, HandlePoll(c, l).value, accepted)
  {
    Polled(c, l);
    hide HandlePoll, Pollable;
  }

  lemma PollSeen(c: Config, p: Replica, l: Local, accepted: map<(Replica, Index), Bytes>)
    requires SeenOk(p, l, accepted) && HandlePoll(c, l).Some?
    ensures SeenOk(p, HandlePoll(c, l).value, accepted)
  {
    Polled(c, l);
    var k := FirstKey(l.msgs);
    assert l.latest.Some? ==> l.latest.value < k;
    hide HandlePoll, Pollable, AllSeen, TailAccepted, TailNewer;
    PollTail(c, p, l, accepted);
    PollAllSeen(p, l, k, accepted);
  }

  /** The same messages are in the tail, whatever is known about them. */
  ghost predicate SameMsgs(l: Local, l': Local) {
    && l'.latest == l.latest
    && (forall k :: k in l'.msgs <==> k in l.msgs)
    && forall k :: k in l.msgs ==> l'.msgs[k].data == l.msgs[k].data
  }

  lemma SeenStill(l: Local, l': Local, j: Index)
    requires Seen(l, j) && SameMsgs(l, l')
    ensures Seen(l', j)
  {}

  lemma SameTail(p: Replica, l: Local, l': Local, accepted: map<(Replica, Index), Bytes>)
    requires SameMsgs(l, l')
    ensures TailAccepted(p, l, accepted) ==> TailAccepted(p, l', accepted)
    ensures TailNewer(l) ==> TailNewer(l')
  {}

  /** Nothing but the tail and the last polled index matter. */
  lemma SameSeen(p: Replica, l: Local, l': Local, accepted: map<(Replica, Index), Bytes>)
    requires SeenOk(p, l, accepted) && SameMsgs(l, l')
    ensures SeenOk(p, l', accepted)
  {
    SameTail(p, l, l', accepted);
    hide TailAccepted, TailNewer, SameMsgs, Seen;
    forall j | (p, j) in accepted ensures Seen(l', j) {
      SeenStill(l, l', j);
    }
  }

  lemma OthersSeen(c: Config, p: Replica, l: Local, accepted: map<(Replica, Index), Bytes>, q: Replica, k: Index, data: Bytes)
    requires SeenOk(p, l, accepted) && p != q
    ensures SeenOk(p, l, accepted[(q, k) := data])
  {}

  /** The same messages are in the tail, with the same echoes. */
  ghost predicate SameEchoes(l: Local, l': Local) {
    && l'.buffered == l.buffered
    && (forall k :: k in l'.msgs <==> k in l.msgs)
    && forall k :: k in l.msgs ==> l'.msgs[k].data == l.msgs[k].data && l'.msgs[k].echoes == l.msgs[k].echoes && l'.msgs[k].match_ == l.msgs[k].match_
  }

  lemma SignatureKeepsMsgs(c: Config, l: Local, k: Index, sig: Bytes)
    ensures HandleSignature(c, l, k, sig).Some? ==> SameMsgs(l, HandleSignature(c, l, k, sig).value) && SameEchoes(l, HandleSignature(c, l, k, sig).value)
  {}

  lemma CheckKeepsMsgs(c: Config, l: Local, check: Check, last: nat)
    requires c.tail > 0
    ensures HandleCheck(c, l, check, last).Some? ==> SameMsgs(l, HandleCheck(c, l, check, last).value) && SameEchoes(l, HandleCheck(c, l, check, last).value)
  {}

  lemma ReadKeepsMsgs(c: Config, l: Local, read: Read, found: Found)
    requires c.tail > 0
    ensures HandleRead(c, l, read, found).Some? ==> SameMsgs(l, HandleRead(c, l, read, found).value) && SameEchoes(l, HandleRead(c, l, read, found).value)
  {}

  lemma EchoKeepsMsgs(c: Config, l: Local, q: Replica, e: Echo)
    requires q < |l.buffered|
    ensures HandleEcho(c, l, q, e).Some? ==> SameMsgs(l, HandleEcho(c, l, q, e).value)
  {
    hide Matches;
  }

  predicate TakesMessage(c: Config, s: State, step: Step)
    requires Sane(c, s) && step.p < c.n
  {
    step.Message? &&
    var r := HandleMessage(c, s.locals[step.p], step.k, step.data);
    r.Some? && r.value.1
  }

  /** Steps other than accepting and polling a message keep the tail's messages. */
  lemma StepKeepsMsgs(c: Config, s: State, step: Step, s': State)
    requires c.tail > 0 && Sane(c, s) && Next(c, s, step, s') && !step.Poll? && !TakesMessage(c, s, step)
    ensures SameMsgs(s.locals[step.p], s'.locals[step.p])
    ensures s'.accepted == s.accepted
  {
    var l := s.locals[step.p];
    match step
    case Message(_, k, data) => Taken(c, l, k, data); hide *;
    case Echoes(_, q, e) => EchoKeepsMsgs(c, l, q, e); hide HandleEcho, Readable;
    case Signature(_, k, sig) => SignatureKeepsMsgs(c, l, k, sig); hide HandleSignature;
    case Verified(_, check) => CheckKeepsMsgs(c, l, check, Get(s.last, step.p, c.Slot(check.index))); hide HandleCheck;
    case Written(_, slot) => hide ReadsOf;
    case Completed(_, read, found) => ReadKeepsMsgs(c, l, read, found); hide HandleRead, Readable;
    case Poll(_) =>
  }

  lemma SeenKeeps(c: Config, s: State, step: Step, s': State, p: Replica)
    requires c.tail > 0 && Inv(c, s) && Next(c, s, step, s') && c.Correct(p)
    ensures SeenOk(p, s'.locals[p], s'.accepted)
  {
    var l := s.locals[step.p];
    assert SeenOk(p, s.locals[p], s.accepted) && SeenOk(step.p, l, s.accepted);
    hide EchoOk, RegisterOk, CountOk, OrderOk, DeliveryOk, Increasing, Readable, SeenOk, AllSeen, TailAccepted, TailNewer, HandleEcho, HandleCheck, HandleRead, HandleSignature;
    if TakesMessage(c, s, step) {
      MessageSeen(c, step.p, l, step.k, step.data, s.accepted);
      if p != step.p {
        OthersSeen(c, p, s.locals[p], s.accepted, step.p, step.k, step.data);
      }
    } else if step.Poll? {
      PollSeen(c, step.p, l, s.accepted);
    } else {
      StepKeepsMsgs(c, s, step, s');
      hide HandleMessage, HandlePoll, SameMsgs;
      SameSeen(step.p, l, s'.locals[step.p], s.accepted);
    }
  }
}
