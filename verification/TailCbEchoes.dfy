/** Every step keeps what is known about echoes. */
module TailCbEchoes {
  import opened Quorums
  import opened TailCbProtocol
  import opened TailCbInvariant
  import opened TailCbSteps

  ghost predicate Extends(a: map<(Replica, Index), Bytes>, b: map<(Replica, Index), Bytes>) {
    forall x :: x in a ==> x in b && b[x] == a[x]
  }

  lemma AcceptedExtends(c: Config, s: State, step: Step, s': State)
    requires c.tail > 0 && Inv(c, s) && Next(c, s, step, s')
    ensures Extends(s.accepted, s'.accepted)
  {
    hide Inv, Next;
    forall x | x in s.accepted ensures x in s'.accepted && s'.accepted[x] == s.accepted[x] {
      AcceptedStay(c, s, step, s', x.0, x.1);
    }
  }

  lemma BufferedExtends(c: Config, p: Replica, l: Local, a: map<(Replica, Index), Bytes>, b: map<(Replica, Index), Bytes>)
    requires Extends(a, b)
    ensures BufferedOk(c, p, l, a) ==> BufferedOk(c, p, l, b)
  {
    hide EchoOf;
    if BufferedOk(c, p, l, a) {
      forall q: Replica, e | q < c.n && e in l.buffered[q] ensures EchoFrom(c, b, q, e) {
        assert EchoFrom(c, a, q, e);
      }
    }
  }

  lemma MatchExtends(c: Config, k: Index, d: Data, a: map<(Replica, Index), Bytes>, b: map<(Replica, Index), Bytes>)
    requires Extends(a, b) && EchoesMatch(c, k, d, a)
    ensures EchoesMatch(c, k, d, b)
  {
    hide MayMatch;
  }

  lemma TailExtends(c: Config, p: Replica, l: Local, a: map<(Replica, Index), Bytes>, b: map<(Replica, Index), Bytes>)
    requires Extends(a, b) && TailEchoes(c, p, l, a)
    ensures TailEchoes(c, p, l, b)
  {
    hide EchoesMatch, Extends;
    forall k | k in l.msgs ensures EchoesMatch(c, k, l.msgs[k], b) {
      MatchExtends(c, k, l.msgs[k], a, b);
    }
  }

  /** An echo that matches shows that its sender's message may match. */
  lemma EchoShows(c: Config, k: Index, data: Bytes, accepted: map<(Replica, Index), Bytes>, q: Replica, e: Echo)
    requires EchoFrom(c, accepted, q, e) && c.Correct(q) && e.index == k && Matches(c, k, data, e)
    ensures (q, k) in accepted && MayMatch(c, k, data, accepted[(q, k)])
  {
    assert e == Echo(k, EchoOf(c, k, accepted[(q, k)]), e.stale);
  }

  lemma ReplayedEcho(queue: seq<Echo>, k: Index)
    requires Replays(queue, k)
    ensures DropOlder(queue, k) != [] && DropOlder(queue, k)[0] in queue && DropOlder(queue, k)[0].index == k
  {}

  /** The echoes buffered before their message are taken into account with it. */
  lemma FreshMatches(c: Config, p: Replica, l: Local, k: Index, data: Bytes, accepted: map<(Replica, Index), Bytes>)
    requires BufferedOk(c, p, l, accepted)
    ensures var d := Fresh(c, l.buffered, k, data);
            p !in d.echoes && d.echoes <= Group(c.n) && EchoesMatch(c, k, d, accepted)
  {
    var d := Fresh(c, l.buffered, k, data);
    hide Matches, EchoFrom, MayMatch, DropOlder;
    if d.match_ {
      forall q | q in d.echoes && c.Correct(q) ensures (q, k) in accepted && MayMatch(c, k, d.data, accepted[(q, k)]) {
        ReplayedEcho(l.buffered[q], k);
        EchoShows(c, k, data, accepted, q, DropOlder(l.buffered[q], k)[0]);
      }
    }
    assert DropOlder([], k) == [] by { EmptyQueue(k); }
  }

  lemma EmptyQueue(k: Index)
    ensures DropOlder([], k) == []
  {}

  lemma MessageBuffered(c: Config, p: Replica, l: Local, k: Index, data: Bytes, accepted: map<(Replica, Index), Bytes>)
    requires c.tail > 0 && BufferedOk(c, p, l, accepted) && HandleMessage(c, l, k, data).Some?
    ensures BufferedOk(c, p, HandleMessage(c, l, k, data).value.0, accepted)
  {
    Taken(c, l, k, data);
    EmptyQueue(k);
    hide HandleMessage, EchoFrom, Fresh, DropOlder;
  }

  lemma MessageEchoes(c: Config, p: Replica, l: Local, k: Index, data: Bytes, accepted: map<(Replica, Index), Bytes>)
    requires c.tail > 0 && EchoOk(c, p, l, accepted) && HandleMessage(c, l, k, data).Some?
    ensures TailEchoes(c, p, HandleMessage(c, l, k, data).value.0, accepted)
  {
    Taken(c, l, k, data);
    FreshMatches(c, p, l, k, data, accepted);
    hide HandleMessage, EchoesMatch, Fresh, BufferedOk;
  }

  lemma EchoedMatches(c: Config, k: Index, d: Data, accepted: map<(Replica, Index), Bytes>, q: Replica, e: Echo)
    requires EchoesMatch(c, k, d, accepted) && EchoFrom(c, accepted, q, e) && e.index == k
    ensures EchoesMatch(c, k, Echoed(c, d, q, e), accepted)
  {
    hide MayMatch, EchoFrom;
    if c.Correct(q) && Matches(c, k, d.data, e) {
      EchoShows(c, k, d.data, accepted, q, e);
    }
  }

  lemma EchoBuffered(c: Config, p: Replica, l: Local, q: Replica, e: Echo, accepted: map<(Replica, Index), Bytes>)
    requires BufferedOk(c, p, l, accepted) && q < c.n && q != p && EchoFrom(c, accepted, q, e) && HandleEcho(c, l, q, e).Some?
    ensures BufferedOk(c, p, HandleEcho(c, l, q, e).value, accepted)
  {
    hide EchoFrom, Echoed;
  }

  lemma EchoEchoes(c: Config, p: Replica, l: Local, q: Replica, e: Echo, accepted: map<(Replica, Index), Bytes>)
    requires TailEchoes(c, p, l, accepted) && q < c.n && |l.buffered| == c.n && q != p && EchoFrom(c, accepted, q, e) && HandleEcho(c, l, q, e).Some?
    ensures TailEchoes(c, p, HandleEcho(c, l, q, e).value, accepted)
  {
    if e.index in l.msgs {
      EchoedMatches(c, e.index, l.msgs[e.index], accepted, q, e);
    }
    hide EchoFrom, EchoesMatch, Matches;
  }

  lemma PollEchoes(c: Config, p: Replica, l: Local, accepted: map<(Replica, Index), Bytes>)
    requires EchoOk(c, p, l, accepted) && HandlePoll(c, l).Some?
    ensures EchoOk(c, p, HandlePoll(c, l).value, accepted)
  {
    Polled(c, l);
    hide HandlePoll, EchoFrom, EchoesMatch, Pollable;
  }

  lemma EchoesUnchanged(c: Config, p: Replica, l: Local, l': Local, accepted: map<(Replica, Index), Bytes>)
    requires EchoOk(c, p, l, accepted) && SameEchoes(l, l')
    ensures EchoOk(c, p, l', accepted)
  {
    hide EchoFrom, MayMatch;
  }

  lemma SlowKeepsEchoes(c: Config, s: State, step: Step, s': State)
    requires c.tail > 0 && Sane(c, s) && Next(c, s, step, s') && !step.Message? && !step.Echoes? && !step.Poll?
    ensures SameEchoes(s.locals[step.p], s'.locals[step.p]) && s'.accepted == s.accepted
  {
    var l := s.locals[step.p];
    match step
    case Signature(_, k, sig) => SignatureKeepsMsgs(c, l, k, sig); hide HandleSignature;
    case Verified(_, check) => CheckKeepsMsgs(c, l, check, Get(s.last, step.p, c.Slot(check.index))); hide HandleCheck;
    case Written(_, slot) => hide ReadsOf;
    case Completed(_, read, found) => ReadKeepsMsgs(c, l, read, found); hide HandleRead, Readable;
    case _ =>
  }

  lemma MessageKeeps(c: Config, p: Replica, l: Local, k: Index, data: Bytes, accepted: map<(Replica, Index), Bytes>, after: map<(Replica, Index), Bytes>)
    requires c.tail > 0 && EchoOk(c, p, l, accepted) && HandleMessage(c, l, k, data).Some? && Extends(accepted, after)
    ensures EchoOk(c, p, HandleMessage(c, l, k, data).value.0, after)
  {
    MessageBuffered(c, p, l, k, data, accepted);
    MessageEchoes(c, p, l, k, data, accepted);
    hide HandleMessage, BufferedOk, TailEchoes;
    BufferedExtends(c, p, HandleMessage(c, l, k, data).value.0, accepted, after);
    TailExtends(c, p, HandleMessage(c, l, k, data).value.0, accepted, after);
  }

  lemma OthersKeep(c: Config, p: Replica, l: Local, accepted: map<(Replica, Index), Bytes>, after: map<(Replica, Index), Bytes>)
    requires EchoOk(c, p, l, accepted) && Extends(accepted, after)
    ensures EchoOk(c, p, l, after)
  {
    BufferedExtends(c, p, l, accepted, after);
    TailExtends(c, p, l, accepted, after);
  }

  lemma EchoKeeps(c: Config, s: State, step: Step, s': State, p: Replica)
    requires c.tail > 0 && Inv(c, s) && Next(c, s, step, s') && c.Correct(p)
    ensures EchoOk(c, p, s'.locals[p], s'.accepted)
  {
    var l := s.locals[step.p];
    assert EchoOk(c, p, s.locals[p], s.accepted) && EchoOk(c, step.p, l, s.accepted);
    AcceptedExtends(c, s, step, s');
    assert |l.buffered| == c.n && step.p < c.n;
    if p != step.p {
      hide Inv, Extends, EchoOk, Readable, HandleMessage, HandleEcho, HandleCheck, HandleRead, HandleSignature, HandlePoll, ReadsOf;
      OthersKeep(c, p, s.locals[p], s.accepted, s'.accepted);
    } else {
      OwnKeeps(c, s, step, s');
    }
  }

  lemma OwnKeeps(c: Config, s: State, step: Step, s': State)
    requires c.tail > 0 && Sane(c, s) && c.Correct(step.p) && EchoOk(c, step.p, s.locals[step.p], s.accepted)
    requires Next(c, s, step, s') && Extends(s.accepted, s'.accepted)
    ensures EchoOk(c, step.p, s'.locals[step.p], s'.accepted)
  {
    var p, l := step.p, s.locals[step.p];
    assert BufferedOk(c, p, l, s.accepted) && TailEchoes(c, p, l, s.accepted);
    hide BufferedOk, TailEchoes, Extends, Readable, HandleCheck, HandleRead, HandleSignature, SameEchoes;
    match step
    case Message(_, k, data) =>
      MessageKeeps(c, p, l, k, data, s.accepted, s'.accepted);
      hide HandleMessage;
    case Echoes(_, q, e) =>
      EchoBuffered(c, p, l, q, e, s.accepted);
      EchoEchoes(c, p, l, q, e, s.accepted);
      hide HandleEcho;
    case Poll(_) =>
      PollEchoes(c, p, l, s.accepted);
      hide HandlePoll;
    case _ =>
      SlowKeepsEchoes(c, s, step, s');
      EchoesUnchanged(c, p, l, s'.locals[p], s.accepted);
  }
}
