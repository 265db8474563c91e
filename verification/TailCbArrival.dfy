/** The order in which a message and its echoes arrive does not matter: echoes that come first wait
    in order, and are counted when the message comes; once all have come, it is delivered. */
module TailCbArrival {
  import opened Buffers
  import opened Options
  import opened Quorums
  import opened TailCbProtocol
  import opened TailCbSteps

  // ---------- What a message replays ----------

  /** The first n echoes of the queue are older than index k, and the next one is not. */
  ghost predicate Leading(queue: seq<Echo>, k: Index, n: nat) {
    && n <= |queue|
    && (forall j :: 0 <= j < n ==> queue[j].index < k)
    && (n < |queue| ==> k <= queue[n].index)
  }

  /** Exactly: older echoes that lead are dropped, the next one is counted if it is for the message,
      and everything behind it stays. */
  lemma {:induction false} ReplaysExactly(queue: seq<Echo>, k: Index) returns (n: nat)
    ensures Leading(queue, k, n) && DropOlder(queue, k) == queue[n..]
    ensures Replays(queue, k) <==> n < |queue| && queue[n].index == k
    ensures AfterReplay(queue, k) == if Replays(queue, k) then queue[n + 1..] else queue[n..]
  {
    if queue != [] && queue[0].index < k {
      n := ReplaysExactly(queue[1..], k);
      assert queue[1..][n..] == queue[n + 1..];
      n := n + 1;
    } else {
      n := 0;
    }
  }

  /** Echoes of one receiver wait in order. */
  ghost predicate InOrder(queue: seq<Echo>) {
    forall i, j :: 0 <= i < j < |queue| ==> queue[i].index <= queue[j].index
  }

  /** An echo of the message counts wherever it waits, and all later ones stay. */
  lemma InOrderReplays(queue: seq<Echo>, k: Index)
    requires InOrder(queue)
    ensures Replays(queue, k) <==> exists e :: e in queue && e.index == k
    ensures InOrder(AfterReplay(queue, k))
    ensures forall e :: e in queue && k < e.index ==> e in AfterReplay(queue, k)
    ensures forall e :: e in AfterReplay(queue, k) ==> e in queue && k <= e.index
  {
    var n := ReplaysExactly(queue, k);
    hide Replays, AfterReplay, DropOlder;
    var from := if Replays(queue, k) then n + 1 else n;
    InSuffix(queue, from);
    forall i | n <= i < |queue| ensures k <= queue[i].index {
      assert i > n ==> queue[n].index <= queue[i].index;
    }
  }

  /** The echo comes before its message: it is neither for one stored nor behind all of them. */
  ghost predicate Early(l: Local, e: Echo) {
    && (l.latest.Some? ==> l.latest.value <= e.index) && e.index !in l.msgs
    && (l.msgs == map[] || exists j :: j in l.msgs && j <= e.index)
  }

  ghost function Hears(c: Config, l: Local, q: Replica, echoes: seq<Echo>): Option<Local>
    requires q < |l.buffered|
  {
    if echoes == [] then Some(l)
    else
      var before := Hears(c, l, q, echoes[..|echoes| - 1]);
      if before.None? || |before.value.buffered| <= q then None else HandleEcho(c, before.value, q, echoes[|echoes| - 1])
  }

  /** Early echoes of one receiver, sent in order, are accepted, and the newest ones wait, as many as
      the tail. */
  lemma {:induction false} EarlyEchoesWait(c: Config, l: Local, q: Replica, echoes: seq<Echo>)
    requires q < |l.buffered| && c.tail > 0 && |l.buffered[q]| <= c.tail
    requires InOrder(l.buffered[q] + echoes) && forall i :: 0 <= i < |echoes| ==> Early(l, echoes[i])
    ensures Hears(c, l, q, echoes) == Some(l.(buffered := l.buffered[q := Newest(l.buffered[q] + echoes, c.tail)]))
    decreases |echoes|
  {
    var queue := l.buffered[q];
    if echoes == [] {
      assert queue + echoes == queue;
      assert l.buffered == l.buffered[q := queue];
    } else {
      var front, e := echoes[..|echoes| - 1], echoes[|echoes| - 1];
      InOrderBefore(queue, echoes);
      EarlyEchoesWait(c, l, q, front);
      var kept := Newest(queue + front, c.tail);
      LastBefore(queue + front, e, kept);
      assert Early(l, e);
      EarlyEchoWaits(c, l, q, kept, e);
      OneMoreNewest(queue, front, e, c.tail);
      assert echoes == front + [e];
      hide HandleEcho, Newest, Push, Early, InOrder;
    }
  }

  lemma OneMoreNewest(queue: seq<Echo>, front: seq<Echo>, e: Echo, limit: nat)
    requires limit > 0
    ensures Push(Newest(queue + front, limit), limit, e) == Newest(queue + (front + [e]), limit)
  {
    assert queue + (front + [e]) == queue + front + [e];
  }

  lemma EarlyEchoWaits(c: Config, l: Local, q: Replica, kept: seq<Echo>, e: Echo)
    requires q < |l.buffered| && Early(l, e) && (kept != [] ==> kept[|kept| - 1].index <= e.index)
    ensures HandleEcho(c, l.(buffered := l.buffered[q := kept]), q, e) == Some(l.(buffered := l.buffered[q := Push(kept, c.tail, e)]))
  {
    assert l.buffered[q := kept][q := Push(kept, c.tail, e)] == l.buffered[q := Push(kept, c.tail, e)];
  }

  lemma InOrderBefore(queue: seq<Echo>, echoes: seq<Echo>)
    requires echoes != [] && InOrder(queue + echoes)
    ensures InOrder(queue + echoes[..|echoes| - 1]) && InOrder(queue + echoes[..|echoes| - 1] + [echoes[|echoes| - 1]])
  {
    var all := queue + echoes;
    assert queue + echoes[..|echoes| - 1] == all[..|all| - 1];
    assert queue + echoes[..|echoes| - 1] + [echoes[|echoes| - 1]] == all;
  }

  lemma LastBefore(all: seq<Echo>, e: Echo, kept: seq<Echo>)
    requires InOrder(all + [e]) && |kept| <= |all| && kept == all[|all| - |kept|..]
    ensures kept != [] ==> kept[|kept| - 1].index <= e.index
  {
    if kept != [] {
      assert kept[|kept| - 1] == all[|all| - 1] == (all + [e])[|all| - 1];
      assert (all + [e])[|all|] == e;
    }
  }

  // ---------- One echo and the message ----------

  /** Nothing at or past index k waits from receiver q. */
  ghost predicate OnlyOlder(c: Config, l: Local, q: Replica, k: Index)
    requires q < |l.buffered|
  {
    |l.buffered[q]| <= c.tail && forall x :: x in l.buffered[q] ==> x.index < k
  }

  lemma WaitsThen(c: Config, queue: seq<Echo>, e: Echo)
    requires c.tail > 0 && |queue| <= c.tail && forall x :: x in queue ==> x.index < e.index
    ensures !Replays(queue, e.index) && AfterReplay(queue, e.index) == []
    ensures Replays(Push(queue, c.tail, e), e.index) && AfterReplay(Push(queue, c.tail, e), e.index) == []
    ensures DropOlder(Push(queue, c.tail, e), e.index) == [e]
    ensures |Push(queue, c.tail, e)| <= c.tail
  {
    var kept := Push(queue, c.tail, e);
    var n := ReplaysExactly(queue, e.index);
    var m := ReplaysExactly(kept, e.index);
    assert kept[|kept| - 1] == e && forall j :: 0 <= j < |kept| - 1 ==> kept[j] in queue;
  }

  /** The message is taken. */
  ghost predicate Takes(c: Config, l: Local, k: Index, data: Bytes) {
    HandleMessage(c, l, k, data).Some? && HandleMessage(c, l, k, data).value.1
  }

  function After(c: Config, l: Local, k: Index, data: Bytes): Local
    requires Takes(c, l, k, data)
  {
    HandleMessage(c, l, k, data).value.0
  }

  /** A message that is taken pushes out the oldest one, if there are as many as the tail already. */
  lemma TakesForOldest(c: Config, l: Local, k: Index, data: Bytes)
    requires c.tail > 0 && |l.msgs| <= c.tail && Takes(c, l, k, data)
    ensures var m := After(c, l, k, data).msgs;
            && |m| <= c.tail && k in m
            && (forall j :: j in m && j != k ==> j in l.msgs && m[j] == l.msgs[j])
            && (forall j :: j in l.msgs && j !in m ==> |l.msgs| == c.tail && forall i :: i in m ==> j < i)
  {
    Taken(c, l, k, data);
    var msgs := l.msgs[k := Fresh(c, l.buffered, k, data)];
    assert After(c, l, k, data).msgs == if |msgs| > c.tail then Without(msgs, FirstKey(msgs)) else msgs;
    OneMoreKey(l.msgs, k, Fresh(c, l.buffered, k, data));
    WithoutFirst(msgs);
    hide Fresh, FirstKey, Without, HandleMessage;
  }

  lemma OneMoreKey(msgs: map<Index, Data>, k: Index, d: Data)
    requires k !in msgs
    ensures |msgs[k := d]| == |msgs| + 1
  {
    assert msgs[k := d].Keys == msgs.Keys + {k};
    assert |msgs[k := d]| == |msgs[k := d].Keys| && |msgs| == |msgs.Keys|;
  }

  lemma WithoutFirst(msgs: map<Index, Data>)
    requires msgs != map[]
    ensures var first := FirstKey(msgs);
            && first in msgs && |Without(msgs, first)| == |msgs| - 1
            && (forall j :: j in Without(msgs, first) <==> j in msgs && j != first)
            && forall j :: j in Without(msgs, first) ==> first < j
  {
    var rest := Without(msgs, FirstKey(msgs));
    assert rest.Keys == msgs.Keys - {FirstKey(msgs)};
    assert |rest| == |rest.Keys| && |msgs| == |msgs.Keys|;
  }

  /** An echo that comes before its message waits. */
  lemma EchoWaits(c: Config, l: Local, k: Index, data: Bytes, q: Replica, e: Echo)
    requires c.tail > 0 && Takes(c, l, k, data) && q < |l.buffered| && e.index == k && OnlyOlder(c, l, q, k)
    ensures HandleEcho(c, l, q, e) == Some(l.(buffered := l.buffered[q := Push(l.buffered[q], c.tail, e)]))
    ensures Takes(c, l.(buffered := l.buffered[q := Push(l.buffered[q], c.tail, e)]), k, data)
  {
    hide Fresh;
    var queue := l.buffered[q];
    assert queue != [] ==> queue[|queue| - 1] in queue;
  }

  /** It counts as one that comes after it: both orders lead to the same state. */
  lemma EchoAndMessageCommute(c: Config, l: Local, k: Index, data: Bytes, q: Replica, e: Echo)
    requires c.tail > 0 && Takes(c, l, k, data) && q < |l.buffered| && e.index == k && OnlyOlder(c, l, q, k)
    ensures HandleEcho(c, l, q, e).Some? && Takes(c, HandleEcho(c, l, q, e).value, k, data)
    ensures HandleEcho(c, After(c, l, k, data), q, e) == Some(After(c, HandleEcho(c, l, q, e).value, k, data))
  {
    EchoWaits(c, l, k, data, q, e);
    var w := HandleEcho(c, l, q, e).value;
    WaitsThen(c, l.buffered[q], e);
    var d, d' := Fresh(c, l.buffered, k, data), Fresh(c, w.buffered, k, data);
    FreshEchoed(c, l.buffered, k, data, q, e);
    Taken(c, l, k, data);
    Taken(c, w, k, data);
    var m, m' := After(c, l, k, data), After(c, w, k, data);
    assert d' == Echoed(c, d, q, e) && q !in d.echoes;
    SameTail(c, l, w, k, data);
    hide Fresh, HandleMessage, Replays, AfterReplay, Push, Takes, Matches, Echoed;
    assert HandleEcho(c, m, q, e) == Some(m.(msgs := m.msgs[k := d']));
    forall r | 0 <= r < |l.buffered| ensures m.buffered[r] == m'.buffered[r] {}
    assert m.buffered == m'.buffered;
    assert m.msgs[k := d'] == m'.msgs;
  }

  lemma FreshEchoed(c: Config, buffered: seq<seq<Echo>>, k: Index, data: Bytes, q: Replica, e: Echo)
    requires c.tail > 0 && q < |buffered| && e.index == k && |buffered[q]| <= c.tail && forall x :: x in buffered[q] ==> x.index < k
    ensures q !in Fresh(c, buffered, k, data).echoes
    ensures Fresh(c, buffered[q := Push(buffered[q], c.tail, e)], k, data) == Echoed(c, Fresh(c, buffered, k, data), q, e)
  {
    WaitsThen(c, buffered[q], e);
    var after := buffered[q := Push(buffered[q], c.tail, e)];
    hide Matches, Replays, Push;
    assert Fresh(c, after, k, data).echoes == Fresh(c, buffered, k, data).echoes + {q};
    assert DropOlder(after[q], k)[0] == e;
    assert forall r: Replica :: r < |buffered| && r != q ==> after[r] == buffered[r];
  }

  /** Which messages stay does not depend on the echoes that wait. */
  lemma SameTail(c: Config, l: Local, w: Local, k: Index, data: Bytes)
    requires c.tail > 0 && Takes(c, l, k, data) && Takes(c, w, k, data) && w == l.(buffered := w.buffered)
    ensures k in After(c, l, k, data).msgs && k in After(c, w, k, data).msgs
    ensures After(c, w, k, data).msgs == After(c, l, k, data).msgs[k := Fresh(c, w.buffered, k, data)]
  {
    Taken(c, l, k, data);
    SameFirst(l.msgs[k := Fresh(c, l.buffered, k, data)], k, Fresh(c, w.buffered, k, data));
    hide Fresh, FirstKey, Without;
    assert w.msgs[k := Fresh(c, w.buffered, k, data)] == l.msgs[k := Fresh(c, l.buffered, k, data)][k := Fresh(c, w.buffered, k, data)];
  }

  lemma SameFirst(msgs: map<Index, Data>, k: Index, d: Data)
    requires k in msgs
    ensures |msgs[k := d]| == |msgs| && FirstKey(msgs[k := d]) == FirstKey(msgs)
    ensures FirstKey(msgs) != k ==> Without(msgs[k := d], FirstKey(msgs)) == Without(msgs, FirstKey(msgs))[k := d]
  {
    var other := msgs[k := d];
    assert other.Keys == msgs.Keys && |other| == |other.Keys| && |msgs| == |msgs.Keys|;
    assert IsFirst(other, FirstKey(msgs));
  }

  // ---------- Any order of arrival ----------

  /** The message of index k comes, or an echo of it from receiver q. */
  datatype Arrival = Sent | Echoing(q: Replica, e: Echo)

  /** Everything comes once, and for index k. */
  ghost predicate Once(arrivals: seq<Arrival>, n: nat, k: Index) {
    && (forall i :: 0 <= i < |arrivals| && arrivals[i].Echoing? ==> arrivals[i].q < n && arrivals[i].e.index == k)
    && (forall i, j :: 0 <= i < j < |arrivals| ==> arrivals[i] != Sent || arrivals[j] != Sent)
    && forall i, j :: 0 <= i < j < |arrivals| && arrivals[i].Echoing? && arrivals[j].Echoing? ==> arrivals[i].q != arrivals[j].q
  }

  ghost function Arrive(c: Config, l: Local, k: Index, data: Bytes, a: Arrival): Option<Local> {
    match a
    case Sent => if Takes(c, l, k, data) then Some(After(c, l, k, data)) else None
    case Echoing(q, e) => if q < |l.buffered| then HandleEcho(c, l, q, e) else None
  }

  ghost function ArriveAll(c: Config, l: Local, k: Index, data: Bytes, arrivals: seq<Arrival>): Option<Local> {
    if arrivals == [] then Some(l)
    else
      var before := ArriveAll(c, l, k, data, arrivals[..|arrivals| - 1]);
      if before.None? then None else Arrive(c, before.value, k, data, arrivals[|arrivals| - 1])
  }

  /** The state if the message does not come, or comes last: all echoes wait. */
  function Waiting(c: Config, l: Local, arrivals: seq<Arrival>): (r: Local)
    ensures r == l.(buffered := r.buffered) && |r.buffered| == |l.buffered|
  {
    if arrivals == [] then l
    else
      var r, a := Waiting(c, l, arrivals[..|arrivals| - 1]), arrivals[|arrivals| - 1];
      if a.Echoing? && a.q < |r.buffered| then r.(buffered := r.buffered[a.q := Push(r.buffered[a.q], c.tail, a.e)]) else r
  }

  ghost predicate Came(arrivals: seq<Arrival>, q: Replica) {
    exists i :: 0 <= i < |arrivals| && arrivals[i].Echoing? && arrivals[i].q == q
  }

  lemma {:induction false} OthersWait(c: Config, l: Local, arrivals: seq<Arrival>, q: Replica)
    requires q < |l.buffered| && !Came(arrivals, q)
    ensures Waiting(c, l, arrivals).buffered[q] == l.buffered[q]
  {
    if arrivals != [] {
      var before := arrivals[..|arrivals| - 1];
      assert forall i :: 0 <= i < |before| ==> before[i] == arrivals[i];
      OthersWait(c, l, before, q);
    }
  }

  lemma OnceBefore(arrivals: seq<Arrival>, n: nat, k: Index)
    requires arrivals != [] && Once(arrivals, n, k)
    ensures Once(arrivals[..|arrivals| - 1], n, k)
    ensures var a := arrivals[|arrivals| - 1];
            if a.Echoing? then !Came(arrivals[..|arrivals| - 1], a.q) else Sent !in arrivals[..|arrivals| - 1]
  {}

  /** Whatever the order, it is as if the message came last. */
  lemma {:induction false} AnyOrder(c: Config, l: Local, k: Index, data: Bytes, arrivals: seq<Arrival>)
    requires c.tail > 0 && Takes(c, l, k, data) && Once(arrivals, |l.buffered|, k)
    requires forall q: Replica :: q < |l.buffered| ==> OnlyOlder(c, l, q, k)
    ensures var w := Waiting(c, l, arrivals);
            Takes(c, w, k, data) && ArriveAll(c, l, k, data, arrivals) == Some(if Sent in arrivals then After(c, w, k, data) else w)
    decreases |arrivals|
  {
    if arrivals != [] {
      var before, a := arrivals[..|arrivals| - 1], arrivals[|arrivals| - 1];
      OnceBefore(arrivals, |l.buffered|, k);
      AnyOrder(c, l, k, data, before);
      var w := Waiting(c, l, before);
      assert arrivals == before + [a];
      hide Takes, After, HandleEcho, Once, Came, Push, Waiting;
      if a.Echoing? {
        assert a.q < |l.buffered| && a.e.index == k by { EchoAt(arrivals, |l.buffered|, k, |arrivals| - 1); }
        OthersWait(c, l, before, a.q);
        assert OnlyOlder(c, l, a.q, k);
        EchoWaits(c, w, k, data, a.q, a.e);
        EchoAndMessageCommute(c, w, k, data, a.q, a.e);
      }
    }
  }

  lemma EchoAt(arrivals: seq<Arrival>, n: nat, k: Index, i: nat)
    requires Once(arrivals, n, k) && i < |arrivals| && arrivals[i].Echoing?
    ensures arrivals[i].q < n && arrivals[i].e.index == k
  {}

  // ---------- What the message then holds ----------

  ghost predicate MatchesAll(c: Config, k: Index, data: Bytes, arrivals: seq<Arrival>) {
    forall i :: 0 <= i < |arrivals| && arrivals[i].Echoing? ==> Matches(c, k, data, arrivals[i].e)
  }

  lemma {:induction false} Holds(c: Config, l: Local, k: Index, data: Bytes, arrivals: seq<Arrival>)
    requires c.tail > 0 && Once(arrivals, |l.buffered|, k) && forall q: Replica :: q < |l.buffered| ==> OnlyOlder(c, l, q, k)
    ensures var d := Fresh(c, Waiting(c, l, arrivals).buffered, k, data);
            && d == Data(data, d.echoes, d.match_, None, 0)
            && (forall q :: q in d.echoes <==> Came(arrivals, q))
            && (d.match_ <==> MatchesAll(c, k, data, arrivals))
    decreases |arrivals|
  {
    if arrivals == [] {
      forall q: Replica | q < |l.buffered| ensures !Replays(l.buffered[q], k) {
        assert OnlyOlder(c, l, q, k);
        WaitsThen(c, l.buffered[q], Echo(k, [], []));
      }
    } else {
      var before, a := arrivals[..|arrivals| - 1], arrivals[|arrivals| - 1];
      OnceBefore(arrivals, |l.buffered|, k);
      Holds(c, l, k, data, before);
      assert arrivals == before + [a];
      OneMoreCame(c, k, data, before, a);
      if a.Echoing? {
        EchoAt(arrivals, |l.buffered|, k, |arrivals| - 1);
        OthersWait(c, l, before, a.q);
        assert OnlyOlder(c, l, a.q, k);
        FreshEchoed(c, Waiting(c, l, before).buffered, k, data, a.q, a.e);
      }
      hide Fresh, Came, MatchesAll, Matches;
    }
  }

  lemma OneMoreCame(c: Config, k: Index, data: Bytes, before: seq<Arrival>, a: Arrival)
    ensures forall q :: Came(before + [a], q) <==> Came(before, q) || (a.Echoing? && a.q == q)
    ensures MatchesAll(c, k, data, before + [a]) <==> MatchesAll(c, k, data, before) && (a.Echoing? ==> Matches(c, k, data, a.e))
  {
    var all := before + [a];
    hide Matches;
    assert all[|before|] == a && forall i :: 0 <= i < |before| ==> all[i] == before[i];
    forall q | Came(before, q) ensures Came(all, q) {
      var i :| 0 <= i < |before| && before[i].Echoing? && before[i].q == q;
      assert all[i] == before[i];
    }
  }

  /** The echo of every other receiver came, and matches the message. */
  ghost predicate AllEchoed(c: Config, p: Replica, k: Index, data: Bytes, arrivals: seq<Arrival>) {
    (forall q: Replica :: q < c.n && q != p ==> Came(arrivals, q)) && MatchesAll(c, k, data, arrivals)
  }

  /** Once the message and its echoes came, in any order, it can be delivered on the fast path if and
      only if those of all other receivers came and match. */
  lemma FastPathExactly(c: Config, l: Local, p: Replica, k: Index, data: Bytes, arrivals: seq<Arrival>)
    requires c.tail > 0 && |l.buffered| == c.n && p < c.n && Takes(c, l, k, data) && Sent in arrivals
    requires Once(arrivals, c.n, k) && !Came(arrivals, p) && forall q: Replica :: q < c.n ==> OnlyOlder(c, l, q, k)
    ensures var r := ArriveAll(c, l, k, data, arrivals);
            && r.Some? && k in r.value.msgs && r.value.msgs[k].data == data
            && (FastPath(c, r.value.msgs[k]) <==> AllEchoed(c, p, k, data, arrivals))
  {
    AnyOrder(c, l, k, data, arrivals);
    Holds(c, l, k, data, arrivals);
    var w := Waiting(c, l, arrivals);
    Taken(c, w, k, data);
    var d := Fresh(c, w.buffered, k, data);
    hide Fresh, Waiting, ArriveAll, HandleMessage, MatchesAll;
    assert d.echoes <= Group(c.n) - {p} by { EchoersOthers(arrivals, c.n, k, p, d.echoes); }
    Everyone(c.n, p, d.echoes);
  }

  lemma EchoersOthers(arrivals: seq<Arrival>, n: nat, k: Index, p: Replica, echoes: set<Replica>)
    requires Once(arrivals, n, k) && !Came(arrivals, p) && forall q :: q in echoes <==> Came(arrivals, q)
    ensures echoes <= Group(n) - {p}
  {}

  lemma Everyone(n: nat, p: Replica, echoes: set<Replica>)
    requires p < n && echoes <= Group(n) - {p}
    ensures |echoes| + 1 == n <==> forall q: Replica :: q < n && q != p ==> q in echoes
  {
    GroupSize(n);
    var others := Group(n) - {p};
    assert Group(n) == others + {p};
    if others <= echoes {
      assert others == echoes;
    }
    if |echoes| + 1 == n {
      SubsetSize(echoes, others);
    }
  }

  /** If it is the oldest message stored, `poll` then delivers it. */
  lemma FastPathDelivers(c: Config, l: Local, p: Replica, k: Index, data: Bytes, arrivals: seq<Arrival>)
    requires c.tail > 0 && |l.buffered| == c.n && p < c.n && Takes(c, l, k, data) && Sent in arrivals
    requires Once(arrivals, c.n, k) && !Came(arrivals, p) && forall q: Replica :: q < c.n ==> OnlyOlder(c, l, q, k)
    requires AllEchoed(c, p, k, data, arrivals)
    ensures var r := ArriveAll(c, l, k, data, arrivals);
            r.Some? && (IsFirst(r.value.msgs, k) ==>
                          && HandlePoll(c, r.value).Some?
                          && HandlePoll(c, r.value).value == r.value.(latest := Some(k), msgs := r.value.msgs - {k}))
  {
    FastPathExactly(c, l, p, k, data, arrivals);
    var l' := ArriveAll(c, l, k, data, arrivals).value;
    hide ArriveAll, AllEchoed, FastPath, HandlePoll, IsFirst;
    if IsFirst(l'.msgs, k) {
      PollsFirst(c, l', k);
    }
  }

  lemma PollsFirst(c: Config, l: Local, k: Index)
    requires IsFirst(l.msgs, k) && Pollable(c, l.msgs[k])
    ensures HandlePoll(c, l) == Some(l.(latest := Some(k), msgs := l.msgs - {k}))
  {
    hide Pollable;
    assert FirstKey(l.msgs) == k;
    assert Without(l.msgs, k) == l.msgs - {k};
  }
}
