/** The exceptions to consistency are real: for every pair of confusable messages there is
    a run in which two correct receivers deliver one each for the same index. The
    broadcaster sends one message to receiver 0, which takes the echo of the other for a
    match and delivers on the fast path; receiver 1 delivers the other on the slow path,
    since the register of receiver 0 is still empty. */
module TailCbConfusion {
  import opened Options
  import opened Quorums
  import opened TailCbProtocol
  import opened TailCbInvariant

  datatype Case = Case(hash: (Index, Bytes) -> Bytes, k: Index, a: Bytes, b: Bytes, stale: Bytes) {
    function C(): Config { Config(2, {}, 1, hash, (s: Bytes, h: Bytes) => s == h) }

    function Sig(): Bytes { hash(k, b) }

    function EchoB(): Echo { Echo(k, EchoOf(C(), k, b), stale) }

    ghost predicate Confused() { Matches(C(), k, a, EchoB()) }

    // ---------- Receiver 0 ----------

    function HeldA(): Data { Data(a, {}, true, None, 0) }

    function Zero(j: nat): Local {
      if j == 0 then Idle()
      else if j == 1 then Idle().(msgs := map[k := HeldA()])
      else if j == 2 then Idle().(msgs := map[k := HeldA().(echoes := {1})])
      else Idle().(latest := Some(k))
    }

    // ---------- Receiver 1 ----------

    function HeldB(): Data { Data(b, {}, true, None, 0) }

    function Own(): Check { OwnCheck(k, hash(k, b), Sig()) }

    function One(j: nat): Local {
      if j == 0 then Idle()
      else if j == 1 then Idle().(msgs := map[k := HeldB()])
      else if j == 2 then Idle().(msgs := map[k := HeldB().(sig := Some(Sig()))], checks := multiset{Own()})
      else if j == 3 then Idle().(msgs := map[k := HeldB().(sig := Some(Sig()))], writes := map[0 := k])
      else if j == 4 then Idle().(msgs := map[k := HeldB().(sig := Some(Sig()))], outReads := {Read(k, 0, 0)})
      else if j == 5 then Idle().(msgs := map[k := HeldB().(sig := Some(Sig()), checked := 1)])
      else Idle().(latest := Some(k))
    }

    function Idle(): Local { IDLE.(buffered := [[], []]) }
  }

  const EMPTY := Found(0, Register([], []))

  lemma SlotZero(x: Case)
    ensures x.C().Slot(x.k) == 0 && x.C().Incarnation(x.k) == x.k + 1
  {}

  lemma Accepts(x: Case, data: Bytes)
    ensures HandleMessage(x.C(), x.Idle(), x.k, data) == Some((x.Idle().(msgs := map[x.k := Data(data, {}, true, None, 0)]), true))
  {
    var c, l := x.C(), x.Idle();
    assert DropOlder([], x.k) == [];
    assert forall q: Replica :: q < 2 ==> !Replays(l.buffered[q], x.k);
    assert Fresh(c, l.buffered, x.k, data).echoes == {};
    assert Fresh(c, l.buffered, x.k, data) == Data(data, {}, true, None, 0);
    var msgs := l.msgs[x.k := Data(data, {}, true, None, 0)];
    assert msgs == map[x.k := Data(data, {}, true, None, 0)];
    assert msgs.Keys == {x.k} && |msgs| == |msgs.Keys|;
    assert AfterReplay([], x.k) == [];
    assert HandleMessage(c, l, x.k, data).value.0.buffered == [[], []];
  }

  lemma Matched(x: Case)
    requires x.Confused()
    ensures HandleEcho(x.C(), x.Zero(1), 1, x.EchoB()) == Some(x.Zero(2))
  {
    assert x.Zero(1).msgs[x.k := x.HeldA().(echoes := {1})] == map[x.k := x.HeldA().(echoes := {1})];
    assert x.HeldA().echoes + {1} == {1};
  }

  lemma PolledA(x: Case)
    ensures HandlePoll(x.C(), x.Zero(2)) == Some(x.Zero(3)) && FirstKey(x.Zero(2).msgs) == x.k && FastPath(x.C(), x.Zero(2).msgs[x.k])
  {
    assert x.k in x.Zero(2).msgs;
    assert FirstKey(x.Zero(2).msgs) == x.k;
    assert Without(x.Zero(2).msgs, x.k) == map[];
  }

  lemma Signs(x: Case)
    ensures HandleSignature(x.C(), x.One(1), x.k, x.Sig()) == Some(x.One(2))
  {
    assert x.One(1).msgs[x.k := x.HeldB().(sig := Some(x.Sig()))] == map[x.k := x.HeldB().(sig := Some(x.Sig()))];
    assert multiset{} + multiset{x.Own()} == multiset{x.Own()};
  }

  lemma Verifies(x: Case)
    ensures HandleCheck(x.C(), x.One(2), x.Own(), 0) == Some(x.One(3))
  {
    SlotZero(x);
    var none: map<nat, Index> := map[];
    assert none[0 := x.k] == map[0 := x.k];
    assert multiset{x.Own()} - multiset{x.Own()} == multiset{};
  }

  lemma Begins(x: Case)
    ensures HandleWritten(x.One(3), 0, {Read(x.k, 0, 0)}) == x.One(4)
  {
    assert Without(x.One(3).writes, 0) == map[];
  }

  lemma Clears(x: Case)
    ensures HandleRead(x.C(), x.One(4), Read(x.k, 0, 0), EMPTY) == Some(x.One(5))
    ensures Cleared(x.C(), x.One(4), Read(x.k, 0, 0), EMPTY)
  {
    SlotZero(x);
    assert x.One(4).outReads - {Read(x.k, 0, 0)} == {};
    assert x.One(4).msgs[x.k := x.One(5).msgs[x.k]] == x.One(5).msgs;
  }

  lemma PolledB(x: Case)
    ensures HandlePoll(x.C(), x.One(5)) == Some(x.One(6)) && FirstKey(x.One(5).msgs) == x.k && !FastPath(x.C(), x.One(5).msgs[x.k])
  {
    assert x.k in x.One(5).msgs;
    assert FirstKey(x.One(5).msgs) == x.k;
    assert Without(x.One(5).msgs, x.k) == map[];
  }

  // ---------- The run ----------

  function World(x: Case, zero: nat, one: nat, accepted: map<(Replica, Index), Bytes>, delivered: seq<Delivery>): State {
    State([x.Zero(zero), x.One(one)],
          if one < 3 then map[] else map[(1, x.k) := Register(x.hash(x.k, x.b), x.Sig())],
          if one < 4 then map[] else map[(1, 0) := x.k + 1],
          if one < 3 then map[] else map[(1, 0) := x.k + 1],
          accepted,
          if one < 5 then {} else {(1, x.k, 0)},
          delivered)
  }

  function A(x: Case): map<(Replica, Index), Bytes> { map[(0, x.k) := x.a] }
  function AB(x: Case): map<(Replica, Index), Bytes> { map[(0, x.k) := x.a, (1, x.k) := x.b] }
  function DeliverA(x: Case): Delivery { Delivery(0, x.k, x.a, true) }
  function DeliverB(x: Case): Delivery { Delivery(1, x.k, x.b, false) }

  ghost predicate Reached(c: Config, s: State) {
    exists states, steps :: IsRun(c, states, steps) && states[|states| - 1] == s
  }

  lemma Proceed(c: Config, s: State, step: Step, s': State)
    requires c.tail > 0 && Reached(c, s) && Sane(c, s) && Sane(c, s') && Next(c, s, step, s')
    ensures Reached(c, s')
  {
    hide Next, Init;
    var states, steps :| IsRun(c, states, steps) && states[|states| - 1] == s;
    var states', steps' := states + [s'], steps + [step];
    forall i | 0 <= i < |steps'| ensures Next(c, states'[i], steps'[i], states'[i + 1]) {
      if i < |steps| {
        assert Next(c, states[i], steps[i], states[i + 1]);
      }
    }
    assert IsRun(c, states', steps');
  }

  lemma Start(x: Case)
    ensures Reached(x.C(), World(x, 0, 0, map[], []))
  {
    var s := World(x, 0, 0, map[], []);
    var none: seq<seq<Echo>> := seq(2, _ => []);
    assert none == [[], []];
    assert s.locals == seq(2, _ => IDLE.(buffered := none));
    assert Init(x.C(), s);
    assert IsRun(x.C(), [s], []);
  }

  lemma Step0(x: Case)
    ensures var s, s' := World(x, 0, 0, map[], []), World(x, 1, 0, A(x), []);
            Sane(x.C(), s) && Sane(x.C(), s') && Next(x.C(), s, Message(0, x.k, x.a), s')
  {
    var s, s' := World(x, 0, 0, map[], []), World(x, 1, 0, A(x), []);
    Accepts(x, x.a);
    hide HandleMessage, Fresh;
    assert s'.locals == s.locals[0 := x.Zero(1)];
    assert s.accepted[(0, x.k) := x.a] == s'.accepted;
  }

  lemma Step1(x: Case)
    ensures var s, s' := World(x, 1, 0, A(x), []), World(x, 1, 1, AB(x), []);
            Sane(x.C(), s) && Sane(x.C(), s') && Next(x.C(), s, Message(1, x.k, x.b), s')
  {
    var s, s' := World(x, 1, 0, A(x), []), World(x, 1, 1, AB(x), []);
    Accepts(x, x.b);
    hide HandleMessage, Fresh;
    assert s'.locals == s.locals[1 := x.One(1)];
    assert s.accepted[(1, x.k) := x.b] == s'.accepted;
  }

  lemma Step2(x: Case)
    requires x.Confused()
    ensures var s, s' := World(x, 1, 1, AB(x), []), World(x, 2, 1, AB(x), []);
            Sane(x.C(), s) && Sane(x.C(), s') && Next(x.C(), s, Echoes(0, 1, x.EchoB()), s')
  {
    var s, s' := World(x, 1, 1, AB(x), []), World(x, 2, 1, AB(x), []);
    Matched(x);
    hide HandleEcho;
    assert s'.locals == s.locals[0 := x.Zero(2)];
  }

  lemma Step3(x: Case)
    ensures var s, s' := World(x, 2, 1, AB(x), []), World(x, 3, 1, AB(x), [DeliverA(x)]);
            Sane(x.C(), s) && Sane(x.C(), s') && Next(x.C(), s, Poll(0), s')
  {
    var s, s' := World(x, 2, 1, AB(x), []), World(x, 3, 1, AB(x), [DeliverA(x)]);
    PolledA(x);
    hide HandlePoll, FastPath, FirstKey;
    assert s'.locals == s.locals[0 := x.Zero(3)];
  }

  lemma Step4(x: Case)
    ensures var s, s' := World(x, 3, 1, AB(x), [DeliverA(x)]), World(x, 3, 2, AB(x), [DeliverA(x)]);
            Sane(x.C(), s) && Sane(x.C(), s') && Next(x.C(), s, Signature(1, x.k, x.Sig()), s')
  {
    var s, s' := World(x, 3, 1, AB(x), [DeliverA(x)]), World(x, 3, 2, AB(x), [DeliverA(x)]);
    Signs(x);
    hide HandleSignature;
    assert s'.locals == s.locals[1 := x.One(2)];
  }

  lemma Step5(x: Case)
    ensures var s, s' := World(x, 3, 2, AB(x), [DeliverA(x)]), World(x, 3, 3, AB(x), [DeliverA(x)]);
            Sane(x.C(), s) && Sane(x.C(), s') && Next(x.C(), s, Verified(1, x.Own()), s')
  {
    var s, s' := World(x, 3, 2, AB(x), [DeliverA(x)]), World(x, 3, 3, AB(x), [DeliverA(x)]);
    Verifies(x);
    SlotZero(x);
    hide HandleCheck, Config.Slot, Config.Incarnation;
    assert s'.locals == s.locals[1 := x.One(3)];
    assert s'.written == s.written[(1, x.k) := Register(x.hash(x.k, x.b), x.Sig())];
    assert s'.last == s.last[(1, 0) := x.k + 1];
  }

  lemma Step6(x: Case)
    ensures var s, s' := World(x, 3, 3, AB(x), [DeliverA(x)]), World(x, 3, 4, AB(x), [DeliverA(x)]);
            Sane(x.C(), s) && Sane(x.C(), s') && Next(x.C(), s, Written(1, 0), s')
  {
    var s, s' := World(x, 3, 3, AB(x), [DeliverA(x)]), World(x, 3, 4, AB(x), [DeliverA(x)]);
    Begins(x);
    SlotZero(x);
    hide HandleWritten, Config.Slot, Config.Incarnation;
    assert Get(s.done, 0, 0) == 0;
    assert forall q: Replica :: q in Group(2) && q != 1 <==> q == 0;
    assert ReadsOf(x.C(), s, 1, x.k) == {Read(x.k, 0, 0)};
    assert s'.locals == s.locals[1 := x.One(4)];
    assert s'.done == s.done[(1, 0) := x.k + 1];
  }

  lemma Step7(x: Case)
    ensures var s, s' := World(x, 3, 4, AB(x), [DeliverA(x)]), World(x, 3, 5, AB(x), [DeliverA(x)]);
            Sane(x.C(), s) && Sane(x.C(), s') && Next(x.C(), s, Completed(1, Read(x.k, 0, 0), EMPTY), s')
  {
    var s, s' := World(x, 3, 4, AB(x), [DeliverA(x)]), World(x, 3, 5, AB(x), [DeliverA(x)]);
    Clears(x);
    hide HandleRead, Cleared, Config.Slot, Config.Incarnation;
    assert s'.locals == s.locals[1 := x.One(5)];
    assert s'.cleared == s.cleared + {(1, x.k, 0)};
  }

  lemma Step8(x: Case)
    ensures var s, s' := World(x, 3, 5, AB(x), [DeliverA(x)]), World(x, 3, 6, AB(x), [DeliverA(x), DeliverB(x)]);
            Sane(x.C(), s) && Sane(x.C(), s') && Next(x.C(), s, Poll(1), s')
  {
    var s, s' := World(x, 3, 5, AB(x), [DeliverA(x)]), World(x, 3, 6, AB(x), [DeliverA(x), DeliverB(x)]);
    PolledB(x);
    hide HandlePoll, FastPath, FirstKey;
    assert s'.locals == s.locals[1 := x.One(6)];
  }

  lemma WholeRun(x: Case)
    requires x.Confused()
    ensures Reached(x.C(), World(x, 3, 6, AB(x), [DeliverA(x), DeliverB(x)]))
  {
    var c, d := x.C(), [DeliverA(x)];
    assert c.tail > 0;
    Start(x);
    Step0(x);
    Step1(x);
    Step2(x);
    Step3(x);
    Step4(x);
    Step5(x);
    Step6(x);
    Step7(x);
    Step8(x);
    hide *;
    Proceed(c, World(x, 0, 0, map[], []), Message(0, x.k, x.a), World(x, 1, 0, A(x), []));
    Proceed(c, World(x, 1, 0, A(x), []), Message(1, x.k, x.b), World(x, 1, 1, AB(x), []));
    Proceed(c, World(x, 1, 1, AB(x), []), Echoes(0, 1, x.EchoB()), World(x, 2, 1, AB(x), []));
    Proceed(c, World(x, 2, 1, AB(x), []), Poll(0), World(x, 3, 1, AB(x), d));
    Proceed(c, World(x, 3, 1, AB(x), d), Signature(1, x.k, x.Sig()), World(x, 3, 2, AB(x), d));
    Proceed(c, World(x, 3, 2, AB(x), d), Verified(1, x.Own()), World(x, 3, 3, AB(x), d));
    Proceed(c, World(x, 3, 3, AB(x), d), Written(1, 0), World(x, 3, 4, AB(x), d));
    Proceed(c, World(x, 3, 4, AB(x), d), Completed(1, Read(x.k, 0, 0), EMPTY), World(x, 3, 5, AB(x), d));
    Proceed(c, World(x, 3, 5, AB(x), d), Poll(1), World(x, 3, 6, AB(x), [DeliverA(x), DeliverB(x)]));
  }

  /** Every confusion happens: two correct receivers deliver a and b for index k. */
  lemma ConfusionHappens(hash: (Index, Bytes) -> Bytes, k: Index, a: Bytes, b: Bytes) returns (c: Config, states: seq<State>, steps: seq<Step>)
    requires forall j, m :: |hash(j, m)| == HASH_LENGTH
    requires MayMatch(Config(2, {}, 1, hash, (s: Bytes, h: Bytes) => s == h), k, a, b)
    ensures c.Valid() && c.byzantine == {} && c.hash == hash && IsRun(c, states, steps)
    ensures states[|states| - 1].delivered == [Delivery(0, k, a, true), Delivery(1, k, b, false)]
  {
    c := Config(2, {}, 1, hash, (s: Bytes, h: Bytes) => s == h);
    var stale :| Matches(c, k, a, Echo(k, EchoOf(c, k, b), stale));
    var x := Case(hash, k, a, b, stale);
    WholeRun(x);
    var last := World(x, 3, 6, AB(x), [DeliverA(x), DeliverB(x)]);
    hide Next, Init, Sane, Matches;
    states, steps :| IsRun(c, states, steps) && states[|states| - 1] == last;
  }
}
