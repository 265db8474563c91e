/** In which order the messages of a stream finish when waits nest, and a run in which a
    replica throws on its own prepare. */
module ConsensusNesting {
  import opened Options
  import opened ConsensusSlack

  predicate Of(f: Frame, from: Replica) {
    f.Handling? && f.from == from
  }

  /** A handler of this stream is at work. */
  ghost predicate Busy(s: State, from: Replica) {
    exists k :: 0 <= k < |s.frames| && Of(s.frames[k], from)
  }

  predicate Starts(c: Config, step: Step, from: Replica) {
    (step.Receive? && step.from == from) || (step.Broadcast? && from == c.me)
  }

  /** No message of this stream is taken while an earlier one is still being handled. */
  ghost predicate OneAtATime(c: Config, states: seq<State>, steps: seq<Step>, from: Replica)
    requires |states| == |steps| + 1
  {
    forall k :: 0 <= k < |steps| && Starts(c, steps[k], from) ==> !Busy(states[k], from)
  }

  ghost predicate InOrder(finished: seq<(Replica, Index)>, from: Replica) {
    forall i, j :: 0 <= i < j < |finished| && finished[i].0 == from && finished[j].0 == from ==> finished[i].1 < finished[j].1
  }

  /** Handlers nest in the order of the stream. */
  ghost predicate Nested(s: State, from: Replica)
    requires from < |s.nextCb|
  {
    && (forall k :: 0 <= k < |s.frames| && Of(s.frames[k], from) ==> s.frames[k].index < s.nextCb[from])
    && (forall j, k :: 0 <= j < k < |s.frames| && Of(s.frames[j], from) && Of(s.frames[k], from) ==> s.frames[j].index < s.frames[k].index)
  }

  /** Some message finished, or will finish, before an earlier one. */
  ghost predicate Inverted(s: State, from: Replica) {
    || !InOrder(s.finished, from)
    || (exists j: nat, k: nat :: Two(s, from, j, k))
    || (exists j: nat, k: nat :: Late(s, from, j, k))
  }

  predicate Two(s: State, from: Replica, j: nat, k: nat) {
    j < k < |s.frames| && Of(s.frames[j], from) && Of(s.frames[k], from)
  }

  predicate Late(s: State, from: Replica, j: nat, k: nat) {
    && j < |s.frames| && k < |s.finished| && Of(s.frames[j], from) && s.finished[k].0 == from
    && s.frames[j].index < s.finished[k].1
  }

  ghost predicate AllBelow(s: State, from: Replica)
    requires from < |s.nextCb|
  {
    forall k :: 0 <= k < |s.finished| && s.finished[k].0 == from ==> s.finished[k].1 < s.nextCb[from]
  }

  /** While messages are taken one at a time. */
  ghost predicate Calm(s: State, from: Replica)
    requires from < |s.nextCb|
  {
    && InOrder(s.finished, from)
    && AllBelow(s, from)
    && Nested(s, from)
    && (forall j, k :: 0 <= j < |s.frames| && 0 <= k < |s.frames| && Of(s.frames[j], from) && Of(s.frames[k], from) ==> j == k)
    && forall j, k :: 0 <= j < |s.frames| && 0 <= k < |s.finished| && Of(s.frames[j], from) && s.finished[k].0 == from ==>
         s.finished[k].1 < s.frames[j].index
  }

  /** What a step does to the frames, the finished messages and the counter of one stream. */
  datatype Change = Push(f: Frame) | Replace(f: Frame) | Pop | Keep

  ghost predicate Changes(c: Config, s: State, s': State, from: Replica, ch: Change)
    requires from < |s.nextCb| && from < |s'.nextCb|
  {
    match ch
    case Push(f) =>
      && s'.frames == s.frames + [f] && s'.finished == s.finished
      && (Of(f, from) ==> f.index == s.nextCb[from] && s'.nextCb[from] == s.nextCb[from] + 1)
      && (!Of(f, from) ==> s'.nextCb[from] == s.nextCb[from])
    case Replace(f) =>
      && s.frames != [] && Top(s).Waiting? && s'.frames == s.frames[..|s.frames| - 1] + [f] && s'.finished == s.finished
      && (Of(f, from) ==> f.index == s.nextCb[from] && s'.nextCb[from] == s.nextCb[from] + 1)
      && (!Of(f, from) ==> s'.nextCb[from] == s.nextCb[from])
    case Pop =>
      && s.frames != [] && Top(s).Handling? && s'.frames == s.frames[..|s.frames| - 1]
      && s'.finished == s.finished + [(Top(s).from, Top(s).index)] && s'.nextCb == s.nextCb
    case Keep =>
      s'.frames == s.frames && s'.finished == s.finished && s'.nextCb == s.nextCb
  }

  function ChangeOf(c: Config, s: State, step: Step): Change {
    match step
    case Begin(kind) => Push(Waiting(kind))
    case Receive(from, goal) => if from < |s.nextCb| then Push(Handling(from, s.nextCb[from], goal)) else Keep
    case Broadcast =>
      if s.frames != [] && Top(s).Waiting? then Replace(Handling(c.me, s.next, if Top(s).kind.NewView? then Top(s).kind.view else 0)) else Keep
    case Finish => Pop
    case _ => Keep
  }

  lemma HandledKeepsFrames(c: Config, s: State, step: Step)
    requires c.Valid() && step.Broadcast? && s.frames != [] && Top(s).Waiting?
    ensures var h := Handled(c, s.(proposing := Continues(s, step)), Top(s).kind); h.frames == s.frames && h.finished == s.finished && h.nextCb == s.nextCb
  {
    hide Later, Expecting, Continues;
  }

  lemma StepChanges(c: Config, s: State, step: Step, s': State, from: Replica)
    requires c.Valid() && |s.nextCb| == c.n && Next(c, s, step, s') && from < c.n
    ensures |s'.nextCb| == c.n && Changes(c, s, s', from, ChangeOf(c, s, step))
    ensures Starts(c, step, from) <==> (ChangeOf(c, s, step).Push? || ChangeOf(c, s, step).Replace?) && Of(ChangeOf(c, s, step).f, from)
  {
    hide MayBegin, Accepts, Handled, Proposals, Continues;
    if step.Broadcast? {
      HandledKeepsFrames(c, s, step);
    }
  }

  lemma NestedStep(c: Config, s: State, s': State, from: Replica, ch: Change)
    requires from < |s.nextCb| && from < |s'.nextCb| && Changes(c, s, s', from, ch) && Nested(s, from) && AllBelow(s, from)
    ensures Nested(s', from) && AllBelow(s', from)
  {}

  lemma CalmStep(c: Config, s: State, s': State, from: Replica, ch: Change)
    requires from < |s.nextCb| && from < |s'.nextCb| && Changes(c, s, s', from, ch) && Calm(s, from)
    requires (ch.Push? || ch.Replace?) && Of(ch.f, from) ==> !Busy(s, from)
    ensures Calm(s', from)
  {
    NestedStep(c, s, s', from, ch);
  }

  lemma InvertedStep(c: Config, s: State, s': State, from: Replica, ch: Change)
    requires from < |s.nextCb| && from < |s'.nextCb| && Changes(c, s, s', from, ch) && Nested(s, from) && AllBelow(s, from)
    requires Inverted(s, from) || ((ch.Push? || ch.Replace?) && Of(ch.f, from) && Busy(s, from))
    ensures Inverted(s', from)
  {
    if !InOrder(s.finished, from) {
      var i, j :| 0 <= i < j < |s.finished| && s.finished[i].0 == from && s.finished[j].0 == from && s.finished[i].1 >= s.finished[j].1;
      assert s'.finished[i] == s.finished[i] && s'.finished[j] == s.finished[j];
    } else if j: nat, k: nat :| Two(s, from, j, k) {
      if ch.Pop? && k == |s.frames| - 1 {
        assert Late(s', from, j, |s.finished|);
      } else {
        assert Two(s', from, j, k);
      }
    } else if j: nat, k: nat :| Late(s, from, j, k) {
      if ch.Pop? && j == |s.frames| - 1 {
        var end := |s.finished|;
        assert s'.finished[k] == s.finished[k] && s'.finished[end] == (from, s.frames[j].index);
      } else {
        assert Late(s', from, j, k);
      }
    } else {
      var j: nat :| j < |s.frames| && Of(s.frames[j], from);
      assert Two(s', from, j, |s'.frames| - 1);
    }
  }

  lemma InitNests(c: Config, from: Replica)
    requires c.Valid() && from < c.n
    ensures |Init(c).nextCb| == c.n && Nested(Init(c), from) && AllBelow(Init(c), from) && Calm(Init(c), from)
  {}

  lemma {:induction false} RunsNest(c: Config, states: seq<State>, steps: seq<Step>, from: Replica, k: nat)
    requires IsRun(c, states, steps) && k < |states| && from < c.n
    ensures Nested(states[k], from) && AllBelow(states[k], from)
  {
    hide Next, Nested, AllBelow, Changes, Init;
    if k == 0 {
      InitNests(c, from);
    } else {
      RunsNest(c, states, steps, from, k - 1);
      StepChanges(c, states[k - 1], steps[k - 1], states[k], from);
      NestedStep(c, states[k - 1], states[k], from, ChangeOf(c, states[k - 1], steps[k - 1]));
    }
  }

  lemma {:induction false} RunsStayCalm(c: Config, states: seq<State>, steps: seq<Step>, from: Replica, k: nat)
    requires IsRun(c, states, steps) && k < |states| && from < c.n && OneAtATime(c, states, steps, from)
    ensures Calm(states[k], from)
  {
    hide Next, Calm, Changes, Init, Busy, Of;
    if k == 0 {
      InitNests(c, from);
    } else {
      RunsStayCalm(c, states, steps, from, k - 1);
      StepChanges(c, states[k - 1], steps[k - 1], states[k], from);
      CalmStep(c, states[k - 1], states[k], from, ChangeOf(c, states[k - 1], steps[k - 1]));
    }
  }

  lemma {:induction false} RunsStayInverted(c: Config, states: seq<State>, steps: seq<Step>, from: Replica, at: nat, k: nat)
    requires IsRun(c, states, steps) && at < k < |states| && from < c.n
    requires Starts(c, steps[at], from) && Busy(states[at], from)
    ensures Inverted(states[k], from)
  {
    hide Next, Nested, AllBelow, Changes, Init, Busy, Inverted, Of;
    if at < k - 1 {
      RunsStayInverted(c, states, steps, from, at, k - 1);
    }
    RunsNest(c, states, steps, from, k - 1);
    StepChanges(c, states[k - 1], steps[k - 1], states[k], from);
    InvertedStep(c, states[k - 1], states[k], from, ChangeOf(c, states[k - 1], steps[k - 1]));
  }

  /** The messages of a stream take effect in order exactly if none is taken while an earlier one
      is still being handled, that is, if no wait inside its handlers polls that stream. */
  lemma InOrderExactly(c: Config, states: seq<State>, steps: seq<Step>, from: Replica)
    requires IsRun(c, states, steps) && from < c.n && Idle(states[|states| - 1])
    ensures InOrder(states[|states| - 1].finished, from) <==> OneAtATime(c, states, steps, from)
  {
    hide Next, Init, Busy, Starts, InOrder;
    var last := |states| - 1;
    if OneAtATime(c, states, steps, from) {
      RunsStayCalm(c, states, steps, from, last);
    } else {
      var at :| 0 <= at < |steps| && Starts(c, steps[at], from) && Busy(states[at], from);
      RunsStayInverted(c, states, steps, from, at, last);
    }
  }

  // ---------- A run of a leader that throws on its own prepare ----------

  const THREE := Config(3, 0, 2, 4)

  /** A stretch of a run. */
  predicate Chain(c: Config, states: seq<State>, steps: seq<Step>) {
    && c.Valid() && |states| == |steps| + 1
    && (forall k :: 0 <= k < |states| ==> |states[k].nextCb| == c.n)
    && forall k :: 0 <= k < |steps| ==> Next(c, states[k], steps[k], states[k + 1])
  }

  lemma Concat(c: Config, states: seq<State>, steps: seq<Step>, later: seq<State>, laterSteps: seq<Step>)
    requires Chain(c, states, steps) && Chain(c, later, laterSteps) && states[|states| - 1] == later[0]
    ensures Chain(c, states + later[1..], steps + laterSteps)
    ensures var all := states + later[1..]; all[0] == states[0] && all[|all| - 1] == later[|later| - 1]
  {
    hide Next;
    var all, allSteps := states + later[1..], steps + laterSteps;
    assert all[|all| - 1] == later[|later| - 1];
    forall k | 0 <= k < |allSteps| ensures Next(c, all[k], allSteps[k], all[k + 1]) {
      if k >= |steps| {
        assert all[k] == later[k - |steps|] && all[k + 1] == later[k + 1 - |steps|];
      }
    }
  }

  function Queued(): State {
    Init(THREE).(nextCb := [0, 0, 0], queue := [(0, 0, []), (0, 1, []), (0, 2, [])], nextProposal := 3)
  }

  lemma QueueThree() returns (states: seq<State>, steps: seq<Step>)
    ensures Chain(THREE, states, steps) && states[0] == Init(THREE) && states[|states| - 1] == Queued()
  {
    var s0 := Init(THREE);
    assert s0.nextCb == [0, 0, 0];
    var s1 := s0.(queue := [(0, 0, [])], nextProposal := 1);
    var s2 := s1.(queue := [(0, 0, []), (0, 1, [])], nextProposal := 2);
    states := [s0, s1, s2, Queued()];
    steps := [GetSlot([]), GetSlot([]), GetSlot([])];
  }

  function OnePrepared(): State {
    Queued().(next := 1, nextCb := [1, 0, 0], proposing := true, proposed := 1, queue := [(0, 1, []), (0, 2, [])], acknowledged := Some(1), sent := [Prepare(0, 0, [])], finished := [(0, 0)])
  }

  lemma PrepareOne() returns (states: seq<State>, steps: seq<Step>)
    ensures Chain(THREE, states, steps) && states[0] == Queued() && states[|states| - 1] == OnePrepared()
  {
    var s0 := Queued();
    var s1 := s0.(frames := [Waiting(Prepare(0, 0, []))], proposing := true, proposed := 1);
    var s2 := s1.(frames := [Handling(0, 0, 0)], next := 1, nextCb := [1, 0, 0], sent := [Prepare(0, 0, [])], queue := [(0, 1, []), (0, 2, [])]);
    states := [s0, s1, s2, OnePrepared()];
    steps := [Begin(Prepare(0, 0, [])), Broadcast, Finish];
  }

  /** Two prepares use up the slack. */
  function SlackUsed(): State {
    OnePrepared().(next := 2, nextCb := [2, 0, 0], proposed := 2, nextPrepare := 1, queue := [(0, 2, [])], acknowledged := Some(2),
                   sent := [Prepare(0, 0, []), Prepare(0, 1, [])], finished := [(0, 0), (0, 1)])
  }

  lemma PrepareTwo() returns (states: seq<State>, steps: seq<Step>)
    ensures Chain(THREE, states, steps) && states[0] == OnePrepared() && states[|states| - 1] == SlackUsed()
  {
    var s0 := OnePrepared();
    var s1 := s0.(frames := [Waiting(Prepare(0, 1, []))], proposed := 2);
    var s2 := s1.(frames := [Handling(0, 1, 0)], next := 2, nextCb := [2, 0, 0], sent := [Prepare(0, 0, []), Prepare(0, 1, [])], queue := [(0, 2, [])], nextPrepare := 1);
    states := [s0, s1, s2, SlackUsed()];
    steps := [Begin(Prepare(0, 1, [])), Broadcast, Finish];
  }

  /** The third prepare waits; a NewView arrives, and its handler waits to seal the view. */
  function Sealing(): State {
    SlackUsed().(proposed := 3, frames := [Waiting(Prepare(0, 2, [])), Handling(1, 0, 1), Waiting(SealView)], nextCb := [2, 1, 0])
  }

  lemma ReceiveNewView() returns (states: seq<State>, steps: seq<Step>)
    ensures Chain(THREE, states, steps) && states[0] == SlackUsed() && states[|states| - 1] == Sealing()
  {
    var s0 := SlackUsed();
    var s1 := s0.(frames := [Waiting(Prepare(0, 2, []))], proposed := 3);
    var s2 := s1.(frames := [Waiting(Prepare(0, 2, [])), Handling(1, 0, 1)], nextCb := [2, 1, 0]);
    states := [s0, s1, s2, Sealing()];
    steps := [Begin(Prepare(0, 2, [])), Receive(1, 1), Begin(SealView)];
  }

  /** The next message of that stream is handled in between; then there is slack. */
  function Slack(): State {
    Sealing().(nextCb := [2, 2, 0], finished := [(0, 0), (0, 1), (1, 1)], until := 3, nextCertificate := 3, certificates := {2})
  }

  lemma HandleInside() returns (states: seq<State>, steps: seq<Step>)
    ensures Chain(THREE, states, steps) && states[0] == Sealing() && states[|states| - 1] == Slack()
  {
    var s0 := Sealing();
    var s1 := s0.(frames := [Waiting(Prepare(0, 2, [])), Handling(1, 0, 1), Waiting(SealView), Handling(1, 1, 0)], nextCb := [2, 2, 0]);
    var s2 := s1.(frames := [Waiting(Prepare(0, 2, [])), Handling(1, 0, 1), Waiting(SealView)], finished := [(0, 0), (0, 1), (1, 1)]);
    states := [s0, s1, s2, Slack()];
    steps := [Receive(1, 0), Finish, PollCertificate];
  }

  function Sealed(): State {
    Slack().(frames := [Waiting(Prepare(0, 2, []))], view := 1, next := 3, nextCb := [3, 2, 0], acknowledged := Some(3),
             sent := [Prepare(0, 0, []), Prepare(0, 1, []), SealView], finished := [(0, 0), (0, 1), (1, 1), (0, 2), (1, 0)])
  }

  lemma SealNow() returns (states: seq<State>, steps: seq<Step>)
    ensures Chain(THREE, states, steps) && states[0] == Slack() && states[|states| - 1] == Sealed()
  {
    var s0 := Slack();
    var s1 := s0.(frames := [Waiting(Prepare(0, 2, [])), Handling(1, 0, 1), Handling(0, 2, 0)], view := 1, next := 3, nextCb := [3, 2, 0],
                  sent := [Prepare(0, 0, []), Prepare(0, 1, []), SealView]);
    var s2 := s1.(frames := [Waiting(Prepare(0, 2, [])), Handling(1, 0, 1)], acknowledged := Some(3), finished := [(0, 0), (0, 1), (1, 1), (0, 2)]);
    states := [s0, s1, s2, Sealed()];
    steps := [Broadcast, Finish, Finish];
  }

  /** A correct leader of view 0 waits with a prepare inside its range, and once it has slack
      refuses to handle it: the view has changed. On the way two messages of one stream took
      effect in reverse. */
  lemma OwnPrepareRefused() returns (states: seq<State>, steps: seq<Step>)
    ensures IsRun(THREE, states, steps)
    ensures var s := states[|states| - 1];
            && s.frames == [Waiting(Prepare(0, 2, []))] && s.next <= s.until && !Accepts(THREE, s, Prepare(0, 2, []))
            && !InOrder(s.finished, 1)
  {
    hide Chain, Queued, OnePrepared, SlackUsed, Sealing, Slack, Init;
    states, steps := QueueThree();
    var t, r := PrepareOne();
    Concat(THREE, states, steps, t, r);
    states, steps := states + t[1..], steps + r;
    t, r := PrepareTwo();
    Concat(THREE, states, steps, t, r);
    states, steps := states + t[1..], steps + r;
    t, r := ReceiveNewView();
    Concat(THREE, states, steps, t, r);
    states, steps := states + t[1..], steps + r;
    t, r := HandleInside();
    Concat(THREE, states, steps, t, r);
    states, steps := states + t[1..], steps + r;
    t, r := SealNow();
    Concat(THREE, states, steps, t, r);
    states, steps := states + t[1..], steps + r;
    ChainIsRun(states, steps);
    Refused();
  }

  lemma ChainIsRun(states: seq<State>, steps: seq<Step>)
    requires Chain(THREE, states, steps) && states[0] == Init(THREE)
    ensures IsRun(THREE, states, steps)
  {
    hide Next, Init;
  }

  lemma Refused()
    ensures var s := Sealed();
            && s.frames == [Waiting(Prepare(0, 2, []))] && s.next <= s.until && !Accepts(THREE, s, Prepare(0, 2, []))
            && !InOrder(s.finished, 1)
  {
    assert Sealed().finished[2] == (1, 1) && Sealed().finished[4] == (1, 0);
  }
}
