/** One replica under re-entrancy. A broadcast first waits until CB checkpoints leave room in
    the tail (`waitForCbSlack`); while it waits, messages of other replicas are handled, and
    handling a NewView changes the view, which broadcasts again. A stack of frames stands for
    these nested calls. Everything that others send is arbitrary. */
module ConsensusSlack {
  import opened Options

  type Replica = nat
  type View = nat
  type Instance = nat
  type Index = nat
  type Batch = seq<nat>

  datatype Config = Config(n: nat, me: Replica, tail: nat, window: nat) {
    /** A tail below 2 divides by zero in the source. */
    predicate Valid() {
      me < n && 2 <= tail && 0 < window
    }

    predicate Leads(v: View)
      requires n > 0
    {
      v % n == me
    }
  }

  datatype Kind =
    | Prepare(view: View, instance: Instance, batch: Batch)
    | Commit(view: View, instance: Instance)
    | Checkpoint(low: Instance)
    | SealView
    | NewView(view: View, values: map<Instance, Batch>)

  /** A broadcast that waits, or a handler at work. A NewView of view v is handled once the
      replica is in view v; `goal` is 0 for other messages. */
  datatype Frame =
    | Waiting(kind: Kind)
    | Handling(from: Replica, index: Index, goal: View)

  /** `next` is the index of the next broadcast and `until` the last one allowed; `nextCb[me]` is
      the own stream as handled. `low` is the own checkpoint and `certified` the best one known.
      `values` are the own valid values with the view of their NewView, `ongoing` is the view of
      `ongoing_view_change`, and `coming` the values of the own NewView under way; `led` is the
      last view a NewView was broadcast for. `queue` is `to_propose`, and `proposing` says that the
      loop of `propose` is at work. The rest is history. */
  datatype State = State(next: Index, until: Index, nextCb: seq<Index>, frames: seq<Frame>,
                         acknowledged: Option<Index>, nextCertificate: Index,
                         view: View, low: Instance, certified: Instance, sentAbove: Instance, nextPrepare: Instance,
                         values: Option<(View, map<Instance, Batch>)>, ongoing: Option<View>, coming: map<Instance, Batch>, led: View,
                         proposing: bool, proposed: Instance, nextProposal: Instance, queue: seq<(View, Instance, Batch)>,
                         certificates: set<Index>, sent: seq<Kind>, finished: seq<(Replica, Index)>)

  function Init(c: Config): State
    requires c.Valid()
  {
    State(0, c.tail - 1, seq(c.n, _ => 0), [], None, 0, 0, 0, 0, 0, 0, None, None, map[], 0, false, 0, 0, [], {}, [], [])
  }

  function Top(s: State): Frame
    requires s.frames != []
  {
    s.frames[|s.frames| - 1]
  }

  predicate Idle(s: State) { s.frames == [] }

  /** The loop of `waitForCbSlack` turns. */
  predicate Spinning(s: State) {
    s.frames != [] && Top(s).Waiting? && s.next > s.until
  }

  predicate ChangingView(s: State) {
    s.frames != [] && Top(s).Handling? && s.view < Top(s).goal
  }

  /** What is checked before a broadcast starts to wait. */
  predicate MayBegin(c: Config, s: State, kind: Kind)
    requires c.Valid()
  {
    match kind
    case Prepare(v, i, b) =>
      // Whether it may propose is asked once, before the loop.
      && Idle(s) && (s.proposing || (c.Leads(s.view) && s.ongoing.None?))
      && s.queue != [] && s.queue[0] == (v, i, b) && s.proposed < s.low + c.window
    case Commit(v, i) =>
      // The instance was prepared within a window of a certified checkpoint; if that is not
      // broadcast yet, it is now.
      && (Idle(s) || ChangingView(s)) && v == s.view && s.low <= i < s.certified + c.window
      && (s.low + c.window <= i ==> s.certified <= s.sentAbove)
    case Checkpoint(low) => (Idle(s) || ChangingView(s)) && low == s.certified && low > s.sentAbove
    case SealView => Idle(s) || ChangingView(s)
    // Certificates are polled once: they never suffice for a second NewView of one view.
    case NewView(v, _) => Idle(s) && 0 < v && c.Leads(v) && s.ongoing == Some(v - 1) && s.led < v
  }

  /** What a replica checks when it handles its own message; it throws otherwise. */
  predicate Accepts(c: Config, s: State, kind: Kind)
    requires c.Valid()
  {
    match kind
    case Prepare(v, i, b) =>
      && c.Leads(v) && v == s.view && s.nextPrepare <= i && s.low <= i < s.low + c.window
      && (v != 0 ==> s.values.Some? && (i in s.values.value.1 ==> s.values.value.1[i] == b))
    case Commit(v, i) => v == s.view && i < s.low + c.window
    case Checkpoint(low) => low > s.low
    case SealView => true
    case NewView(_, _) => true
  }

  /** The values of later instances. */
  function Later(values: Option<(View, map<Instance, Batch>)>, i: Instance): Option<(View, map<Instance, Batch>)> {
    if values.None? then None
    else
      var m := values.value.1;
      Some((values.value.0, map k | k in m && i < k :: m[k]))
  }

  /** The view change a replica works on once view v is sealed, if it leads the next one. */
  function Expecting(c: Config, ongoing: Option<View>, v: View): Option<View>
    requires c.Valid()
  {
    if c.Leads(v + 1) && (ongoing.None? || ongoing.value < v) then Some(v) else ongoing
  }

  /** The fields the own message changes. */
  function Handled(c: Config, s: State, kind: Kind): State
    requires c.Valid()
  {
    match kind
    case Prepare(_, i, _) => if i < s.certified then s else s.(nextPrepare := i, values := Later(s.values, i))
    case Commit(_, _) => s
    case Checkpoint(low) => s.(low := low)
    case SealView => s.(view := s.view + 1, ongoing := Expecting(c, s.ongoing, s.view))
    case NewView(_, _) => s
  }

  datatype Step =
    | GetSlot(batch: Batch)
    | Begin(kind: Kind)
    | Broadcast
    | Receive(from: Replica, goal: View)
    | HearSeal(v: View)
    | PollCertificate
    | Adopt(low: Instance)
    | Finish

  function Popped(s: State): State
    requires s.frames != []
  {
    s.(frames := s.frames[..|s.frames| - 1])
  }

  /** `maybeCertifyCbCheckpoint`, for the own stream. */
  function Acknowledged(c: Config, s: State, from: Replica): State
    requires c.Valid() && from < |s.nextCb|
  {
    if from == c.me && s.nextCb[from] % (c.tail / 2) == 0 then s.(acknowledged := Some(s.nextCb[from])) else s
  }

  lemma {:induction false} LastExists(keys: set<Instance>) returns (k: Instance)
    requires keys != {}
    ensures k in keys && forall j :: j in keys ==> j <= k
    decreases |keys|
  {
    var x :| x in keys;
    var others := keys - {x};
    k := x;
    if others != {} {
      var rest := LastExists(others);
      k := if x < rest then rest else x;
    }
    assert forall j :: j in keys ==> j == x || j in others;
  }

  predicate IsLastKey(values: map<Instance, Batch>, k: Instance) {
    k in values && forall j :: j in values ==> j <= k
  }

  /** The last instance to propose anew: that of the last valid value, the first one if there is none. */
  function LastInstance(first: Instance, values: map<Instance, Batch>): (k: Instance)
    ensures if values == map[] then k == first else IsLastKey(values, k)
  {
    if values == map[] then first
    else
      assert exists k :: IsLastKey(values, k) by {
        var k := LastExists(values.Keys);
        assert IsLastKey(values, k);
      }
      var k :| IsLastKey(values, k);
      k
  }

  /** The valid values as proposals, gaps filled with empty ones. */
  function Proposals(view: View, first: Instance, values: map<Instance, Batch>): seq<(View, Instance, Batch)> {
    var last := LastInstance(first, values);
    if last < first then []
    else seq(last + 1 - first, j requires 0 <= j < last + 1 - first => (view, first + j, if first + j in values then values[first + j] else []))
  }

  /** Every valid value from the first instance on is proposed once, at its instance, and the
      instances between are proposed empty. */
  lemma ValuesAreProposed(view: View, first: Instance, values: map<Instance, Batch>)
    ensures forall i :: i in values && first <= i ==> i - first < |Proposals(view, first, values)| && Proposals(view, first, values)[i - first] == (view, i, values[i])
    ensures forall j :: 0 <= j < |Proposals(view, first, values)| ==>
              var (v, i, b) := Proposals(view, first, values)[j];
              v == view && i == first + j && (i !in values ==> b == []) && exists k :: (k in values || k == first) && i <= k
  {
    var last := LastInstance(first, values);
    assert last in values || last == first;
  }

  /** A leader whose own NewView is handled proposes anew from its certified checkpoint. */
  function Rebuilt(c: Config, s: State, f: Frame): State
    requires f.Handling?
  {
    if f.from == c.me && f.goal > 0 then
      var queue := Proposals(s.view, s.certified, s.coming);
      s.(nextPrepare := s.low, values := Some((f.goal, s.coming)), queue := queue, proposed := s.certified, nextProposal := s.certified + |queue|)
    else s
  }

  /** The loop of `propose` goes on from one prepare to the next, without anything in between. */
  predicate Continues(s: State, step: Step) {
    (step.Begin? && step.kind.Prepare?) || (s.proposing && !Idle(s))
  }

  predicate Next(c: Config, s: State, step: Step, s': State)
    requires c.Valid() && |s.nextCb| == c.n
  {
    var t := s.(proposing := Continues(s, step));
    match step
    case GetSlot(b) =>
      Idle(s) && s' == t.(queue := s.queue + [(s.view, s.nextProposal, b)], nextProposal := s.nextProposal + 1)
    case Begin(kind) =>
      && MayBegin(c, s, kind)
      && s' == t.(frames := s.frames + [Waiting(kind)],
                  proposed := if kind.Prepare? then s.proposed + 1 else s.proposed,
                  sentAbove := if kind.Checkpoint? then kind.low else s.sentAbove,
                  ongoing := if kind.NewView? then None else s.ongoing,
                  coming := if kind.NewView? then kind.values else s.coming,
                  led := if kind.NewView? then kind.view else s.led)
    case Broadcast =>
      && s.frames != [] && Top(s).Waiting? && s.next <= s.until
      && var kind := Top(s).kind;
         && s.next == s.nextCb[c.me]
         && Accepts(c, s, kind)
         && s' == Handled(c, t, kind).(next := s.next + 1, nextCb := s.nextCb[c.me := s.next + 1], sent := s.sent + [kind],
                                    queue := if kind.Prepare? && s.queue != [] then s.queue[1..] else s.queue,
                                    frames := Popped(s).frames + [Handling(c.me, s.next, if kind.NewView? then kind.view else 0)])
    case Receive(from, goal) =>
      && (Idle(s) || Spinning(s)) && from < c.n && from != c.me
      && s' == t.(nextCb := s.nextCb[from := s.nextCb[from] + 1], frames := s.frames + [Handling(from, s.nextCb[from], goal)])
    case HearSeal(v) =>
      s' == t.(ongoing := Expecting(c, s.ongoing, v))
    case PollCertificate =>
      && (Idle(s) || Spinning(s)) && s.acknowledged.Some? && s.nextCertificate <= s.acknowledged.value
      && var at := s.acknowledged.value;
         s' == t.(until := at + c.tail - 1, nextCertificate := at + 1, certificates := s.certificates + {at})
    case Adopt(low) =>
      low > s.certified && s' == t.(certified := low)
    case Finish =>
      && s.frames != [] && Top(s).Handling? && Top(s).goal <= s.view && Top(s).from < c.n
      && var f := Top(s);
         s' == Rebuilt(c, Acknowledged(c, Popped(t), f.from), f).(finished := s.finished + [(f.from, f.index)])
  }

  predicate IsRun(c: Config, states: seq<State>, steps: seq<Step>) {
    && c.Valid()
    && |states| == |steps| + 1
    && states[0] == Init(c)
    && (forall k :: 0 <= k < |states| ==> |states[k].nextCb| == c.n)
    && forall k :: 0 <= k < |steps| ==> Next(c, states[k], steps[k], states[k + 1])
  }

  // ---------- Slack ----------

  /** CB checkpoints certified so far; none is needed for the first messages. */
  predicate IsCheckpoint(s: State, at: Index) {
    at == 0 || at in s.certificates
  }

  /** Index i is within the tail of a certified CB checkpoint. */
  ghost predicate WithinSlack(c: Config, s: State, i: Index) {
    exists at: Index :: IsCheckpoint(s, at) && i < at + c.tail
  }

  ghost predicate Allowed(c: Config, s: State, at: Index) {
    IsCheckpoint(s, at) && s.until == at + c.tail - 1 && at <= s.nextCertificate
  }

  /** Certificates are for CB checkpoints of what was sent. */
  ghost predicate CertificatesInv(c: Config, s: State)
    requires c.Valid()
  {
    && (s.acknowledged.Some? ==> s.acknowledged.value <= s.next && s.acknowledged.value % (c.tail / 2) == 0)
    && forall at :: at in s.certificates ==> at < s.nextCertificate && at <= s.next && at % (c.tail / 2) == 0
  }

  /** The own stream is handled without a gap, within the slack. */
  ghost predicate SlackInv(c: Config, s: State) {
    && c.Valid() && |s.nextCb| == c.n
    && s.next == s.nextCb[c.me] == |s.sent|
    && s.next <= s.until + 1
    && CertificatesInv(c, s)
    && exists at: Index :: Allowed(c, s, at)
  }

  lemma SlackStep(c: Config, s: State, step: Step, s': State)
    requires SlackInv(c, s) && Next(c, s, step, s')
    ensures SlackInv(c, s') && s.until <= s'.until && s.certificates <= s'.certificates
  {
    hide Accepts, MayBegin, Proposals, Later, Expecting, Continues;
    var at: Index :| Allowed(c, s, at);
    if step.PollCertificate? {
      assert Allowed(c, s', s.acknowledged.value);
    } else {
      assert Allowed(c, s', at);
    }
  }

  lemma InitSlack(c: Config)
    requires c.Valid()
    ensures SlackInv(c, Init(c))
  {
    assert Allowed(c, Init(c), 0);
  }

  /** In every run, also from inside handlers, what is sent stays within the tail of a
      certified CB checkpoint of the own stream, and that stream is handled without a gap. */
  lemma {:induction false} RunsStayInSlack(c: Config, states: seq<State>, steps: seq<Step>, k: nat)
    requires IsRun(c, states, steps) && k < |states|
    ensures SlackInv(c, states[k])
    ensures forall i: Index :: i < |states[k].sent| ==> WithinSlack(c, states[k], i)
  {
    hide Next, CertificatesInv;
    if k == 0 {
      InitSlack(c);
    } else {
      RunsStayInSlack(c, states, steps, k - 1);
      SlackStep(c, states[k - 1], steps[k - 1], states[k]);
    }
    hide IsRun, Init;
    var s := states[k];
    var at: Index :| Allowed(c, s, at);
    forall i: Index | i < |s.sent| ensures WithinSlack(c, s, i) {
      assert IsCheckpoint(s, at) && i < at + c.tail;
    }
  }

  /** A message leaves the tail of the broadcaster only once a CB checkpoint above it is certified. */
  lemma LeavesTailCertified(c: Config, states: seq<State>, steps: seq<Step>, k: nat, j: Index)
    requires IsRun(c, states, steps) && k < |states| && j + c.tail < |states[k].sent|
    ensures exists at :: at in states[k].certificates && j < at <= |states[k].sent|
  {
    hide Next;
    RunsStayInSlack(c, states, steps, k);
    assert WithinSlack(c, states[k], j + c.tail);
    var at: Index :| IsCheckpoint(states[k], at) && j + c.tail < at + c.tail;
    assert at > j;
  }

  /** The last index allowed never goes back. */
  lemma {:induction false} UntilGrows(c: Config, states: seq<State>, steps: seq<Step>, i: nat, k: nat)
    requires IsRun(c, states, steps) && i <= k < |states|
    ensures states[i].until <= states[k].until
  {
    hide Next, SlackInv;
    if i < k {
      UntilGrows(c, states, steps, i, k - 1);
      RunsStayInSlack(c, states, steps, k - 1);
      SlackStep(c, states[k - 1], steps[k - 1], states[k]);
    }
  }

  // ---------- Proposals ----------

  predicate Proposing(s: State) {
    s.frames != [] && s.frames[0].Waiting? && s.frames[0].kind.Prepare?
  }

  /** The instance of the first queued proposal. */
  function FirstQueued(s: State): int {
    if Proposing(s) then s.proposed - 1 else s.proposed
  }

  /** The queue holds consecutive instances, from the first not broadcast up to the next one. */
  ghost predicate QueueInv(s: State) {
    && (forall j :: 0 <= j < |s.queue| ==> s.queue[j].1 == FirstQueued(s) + j && s.queue[j].0 <= s.view)
    && s.nextProposal == FirstQueued(s) + |s.queue|
    && s.nextPrepare <= FirstQueued(s)
    && (Proposing(s) ==> s.queue != [] && s.queue[0] == (s.frames[0].kind.view, s.frames[0].kind.instance, s.frames[0].kind.batch))
  }

  ghost predicate FrameInv(c: Config, s: State, f: Frame, isFirst: bool)
    requires c.Valid()
  {
    match f
    case Handling(from, _, goal) => from == c.me && goal > 0 ==> isFirst
    case Waiting(kind) =>
      match kind
      case Prepare(v, i, _) => isFirst && v <= s.view && (v == s.view ==> c.Leads(v)) && i < s.low + c.window
      case Commit(v, i) => v <= s.view && i < s.sentAbove + c.window
      case Checkpoint(low) => low <= s.sentAbove
      case SealView => true
      case NewView(v, _) => isFirst && 0 < v
  }

  // ---------- Valid values ----------

  /** The view of the own NewView that waits or is being handled. */
  function UnderWay(c: Config, s: State): Option<View> {
    if s.frames == [] then None
    else match s.frames[0]
         case Waiting(NewView(v, _)) => Some(v)
         case Handling(from, _, goal) => if from == c.me && goal > 0 then Some(goal) else None
         case _ => None
  }

  predicate Expected(s: State) {
    s.ongoing.Some? && s.view <= s.ongoing.value + 1
  }

  predicate ValuesOfView(s: State) {
    s.values.Some? && s.values.value.0 == s.view
  }

  /** A leader of a later view has the valid values of that view, or works on its NewView. */
  ghost predicate LeaderInv(c: Config, s: State)
    requires c.Valid()
  {
    && (s.values.Some? ==> s.values.value.0 <= s.led && s.values.value.0 <= s.view)
    && (UnderWay(c, s).Some? ==> UnderWay(c, s).value <= s.led)
    && (c.Leads(s.view) && s.view > 0 && !Expected(s) ==> UnderWay(c, s).Some? || ValuesOfView(s))
    && (c.Leads(s.view) && UnderWay(c, s).Some? && UnderWay(c, s).value < s.view ==> Expected(s))
  }

  /** What is queued in a view obeys the valid values of that view. */
  ghost predicate ObeysInv(c: Config, s: State)
    requires c.Valid()
  {
    && (ValuesOfView(s) && s.view > 0 ==>
          && (forall i :: i in s.values.value.1 ==> i < s.nextProposal)
          && (forall j :: 0 <= j < |s.queue| && s.queue[j].0 == s.view && s.queue[j].1 in s.values.value.1 ==>
                s.queue[j].2 == s.values.value.1[s.queue[j].1]))
    && (Proposing(s) && s.frames[0].kind.view == s.view && s.view > 0 ==> ValuesOfView(s))
    && (Turning(s) && s.view > 0 ==> ValuesOfView(s))
  }

  lemma ExpectingGrows(c: Config, ongoing: Option<View>, v: View)
    requires c.Valid()
    ensures var e := Expecting(c, ongoing, v);
            && (ongoing.Some? ==> e.Some? && ongoing.value <= e.value)
            && (c.Leads(v + 1) ==> e.Some? && v <= e.value)
  {}

  /** Steps that leave alone what the invariant speaks of. */
  lemma LeaderSame(c: Config, s: State, s': State)
    requires c.Valid() && LeaderInv(c, s) && UnderWay(c, s') == UnderWay(c, s) && s'.view == s.view && s'.led == s.led
    requires s'.ongoing == s.ongoing || (s'.ongoing.Some? && (s.ongoing.Some? ==> s.ongoing.value <= s'.ongoing.value))
    requires (s'.values.Some? <==> s.values.Some?) && (s.values.Some? ==> s'.values.value.0 == s.values.value.0)
    ensures LeaderInv(c, s')
  {}

  lemma LeaderBegins(c: Config, s: State, kind: Kind, s': State)
    requires WindowInv(c, s) && LeaderInv(c, s) && |s.nextCb| == c.n && Next(c, s, Begin(kind), s')
    ensures LeaderInv(c, s')
  {
    hide QueueInv;
    if s.frames != [] {
      assert s'.frames[0] == s.frames[0] && UnderWay(c, s') == UnderWay(c, s);
    }
  }

  /** A NewView is handled in its view or a later one. */
  lemma LeaderFinishes(c: Config, s: State, s': State)
    requires WindowInv(c, s) && LeaderInv(c, s) && |s.nextCb| == c.n && Next(c, s, Finish, s')
    ensures LeaderInv(c, s')
  {
    hide QueueInv, Proposals;
    assert FrameInv(c, s, Top(s), |s.frames| == 1);
    if |s.frames| > 1 {
      assert s'.frames[0] == s.frames[0];
    }
  }

  lemma LeaderBroadcasts(c: Config, s: State, s': State)
    requires WindowInv(c, s) && LeaderInv(c, s) && |s.nextCb| == c.n && Next(c, s, Broadcast, s')
    ensures LeaderInv(c, s')
  {
    hide QueueInv, Accepts, Later, Expecting;
    var kind := Top(s).kind;
    assert FrameInv(c, s, Top(s), |s.frames| == 1);
    if |s.frames| > 1 {
      assert s'.frames[0] == s.frames[0];
    }
    assert UnderWay(c, s') == UnderWay(c, s);
    if kind.SealView? {
      ExpectingGrows(c, s.ongoing, s.view);
    } else if kind.Prepare? {
      LaterValues(s.values, kind.instance);
    }
  }

  lemma LeaderStep(c: Config, s: State, step: Step, s': State)
    requires WindowInv(c, s) && LeaderInv(c, s) && |s.nextCb| == c.n && Next(c, s, step, s')
    ensures LeaderInv(c, s')
  {
    hide QueueInv, LeaderInv, FrameInv, Accepts, MayBegin, Expecting;
    match step
    case Begin(kind) => LeaderBegins(c, s, kind, s');
    case Finish => LeaderFinishes(c, s, s');
    case Broadcast => LeaderBroadcasts(c, s, s');
    case HearSeal(v) =>
      ExpectingGrows(c, s.ongoing, v);
      LeaderSame(c, s, s');
    case Receive(from, goal) =>
      assert s.frames != [] ==> s'.frames[0] == s.frames[0];
      LeaderSame(c, s, s');
    case _ => LeaderSame(c, s, s');
  }

  lemma LaterValues(values: Option<(View, map<Instance, Batch>)>, i: Instance)
    ensures Later(values, i).Some? <==> values.Some?
    ensures values.Some? ==> Later(values, i).value.0 == values.value.0
    ensures values.Some? ==> forall k :: k in Later(values, i).value.1 ==> k in values.value.1 && Later(values, i).value.1[k] == values.value.1[k]
  {}

  lemma ProposalsObey(view: View, first: Instance, values: map<Instance, Batch>)
    ensures var q := Proposals(view, first, values);
            && (forall j :: 0 <= j < |q| ==> q[j].0 == view && q[j].1 == first + j && (q[j].1 in values ==> q[j].2 == values[q[j].1]))
            && (forall i :: i in values ==> i < first + |q|)
  {}

  lemma ObeysBegins(c: Config, s: State, kind: Kind, s': State)
    requires WindowInv(c, s) && LeaderInv(c, s) && ObeysInv(c, s) && |s.nextCb| == c.n && Next(c, s, Begin(kind), s')
    ensures ObeysInv(c, s')
  {
    if s.frames != [] {
      assert s'.frames[0] == s.frames[0];
    }
  }

  lemma ObeysFinishes(c: Config, s: State, s': State)
    requires WindowInv(c, s) && LeaderInv(c, s) && ObeysInv(c, s) && |s.nextCb| == c.n && Next(c, s, Finish, s')
    ensures ObeysInv(c, s')
  {
    hide Proposals, QueueInv, LeaderInv;
    ProposalsObey(s.view, s.certified, s.coming);
    assert FrameInv(c, s, Top(s), |s.frames| == 1);
    if |s.frames| > 1 {
      assert s'.frames[0] == s.frames[0];
    }
  }

  lemma ObeysBroadcasts(c: Config, s: State, s': State)
    requires WindowInv(c, s) && LeaderInv(c, s) && ObeysInv(c, s) && |s.nextCb| == c.n && Next(c, s, Broadcast, s')
    ensures ObeysInv(c, s')
  {
    hide Later, Expecting;
    var kind := Top(s).kind;
    assert kind.Prepare? ==> kind.view == s.view;
    hide Accepts;
    assert FrameInv(c, s, Top(s), |s.frames| == 1);
    if |s.frames| > 1 {
      assert s'.frames[0] == s.frames[0];
    }
    if kind.Prepare? {
      LaterValues(s.values, kind.instance);
    }
  }

  lemma ObeysStep(c: Config, s: State, step: Step, s': State)
    requires WindowInv(c, s) && LeaderInv(c, s) && ObeysInv(c, s) && |s.nextCb| == c.n && Next(c, s, step, s')
    ensures ObeysInv(c, s')
  {
    hide LeaderInv, FrameInv, Accepts, MayBegin, Expecting;
    match step
    case Begin(kind) => ObeysBegins(c, s, kind, s');
    case Finish => ObeysFinishes(c, s, s');
    case Broadcast => ObeysBroadcasts(c, s, s');
    case Receive(from, goal) => assert s.frames != [] ==> s'.frames[0] == s.frames[0];
    case _ =>
  }

  /** In the loop of `propose`, with no prepare waiting. */
  predicate Turning(s: State) {
    s.proposing && !Proposing(s)
  }

  /** Then the last prepare is being handled, or it was. */
  predicate Turns(c: Config, s: State) {
    Idle(s) || (|s.frames| == 1 && s.frames[0].Handling? && s.frames[0].from == c.me && s.frames[0].goal == 0)
  }

  predicate WaitsWith(s: State, k: nat, low: Instance) {
    k < |s.frames| && s.frames[k] == Waiting(Checkpoint(low))
  }

  ghost predicate WindowInv(c: Config, s: State) {
    && c.Valid()
    && QueueInv(s)
    && s.low <= s.sentAbove <= s.certified
    && (s.low < s.sentAbove ==> exists k: nat :: WaitsWith(s, k, s.sentAbove))
    && (Turning(s) ==> Turns(c, s) && c.Leads(s.view))
    && forall k :: 0 <= k < |s.frames| ==> FrameInv(c, s, s.frames[k], k == 0)
  }

  lemma FramesStay(c: Config, s: State, s': State, n: nat)
    requires c.Valid() && s.view <= s'.view && s.low <= s'.low && s.sentAbove <= s'.sentAbove
    requires n <= |s.frames| && n <= |s'.frames| && s'.frames[..n] == s.frames[..n]
    requires forall k :: 0 <= k < |s.frames| ==> FrameInv(c, s, s.frames[k], k == 0)
    ensures forall k :: 0 <= k < n ==> FrameInv(c, s', s'.frames[k], k == 0)
  {
    forall k | 0 <= k < n ensures FrameInv(c, s', s'.frames[k], k == 0) {
      assert s'.frames[..n][k] == s.frames[..n][k];
      assert s'.frames[k] == s.frames[k] && FrameInv(c, s, s.frames[k], k == 0);
    }
  }

  lemma QueueBroadcasts(c: Config, s: State, s': State)
    requires WindowInv(c, s) && |s.nextCb| == c.n && Next(c, s, Broadcast, s')
    ensures QueueInv(s')
  {
    hide Accepts, Later, Expecting;
    assert FrameInv(c, s, s.frames[0], true) && FrameInv(c, s, Top(s), |s.frames| == 1);
    if |s.frames| > 1 {
      assert s'.frames[0] == s.frames[0];
    }
  }

  lemma QueueFinishes(c: Config, s: State, s': State)
    requires WindowInv(c, s) && |s.nextCb| == c.n && Next(c, s, Finish, s')
    ensures QueueInv(s')
  {
    hide Proposals;
    ProposalsObey(s.view, s.certified, s.coming);
    assert FrameInv(c, s, s.frames[0], true) && FrameInv(c, s, Top(s), |s.frames| == 1);
    if |s.frames| > 1 {
      assert s'.frames[0] == s.frames[0];
    }
  }

  lemma QueueStep(c: Config, s: State, step: Step, s': State)
    requires WindowInv(c, s) && |s.nextCb| == c.n && Next(c, s, step, s')
    ensures QueueInv(s')
  {
    hide Accepts, Expecting, FrameInv;
    match step
    case Broadcast => QueueBroadcasts(c, s, s');
    case Finish => QueueFinishes(c, s, s');
    case Begin(kind) => assert s.frames != [] ==> s'.frames[0] == s.frames[0];
    case Receive(from, goal) => assert s.frames != [] ==> s'.frames[0] == s.frames[0];
    case _ =>
  }

  lemma NewFrame(c: Config, s: State, step: Step, s': State)
    requires WindowInv(c, s) && |s.nextCb| == c.n && Next(c, s, step, s') && (step.Begin? || step.Broadcast? || step.Receive?)
    ensures s'.frames != [] && FrameInv(c, s', Top(s'), |s'.frames| == 1)
  {
    if s.frames != [] {
      assert FrameInv(c, s, Top(s), |s.frames| == 1);
    }
  }

  /** How many frames stay as they are. */
  function Kept(s: State, step: Step): nat {
    if s.frames != [] && (step.Broadcast? || step.Finish?) then |s.frames| - 1 else |s.frames|
  }

  lemma StackStep(c: Config, s: State, step: Step, s': State)
    requires WindowInv(c, s) && |s.nextCb| == c.n && Next(c, s, step, s')
    ensures s.view <= s'.view && s.low <= s'.low <= s'.sentAbove <= s'.certified && s.sentAbove <= s'.sentAbove
    ensures Kept(s, step) <= |s'.frames| <= Kept(s, step) + 1 && s'.frames[..Kept(s, step)] == s.frames[..Kept(s, step)]
    ensures Kept(s, step) < |s'.frames| ==> step.Begin? || step.Broadcast? || step.Receive?
  {
    hide QueueInv;
    if s.frames != [] {
      assert FrameInv(c, s, Top(s), |s.frames| == 1);
    }
  }

  lemma LoopStep(c: Config, s: State, step: Step, s': State)
    requires WindowInv(c, s) && |s.nextCb| == c.n && Next(c, s, step, s')
    ensures Turning(s') ==> Turns(c, s') && c.Leads(s'.view)
  {
    hide QueueInv, Proposals, Later, Expecting;
    if s.frames != [] {
      assert FrameInv(c, s, Top(s), |s.frames| == 1);
      assert |s'.frames| > 0 && |s.frames| > 1 ==> s'.frames[0] == s.frames[0];
    }
  }

  lemma WaitsStep(c: Config, s: State, step: Step, s': State)
    requires WindowInv(c, s) && |s.nextCb| == c.n && Next(c, s, step, s')
    ensures s'.low < s'.sentAbove ==> exists k: nat :: WaitsWith(s', k, s'.sentAbove)
  {
    hide QueueInv, Proposals, Later, Expecting, FrameInv;
    if s'.low < s'.sentAbove {
      if step.Begin? && step.kind.Checkpoint? {
        assert WaitsWith(s', |s.frames|, s'.sentAbove);
      } else {
        var k: nat :| WaitsWith(s, k, s.sentAbove);
        assert WaitsWith(s', k, s'.sentAbove);
      }
    }
  }

  lemma WindowStep(c: Config, s: State, step: Step, s': State)
    requires WindowInv(c, s) && |s.nextCb| == c.n && Next(c, s, step, s')
    ensures WindowInv(c, s') && s.low <= s'.low && s.view <= s'.view
  {
    hide QueueInv, Next, FrameInv;
    QueueStep(c, s, step, s');
    LoopStep(c, s, step, s');
    WaitsStep(c, s, step, s');
    StackStep(c, s, step, s');
    FramesStay(c, s, s', Kept(s, step));
    if Kept(s, step) < |s'.frames| {
      NewFrame(c, s, step, s');
    }
  }

  lemma {:induction false} RunsKeepWindow(c: Config, states: seq<State>, steps: seq<Step>, k: nat)
    requires IsRun(c, states, steps) && k < |states|
    ensures WindowInv(c, states[k])
  {
    hide Next;
    if k > 0 {
      RunsKeepWindow(c, states, steps, k - 1);
      WindowStep(c, states[k - 1], steps[k - 1], states[k]);
    }
  }

  lemma {:induction false} RunsObey(c: Config, states: seq<State>, steps: seq<Step>, k: nat)
    requires IsRun(c, states, steps) && k < |states|
    ensures WindowInv(c, states[k]) && LeaderInv(c, states[k]) && ObeysInv(c, states[k])
  {
    hide Next;
    RunsKeepWindow(c, states, steps, k);
    if k > 0 {
      RunsObey(c, states, steps, k - 1);
      LeaderStep(c, states[k - 1], steps[k - 1], states[k]);
      ObeysStep(c, states[k - 1], steps[k - 1], states[k]);
    }
  }

  /** Outside of calls, next_proposal is what was proposed plus what is queued. */
  lemma ProposalsAreCounted(c: Config, states: seq<State>, steps: seq<Step>, k: nat)
    requires IsRun(c, states, steps) && k < |states| && Idle(states[k])
    ensures states[k].nextProposal == states[k].proposed + |states[k].queue|
    ensures forall j :: 0 <= j < |states[k].queue| ==> states[k].queue[j].1 == states[k].proposed + j
  {
    hide Next;
    RunsKeepWindow(c, states, steps, k);
  }

  /** The checkpoint that would open instance i for one's own commits still waits. */
  ghost predicate OpensLater(c: Config, s: State, i: Instance) {
    s.low + c.window <= i && exists k: nat, low: Instance :: WaitsWith(s, k, low) && i < low + c.window
  }

  /** When a replica accepts the message it waited to broadcast: a prepare, if the view is the same
      and no checkpoint overtook it; a commit, if the view is the same and the checkpoint that opens
      its instance does not wait below it; a checkpoint, if no later one overtook it. In all other
      cases it throws on its own message. */
  lemma AcceptedExactly(c: Config, states: seq<State>, steps: seq<Step>, k: nat)
    requires IsRun(c, states, steps) && k < |states| && states[k].frames != [] && Top(states[k]).Waiting?
    ensures var s := states[k];
            match Top(s).kind
            case Prepare(v, i, b) => Accepts(c, s, Prepare(v, i, b)) <==> s.view == v && s.low <= i
            case Commit(v, i) => Accepts(c, s, Commit(v, i)) <==> s.view == v && !OpensLater(c, s, i)
            case Checkpoint(low) => Accepts(c, s, Checkpoint(low)) <==> s.low < low
            case _ => Accepts(c, s, Top(s).kind)
  {
    hide Next, LeaderInv;
    RunsObey(c, states, steps, k);
    var s := states[k];
    assert FrameInv(c, s, Top(s), |s.frames| == 1);
  }

  /** What passes the checks before the wait is accepted, were it broadcast at once: refusals are
      due to what happens during the wait; or, for a prepare, to a slot taken in an earlier view
      or a checkpoint above it, and for a commit, to a checkpoint that waits already. */
  lemma AcceptedAtOnce(c: Config, states: seq<State>, steps: seq<Step>, k: nat, kind: Kind)
    requires IsRun(c, states, steps) && k < |states| && MayBegin(c, states[k], kind)
    ensures kind.Prepare? ==> (Accepts(c, states[k], kind) <==> states[k].view == kind.view && states[k].low <= kind.instance)
    ensures kind.Commit? ==> (Accepts(c, states[k], kind) <==> !OpensLater(c, states[k], kind.instance))
    ensures !kind.Prepare? && !kind.Commit? ==> Accepts(c, states[k], kind)
  {
    hide Next;
    RunsObey(c, states, steps, k);
  }
}
