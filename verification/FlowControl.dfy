/** Flow control between two servers: one echoes client requests over a ring that overwrites
    (and drops only what it overwrites, see TailP2pDelivery), the other acknowledges what it polled. Both slow-path echoes (signed) and fast-path ones
    have a ring of their own, but share one counter of outstanding requests. */
module FlowControl {
  import opened Options

  /** Echoes polled before an acknowledgement is sent. */
  const MAX_POLLS := 3

  /** Rings have `slots` slots; the source gives them server_window of them. */
  datatype Config = Config(window: nat, slots: nat)

  datatype Channel = Requests | Signed

  /** Messages given to the sender, written to the remote ring, and polled from there. Those
      not yet written wait in a pool of the size of the ring. */
  datatype Ring = Ring(made: nat, written: nat, polled: nat) {
    function Unread(): int { made - polled }
  }

  /** `acks` are those not received yet, of which the first `ackWritten` are in the ring;
      `polled` are the echoes of `from` that the next acknowledgement covers. `lost` tells that
      a message was recycled or overwritten before it was polled, `failed` that more was
      acknowledged than was outstanding. */
  datatype State = State(outstanding: nat, requests: Ring, signed: Ring, polled: nat, from: Channel,
                         acks: seq<nat>, ackWritten: nat, lost: bool, failed: bool) {
    function Of(ch: Channel): Ring {
      if ch == Requests then requests else signed
    }

    function With(ch: Channel, r: Ring): State {
      if ch == Requests then this.(requests := r) else this.(signed := r)
    }
  }

  const EMPTY := Ring(0, 0, 0)
  const START := State(0, EMPTY, EMPTY, 0, Requests, [], 0, false, false)

  datatype Step =
    | Echo(ch: Channel)
    | Write(ch: Channel)
    | Poll(ch: Channel)
    | SendAck
    | WriteAck
    | ReceiveAck

  predicate Next(c: Config, s: State, step: Step, s': State) {
    match step
    case Echo(ch) =>
      var r := s.Of(ch);
      && s.outstanding < c.window
      && s' == s.With(ch, r.(made := r.made + 1)).(outstanding := s.outstanding + 1, lost := s.lost || r.made >= r.written + c.slots)
    case Write(ch) =>
      var r := s.Of(ch);
      && r.written < r.made
      && s' == s.With(ch, r.(written := r.written + 1)).(lost := s.lost || r.written >= r.polled + c.slots)
    case Poll(ch) =>
      var r := s.Of(ch);
      && r.polled < r.written && s.polled < MAX_POLLS && (s.polled > 0 ==> s.from == ch)
      && s' == s.With(ch, r.(polled := r.polled + 1)).(polled := s.polled + 1, from := ch)
    case SendAck =>
      && s.polled > 0
      && s' == s.(acks := s.acks + [s.polled], polled := 0, lost := s.lost || |s.acks| >= c.slots)
    case WriteAck =>
      && s.ackWritten < |s.acks|
      && s' == s.(ackWritten := s.ackWritten + 1)
    case ReceiveAck =>
      && s.outstanding > 0 && 0 < s.ackWritten <= |s.acks|
      && var a := s.acks[0];
         s' == if a > s.outstanding then s.(failed := true)
               else s.(outstanding := s.outstanding - a, acks := s.acks[1..], ackWritten := s.ackWritten - 1)
  }

  predicate IsRun(c: Config, states: seq<State>, steps: seq<Step>) {
    && |states| == |steps| + 1
    && states[0] == START
    && forall k :: 0 <= k < |steps| ==> Next(c, states[k], steps[k], states[k + 1])
  }

  function Sum(acks: seq<nat>): nat {
    if acks == [] then 0 else acks[0] + Sum(acks[1..])
  }

  lemma {:induction false} SumAppend(acks: seq<nat>, a: nat)
    ensures Sum(acks + [a]) == Sum(acks) + a
  {
    if acks == [] {
      assert acks + [a] == [a];
    } else {
      SumAppend(acks[1..], a);
      assert (acks + [a])[1..] == acks[1..] + [a];
    }
  }

  lemma {:induction false} SumCovers(acks: seq<nat>)
    requires forall i :: 0 <= i < |acks| ==> acks[i] > 0
    ensures |acks| <= Sum(acks)
  {
    if acks != [] {
      SumCovers(acks[1..]);
    }
  }

  predicate Ordered(r: Ring) {
    r.polled <= r.written <= r.made
  }

  /** Conservation: what is outstanding is unread, or polled and not acknowledged, or acknowledged
      in a message on its way. */
  ghost predicate Conserved(s: State) {
    && Ordered(s.requests) && Ordered(s.signed)
    && s.outstanding == s.requests.Unread() + s.signed.Unread() + s.polled + Sum(s.acks)
    && forall i :: 0 <= i < |s.acks| ==> s.acks[i] > 0
  }

  lemma EchoSteps(c: Config, s: State, step: Step, s': State)
    requires Conserved(s) && s.outstanding <= c.window && Next(c, s, step, s') && (step.Echo? || step.Write? || step.Poll?)
    ensures Conserved(s') && s'.outstanding <= c.window && s'.failed == s.failed
    ensures c.window <= c.slots ==> s'.lost == s.lost
  {
    hide Sum;
    assert s'.acks == s.acks;
  }

  lemma AckSteps(c: Config, s: State, step: Step, s': State)
    requires Conserved(s) && s.outstanding <= c.window && Next(c, s, step, s') && (step.SendAck? || step.WriteAck? || step.ReceiveAck?)
    ensures Conserved(s') && s'.outstanding <= c.window && s'.failed == s.failed
    ensures c.window <= c.slots ==> s'.lost == s.lost
  {
    SumCovers(s.acks);
    match step
    case SendAck =>
      SumAppend(s.acks, s.polled);
      hide Sum;
    case WriteAck =>
      hide Sum;
    case ReceiveAck =>
      assert Sum(s.acks) == s.acks[0] + Sum(s.acks[1..]);
      hide Sum;
  }

  lemma ConservedStep(c: Config, s: State, step: Step, s': State)
    requires Conserved(s) && s.outstanding <= c.window && Next(c, s, step, s')
    ensures Conserved(s') && s'.outstanding <= c.window && s'.failed == s.failed
    ensures c.window <= c.slots ==> s'.lost == s.lost
  {
    hide Conserved, Next;
    if step.Echo? || step.Write? || step.Poll? {
      EchoSteps(c, s, step, s');
    } else {
      AckSteps(c, s, step, s');
    }
  }

  lemma StartConserves()
    ensures Conserved(START)
  {}

  /** In every run between correct servers the counter is exact and within the window, and no
      acknowledgement exceeds it; where the rings hold the window, nothing is lost. */
  lemma {:induction false} RunsConserve(c: Config, states: seq<State>, steps: seq<Step>, k: nat)
    requires IsRun(c, states, steps) && k < |states|
    ensures Conserved(states[k]) && states[k].outstanding <= c.window && !states[k].failed
    ensures c.window <= c.slots ==> !states[k].lost
  {
    hide Next, Conserved;
    if k == 0 {
      StartConserves();
    } else {
      RunsConserve(c, states, steps, k - 1);
      ConservedStep(c, states[k - 1], steps[k - 1], states[k]);
    }
  }

  /** An acknowledgement that arrived is never left unpolled for want of outstanding requests. */
  lemma AcksAreReceived(c: Config, states: seq<State>, steps: seq<Step>, k: nat)
    requires IsRun(c, states, steps) && k < |states| && states[k].acks != []
    ensures states[k].outstanding > 0
  {
    RunsConserve(c, states, steps, k);
    SumCovers(states[k].acks);
  }

  // ---------- Every echo can be acknowledged ----------

  /** The steps that are left until all that is outstanding is acknowledged, at most. */
  function Work(s: State): int {
    5 * (s.requests.made - s.requests.written + s.signed.made - s.signed.written)
    + 4 * (s.requests.written - s.requests.polled + s.signed.written - s.signed.polled)
    + 3 * s.polled + 2 * (|s.acks| - s.ackWritten) + s.ackWritten
  }

  /** Acknowledgements written are among those sent. */
  ghost predicate Sound(s: State) {
    Conserved(s) && s.ackWritten <= |s.acks|
  }

  lemma {:induction false} RunsAreSound(c: Config, states: seq<State>, steps: seq<Step>, k: nat)
    requires IsRun(c, states, steps) && k < |states|
    ensures Sound(states[k])
  {
    RunsConserve(c, states, steps, k);
    hide Conserved;
    if k > 0 {
      RunsAreSound(c, states, steps, k - 1);
      assert Next(c, states[k - 1], steps[k - 1], states[k]);
    }
  }

  /** The next of these steps: what arrived is taken, what is sent is written, echoes are polled. */
  function Progress(s: State): (r: (Step, State)) {
    if s.ackWritten > 0 && s.acks != [] then
      (ReceiveAck, if s.acks[0] > s.outstanding then s.(failed := true)
                   else s.(outstanding := s.outstanding - s.acks[0], acks := s.acks[1..], ackWritten := s.ackWritten - 1))
    else if s.ackWritten < |s.acks| then (WriteAck, s.(ackWritten := s.ackWritten + 1))
    else if s.polled > 0 then (SendAck, s.(acks := s.acks + [s.polled], polled := 0))
    else
      var ch := if s.requests.made > s.requests.polled then Requests else Signed;
      var ring := s.Of(ch);
      if ring.polled < ring.written then (Poll(ch), s.With(ch, ring.(polled := ring.polled + 1)).(polled := 1, from := ch))
      else (Write(ch), s.With(ch, ring.(written := ring.written + 1)))
  }

  lemma AckProgress(c: Config, s: State)
    requires Sound(s) && s.outstanding > 0 && s.outstanding <= c.window <= c.slots && !s.lost && (s.acks != [] || s.polled > 0)
    ensures var (step, s') := Progress(s); Next(c, s, step, s') && !step.Echo? && s'.ackWritten <= |s'.acks| && Work(s') < Work(s)
  {
    SumCovers(s.acks);
    hide Sum;
  }

  lemma EchoProgress(c: Config, s: State)
    requires Sound(s) && s.outstanding > 0 && s.outstanding <= c.window <= c.slots && !s.lost && s.acks == [] && s.polled == 0
    ensures var (step, s') := Progress(s); Next(c, s, step, s') && !step.Echo? && s'.ackWritten <= |s'.acks| && Work(s') < Work(s)
  {
    assert Sum(s.acks) == 0;
    hide Sum;
  }

  lemma ProgressIsStep(c: Config, s: State)
    requires Sound(s) && s.outstanding > 0 && s.outstanding <= c.window <= c.slots && !s.lost
    ensures var (step, s') := Progress(s);
            Next(c, s, step, s') && !step.Echo? && Sound(s') && s'.outstanding <= c.window && !s'.lost && 0 <= Work(s') < Work(s)
  {
    if s.acks != [] || s.polled > 0 {
      AckProgress(c, s);
    } else {
      EchoProgress(c, s);
    }
    hide Progress, Next;
    ConservedStep(c, s, Progress(s).0, Progress(s).1);
  }

  /** Where the rings hold the window, no run is ever stuck: from each of its states, whatever is
      outstanding can be polled and acknowledged, without further echoes, until nothing is. */
  lemma {:induction false} RunsDrain(c: Config, s: State) returns (states: seq<State>, steps: seq<Step>)
    requires Sound(s) && s.outstanding <= c.window <= c.slots && !s.lost
    ensures |states| == |steps| + 1 && states[0] == s && states[|steps|].outstanding == 0 && !states[|steps|].lost
    ensures forall k :: 0 <= k < |steps| ==> Next(c, states[k], steps[k], states[k + 1]) && !steps[k].Echo?
    decreases Work(s)
  {
    if s.outstanding == 0 {
      states, steps := [s], [];
    } else {
      ProgressIsStep(c, s);
      var (step, s') := Progress(s);
      hide Next, Sound, Work, Progress;
      var rest, more := RunsDrain(c, s');
      states, steps := [s] + rest, [step] + more;
      forall k | 0 <= k < |steps| ensures Next(c, states[k], steps[k], states[k + 1]) && !steps[k].Echo? {
        if k > 0 {
          assert Next(c, rest[k - 1], more[k - 1], rest[k]);
        }
      }
    }
  }

  /** `n` echoes, none of them written yet. */
  function Echoed(c: Config, n: nat): State {
    START.(outstanding := n, requests := Ring(n, 0, 0), lost := n > c.slots)
  }

  lemma {:induction false} EchoRun(c: Config, n: nat) returns (states: seq<State>, steps: seq<Step>)
    requires n <= c.window
    ensures IsRun(c, states, steps) && states[|states| - 1] == Echoed(c, n)
  {
    if n == 0 {
      states, steps := [START], [];
    } else {
      var before, first := EchoRun(c, n - 1);
      states, steps := before + [Echoed(c, n)], first + [Echo(Requests)];
      assert Next(c, Echoed(c, n - 1), Echo(Requests), Echoed(c, n));
      forall k | 0 <= k < |steps| ensures Next(c, states[k], steps[k], states[k + 1]) {
        if k == |first| {
          assert states[k] == Echoed(c, n - 1);
        } else {
          assert states[k] == before[k] && states[k + 1] == before[k + 1];
        }
      }
    }
  }

  ghost predicate Lossless(c: Config) {
    forall states: seq<State>, steps: seq<Step>, k: int :: IsRun(c, states, steps) && 0 <= k < |states| ==> !states[k].lost
  }

  /** The overwriting ring is lossless exactly if it holds the window. */
  lemma LosslessExactly(c: Config)
    ensures Lossless(c) <==> c.window <= c.slots
  {
    if c.window <= c.slots {
      forall states: seq<State>, steps: seq<Step>, k: int | IsRun(c, states, steps) && 0 <= k < |states| ensures !states[k].lost {
        RunsConserve(c, states, steps, k);
      }
    } else {
      var states, steps := EchoRun(c, c.slots + 1);
      assert states[|states| - 1].lost;
    }
  }

  // ---------- The loops ----------

  function Min(a: nat, b: nat): nat { if a < b then a else b }

  /** The counter after acknowledgements; none where the source throws. */
  function AfterAcks(outstanding: nat, acks: seq<nat>): Option<nat> {
    if acks == [] then Some(outstanding)
    else if acks[0] > outstanding then None
    else AfterAcks(outstanding - acks[0], acks[1..])
  }

  lemma {:induction false} AfterAcksExactly(outstanding: nat, acks: seq<nat>)
    ensures AfterAcks(outstanding, acks) == if Sum(acks) <= outstanding then Some(outstanding - Sum(acks)) else None
  {
    if acks != [] && acks[0] <= outstanding {
      AfterAcksExactly(outstanding - acks[0], acks[1..]);
    }
  }

  class OtherServer {
    const window: nat
    var outstandingRequests: nat

    constructor (window: nat)
      ensures this.window == window && outstandingRequests == 0
    {
      this.window, outstandingRequests := window, 0;
    }

    /** `echoToLeader` and `echoToFollower`: the acknowledgements that arrived are taken, then
        requests are echoed as far as there are any and the window is open. */
    method Echo(acks: seq<nat>, available: nat) returns (ok: bool, received: bool, echoed: nat)
      modifies this`outstandingRequests
      ensures received == (old(outstandingRequests) > 0)
      ensures ok == (received ==> Sum(acks) <= old(outstandingRequests))
      ensures ok ==>
                var left := if received then old(outstandingRequests) - Sum(acks) else 0;
                outstandingRequests == left + echoed && echoed == if left < window then Min(available, window - left) else 0
    {
      echoed := 0;
      received := outstandingRequests > 0;
      if received {
        AfterAcksExactly(outstandingRequests, acks);
        var i := 0;
        while i < |acks|
          invariant 0 <= i <= |acks|
          invariant AfterAcks(outstandingRequests, acks[i..]) == AfterAcks(old(outstandingRequests), acks)
        {
          if acks[i] > outstandingRequests {
            return false, received, echoed;
          }
          outstandingRequests := outstandingRequests - acks[i];
          assert acks[i..][1..] == acks[i + 1..];
          i := i + 1;
        }
        assert acks[i..] == [];
      }
      ghost var left := outstandingRequests;
      while outstandingRequests < window
        invariant outstandingRequests == left + echoed && echoed <= available
        invariant echoed <= if left < window then window - left else 0
      {
        if echoed == available {
          break;
        }
        echoed := echoed + 1;
        outstandingRequests := outstandingRequests + 1;
      }
      ok := true;
    }
  }

  /** `pollFollowerEchoes` and `pollLeaderSignedEchoes`, for one ring with `unread` echoes. */
  method PollEchoes(unread: nat) returns (ack: Option<nat>)
    ensures ack == if unread == 0 then None else Some(Min(unread, MAX_POLLS))
  {
    var echoesPolled := 0;
    while echoesPolled < MAX_POLLS
      invariant echoesPolled <= Min(unread, MAX_POLLS)
    {
      if echoesPolled == unread {
        break;
      }
      echoesPolled := echoesPolled + 1;
    }
    ack := if echoesPolled != 0 then Some(echoesPolled) else None;
  }
}
