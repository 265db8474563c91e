/** What a replica does in one call while nothing else arrives is a run of the protocol: a message is
    delivered, and if it calls for another view, the views below are sealed one after the other and
    the handler of the NewView ends. */
module ConsensusCalls {
  import opened Options
  import opened ConsensusLog
  import opened ConsensusProtocol
  import opened ConsensusReplica

  ghost predicate IsPath(c: Config, states: seq<State>, steps: seq<Step>)
    requires c.n > 0
  {
    && |states| == |steps| + 1
    && (forall k :: 0 <= k < |states| ==> Sane(c, states[k]))
    && forall k :: 0 <= k < |steps| ==> Next(c, states[k], steps[k], states[k + 1])
  }

  lemma PathOne(c: Config, s: State, step: Step, s': State)
    requires c.n > 0 && Sane(c, s) && Sane(c, s') && Next(c, s, step, s')
    ensures IsPath(c, [s, s'], [step])
  {}

  lemma PathJoin(c: Config, a: seq<State>, steps: seq<Step>, b: seq<State>, more: seq<Step>)
    requires c.n > 0 && IsPath(c, a, steps) && IsPath(c, b, more) && a[|a| - 1] == b[0]
    ensures IsPath(c, a + b[1..], steps + more) && (a + b[1..])[0] == a[0] && (a + b[1..])[|a + b[1..]| - 1] == b[|b| - 1]
  {
    hide Next, Sane;
    var states, all := a + b[1..], steps + more;
    forall k | 0 <= k < |all| ensures Next(c, states[k], all[k], states[k + 1]) {
      if k >= |steps| {
        assert all[k] == more[k - |steps|] && states[k + 1] == b[k - |steps| + 1];
        assert states[k] == b[k - |steps|];
      }
    }
  }

  /** The local state of p becomes l, whatever the step adds to streams and signatures. */
  ghost predicate Leads(s: State, p: nat, l: Local, s': State)
    requires p < |s.locals|
  {
    s'.locals == s.locals[p := l] && s'.halted == s.halted
  }

  /** One view is sealed inside the handler of a NewView. */
  lemma SealsInside(c: Config, s: State, p: nat) returns (states: seq<State>, steps: seq<Step>)
    requires c.n > 0 && Sane(c, s) && Runs(c, s, p) && ChangingView(s.locals[p], p) && AllCommitted(s.locals[p], p)
    requires Handle(c, s.locals[p], p, p, SealView).Some?
    ensures IsPath(c, states, steps) && states[0] == s
    ensures Leads(s, p, AfterBroadcast(Handle(c, s.locals[p], p, p, SealView).value, SealView), states[|steps|])
  {
    var l := s.locals[p];
    var w := Begun(l, SealView);
    var s1 := s.(locals := s.locals[p := w]);
    assert Popped(w) == l && Waits(w, SealView);
    var r := Handle(c, l, p, p, SealView);
    var s2 := s1.(logs := s1.logs[p := s1.logs[p] + [SealView]], locals := s1.locals[p := AfterBroadcast(r.value, SealView)],
                  seals := SealsAfter(s1, p, p, SealView));
    assert Next(c, s, Begin(p, SealView), s1);
    assert Next(c, s1, Broadcast(p, SealView), s2);
    hide Next, Handle, Begun, AfterBroadcast, AllCommitted;
    assert Sane(c, s1) && Sane(c, s2);
    states, steps := [s, s1, s2], [Begin(p, SealView), Broadcast(p, SealView)];
  }

  /** And all views below v. */
  lemma {:induction false} SealsUpTo(c: Config, s: State, p: nat, v: View) returns (states: seq<State>, steps: seq<Step>)
    requires c.n > 0 && Sane(c, s) && Runs(c, s, p) && p < c.n
    requires !Idle(s.locals[p]) && Top(s.locals[p]).Opening? && Top(s.locals[p]).view == v && SealUp(c, s.locals[p], p, v).Some?
    ensures IsPath(c, states, steps) && states[0] == s && Leads(s, p, SealUp(c, s.locals[p], p, v).value, states[|steps|])
    decreases v - s.locals[p].peers[p].view
  {
    var l := s.locals[p];
    if v <= l.peers[p].view {
      states, steps := [s], [];
    } else {
      var l1 := AfterBroadcast(Handle(c, l, p, p, SealView).value, SealView);
      SealsOne(c, l, p, v);
      hide Handle, AfterBroadcast, SealUp, AllCommitted, Next;
      var first, one := SealsInside(c, s, p);
      var s1 := first[|one|];
      assert s1.locals[p] == l1;
      var rest, more := SealsUpTo(c, s1, p, v);
      PathJoin(c, first, one, rest, more);
      states, steps := first + rest[1..], one + more;
    }
  }

  lemma SealsOne(c: Config, l: Local, p: nat, v: View)
    requires Shaped(c, l) && p < c.n && !Idle(l) && l.peers[p].view < v && SealUp(c, l, p, v).Some?
    ensures AllCommitted(l, p) && Handle(c, l, p, p, SealView).Some?
    ensures var l1 := AfterBroadcast(Handle(c, l, p, p, SealView).value, SealView);
            && Shaped(c, l1) && l1.frames == l.frames && l1.peers[p].view == l.peers[p].view + 1
            && SealUp(c, l1, p, v) == SealUp(c, l, p, v)
  {}

  /** What `handleCbMessage` makes of the next message of a stream, in one call. */
  lemma ReceiveIsPath(c: Config, s: State, p: nat, from: nat) returns (states: seq<State>, steps: seq<Step>)
    requires c.n > 0 && Sane(c, s) && Runs(c, s, p) && Idle(s.locals[p]) && from < c.n && from != p
    requires s.locals[p].peers[from].nextCb < |s.logs[from]|
    requires var m := s.logs[from][s.locals[p].peers[from].nextCb]; Checked(c, s, p, m) && Receive(c, s.locals[p], p, from, m).Some?
    ensures var m := s.logs[from][s.locals[p].peers[from].nextCb];
            && IsPath(c, states, steps) && states[0] == s && steps != [] && steps[0] == Deliver(p, from)
            && Leads(s, p, Receive(c, s.locals[p], p, from, m).value, states[|steps|])
  {
    var l := s.locals[p];
    var m := s.logs[from][l.peers[from].nextCb];
    var s1 := Delivers(c, s, p, from, m);
    if !m.NewView? || m.newView <= l.peers[p].view {
      hide Next, Handle;
      states, steps := [s, s1], [Deliver(p, from)];
    } else {
      OpensAt(c, l, p, from, m.newView, m.states);
      var h := Handle(c, l, p, from, m).value;
      assert SealUp(c, h, p, m.newView).Some?;
      hide Next, Handle, SealUp, Opened;
      PathOne(c, s, Deliver(p, from), s1);
      var rest, more := OpensPath(c, s1, p, from, m.newView, m.states);
      PathJoin(c, [s, s1], [Deliver(p, from)], rest, more);
      states, steps := [s, s1] + rest[1..], [Deliver(p, from)] + more;
    }
  }

  lemma Delivers(c: Config, s: State, p: nat, from: nat, m: Msg) returns (s': State)
    requires c.n > 0 && Sane(c, s) && Runs(c, s, p) && Idle(s.locals[p]) && from < c.n && from != p
    requires s.locals[p].peers[from].nextCb < |s.logs[from]| && m == s.logs[from][s.locals[p].peers[from].nextCb]
    requires Checked(c, s, p, m) && Handle(c, s.locals[p], p, from, m).Some?
    ensures Sane(c, s') && Next(c, s, Deliver(p, from), s') && Leads(s, p, Handle(c, s.locals[p], p, from, m).value, s')
  {
    hide Handle, Checked;
    s' := s.(locals := s.locals[p := Handle(c, s.locals[p], p, from, m).value], seals := SealsAfter(s, p, from, m));
  }

  /** The views are sealed, and the handler ends. */
  lemma OpensPath(c: Config, s: State, p: nat, from: nat, v: View, vcs: seq<VcState>) returns (states: seq<State>, steps: seq<Step>)
    requires c.n > 0 && Sane(c, s) && Runs(c, s, p) && from < c.n && s.locals[p].frames == [Opening(from, v, vcs)]
    requires SealUp(c, s.locals[p], p, v).Some?
    ensures var up := SealUp(c, s.locals[p], p, v).value;
            && !Idle(up) && IsPath(c, states, steps) && states[0] == s
            && Leads(s, p, Opened(c, Popped(up), from, v, vcs), states[|steps|])
  {
    SealedUp(c, s.locals[p], p, v);
    hide Next, SealUp, Opened;
    var up := SealUp(c, s.locals[p], p, v).value;
    var rest, more := SealsUpTo(c, s, p, v);
    var s2 := rest[|more|];
    var s3 := s2.(locals := s2.locals[p := Opened(c, Popped(up), from, v, vcs)]);
    Ends(c, s2, p, from, v, vcs, s3);
    PathOne(c, s2, Open(p), s3);
    PathJoin(c, rest, more, [s2, s3], [Open(p)]);
    states, steps := rest + [s2, s3][1..], more + [Open(p)];
  }

  lemma OpensAt(c: Config, l: Local, p: nat, from: nat, v: View, vcs: seq<VcState>)
    requires Shaped(c, l) && p < c.n && from < c.n && Idle(l) && l.peers[p].view < v && Handle(c, l, p, from, NewView(v, vcs)).Some?
    ensures var h := Handle(c, l, p, from, NewView(v, vcs)).value;
            h.frames == [Opening(from, v, vcs)] && h.peers[p].view == l.peers[p].view
  {}

  /** Sealing leaves the handler under way, and reaches its view. */
  lemma {:induction false} SealedUp(c: Config, l: Local, p: nat, v: View)
    requires Shaped(c, l) && p < c.n && SealUp(c, l, p, v).Some?
    ensures Shaped(c, SealUp(c, l, p, v).value)
    ensures SealUp(c, l, p, v).value.frames == l.frames && v <= SealUp(c, l, p, v).value.peers[p].view
    decreases v - l.peers[p].view
  {
    if l.peers[p].view < v {
      var l1 := AfterBroadcast(Handle(c, l, p, p, SealView).value, SealView);
      SealedUp(c, l1, p, v);
    }
  }

  lemma Ends(c: Config, s: State, p: nat, from: nat, v: View, vcs: seq<VcState>, s': State)
    requires c.n > 0 && Sane(c, s) && Runs(c, s, p) && s.locals[p].frames == [Opening(from, v, vcs)] && from < c.n && v <= s.locals[p].peers[p].view
    requires s' == s.(locals := s.locals[p := Opened(c, Popped(s.locals[p]), from, v, vcs)])
    ensures Sane(c, s') && Next(c, s, Open(p), s')
  {}
}
