/** The loops of the replicated writer and reader, as steps of the replicated register. */
module ReplicatedAccess {
  import opened Options
  import opened Quorums
  import opened ReplicatedRegister

  lemma DonePrefix<V>(hosts: seq<Host<V>>, i: nat)
    requires i < |hosts|
    ensures |DoneIn(hosts, i + 1)| == |DoneIn(hosts, i)| + if !hosts[i].pending && hosts[i].flying.None? then 1 else 0
  {
    assert DoneIn(hosts, i + 1) == DoneIn(hosts, i) + (if Done(hosts[i]) then {i} else {});
  }

  lemma NoneDone<V>(hosts: seq<Host<V>>)
    ensures DoneIn(hosts, 0) == {}
  {}

  lemma AllDone<V>(hosts: seq<Host<V>>)
    ensures DoneIn(hosts, |hosts|) == DoneHosts(hosts)
  {}

  function DoneIn<V>(hosts: seq<Host<V>>, i: nat): set<nat>
    requires i <= |hosts|
  {
    set h: nat | h in Group(i) && Done(hosts[h])
  }

  /** `replicated_swmr::Writer`, for one register; a host stands for its managed writer. */
  class Writer<V> {
    var incarnation: nat
    var buffer: V
    var outstanding: bool
    const hosts: array<Host<V>>

    function Abstract(jobs: seq<Job<V>>, values: map<nat, V>, complete: nat): State<V>
      reads this, hosts
    {
      State(incarnation, buffer, outstanding, hosts[..], jobs, values, complete)
    }

    constructor (n: nat, zero: V)
      ensures fresh(hosts) && hosts.Length == n && Init(n, zero, Abstract([], map[0 := zero], 0))
    {
      incarnation, buffer, outstanding := 0, zero, false;
      hosts := new Host<V>[n](_ => Host(map[0 := zero], 0, None, false));
    }

    /** `write`, of a value put in the register's slot; it throws (`ok` is false) while the
        previous write is outstanding or if the incarnation does not grow. */
    method Write(next: nat, value: V, ghost jobs: seq<Job<V>>, ghost values: map<nat, V>, ghost complete: nat) returns (ok: bool)
      modifies this, hosts
      ensures ok <==> !old(outstanding) && old(incarnation) < next
      ensures if ok then Next(old(Abstract(jobs, values, complete)), Step.Write(next, value), Abstract(jobs, values[next := value], complete))
              else Abstract(jobs, values, complete) == old(Abstract(jobs, values, complete))
    {
      if outstanding || next <= incarnation {
        return false;
      }
      incarnation, buffer, outstanding := next, value, true;
      for h := 0 to hosts.Length
        invariant forall g :: 0 <= g < h ==> hosts[g] == Pushed(old(hosts[g]).(pending := true), next, value)
        invariant forall g :: h <= g < hosts.Length ==> hosts[g] == old(hosts[g])
        invariant incarnation == next && buffer == value && outstanding
      {
        hosts[h] := Pushed(hosts[h].(pending := true), next, value);
      }
      ghost var before := old(hosts[..]);
      assert hosts[..] == seq(|before|, h requires 0 <= h < |before| => Pushed(before[h].(pending := true), next, value));
      ok := true;
    }

    /** `tick`, at one host. */
    method Push(h: nat, ghost jobs: seq<Job<V>>, ghost values: map<nat, V>, ghost complete: nat)
      requires h < hosts.Length
      modifies hosts
      ensures Next(old(Abstract(jobs, values, complete)), Step.Push(h), Abstract(jobs, values, complete))
    {
      hosts[h] := Pushed(hosts[h], incarnation, buffer);
    }

    method CountDone() returns (writes: nat)
      ensures writes == |DoneHosts(hosts[..])|
    {
      hide DoneIn, DoneHosts, Done;
      NoneDone(hosts[..]);
      writes := 0;
      for h := 0 to hosts.Length
        invariant writes == |DoneIn(hosts[..], h)|
      {
        DonePrefix(hosts[..], h);
        if !hosts[h].pending && hosts[h].flying.None? {
          writes := writes + 1;
        }
      }
      AllDone(hosts[..]);
    }

    /** `completed`: throws (None) without an outstanding write. */
    method Completed(ghost jobs: seq<Job<V>>, ghost values: map<nat, V>, ghost complete: nat) returns (done: Option<bool>)
      modifies this`outstanding
      ensures done.None? <==> !old(outstanding)
      ensures done == Some(true) <==> old(outstanding) && |DoneHosts(hosts[..])| >= Quorum(hosts.Length)
      ensures if done == Some(true)
              then Next(old(Abstract(jobs, values, complete)), Step.Complete, Abstract(jobs, values, incarnation))
              else outstanding == old(outstanding)
    {
      if !outstanding {
        return None;
      }
      var writes := CountDone();
      if writes >= (hosts.Length + 1) / 2 {
        outstanding := false;
        return Some(true);
      }
      done := Some(false);
    }
  }

  /** The hosts that returned, as a map. */
  function Returned<V>(polled: seq<Option<(nat, V)>>, i: nat): (m: map<nat, (nat, V)>)
    requires i <= |polled|
    ensures forall h :: h in m <==> 0 <= h < i && polled[h].Some?
    ensures forall h :: h in m ==> m[h] == polled[h].value
  {
    if i == 0 then map[]
    else if polled[i - 1].Some? then Returned(polled, i - 1)[i - 1 := polled[i - 1].value]
    else Returned(polled, i - 1)
  }

  lemma ReturnedNone<V>(polled: seq<Option<(nat, V)>>)
    ensures Returned(polled, 0) == map[]
  {}

  lemma ReturnedMore<V>(polled: seq<Option<(nat, V)>>, h: nat)
    requires h < |polled|
    ensures polled[h].None? ==> Returned(polled, h + 1) == Returned(polled, h)
    ensures polled[h].Some? ==> h !in Returned(polled, h) && Returned(polled, h + 1) == Returned(polled, h)[h := polled[h].value]
    ensures polled[h].Some? ==> |Returned(polled, h + 1)| == |Returned(polled, h)| + 1
  {}

  lemma HigherReturned<V>(before: map<nat, (nat, V)>, highest: Option<(nat, V)>, h: nat, found: (nat, V))
    requires h !in before && if highest.None? then |before| == 0 else Highest(before, highest.value) && highest.value.0 < found.0
    ensures Highest(before[h := found], found)
  {
    var after := before[h := found];
    assert h in after && after[h] == found;
    assert |before| == 0 ==> before == map[];
  }

  lemma LowerReturned<V>(before: map<nat, (nat, V)>, highest: (nat, V), h: nat, found: (nat, V))
    requires h !in before && Highest(before, highest) && found.0 <= highest.0
    ensures Highest(before[h := found], highest)
  {
    var g :| g in before && before[g] == highest;
    var after := before[h := found];
    assert g in after && after[g] == highest;
  }

  lemma QuorumIs(n: nat)
    ensures Quorum(n) == (n + 1) / 2
  {}

  /** `replicated_swmr::Reader::poll`: nothing until a quorum returned, then the highest
      incarnation among those that did. */
  method Poll<V>(polled: array<Option<(nat, V)>>) returns (r: Option<(nat, V)>)
    requires polled.Length > 0
    ensures r.Some? <==> |Returned(polled[..], polled.Length)| >= Quorum(polled.Length)
    ensures r.Some? ==> Highest(Returned(polled[..], polled.Length), r.value)
  {
    hide *;
    ReturnedNone(polled[..]);
    var count := 0;
    var highest: Option<(nat, V)> := None;
    for h := 0 to polled.Length
      invariant count == |Returned(polled[..], h)| && count <= h
      invariant highest.None? <==> count == 0
      invariant highest.Some? ==> Highest(Returned(polled[..], h), highest.value)
    {
      ReturnedMore(polled[..], h);
      if polled[h].Some? {
        count := count + 1;
        if highest.None? || highest.value.0 < polled[h].value.0 {
          HigherReturned(Returned(polled[..], h), highest, h, polled[h].value);
          highest := polled[h];
        } else {
          LowerReturned(Returned(polled[..], h), highest.value, h, polled[h].value);
        }
      }
    }
    QuorumIs(polled.Length);
    if count < (polled.Length + 1) / 2 {
      return None;
    }
    r := highest;
  }
}
