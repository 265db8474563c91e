/** What a replica broadcasts over consistent broadcast, and the part of the
    per-replica state (`internal::ReplicaState`) that is a function of that
    stream alone. Consistent broadcast gives every correct replica the same
    stream per broadcaster, so these folds are the shared ground of the
    agreement proof.
  */
module ConsensusLog {
  import opened Options

  type Replica = nat
  type View = nat
  type Instance = nat
  type Batch = seq<nat>

  /** A prepare certificate: the batch certified for (view, instance) and who signed it. */
  datatype Cert = Cert(view: View, instance: Instance, batch: Batch, signers: set<Replica>)

  /** One entry of `ReplicaState::commits`. */
  datatype Entry = Entry(view: View, batch: Batch)

  /** A certified view-change state of `replica`, as carried by a NewView. */
  datatype VcState = VcState(replica: Replica, view: View, commits: map<Instance, Entry>, signers: set<Replica>)

  datatype Msg =
    | Malformed
    | Prepare(view: View, instance: Instance, batch: Batch)
    | Commit(cert: Cert)
    // `index` is that of the certificate, `low` is what the checkpoint in it says.
    | Checkpoint(index: Instance, low: Instance)
    | SealView
    | NewView(newView: View, states: seq<VcState>)

  /** `at_view`, `commits` and `checkpoint.propose_range.low` of a ReplicaState. */
  datatype LogState = LogState(view: View, commits: map<Instance, Entry>, low: Instance)

  const INITIAL := LogState(0, map[], 0)

  function Prune(commits: map<Instance, Entry>, low: Instance): map<Instance, Entry> {
    map i | i in commits && low <= i :: commits[i]
  }

  function Apply(ls: LogState, m: Msg): LogState {
    match m
    case Commit(cert) => ls.(commits := ls.commits[cert.instance := Entry(cert.view, cert.batch)])
    case Checkpoint(_, low) => ls.(low := low, commits := Prune(ls.commits, low))
    case SealView => ls.(view := ls.view + 1)
    case _ => ls
  }

  function Fold(log: seq<Msg>): LogState {
    if log == [] then INITIAL else Apply(Fold(log[..|log| - 1]), log[|log| - 1])
  }

  /** The checks of `isByzantineCommit` and `ReplicaState::committed`, at which a correct replica
      stops; and checkpoints do not go back, of which it tests the index only. */
  predicate Acceptable(window: nat, ls: LogState, m: Msg) {
    match m
    case Commit(cert) =>
      && cert.instance < ls.low + window
      && cert.view == ls.view
      && (cert.instance in ls.commits ==> ls.commits[cert.instance].view < cert.view)
    case Checkpoint(_, low) => ls.low <= low
    case _ => true
  }

  predicate Accepted(window: nat, log: seq<Msg>) {
    log == [] ||
    (Accepted(window, log[..|log| - 1]) && Acceptable(window, Fold(log[..|log| - 1]), log[|log| - 1]))
  }

  /** The batch of the first Prepare for (v, i) in a stream. */
  function First(log: seq<Msg>, v: View, i: Instance): Option<Batch> {
    if log == [] then None
    else
      var f := First(log[..|log| - 1], v, i);
      var m := log[|log| - 1];
      if f.Some? then f
      else if m.Prepare? && m.view == v && m.instance == i then Some(m.batch)
      else None
  }

  /** Where the stream seals view v: the position of the SealView that ends it. */
  function SealPos(log: seq<Msg>, v: View): Option<nat> {
    if log == [] then None
    else
      var n := |log| - 1;
      var p := SealPos(log[..n], v);
      if p.Some? then p
      else if log[n].SealView? && Fold(log[..n]).view == v then Some(n)
      else None
  }

  /** A state remembers that (v, i) was committed: the commit is still there, or
      replaced by one of a later view, or pruned below a broadcast checkpoint. */
  predicate Kept(ls: LogState, v: View, i: Instance) {
    i < ls.low || (i in ls.commits && v <= ls.commits[i].view)
  }

  /** At some point of view v the stream remembered (v, i). */
  ghost predicate Pinned(log: seq<Msg>, v: View, i: Instance) {
    exists k: nat {:trigger log[..k]} :: k <= |log| && Fold(log[..k]).view == v && Kept(Fold(log[..k]), v, i)
  }

  lemma FoldNext(log: seq<Msg>, k: nat)
    requires k < |log|
    ensures Fold(log[..k + 1]) == Apply(Fold(log[..k]), log[k])
  {
    assert log[..k + 1][..k] == log[..k];
  }

  lemma AcceptedNext(window: nat, log: seq<Msg>, k: nat)
    requires k < |log|
    ensures Accepted(window, log[..k + 1]) ==
            (Accepted(window, log[..k]) && Acceptable(window, Fold(log[..k]), log[k]))
  {
    assert log[..k + 1][..k] == log[..k];
  }

  lemma {:induction false} AcceptedPrefix(window: nat, log: seq<Msg>, j: nat, k: nat)
    requires j <= k <= |log| && Accepted(window, log[..k])
    ensures Accepted(window, log[..j])
    decreases k
  {
    if j < k {
      AcceptedNext(window, log, k - 1);
      AcceptedPrefix(window, log, j, k - 1);
    }
  }

  lemma {:induction false} ViewsGrow(log: seq<Msg>, j: nat, k: nat)
    requires j <= k <= |log|
    ensures Fold(log[..j]).view <= Fold(log[..k]).view
    decreases k
  {
    if j < k {
      FoldNext(log, k - 1);
      ViewsGrow(log, j, k - 1);
    }
  }

  /** Accepted streams never forget a commit. */
  lemma {:induction false} KeptStays(window: nat, log: seq<Msg>, j: nat, k: nat, v: View, i: Instance)
    requires j <= k <= |log| && Accepted(window, log[..k])
    requires Kept(Fold(log[..j]), v, i)
    ensures Kept(Fold(log[..k]), v, i)
    decreases k
  {
    if j < k {
      AcceptedNext(window, log, k - 1);
      FoldNext(log, k - 1);
      KeptStays(window, log, j, k - 1, v, i);
    }
  }

  lemma {:induction false} FirstPrefix(log: seq<Msg>, k: nat, v: View, i: Instance)
    requires k <= |log|
    ensures First(log[..k], v, i).Some? ==> First(log, v, i) == First(log[..k], v, i)
    decreases |log|
  {
    if k == |log| {
      assert log[..k] == log;
    } else {
      FirstPrefix(log[..|log| - 1], k, v, i);
      assert log[..|log| - 1][..k] == log[..k];
    }
  }

  lemma FirstNext(log: seq<Msg>, k: nat, v: View, i: Instance)
    requires k < |log|
    ensures First(log[..k + 1], v, i) ==
            if First(log[..k], v, i).Some? then First(log[..k], v, i)
            else if log[k].Prepare? && log[k].view == v && log[k].instance == i then Some(log[k].batch)
            else None
  {
    assert log[..k + 1][..k] == log[..k];
  }

  lemma {:induction false} SealPosSound(log: seq<Msg>, v: View)
    ensures SealPos(log, v).Some? ==>
              var p := SealPos(log, v).value;
              p < |log| && log[p].SealView? && Fold(log[..p]).view == v
  {
    if log != [] {
      SealPosSound(log[..|log| - 1], v);
      if SealPos(log[..|log| - 1], v).Some? {
        var p := SealPos(log, v).value;
        assert log[..|log| - 1][..p] == log[..p];
      }
    }
  }

  lemma {:induction false} SealPosPrefix(log: seq<Msg>, k: nat, v: View)
    requires k <= |log|
    ensures SealPos(log[..k], v).Some? ==> SealPos(log, v) == SealPos(log[..k], v)
    decreases |log|
  {
    if k == |log| {
      assert log[..k] == log;
    } else {
      SealPosPrefix(log[..|log| - 1], k, v);
      assert log[..|log| - 1][..k] == log[..k];
    }
  }

  /** The first SealView met in view v is the one that seals it. */
  lemma SealPosAt(log: seq<Msg>, k: nat)
    requires k < |log| && log[k].SealView?
    ensures SealPos(log, Fold(log[..k]).view) == Some(k)
  {
    var v := Fold(log[..k]).view;
    SealPosSound(log[..k], v);
    if SealPos(log[..k], v).Some? {
      var p := SealPos(log[..k], v).value;
      assert log[..k][..p] == log[..p];
      FoldNext(log, p);
      ViewsGrow(log, p + 1, k);
      assert false;
    }
    assert log[..k + 1][..k] == log[..k];
    assert SealPos(log[..k + 1], v) == Some(k);
    SealPosPrefix(log, k + 1, v);
  }

  /** A stream seals its views one after the other. */
  lemma {:induction false} EarlierSealed(log: seq<Msg>, v: View, w: View)
    requires SealPos(log, w).Some? && v <= w
    ensures SealPos(log, v).Some?
  {
    SealPosSound(log, w);
    FoldNext(log, SealPos(log, w).value);
    SealedBelow(log, SealPos(log, w).value + 1, v);
    SealPosPrefix(log, SealPos(log, w).value + 1, v);
  }

  lemma {:induction false} SealedBelow(log: seq<Msg>, k: nat, v: View)
    requires k <= |log| && v < Fold(log[..k]).view
    ensures SealPos(log[..k], v).Some?
  {
    if k > 0 {
      FoldNext(log, k - 1);
      assert log[..k][..k - 1] == log[..k - 1];
      if v < Fold(log[..k - 1]).view {
        SealedBelow(log, k - 1, v);
      }
    }
  }

  lemma PinnedPrefix(log: seq<Msg>, log': seq<Msg>, v: View, i: Instance)
    requires Pinned(log, v, i) && log <= log'
    ensures Pinned(log', v, i)
  {
    var k: nat :| k <= |log| && Fold(log[..k]).view == v && Kept(Fold(log[..k]), v, i);
    assert log'[..k] == log[..k];
  }

  /** A pinned commit is in the state of every later seal. */
  lemma PinnedAtSeal(window: nat, log: seq<Msg>, v: View, i: Instance, w: View)
    requires Pinned(log, v, i) && v <= w
    requires SealPos(log, w).Some? && Accepted(window, log[..SealPosBound(log, w)])
    ensures Kept(Fold(log[..SealPosBound(log, w)]), v, i)
  {
    SealPosSound(log, w);
    var p := SealPos(log, w).value;
    var k: nat :| k <= |log| && Fold(log[..k]).view == v && Kept(Fold(log[..k]), v, i);
    if p < k {
      FoldNext(log, p);
      ViewsGrow(log, p + 1, k);
      assert false;
    }
    KeptStays(window, log, k, p, v, i);
  }

  /** The seal position, known to lie in the stream. */
  function SealPosBound(log: seq<Msg>, v: View): (p: nat)
    requires SealPos(log, v).Some?
    ensures p < |log| && log[p].SealView? && Fold(log[..p]).view == v && SealPos(log, v) == Some(p)
  {
    SealPosSound(log, v);
    SealPos(log, v).value
  }

  /** Commits in a folded state come from Commit messages of the stream. */
  lemma {:induction false} EntryFromCommit(log: seq<Msg>, i: Instance) returns (k: nat)
    requires i in Fold(log).commits
    ensures k < |log| && log[k].Commit? && log[k].cert.instance == i
    ensures Fold(log).commits[i] == Entry(log[k].cert.view, log[k].cert.batch)
  {
    var n := |log| - 1;
    if log[n].Commit? && log[n].cert.instance == i {
      k := n;
    } else {
      k := EntryFromCommit(log[..n], i);
    }
  }
}
