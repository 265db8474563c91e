/** The inductive invariant behind agreement. */
module ConsensusInvariant {
  import opened Options
  import opened ConsensusLog
  import opened ConsensusProtocol
  import opened Quorums

  type Logs = seq<seq<Msg>>

  /** Some correct replica signed this batch for (v, i). */
  ghost predicate Acked(shares: set<Share>, v: View, i: Instance, b: Batch) {
    exists sh :: sh in shares && sh.view == v && sh.instance == i && sh.batch == b
  }

  /** What the leader of v first prepared for instance i. */
  ghost function Prepared(c: Config, logs: Logs, v: View, i: Instance): Option<Batch>
    requires |logs| == c.n > 0
  {
    First(logs[c.Leader(v)], v, i)
  }

  /** A view-change state is what its replica's stream says at the seal, and
      every commit in it was certified. */
  ghost predicate StateGood(c: Config, logs: Logs, shares: set<Share>, r: Replica, v: View, commits: map<Instance, Entry>) {
    && r < |logs|
    && SealPos(logs[r], v).Some?
    && var at := SealPosBound(logs[r], v);
       && Accepted(c.window, logs[r][..at])
       && Fold(logs[r][..at]).commits == commits
       && forall i :: i in commits ==> Acked(shares, commits[i].view, i, commits[i].batch)
  }

  /** The states of a NewView for v. */
  ghost predicate GoodNewView(c: Config, logs: Logs, shares: set<Share>, v: View, states: seq<VcState>) {
    && v > 0
    && |states| == c.Quorum()
    && Distinct(states)
    && forall k :: 0 <= k < |states| ==> StateGood(c, logs, shares, states[k].replica, v - 1, states[k].commits)
  }

  /** The batch obeys the NewView. */
  ghost predicate Obeys(c: Config, logs: Logs, shares: set<Share>, v: View, i: Instance, b: Batch, states: seq<VcState>) {
    && GoodNewView(c, logs, shares, v, states)
    && AboveCheckpoints(logs, states, v - 1, i)
    && (i in Best(states) ==> Best(states)[i].batch == b)
  }

  /** Why a correct replica may sign batch b for (v, i). */
  ghost predicate Justified(c: Config, logs: Logs, shares: set<Share>, v: View, i: Instance, b: Batch) {
    v == 0 || exists states :: Obeys(c, logs, shares, v, i, b, states)
  }

  // ---------- Local invariants of a correct replica p ----------

  /** What p keeps of q is what the stream says so far. */
  ghost predicate PeerFollows(c: Config, logs: Logs, l: Local, q: Replica)
    requires |logs| == c.n && Shaped(c, l) && q < c.n
  {
    var peer := l.peers[q];
    && peer.nextCb <= |logs[q]|
    && Fold(logs[q][..peer.nextCb]) == LogState(peer.view, peer.commits, peer.low)
    && peer.low <= l.certified
  }

  ghost predicate PeerInv(c: Config, logs: Logs, l: Local, q: Replica)
    requires |logs| == c.n && Shaped(c, l) && q < c.n
  {
    PeerFollows(c, logs, l, q) && Accepted(c.window, logs[q][..l.peers[q].nextCb])
  }

  /** Every delivered commit is certified or still under verification, and is pinned in its stream. */
  ghost predicate CertsInv(c: Config, logs: Logs, shares: set<Share>, l: Local, q: Replica)
    requires |logs| == c.n && Shaped(c, l) && q < c.n
  {
    && (forall k :: 0 <= k < l.peers[q].nextCb && k < |logs[q]| && logs[q][k].Commit? ==>
          CertValid(c, shares, logs[q][k].cert) || logs[q][k].cert in l.pending[q])
    && (forall x :: x in l.pending[q] ==> Pinned(logs[q], x.view, x.instance))
    && (forall x :: x in l.buffered[q] ==> Pinned(logs[q], x.view, x.instance) && CertValid(c, shares, x))
  }

  /** Another state committed an instance a window ahead. */
  ghost predicate LeftBehind(window: nat, states: seq<VcState>, i: Instance) {
    exists j :: j in Best(states) && i + window <= j
  }

  /** Valid values still bind: those no longer listed belong to instances that
      cannot be prepared again in that view. */
  ghost predicate ValidInv(c: Config, logs: Logs, shares: set<Share>, l: Local, p: Replica, q: Replica)
    requires Shaped(c, l) && p < c.n && q < c.n
  {
    var peer := l.peers[q];
    peer.valid.Some? ==>
      var nv := peer.valid.value;
      && nv.view <= l.peers[p].view
      && GoodNewView(c, logs, shares, nv.view, nv.states)
      && forall i :: i in Best(nv.states) ==> StillBinds(c.window, l, p, peer, nv, i)
  }

  ghost predicate StillBinds(window: nat, l: Local, p: Replica, peer: Peer, nv: Valid, i: Instance)
    requires p < |l.peers| && i in Best(nv.states)
  {
    || (i in nv.values && nv.values[i] == Best(nv.states)[i].batch)
    || LeftBehind(window, nv.states, i)
    || i < peer.nextPrepare
    || (i == peer.nextPrepare && nv.view <= l.peers[p].view && (i in l.slots || i < l.certified || nv.view < l.peers[p].view))
  }

  /** An instance the leader prepared is in the slots of a replica in that view, or out of reach. */
  ghost predicate SeenInv(c: Config, logs: Logs, l: Local, p: Replica, q: Replica)
    requires |logs| == c.n && Shaped(c, l) && p < c.n && q < c.n
  {
    forall v: View, i: Instance ::
      c.Leader(v) == q && l.peers[q].nextCb <= |logs[q]| && First(logs[q][..l.peers[q].nextCb], v, i).Some? ==>
        OutOfReach(l, p, v, i)
  }

  ghost predicate OutOfReach(l: Local, p: Replica, v: View, i: Instance)
    requires p < |l.peers|
  {
    v < l.peers[p].view || i < l.certified || (v == l.peers[p].view && i in l.slots)
  }

  /** What p knows of the stream of q. */
  ghost predicate StreamInv(c: Config, logs: Logs, shares: set<Share>, l: Local, p: Replica, q: Replica) {
    && |logs| == c.n && Shaped(c, l) && p < c.n && q < c.n
    && PeerInv(c, logs, l, q)
    && CertsInv(c, logs, shares, l, q)
    && ValidInv(c, logs, shares, l, p, q)
    && SeenInv(c, logs, l, p, q)
  }

  ghost predicate SlotInv(c: Config, logs: Logs, shares: set<Share>, fast: set<FastCommit>, p: Replica, v: View, i: Instance, slot: Slot)
    requires |logs| == c.n > 0
  {
    && v == slot.view
    && Prepared(c, logs, v, i) == Some(slot.batch)
    && Justified(c, logs, shares, v, i, slot.batch)
    && (slot.certified ==> Share(p, v, i, slot.batch) in shares)
    && slot.slow <= Group(c.n)
    && slot.fast <= Group(c.n)
    && (forall r :: r in slot.slow ==> Pinned(logs[r], v, i))
    && (slot.slow != {} ==> Acked(shares, v, i, slot.batch))
    && (forall r :: r in slot.fast && c.Correct(r) ==> FastCommit(r, v, i) in fast)
  }

  ghost predicate SlotsInv(c: Config, logs: Logs, shares: set<Share>, fast: set<FastCommit>, p: Replica, l: Local)
    requires |logs| == c.n > 0 && p < |l.peers|
  {
    forall i :: i in l.slots ==> SlotInv(c, logs, shares, fast, p, l.peers[p].view, i, l.slots[i])
  }

  /** A fast commit is pinned, or its instance is still there to be slow-committed before the seal. */
  ghost predicate FastInv(log: seq<Msg>, fast: set<FastCommit>, p: Replica, l: Local)
    requires p < |l.peers|
  {
    forall f :: f in fast && f.sender == p ==>
      || Pinned(log, f.view, f.instance)
      || (f.view == l.peers[p].view && f.instance in l.slots && p in l.slots[f.instance].fast)
  }

  // ---------- Calls under way ----------

  /** What holds of a call while it waits: the broadcast is still in order, the NewView is valid. */
  ghost predicate FrameOk(c: Config, logs: Logs, shares: set<Share>, l: Local, p: Replica, f: Frame) {
    match f
    case Waiting(m) => (m.Checkpoint? ==> m.low <= l.certified) && (m.SealView? ==> AllCommitted(l, p))
    case Opening(from, v, states) => from < c.n && GoodNewView(c, logs, shares, v, states)
  }

  ghost predicate FramesInv(c: Config, logs: Logs, shares: set<Share>, l: Local, p: Replica) {
    forall f :: f in l.frames ==> FrameOk(c, logs, shares, l, p, f)
  }

  /** Everything but: a replica has handled its own stream to the end. */
  ghost predicate CoreInv(c: Config, logs: Logs, shares: set<Share>, fast: set<FastCommit>, p: Replica, l: Local)
    requires |logs| == c.n && p < c.n
  {
    && Shaped(c, l)
    && (forall q :: 0 <= q < c.n ==> StreamInv(c, logs, shares, l, p, q))
    && SlotsInv(c, logs, shares, fast, p, l)
    && FastInv(logs[p], fast, p, l)
    && FramesInv(c, logs, shares, l, p)
  }

  ghost predicate LocalInv(c: Config, logs: Logs, shares: set<Share>, fast: set<FastCommit>, p: Replica, l: Local)
    requires |logs| == c.n && p < c.n
  {
    CoreInv(c, logs, shares, fast, p, l) && l.peers[p].nextCb == |logs[p]|
  }

  // ---------- History ----------

  ghost predicate SharesInv(c: Config, logs: Logs, shares: set<Share>)
    requires |logs| == c.n > 0
  {
    forall sh :: sh in shares ==>
      && c.Correct(sh.signer)
      && Prepared(c, logs, sh.view, sh.instance) == Some(sh.batch)
      && Justified(c, logs, shares, sh.view, sh.instance, sh.batch)
  }

  ghost predicate FastsInv(c: Config, logs: Logs, shares: set<Share>, fast: set<FastCommit>)
    requires |logs| == c.n > 0
  {
    forall f :: f in fast ==>
      && c.Correct(f.sender)
      && Prepared(c, logs, f.view, f.instance).Some?
      && Acked(shares, f.view, f.instance, Prepared(c, logs, f.view, f.instance).value)
  }

  ghost predicate SealsInv(c: Config, logs: Logs, shares: set<Share>, seals: set<SealShare>) {
    forall sh :: sh in seals ==> c.Correct(sh.signer) && StateGood(c, logs, shares, sh.replica, sh.view, sh.commits)
  }

  /** What stands behind a decision. */
  ghost predicate DecisionInv(c: Config, logs: Logs, shares: set<Share>, fast: set<FastCommit>, d: Decision)
    requires |logs| == c.n > 0
  {
    && c.Correct(d.replica)
    && Prepared(c, logs, d.view, d.instance) == Some(d.batch)
    && Acked(shares, d.view, d.instance, d.batch)
    && d.voters <= Group(c.n)
    && (!d.fast ==> |d.voters| >= c.Quorum() && forall r :: r in d.voters ==> Pinned(logs[r], d.view, d.instance))
    && (d.fast ==> forall r: Replica :: c.Correct(r) ==> FastCommit(r, d.view, d.instance) in fast)
  }

  ghost predicate HistoryInv(c: Config, s: State) {
    && c.Valid() && Sane(c, s) && c.n > 0
    && SharesInv(c, s.logs, s.shares)
    && FastsInv(c, s.logs, s.shares, s.fast)
    && SealsInv(c, s.logs, s.shares, s.seals)
    && (forall d :: d in s.decisions ==> DecisionInv(c, s.logs, s.shares, s.fast, d))
  }

  /** What a replica owes its fast commits, once it has thrown. */
  ghost predicate FastSafe(log: seq<Msg>, fast: set<FastCommit>, p: Replica) {
    forall f :: f in fast && f.sender == p ==> Pinned(log, f.view, f.instance) || SealPos(log, f.view).None?
  }

  ghost predicate LocalOk(c: Config, s: State, p: Replica)
    requires Sane(c, s) && p < c.n
  {
    if p in s.halted then FastSafe(s.logs[p], s.fast, p)
    else LocalInv(c, s.logs, s.shares, s.fast, p, s.locals[p])
  }

  ghost predicate Inv(c: Config, s: State) {
    HistoryInv(c, s) && forall p: Replica :: c.Correct(p) ==> LocalOk(c, s, p)
  }
}
