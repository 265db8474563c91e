/** The consensus layer as a state machine over all replicas. Handlers are
    functions on the local state of one replica, `None` where the source throws
    or spins (such a replica makes no further step on that stream). Handlers that
    wait are split: a stack of frames says what a replica is in the middle of while
    it waits and handles other messages. A run is any interleaving of these steps,
    with arbitrary broadcasts by Byzantine replicas.

    `Next` is what the code does. `Passes` states, one by one, the checks that the
    code omits and that its guarantees need; `ConsensusExactness` shows which
    guarantee needs which.
  */
module ConsensusProtocol {
  import opened Options
  import opened ConsensusLog
  import opened Quorums

  datatype Config = Config(n: nat, byzantine: set<Replica>, window: nat) {
    ghost predicate Valid() {
      byzantine <= Group(n) && 2 * |byzantine| < n && 0 < window
    }

    function Quorum(): nat { n / 2 + 1 }

    predicate Correct(r: Replica) { r < n && r !in byzantine }

    /** Ids are sorted for leader election; replica r is the r-th of them. */
    function Leader(v: View): Replica
      requires n > 0
    {
      v % n
    }
  }

  /** `internal::InstanceState` */
  datatype Slot = Slot(view: View, batch: Batch, fast: set<Replica>, slow: set<Replica>, decided: bool, certified: bool)

  /** `ReplicaState::valid_values`, with the states of the NewView it came from. */
  datatype Valid = Valid(view: View, states: seq<VcState>, values: map<Instance, Batch>)

  /** `internal::ReplicaState` */
  datatype Peer = Peer(view: View, commits: map<Instance, Entry>, low: Instance, nextCb: nat,
                       nextPrepare: Instance, valid: Option<Valid>, outstanding: nat)

  /** A broadcast that waits for slack, or a NewView in whose handler the view is changed. */
  datatype Frame = Waiting(m: Msg) | Opening(from: Replica, view: View, states: seq<VcState>)

  /** The fields of class Consensus that the protocol reads. `certified` is what the
      best checkpoint certificate says, `certifiedAt` its index. `pending` holds the
      commits whose certificate is under verification in the thread pool, `sentAbove`
      is `send_checkpoint_above`, and `frames` the calls under way. */
  datatype Local = Local(peers: seq<Peer>, slots: map<Instance, Slot>, minKey: Instance, certified: Instance, certifiedAt: Instance,
                         pending: seq<multiset<Cert>>, buffered: seq<seq<Cert>>, nextToDecide: Instance,
                         sentAbove: Instance, frames: seq<Frame>)

  predicate Shaped(c: Config, l: Local) {
    |l.peers| == c.n && |l.pending| == c.n && |l.buffered| == c.n
  }

  // ---------- Values a new leader must propose ----------

  function Merge(best: map<Instance, Entry>, commits: map<Instance, Entry>): map<Instance, Entry> {
    map i | i in best.Keys + commits.Keys ::
      if i in best && (i in commits ==> commits[i].view <= best[i].view) then best[i] else commits[i]
  }

  /** `NewViewMessage::validValues`: per instance, the commit of the highest view. */
  function Best(states: seq<VcState>): map<Instance, Entry> {
    if states == [] then map[] else Merge(Best(states[..|states| - 1]), states[|states| - 1].commits)
  }

  /** They go into a tail map: an instance a window behind the last one drops out. */
  function Batches(window: nat, best: map<Instance, Entry>): map<Instance, Batch> {
    map i | i in best && (forall j :: j in best ==> j < i + window) :: best[i].batch
  }

  // ---------- Handlers ----------

  /** `size_t` arithmetic of outstanding_commit_verifications. */
  const SIZE_T := 0x1_0000_0000_0000_0000

  function Increment(x: nat): nat { if x + 1 == SIZE_T then 0 else x + 1 }

  function Decrement(x: nat): nat { if x == 0 then SIZE_T - 1 else x - 1 }

  predicate IsByzantinePrepare(c: Config, l: Local, from: Replica, v: View, i: Instance, b: Batch)
    requires Shaped(c, l) && from < c.n
  {
    var peer := l.peers[from];
    || c.Leader(v) != from
    || peer.view != v
    || i in l.slots
    || peer.nextPrepare > i
    || !(peer.low <= i < peer.low + c.window)
    || (v != 0 && (peer.valid.None? || (i in peer.valid.value.values && peer.valid.value.values[i] != b)))
  }

  /** Certificate order: `pack` puts the view above the instance. */
  predicate Before(a: Cert, v: View, i: Instance) {
    a.view < v || (a.view == v && a.instance < i)
  }

  function DropStale(queue: seq<Cert>, v: View, i: Instance): (r: seq<Cert>)
    ensures forall x :: x in r ==> x in queue
  {
    if queue != [] && Before(queue[0], v, i) then DropStale(queue[1..], v, i) else queue
  }

  predicate Replays(queue: seq<Cert>, v: View, i: Instance) {
    var q := DropStale(queue, v, i);
    q != [] && q[0].view == v && q[0].instance == i
  }

  function AfterReplay(queue: seq<Cert>, v: View, i: Instance): (r: seq<Cert>)
    ensures forall x :: x in r ==> x in queue
  {
    var q := DropStale(queue, v, i);
    if Replays(queue, v, i) then q[1..] else q
  }

  /** Inserting instance i into the tail map drops what the window leaves behind. */
  function Evict(slots: map<Instance, Slot>, window: nat, i: Instance): map<Instance, Slot> {
    map k | k in slots && i < k + window :: slots[k]
  }

  function PeerAfterPrepare(peer: Peer, isSender: bool, replayed: bool, i: Instance): Peer {
    var p1 := if replayed then peer.(outstanding := Decrement(peer.outstanding)) else peer;
    if !isSender then p1
    else if p1.valid.None? then p1.(nextPrepare := i)
    else
      var values := p1.valid.value.values;
      p1.(nextPrepare := i,
          valid := Some(p1.valid.value.(values := map k | k in values && i < k :: values[k])))
  }

  function Insert(c: Config, l: Local, from: Replica, v: View, i: Instance, b: Batch): (r: Local)
    requires Shaped(c, l)
    ensures Shaped(c, r)
  {
    var voters := set r: nat | r < c.n && Replays(l.buffered[r], v, i);
    l.(slots := Evict(l.slots, c.window, i)[i := Slot(v, b, {}, voters, false, false)],
       minKey := i,
       buffered := seq(c.n, r requires 0 <= r < c.n => AfterReplay(l.buffered[r], v, i)),
       peers := seq(c.n, r requires 0 <= r < c.n => PeerAfterPrepare(l.peers[r], r == from, r in voters, i)))
  }

  function HandlePrepare(c: Config, l: Local, me: Replica, from: Replica, v: View, i: Instance, b: Batch): (r: Option<Local>)
    requires Shaped(c, l) && me < c.n && from < c.n
    ensures r.Some? ==> Shaped(c, r.value)
  {
    if IsByzantinePrepare(c, l, from, v, i, b) then None
    else if v != l.peers[me].view then Some(l)
    else if i < l.certified then Some(l)
    else if i < l.minKey then None
    else Some(Insert(c, l, from, v, i, b))
  }

  function HandleCommit(c: Config, l: Local, from: Replica, cert: Cert): (r: Option<Local>)
    requires Shaped(c, l) && from < c.n
    ensures r.Some? ==> Shaped(c, r.value)
  {
    var peer := l.peers[from];
    if cert.instance >= peer.low + c.window then None
    else if cert.view != peer.view then None
    else if cert.instance in peer.commits && peer.commits[cert.instance].view >= cert.view then None
    else
      var commits := peer.commits[cert.instance := Entry(cert.view, cert.batch)];
      Some(l.(peers := l.peers[from := peer.(commits := commits, outstanding := Increment(peer.outstanding))],
              pending := l.pending[from := l.pending[from] + multiset{cert}]))
  }

  /** `isByzantineCheckpoint` tests the index of the certificate; adopted is what it says. */
  function HandleCheckpoint(c: Config, l: Local, from: Replica, index: Instance, low: Instance): (r: Option<Local>)
    requires Shaped(c, l) && from < c.n
    ensures r.Some? ==> Shaped(c, r.value)
  {
    var peer := l.peers[from];
    if index <= peer.low then None
    else
      Some(l.(peers := l.peers[from := peer.(low := low, commits := Prune(peer.commits, low))],
              certified := if low <= l.certified then l.certified else low,
              certifiedAt := if low <= l.certified then l.certifiedAt else index))
  }

  function HandleSealView(c: Config, l: Local, from: Replica): (r: Option<Local>)
    requires Shaped(c, l) && from < c.n
    ensures r.Some? ==> Shaped(c, r.value)
  {
    var peer := l.peers[from];
    if peer.outstanding != 0 then None
    else Some(l.(peers := l.peers[from := peer.(view := peer.view + 1)]))
  }

  /** The end of the handler of a NewView, once its view is entered. */
  function Opened(c: Config, l: Local, from: Replica, v: View, states: seq<VcState>): (r: Local)
    requires Shaped(c, l) && from < c.n
    ensures Shaped(c, r)
  {
    var peer := l.peers[from];
    l.(peers := l.peers[from := peer.(nextPrepare := peer.low, valid := Some(Valid(v, states, Batches(c.window, Best(states)))))])
  }

  /** A replica that has not entered the view changes its own view first, in a call of its own. */
  function HandleNewView(c: Config, l: Local, me: Replica, from: Replica, v: View, states: seq<VcState>): (r: Option<Local>)
    requires Shaped(c, l) && me < c.n && from < c.n
    ensures r.Some? ==> Shaped(c, r.value)
  {
    if |states| != c.Quorum() then None
    else if l.peers[me].view < v then Some(l.(frames := l.frames + [Opening(from, v, states)]))
    else Some(Opened(c, l, from, v, states))
  }

  function HandleMsg(c: Config, l: Local, me: Replica, from: Replica, m: Msg): (r: Option<Local>)
    requires Shaped(c, l) && me < c.n && from < c.n
    ensures r.Some? ==> Shaped(c, r.value)
  {
    match m
    case Malformed => Some(l)
    case Prepare(v, i, b) => HandlePrepare(c, l, me, from, v, i, b)
    case Commit(cert) => HandleCommit(c, l, from, cert)
    case Checkpoint(index, low) => HandleCheckpoint(c, l, from, index, low)
    case SealView => HandleSealView(c, l, from)
    case NewView(v, states) => HandleNewView(c, l, me, from, v, states)
  }

  function Bump(l: Local, from: Replica): Local
    requires from < |l.peers|
  {
    l.(peers := l.peers[from := l.peers[from].(nextCb := l.peers[from].nextCb + 1)])
  }

  /** `handleCbMessage` */
  function Handle(c: Config, l: Local, me: Replica, from: Replica, m: Msg): (r: Option<Local>)
    requires Shaped(c, l) && me < c.n && from < c.n
    ensures r.Some? ==> Shaped(c, r.value)
  {
    HandleMsg(c, Bump(l, from), me, from, m)
  }

  /** What a broadcaster does after handling its own message. */
  function AfterBroadcast(l: Local, m: Msg): Local {
    match m
    case Checkpoint(_, low) => l.(slots := map k | k in l.slots && low <= k :: l.slots[k])
    case SealView => l.(slots := map[], minKey := 0)
    case _ => l
  }

  /** `handleVerifiedCommit` */
  function HandleVerified(c: Config, l: Local, from: Replica, cert: Cert): (r: Option<Local>)
    requires Shaped(c, l) && from < c.n
    ensures r.Some? ==> Shaped(c, r.value)
  {
    var peer := l.peers[from];
    var l1 := l.(peers := l.peers[from := peer.(outstanding := Decrement(peer.outstanding))],
                 pending := l.pending[from := l.pending[from] - multiset{cert}]);
    if cert.instance !in l.slots then
      var queue := l.buffered[from] + [cert];
      Some(l1.(buffered := l.buffered[from := if |queue| > c.window then queue[1..] else queue]))
    else
      var slot := l.slots[cert.instance];
      if from in slot.slow then None
      else Some(l1.(slots := l.slots[cert.instance := slot.(slow := slot.slow + {from})]))
  }

  /** `tryCertifyPrepare`, once the requests of the batch are known: signed once. */
  function HandleCertify(l: Local, i: Instance): Option<Local> {
    if i in l.slots && !l.slots[i].certified
    then Some(l.(slots := l.slots[i := l.slots[i].(certified := true)]))
    else None
  }

  /** `pollPrepareCertificatePromises`: the own fast commit is marked in the slot, if still there. */
  function HandlePromises(l: Local, me: Replica, i: Instance): Local {
    if i in l.slots then l.(slots := l.slots[i := l.slots[i].(fast := l.slots[i].fast + {me})]) else l
  }

  /** `pollFastCommits`: counted whatever its view. */
  function HandleFast(l: Local, from: Replica, i: Instance): Option<Local> {
    if i !in l.slots then Some(l)
    else if from in l.slots[i].fast then None
    else Some(l.(slots := l.slots[i := l.slots[i].(fast := l.slots[i].fast + {from})]))
  }

  predicate Decidable(c: Config, slot: Slot) {
    !slot.decided && (|slot.fast| == c.n || |slot.slow| >= c.Quorum())
  }

  /** `pollDecision` */
  function HandleDecide(c: Config, l: Local): Option<Local> {
    var i := l.nextToDecide;
    if i in l.slots && Decidable(c, l.slots[i])
    then Some(l.(nextToDecide := i + 1, slots := l.slots[i := l.slots[i].(decided := true)]))
    else None
  }

  // ---------- Global state ----------

  /** Signature shares of correct replicas over prepares. */
  datatype Share = Share(signer: Replica, view: View, instance: Instance, batch: Batch)

  datatype FastCommit = FastCommit(sender: Replica, view: View, instance: Instance)

  /** Signature shares of correct replicas over view-change states. */
  datatype SealShare = SealShare(signer: Replica, replica: Replica, view: View, commits: map<Instance, Entry>)

  /** Signature shares of correct replicas over application checkpoints. */
  datatype CheckpointShare = CheckpointShare(signer: Replica, low: Instance)

  datatype Decision = Decision(replica: Replica, instance: Instance, batch: Batch, view: View, fast: bool, voters: set<Replica>)

  /** Streams, local states, and the history of what correct replicas signed, sent and decided;
      `halted` are those that threw on a message of their own. */
  datatype State = State(logs: seq<seq<Msg>>, locals: seq<Local>, shares: set<Share>, fast: set<FastCommit>,
                         seals: set<SealShare>, checkpoints: set<CheckpointShare>, decisions: set<Decision>,
                         halted: set<Replica>)

  ghost predicate Sane(c: Config, s: State) {
    |s.logs| == c.n && |s.locals| == c.n && forall p :: 0 <= p < c.n ==> Shaped(c, s.locals[p])
  }

  // ---------- Certificates ----------

  predicate IsQuorum(c: Config, signers: set<Replica>) {
    signers <= Group(c.n) && |signers| == c.Quorum()
  }

  /** Signatures are unforgeable: a quorum signed, and its correct members did sign this batch. */
  ghost predicate CertValid(c: Config, shares: set<Share>, cert: Cert) {
    IsQuorum(c, cert.signers) &&
    forall r :: r in cert.signers && c.Correct(r) ==> Share(r, cert.view, cert.instance, cert.batch) in shares
  }

  ghost predicate StateValid(c: Config, seals: set<SealShare>, st: VcState) {
    st.replica < c.n && IsQuorum(c, st.signers) &&
    forall r :: r in st.signers && c.Correct(r) ==> SealShare(r, st.replica, st.view, st.commits) in seals
  }

  /** The share of r in a certificate passes `check` at replica p: it is a signature of r for what the
      certificate says, or for what p itself acknowledged at its index. */
  ghost predicate SharePasses(shares: set<Share>, p: Replica, r: Replica, cert: Cert) {
    exists b :: Share(r, cert.view, cert.instance, b) in shares && (b == cert.batch || Share(p, cert.view, cert.instance, b) in shares)
  }

  /** `prepare_certifier.check` at replica p. */
  ghost predicate CertChecked(c: Config, shares: set<Share>, p: Replica, cert: Cert) {
    IsQuorum(c, cert.signers) && forall r :: r in cert.signers && c.Correct(r) ==> SharePasses(shares, p, r, cert)
  }

  ghost predicate SealPasses(seals: set<SealShare>, p: Replica, r: Replica, st: VcState) {
    exists m :: SealShare(r, st.replica, st.view, m) in seals && (m == st.commits || SealShare(p, st.replica, st.view, m) in seals)
  }

  /** `vc_state_certifiers[..].check` at replica p. */
  ghost predicate StateChecked(c: Config, seals: set<SealShare>, p: Replica, st: VcState) {
    st.replica < c.n && IsQuorum(c, st.signers) && forall r :: r in st.signers && c.Correct(r) ==> SealPasses(seals, p, r, st)
  }

  ghost predicate SignedCheckpoint(c: Config, checkpoints: set<CheckpointShare>, low: Instance, signers: set<Replica>) {
    IsQuorum(c, signers) && forall r :: r in signers && c.Correct(r) ==> CheckpointShare(r, low) in checkpoints
  }

  ghost predicate CheckpointCertified(c: Config, checkpoints: set<CheckpointShare>, low: Instance) {
    exists signers :: SignedCheckpoint(c, checkpoints, low, signers)
  }

  /** The share of r in a checkpoint certificate of this index passes at p, whatever the checkpoint
      says, if p remembers it. */
  ghost predicate CheckpointPasses(checkpoints: set<CheckpointShare>, p: Replica, r: Replica, index: Instance, low: Instance) {
    CheckpointShare(r, index) in checkpoints && (low == index || CheckpointShare(p, index) in checkpoints)
  }

  ghost predicate PassedCheckpoint(c: Config, checkpoints: set<CheckpointShare>, p: Replica, index: Instance, low: Instance, signers: set<Replica>) {
    IsQuorum(c, signers) && forall r :: r in signers && c.Correct(r) ==> CheckpointPasses(checkpoints, p, r, index, low)
  }

  /** `checkpoint_certifier.check` at replica p. */
  ghost predicate CheckpointChecked(c: Config, checkpoints: set<CheckpointShare>, p: Replica, index: Instance, low: Instance) {
    exists signers :: PassedCheckpoint(c, checkpoints, p, index, low, signers)
  }

  // ---------- Steps ----------

  const FRESH := Peer(0, map[], 0, 0, 0, None, 0)

  function InitLocal(c: Config): Local {
    Local(seq(c.n, _ => FRESH), map[], 0, 0, 0, seq(c.n, _ => multiset{}), seq(c.n, _ => []), 0, 0, [])
  }

  ghost predicate Init(c: Config, s: State) {
    s == State(seq(c.n, _ => []), seq(c.n, _ => InitLocal(c)), {}, {}, {}, {}, {}, {})
  }

  datatype Step =
    | Deliver(p: Replica, from: Replica)
    | Begin(p: Replica, m: Msg)
    | Broadcast(p: Replica, m: Msg)
    | Halt(p: Replica, m: Msg)
    | Open(p: Replica)
    | Certify(p: Replica, i: Instance)
    | SendFast(p: Replica, i: Instance)
    | RecvFast(p: Replica, from: Replica, v: View, i: Instance)
    | Verified(p: Replica, from: Replica, cert: Cert)
    | SignCheckpoint(p: Replica, low: Instance)
    | AdoptCheckpoint(p: Replica, low: Instance)
    | Decide(p: Replica)
    | Byzantine(q: Replica, m: Msg)

  function SealsAfter(s: State, p: Replica, from: Replica, m: Msg): set<SealShare>
    requires p < |s.locals| && from < |s.locals[p].peers|
  {
    var peer := s.locals[p].peers[from];
    if m.SealView? then s.seals + {SealShare(p, from, peer.view, peer.commits)} else s.seals
  }

  /** The certificates that a message delivered to p carries are checked, except that of the
      checkpoint p has adopted already. Those of commits are checked in the thread pool. */
  ghost predicate Checked(c: Config, s: State, p: Replica, m: Msg)
    requires p < |s.locals|
  {
    match m
    case Checkpoint(index, low) => low == s.locals[p].certified || CheckpointChecked(c, s.checkpoints, p, index, low)
    case NewView(_, states) => forall k :: 0 <= k < |states| ==> StateChecked(c, s.seals, p, states[k])
    case _ => true
  }

  ghost predicate Distinct(states: seq<VcState>) {
    forall j, k :: 0 <= j < k < |states| ==> states[j].replica != states[k].replica
  }

  ghost predicate AllOfView(states: seq<VcState>, v: View) {
    forall k :: 0 <= k < |states| ==> states[k].view + 1 == v
  }

  ghost predicate AllValid(c: Config, seals: set<SealShare>, states: seq<VcState>) {
    forall k :: 0 <= k < |states| ==> StateValid(c, seals, states[k])
  }

  /** Everything fast-committed is committed: what `changeView` waits for. */
  predicate AllCommitted(l: Local, me: Replica) {
    forall i :: i in l.slots && me in l.slots[i].fast ==> me in l.slots[i].slow
  }

  predicate Idle(l: Local) { l.frames == [] }

  function Top(l: Local): Frame
    requires !Idle(l)
  {
    l.frames[|l.frames| - 1]
  }

  function Popped(l: Local): (r: Local)
    requires !Idle(l)
    ensures forall c :: Shaped(c, l) ==> Shaped(c, r)
  {
    l.(frames := l.frames[..|l.frames| - 1])
  }

  /** Other streams are polled between calls, and while a broadcast waits for slack. */
  predicate Polls(l: Local) {
    Idle(l) || Top(l).Waiting?
  }

  predicate ChangingView(l: Local, me: Replica)
    requires me < |l.peers|
  {
    !Idle(l) && Top(l).Opening? && l.peers[me].view < Top(l).view
  }

  predicate Waits(l: Local, m: Msg) {
    !Idle(l) && Top(l) == Waiting(m)
  }

  /** When a correct replica starts to broadcast: the conditions of propose, pollPrepareCertificates,
      broadcastCheckpointCertificate, changeView and pollVcStateCertificates. What is proposed, and
      the view its slot was taken in, are left to the run. */
  ghost predicate CanBegin(c: Config, s: State, p: Replica, m: Msg)
    requires Sane(c, s) && p < c.n
  {
    var l := s.locals[p];
    var own := l.peers[p];
    match m
    case Malformed => false
    case Prepare(_, _, _) => Idle(l)
    case Commit(cert) =>
      && (Idle(l) || ChangingView(l, p))
      && cert.view == own.view && own.low <= cert.instance
      && Share(p, cert.view, cert.instance, cert.batch) in s.shares
      && CertValid(c, s.shares, cert)
    case Checkpoint(index, low) =>
      && (Idle(l) || ChangingView(l, p))
      && low == l.certified && index == l.certifiedAt && l.sentAbove < low
    case SealView => (Idle(l) || ChangingView(l, p)) && AllCommitted(l, p)
    case NewView(v, states) => Idle(l) && c.Leader(v) == p && Distinct(states) && AllOfView(states, v) && AllValid(c, s.seals, states)
  }

  /** Checkpoints are sent once. */
  function Sending(l: Local, m: Msg): Local {
    l.(sentAbove := if m.Checkpoint? then m.low else l.sentAbove)
  }

  function Begun(l: Local, m: Msg): (r: Local)
    ensures forall c :: Shaped(c, l) ==> Shaped(c, r)
  {
    Sending(l, m).(frames := l.frames + [Waiting(m)])
  }

  /** A correct replica that has not thrown. */
  ghost predicate Runs(c: Config, s: State, p: Replica) {
    c.Correct(p) && p !in s.halted
  }

  /** Every replica other than p acknowledged (v, i); that its leader did goes without saying. */
  ghost predicate Promised(c: Config, shares: set<Share>, p: Replica, v: View, i: Instance)
    requires c.n > 0
  {
    forall q: Replica :: c.Correct(q) && q != p && q != c.Leader(v) ==> Acknowledged(shares, q, v, i)
  }

  ghost predicate Acknowledged(shares: set<Share>, q: Replica, v: View, i: Instance) {
    exists b :: Share(q, v, i, b) in shares
  }

  function DecisionOf(c: Config, p: Replica, i: Instance, slot: Slot): Decision {
    var isFast := |slot.fast| == c.n;
    Decision(p, i, slot.batch, slot.view, isFast, if isFast then slot.fast else slot.slow)
  }

  ghost predicate Next(c: Config, s: State, step: Step, s': State)
    requires Sane(c, s) && c.n > 0
  {
    match step
    case Deliver(p, from) =>
      && Runs(c, s, p) && from < c.n && from != p && Polls(s.locals[p])
      && var l := s.locals[p];
         var at := l.peers[from].nextCb;
         && at < |s.logs[from]|
         && var m := s.logs[from][at];
            var r := Handle(c, l, p, from, m);
            && r.Some? && Checked(c, s, p, m)
            && s' == s.(locals := s.locals[p := r.value], seals := SealsAfter(s, p, from, m))
    case Begin(p, m) =>
      && Runs(c, s, p) && CanBegin(c, s, p, m)
      && s' == s.(locals := s.locals[p := Begun(s.locals[p], m)])
    case Broadcast(p, m) =>
      && Runs(c, s, p) && Waits(s.locals[p], m)
      && var r := Handle(c, Popped(s.locals[p]), p, p, m);
         && r.Some?
         && s' == s.(logs := s.logs[p := s.logs[p] + [m]],
                     locals := s.locals[p := AfterBroadcast(r.value, m)],
                     seals := SealsAfter(s, p, p, m))
    case Halt(p, m) =>
      && Runs(c, s, p) && Waits(s.locals[p], m)
      && Handle(c, Popped(s.locals[p]), p, p, m).None?
      && s' == s.(logs := s.logs[p := s.logs[p] + [m]], halted := s.halted + {p})
    case Open(p) =>
      && Runs(c, s, p) && !Idle(s.locals[p])
      && var f := Top(s.locals[p]);
         && f.Opening? && f.from < c.n && f.view <= s.locals[p].peers[p].view
         && s' == s.(locals := s.locals[p := Opened(c, Popped(s.locals[p]), f.from, f.view, f.states)])
    case Certify(p, i) =>
      && Runs(c, s, p) && Idle(s.locals[p])
      && var r := HandleCertify(s.locals[p], i);
         && r.Some?
         && var slot := s.locals[p].slots[i];
            s' == s.(locals := s.locals[p := r.value], shares := s.shares + {Share(p, slot.view, i, slot.batch)})
    case SendFast(p, i) =>
      && Runs(c, s, p) && Idle(s.locals[p]) && i in s.locals[p].slots
      && var slot := s.locals[p].slots[i];
         && slot.certified && Promised(c, s.shares, p, slot.view, i)
         && s' == s.(locals := s.locals[p := HandlePromises(s.locals[p], p, i)], fast := s.fast + {FastCommit(p, slot.view, i)})
    case RecvFast(p, from, v, i) =>
      && Runs(c, s, p) && Idle(s.locals[p]) && from < c.n && from != p
      && (c.Correct(from) ==> FastCommit(from, v, i) in s.fast)
      && var r := HandleFast(s.locals[p], from, i);
         && r.Some?
         && s' == s.(locals := s.locals[p := r.value])
    case Verified(p, from, cert) =>
      && Runs(c, s, p) && from < c.n && cert in s.locals[p].pending[from]
      && (from != p ==> CertChecked(c, s.shares, p, cert))
      && var r := HandleVerified(c, s.locals[p], from, cert);
         && r.Some?
         && s' == s.(locals := s.locals[p := r.value])
    case SignCheckpoint(p, low) =>
      && Runs(c, s, p) && Idle(s.locals[p]) && low <= s.locals[p].nextToDecide
      && s' == s.(checkpoints := s.checkpoints + {CheckpointShare(p, low)})
    case AdoptCheckpoint(p, low) =>
      && Runs(c, s, p) && Idle(s.locals[p]) && low > s.locals[p].certified
      && CheckpointShare(p, low) in s.checkpoints && CheckpointCertified(c, s.checkpoints, low)
      && s' == s.(locals := s.locals[p := s.locals[p].(certified := low, certifiedAt := low)])
    case Decide(p) =>
      && Runs(c, s, p) && Idle(s.locals[p])
      && var r := HandleDecide(c, s.locals[p]);
         && r.Some?
         && var i := s.locals[p].nextToDecide;
            s' == s.(locals := s.locals[p := r.value], decisions := s.decisions + {DecisionOf(c, p, i, s.locals[p].slots[i])})
    case Byzantine(q, m) =>
      && q < c.n && !c.Correct(q)
      && s' == s.(logs := s.logs[q := s.logs[q] + [m]])
  }

  // ---------- Checks that the code omits ----------

  datatype Check =
    // A verified commit is counted for a slot of its view.
    | CommitView
    // So is a fast commit.
    | FastView
    // The certificate of a commit, and those of a NewView, are valid for what they say.
    | CommitCertificate
    | StateCertificates
    // A NewView carries states of distinct replicas, all for the view it ends.
    | DistinctStates
    | StatesView
    // Prepares of later views follow a NewView of that very view, above every checkpoint its states had reached.
    | ValuesView
    | AboveCheckpoint
    // A checkpoint does not take its sender back, whatever the index of its certificate.
    | CheckpointsForward
    // The certificate of a checkpoint is valid for what it says.
    | CheckpointCertificate
    // Inserting pushes no fast-committed instance out of the window before it is slow-committed.
    | NoEviction
    // No commit of a replica is under verification when its SealView is handled.
    | NothingPending

  /** The checkpoint a replica had broadcast when it sealed view v. */
  ghost predicate AboveCheckpoints(logs: seq<seq<Msg>>, states: seq<VcState>, v: View, i: Instance) {
    forall k :: 0 <= k < |states| && states[k].replica < |logs| && SealPos(logs[states[k].replica], v).Some? ==>
      var log := logs[states[k].replica];
      Fold(log[..SealPosBound(log, v)]).low <= i
  }

  ghost predicate KeepsFast(c: Config, l: Local, p: Replica, i: Instance) {
    forall k :: k in l.slots && k + c.window <= i && p in l.slots[k].fast ==> p in l.slots[k].slow
  }

  /** p, in state l, is about to handle message m of the stream of `from`. */
  ghost predicate PassesMsg(k: Check, c: Config, logs: seq<seq<Msg>>, seals: set<SealShare>, checkpoints: set<CheckpointShare>,
                            p: Replica, l: Local, from: Replica, m: Msg)
    requires Shaped(c, l) && p < c.n && from < c.n
  {
    var valid := l.peers[from].valid;
    match k
    case DistinctStates => m.NewView? ==> Distinct(m.states)
    case StatesView => m.NewView? ==> AllOfView(m.states, m.newView)
    case StateCertificates => m.NewView? ==> AllValid(c, seals, m.states)
    case ValuesView => m.Prepare? && m.view != 0 && valid.Some? ==> valid.value.view == m.view
    case AboveCheckpoint => m.Prepare? && m.view != 0 && valid.Some? ==> AboveCheckpoints(logs, valid.value.states, m.view - 1, m.instance)
    case CheckpointsForward => m.Checkpoint? ==> l.peers[from].low <= m.low
    case CheckpointCertificate => m.Checkpoint? ==> m.low == l.certified || (m.index == m.low && CheckpointCertified(c, checkpoints, m.low))
    case NoEviction => m.Prepare? && m.view == l.peers[p].view && l.certified <= m.instance ==> KeepsFast(c, l, p, m.instance)
    case NothingPending => m.SealView? ==> l.pending[from] == multiset{}
    case _ => true
  }

  ghost predicate PassesVerified(k: Check, c: Config, shares: set<Share>, l: Local, cert: Cert) {
    match k
    case CommitCertificate => CertValid(c, shares, cert)
    case CommitView => cert.instance in l.slots ==> l.slots[cert.instance].view == cert.view
    case _ => true
  }

  /** The step passes check k. */
  ghost predicate Passes(k: Check, c: Config, s: State, step: Step)
    requires Sane(c, s)
  {
    match step
    case Deliver(p, from) =>
      p < c.n && from < c.n && s.locals[p].peers[from].nextCb < |s.logs[from]| ==>
        PassesMsg(k, c, s.logs, s.seals, s.checkpoints, p, s.locals[p], from, s.logs[from][s.locals[p].peers[from].nextCb])
    case Broadcast(p, m) => p < c.n ==> PassesMsg(k, c, s.logs, s.seals, s.checkpoints, p, s.locals[p], p, m)
    case RecvFast(p, _, v, i) => k.FastView? && p < c.n && i in s.locals[p].slots ==> s.locals[p].slots[i].view == v
    case Verified(p, _, cert) => p < c.n ==> PassesVerified(k, c, s.shares, s.locals[p], cert)
    case _ => true
  }

  /** The step passes all that agreement needs. */
  ghost predicate Guard(c: Config, s: State, step: Step)
    requires Sane(c, s)
  {
    forall k: Check :: !k.CheckpointCertificate? ==> Passes(k, c, s, step)
  }

  // ---------- Runs ----------

  /** A run of the code from the initial state. */
  ghost predicate IsRun(c: Config, states: seq<State>, steps: seq<Step>) {
    && c.n > 0
    && |states| == |steps| + 1
    && Init(c, states[0])
    && (forall k :: 0 <= k < |states| ==> Sane(c, states[k]))
    && forall k :: 0 <= k < |steps| ==> Next(c, states[k], steps[k], states[k + 1])
  }

  /** A run in which every step passes the given checks. */
  ghost predicate IsCheckedRun(c: Config, checks: set<Check>, states: seq<State>, steps: seq<Step>) {
    && IsRun(c, states, steps)
    && forall j, k :: 0 <= j < |steps| && k in checks ==> Passes(k, c, states[j], steps[j])
  }

  /** A run in which every step passes the omitted checks that agreement needs. */
  ghost predicate IsGuardedRun(c: Config, states: seq<State>, steps: seq<Step>) {
    && IsRun(c, states, steps)
    && forall k :: 0 <= k < |steps| ==> Guard(c, states[k], steps[k])
  }

  ghost predicate Agreement(s: State) {
    forall d1, d2 :: d1 in s.decisions && d2 in s.decisions && d1.instance == d2.instance ==> d1.batch == d2.batch
  }
}
