/** The main results about runs of the consensus layer. */
module ConsensusSafety {
  import opened ConsensusLog
  import opened ConsensusProtocol
  import opened ConsensusInvariant
  import opened ConsensusSteps
  import opened ConsensusVotes
  import opened ConsensusAgreement

  lemma InitHolds(c: Config, s: State)
    requires c.Valid() && c.n > 0 && Sane(c, s) && Init(c, s)
    ensures Inv(c, s)
  {
    hide GoodNewView, Justified;
    forall p: Replica | c.Correct(p) ensures LocalOk(c, s, p) {
      forall q: nat | q < c.n ensures StreamInv(c, s.logs, s.shares, s.locals[p], p, q) {}
    }
  }

  lemma StepKeeps(c: Config, s: State, step: Step, s': State)
    requires Inv(c, s) && Next(c, s, step, s') && Guard(c, s, step)
    ensures Inv(c, s')
  {
    hide Inv, Next, Guard;
    match step {
      case Deliver(p, from) => DeliverKeeps(c, s, s', p, from);
      case Begin(p, m) => BeginKeeps(c, s, s', p, m);
      case Broadcast(p, m) => BroadcastKeeps(c, s, s', p, m);
      case Halt(p, m) => HaltKeeps(c, s, s', p, m);
      case Open(p) => OpenKeeps(c, s, s', p);
      case Certify(p, i) => CertifyKeeps(c, s, s', p, i);
      case SendFast(p, i) => SendFastKeeps(c, s, s', p, i);
      case RecvFast(p, from, v, i) => RecvFastKeeps(c, s, s', p, from, v, i);
      case Verified(p, from, cert) => VerifiedKeeps(c, s, s', p, from, cert);
      case SignCheckpoint(p, low) => SignCheckpointKeeps(c, s, s', p, low);
      case AdoptCheckpoint(p, low) => AdoptKeeps(c, s, s', p, low);
      case Decide(p) => DecideKeeps(c, s, s', p);
      case Byzantine(q, m) => ByzantineKeeps(c, s, s', q, m);
    }
  }

  lemma {:induction false} RunKeeps(c: Config, states: seq<State>, steps: seq<Step>, k: nat)
    requires c.Valid() && IsGuardedRun(c, states, steps) && k < |states|
    ensures Inv(c, states[k])
  {
    hide Inv, Next, Guard, Init, Sane;
    if k == 0 {
      InitHolds(c, states[0]);
    } else {
      RunKeeps(c, states, steps, k - 1);
      StepKeeps(c, states[k - 1], steps[k - 1], states[k]);
    }
  }

  /** Agreement: in every guarded run with a minority of Byzantine replicas, any two
      decisions of correct replicas for the same instance carry the same batch,
      whatever their views and whichever path they took. */
  lemma RunsAgree(c: Config, states: seq<State>, steps: seq<Step>, k: nat)
    requires c.Valid() && IsGuardedRun(c, states, steps) && k < |states|
    ensures Agreement(states[k])
  {
    hide Inv, IsGuardedRun, Agreement;
    RunKeeps(c, states, steps, k);
    InvImpliesAgreement(c, states[k]);
  }
}
