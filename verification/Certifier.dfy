/** The certifier: unanimous promises on the fast path, certificates of n / 2 + 1 signature
    shares on the slow path, and the check of certificates, which skips shares it has
    already verified itself. */
module Certifier {
  import opened Buffers
  import opened Options
  import opened Quorums

  type Index = nat
  type Bytes = seq<bv8>

  /** Share of a certificate: the process that emitted it and its signature. */
  datatype Share = Share(emitter: nat, signature: Bytes)

  datatype Certificate = Certificate(identifier: nat, index: Index, shares: seq<Share>, message: Bytes)

  /** `procs` are the process ids of the other replicas, in the order of their receivers;
      `hash` covers identifier, index and message; `verify` is for a signature, a hash and a signer. */
  datatype Config = Config(identifier: nat, tail: nat, procs: seq<nat>, me: nat,
                           hash: (nat, Index, Bytes) -> Bytes, verify: (Bytes, Bytes, nat) -> bool) {
    /** Processes are distinct, and a signature of a signer binds one hash. */
    ghost predicate Valid() {
      && tail > 0
      && me !in procs
      && (forall i, j :: 0 <= i < j < |procs| ==> procs[i] != procs[j])
      && forall s, g, h, p :: verify(s, g, p) && verify(s, h, p) ==> g == h
    }

    function Quorum(): nat { (|procs| + 1) / 2 + 1 }

    /** The source of a share: replica |procs| stands for oneself. */
    function Source(replica: nat): nat {
      if replica < |procs| then procs[replica] else me
    }
  }

  // ---------- Full verification ----------

  predicate Distinct(shares: seq<Share>) {
    forall i, j :: 0 <= i < j < |shares| ==> shares[i].emitter != shares[j].emitter
  }

  predicate WellShaped(c: Config, cert: Certificate) {
    cert.identifier == c.identifier && |cert.shares| == c.Quorum() && Distinct(cert.shares)
  }

  predicate ShareValid(c: Config, cert: Certificate, share: Share) {
    c.verify(share.signature, c.hash(cert.identifier, cert.index, cert.message), share.emitter)
  }

  /** A quorum of distinct emitters, each of whose signatures is for this very message. */
  predicate FullCheck(c: Config, cert: Certificate) {
    WellShaped(c, cert) && forall i :: 0 <= i < |cert.shares| ==> ShareValid(c, cert, cert.shares[i])
  }

  // ---------- What a replica remembers ----------

  /** `MessageData`: who promised, and the verified shares by replica. */
  datatype Data = Data(message: Bytes, promised: set<nat>, shares: map<nat, Bytes>)

  /** `MessageData::signatureVerified`: the first stored share of that source decides. */
  predicate Remembered(c: Config, d: Data, source: nat, signature: Bytes) {
    exists r :: r in d.shares && c.Source(r) == source && d.shares[r] == signature
  }

  predicate Memo(c: Config, tail: map<Index, Data>, cert: Certificate, share: Share) {
    cert.index in tail && Remembered(c, tail[cert.index], share.emitter, share.signature)
  }

  /** `check` */
  predicate Check(c: Config, tail: map<Index, Data>, cert: Certificate) {
    WellShaped(c, cert) && forall i :: 0 <= i < |cert.shares| ==> Memo(c, tail, cert, cert.shares[i]) || ShareValid(c, cert, cert.shares[i])
  }

  /** Stored shares are of known replicas and were verified against the stored message. */
  ghost predicate SharesOk(c: Config, k: Index, d: Data) {
    forall r :: r in d.shares ==> r <= |c.procs| && c.verify(d.shares[r], c.hash(c.identifier, k, d.message), c.Source(r))
  }

  ghost predicate TailOk(c: Config, tail: map<Index, Data>) {
    forall k :: k in tail ==> SharesOk(c, k, tail[k])
  }

  lemma SourcesDiffer(c: Config, a: nat, b: nat)
    requires c.Valid() && a <= |c.procs| && b <= |c.procs| && c.Source(a) == c.Source(b)
    ensures a == b
  {}

  /** A remembered share was verified against the message acknowledged at its index. */
  lemma MemoVerified(c: Config, tail: map<Index, Data>, cert: Certificate, share: Share)
    requires TailOk(c, tail) && Memo(c, tail, cert, share)
    ensures c.verify(share.signature, c.hash(c.identifier, cert.index, tail[cert.index].message), share.emitter)
  {
    assert SharesOk(c, cert.index, tail[cert.index]);
  }

  /** The check accepts what full verification accepts. It errs exactly when it relies on its memory
      for another message: what it accepts, full verification rejects if and only if some share is
      remembered and the message acknowledged at that index has another hash. */
  lemma MemoErrsExactly(c: Config, tail: map<Index, Data>, cert: Certificate)
    requires c.Valid() && TailOk(c, tail)
    ensures FullCheck(c, cert) ==> Check(c, tail, cert)
    ensures Check(c, tail, cert) ==>
              (!FullCheck(c, cert) <==>
                && (exists i :: 0 <= i < |cert.shares| && Memo(c, tail, cert, cert.shares[i]))
                && c.hash(c.identifier, cert.index, tail[cert.index].message) != c.hash(c.identifier, cert.index, cert.message))
  {
    forall i | 0 <= i < |cert.shares| && cert.identifier == c.identifier && Memo(c, tail, cert, cert.shares[i])
      ensures ShareValid(c, cert, cert.shares[i]) <==>
                c.hash(c.identifier, cert.index, tail[cert.index].message) == c.hash(c.identifier, cert.index, cert.message)
    {
      MemoVerified(c, tail, cert, cert.shares[i]);
    }
  }

  /** The shares of a certificate vouch for any other message at a replica that verified
      them for its own. */
  lemma AnyMessagePasses(c: Config, tail: map<Index, Data>, cert: Certificate, other: Bytes)
    requires c.Valid() && TailOk(c, tail) && FullCheck(c, cert) && cert.index in tail && tail[cert.index].message == cert.message
    requires forall i :: 0 <= i < |cert.shares| ==> Memo(c, tail, cert, cert.shares[i])
    requires c.hash(c.identifier, cert.index, other) != c.hash(c.identifier, cert.index, cert.message)
    ensures Check(c, tail, cert.(message := other)) && !FullCheck(c, cert.(message := other))
  {
    var forged := cert.(message := other);
    forall i | 0 <= i < |forged.shares| ensures Memo(c, tail, forged, forged.shares[i]) {
      assert Memo(c, tail, cert, cert.shares[i]);
    }
    assert ShareValid(c, cert, cert.shares[0]);
    assert !ShareValid(c, forged, forged.shares[0]);
  }

  // ---------- Building certificates ----------

  /** The first n entries of the ordered map of received shares. */
  ghost predicate FirstShares(c: Config, d: Data, shares: seq<Share>, replicas: seq<nat>) {
    && |replicas| == |shares|
    && (forall i :: 0 <= i < |replicas| ==> replicas[i] in d.shares && shares[i] == Share(c.Source(replicas[i]), d.shares[replicas[i]]))
    && (forall i, j :: 0 <= i < j < |replicas| ==> replicas[i] < replicas[j])
    && forall r, i :: r in d.shares && 0 <= i < |replicas| && r < replicas[i] ==> r in replicas
  }

  /** The shares of all replicas below r. */
  ghost predicate SharesBelow(c: Config, d: Data, shares: seq<Share>, replicas: seq<nat>, r: nat) {
    && FirstShares(c, d, shares, replicas)
    && (forall i :: 0 <= i < |replicas| ==> replicas[i] < r)
    && forall q :: q in d.shares && q < r ==> q in replicas
  }

  lemma NextShare(c: Config, d: Data, shares: seq<Share>, replicas: seq<nat>, r: nat)
    requires SharesBelow(c, d, shares, replicas, r)
    ensures if r in d.shares then SharesBelow(c, d, shares + [Share(c.Source(r), d.shares[r])], replicas + [r], r + 1)
            else SharesBelow(c, d, shares, replicas, r + 1)
  {
    hide Config.Source;
    if r in d.shares {
      var all := replicas + [r];
      forall q | q in d.shares && q < r + 1 ensures q in all {
        assert q in replicas || all[|replicas|] == q;
      }
      forall q, i | q in d.shares && 0 <= i < |all| && q < all[i] ensures q in all {}
    }
  }

  /** A certificate of a quorum of verified shares is accepted by full verification. */
  lemma BuiltIsValid(c: Config, k: Index, d: Data, shares: seq<Share>, replicas: seq<nat>)
    requires c.Valid() && SharesOk(c, k, d) && FirstShares(c, d, shares, replicas) && |shares| == c.Quorum()
    ensures FullCheck(c, Certificate(c.identifier, k, shares, d.message))
  {
    var cert := Certificate(c.identifier, k, shares, d.message);
    forall i, j | 0 <= i < j < |shares| ensures shares[i].emitter != shares[j].emitter {
      if shares[i].emitter == shares[j].emitter {
        SourcesDiffer(c, replicas[i], replicas[j]);
      }
    }
    forall i | 0 <= i < |shares| ensures ShareValid(c, cert, shares[i]) {
      assert replicas[i] in d.shares;
    }
  }

  // ---------- The certifier ----------

  datatype Acknowledgement = Acknowledged | OutOfOrder | SelfLinked

  class Certifier {
    const c: Config
    var msgTail: map<Index, Data>
    var bufferedPromises: seq<seq<Index>>
    /** The last index given to the tail map. */
    var minimum: Index
    var nextPromise: Index
    var nextCertificate: Index
    /** Promises that arrived, by replica, those that went without saying, and the messages
        acknowledged so far. */
    ghost var promises: set<(nat, Index)>
    ghost var implied: set<(nat, Index)>
    ghost var acknowledged: map<Index, Bytes>

    ghost predicate PromisesOk()
      reads this
    {
      && |bufferedPromises| == |c.procs|
      && (forall k, r :: k in msgTail && r in msgTail[k].promised ==> r < |c.procs| && ((r, k) in promises || (r, k) in implied))
      && (forall r: nat, k :: r < |c.procs| && k in bufferedPromises[r] ==> (r, k) in promises)
      && (forall r: nat :: r < |c.procs| ==> Increasing(bufferedPromises[r]))
    }

    ghost predicate Valid()
      reads this
    {
      && c.Valid() && PromisesOk() && TailOk(c, msgTail)
      && (forall k :: k in msgTail ==> k in acknowledged && acknowledged[k] == msgTail[k].message && k <= minimum)
    }

    constructor (c: Config)
      requires c.Valid()
      ensures Valid() && this.c == c && msgTail == map[] && nextPromise == 0 && nextCertificate == 0
    {
      this.c := c;
      msgTail := map[];
      bufferedPromises := seq(|c.procs|, _ => []);
      minimum, nextPromise, nextCertificate := 0, 0, 0;
      promises, implied, acknowledged := {}, {}, map[];
    }

    /** `handlePromise`; false where the source throws. A promise received twice before the
        message is acknowledged is refused as well. */
    method HandlePromise(index: Index, replica: nat) returns (ok: bool)
      requires Valid() && replica < |c.procs|
      modifies this`msgTail, this`bufferedPromises, this`promises
      ensures Valid() && promises == old(promises) + {(replica, index)}
      ensures index in old(msgTail) ==> ok == (replica !in old(msgTail)[index].promised) && bufferedPromises == old(bufferedPromises)
      ensures index in old(msgTail) && ok ==> msgTail == old(msgTail)[index := old(msgTail)[index].(promised := old(msgTail)[index].promised + {replica})]
      ensures index !in old(msgTail) ==> msgTail == old(msgTail) && ok == CanBuffer(old(bufferedPromises)[replica], index)
      ensures index !in old(msgTail) && ok ==> bufferedPromises == old(bufferedPromises)[replica := Push(old(bufferedPromises)[replica], c.tail, index)]
      ensures !ok ==> msgTail == old(msgTail) && bufferedPromises == old(bufferedPromises)
    {
      promises := promises + {(replica, index)};
      if index !in msgTail {
        var queue := bufferedPromises[replica];
        if queue != [] && queue[|queue| - 1] >= index {
          return false;
        }
        queue := queue + [index];
        if |queue| > c.tail {
          queue := queue[1..];
        }
        bufferedPromises := bufferedPromises[replica := queue];
        return true;
      }
      var d := msgTail[index];
      if replica in d.promised {
        return false;
      }
      msgTail := msgTail[index := d.(promised := d.promised + {replica})];
      ok := true;
    }

    /** The loop of `acknowledge` that replays the buffered promises of one replica. */
    method Replay(index: Index, replica: nat) returns (promised: bool)
      requires Valid() && replica < |c.procs|
      modifies this`bufferedPromises
      ensures Valid() && (promised ==> (replica, index) in promises)
      ensures promised <==> index in old(bufferedPromises[replica])
      ensures promised <==> Buffered(old(bufferedPromises[replica]), index)
      ensures bufferedPromises == old(bufferedPromises)[replica := AfterReplay(old(bufferedPromises)[replica], index)]
    {
      var queue: seq<Index> := bufferedPromises[replica];
      InOrderReplays(queue, index);
      while queue != [] && queue[0] < index
        invariant forall k :: k in queue ==> k in bufferedPromises[replica]
        invariant DropBelow(queue, index) == DropBelow(bufferedPromises[replica], index)
      {
        queue := queue[1..];
      }
      promised := queue != [] && queue[0] == index;
      if promised {
        assert index in bufferedPromises[replica];
        queue := queue[1..];
      }
      bufferedPromises := bufferedPromises[replica := queue];
    }

    /** `acknowledge`: the window moves up to `index`, and buffered promises are replayed. It
        throws for an index below the last one. Acknowledging the last one again while it is in
        the tail links its entry to itself (see TailMap); nothing is said of what follows. */
    method Acknowledge(index: Index, message: Bytes) returns (r: Acknowledgement)
      requires Valid()
      modifies this
      ensures Valid()
      ensures r == if index < old(minimum) then OutOfOrder else if index == old(minimum) && index in old(msgTail) then SelfLinked else Acknowledged
      ensures r != Acknowledged ==> msgTail == old(msgTail) && bufferedPromises == old(bufferedPromises)
      ensures r == Acknowledged ==> acknowledged == old(acknowledged)[index := message] && promises == old(promises) && implied == old(implied) && minimum == index
      ensures r == Acknowledged ==> msgTail.Keys == (set k | k in old(msgTail) && index < k + c.tail) + {index}
      ensures r == Acknowledged ==> forall k :: k in msgTail && k != index ==> msgTail[k] == old(msgTail)[k]
      ensures r == Acknowledged ==> msgTail[index].message == message && msgTail[index].shares == map[]
      ensures r == Acknowledged ==> forall r: nat :: r in msgTail[index].promised <==> r < |c.procs| && index in old(bufferedPromises)[r]
      ensures r == Acknowledged ==> forall r: nat, k :: r < |c.procs| ==> (k in bufferedPromises[r] <==> k in old(bufferedPromises)[r] && index < k)
      ensures r == Acknowledged ==> forall r: nat :: r < |c.procs| ==> bufferedPromises[r] == AfterReplay(old(bufferedPromises)[r], index)
      ensures nextPromise == old(nextPromise) && nextCertificate == old(nextCertificate)
    {
      if index < minimum {
        return OutOfOrder;
      }
      if index == minimum && index in msgTail {
        return SelfLinked;
      }
      forall r: nat | r < |c.procs| ensures Buffered(bufferedPromises[r], index) <==> index in bufferedPromises[r]
                                    ensures forall k :: k in AfterReplay(bufferedPromises[r], index) <==> k in bufferedPromises[r] && index < k
      {
        InOrderReplays(bufferedPromises[r], index);
      }
      hide Buffered, AfterReplay;
      Enter(index, message);
      var promised := ReplayAll(index);
      Promised(index, promised);
      r := Acknowledged;
    }

    /** `receivedImplicitPromise`: the promise of the replica whose message was acknowledged goes
        without saying. Counted if the message is in the tail; false where the source throws. */
    method ReceivedImplicitPromise(from: nat, index: Index) returns (ok: bool)
      requires Valid()
      modifies this`msgTail, this`implied
      ensures Valid() && (ok <==> index in old(msgTail) ==> from in c.procs)
      ensures msgTail.Keys == old(msgTail).Keys && forall k :: k in msgTail && k != index ==> msgTail[k] == old(msgTail)[k]
      ensures ok && index in msgTail ==> exists r ::
                && 0 <= r < |c.procs| && c.procs[r] == from && implied == old(implied) + {(r, index)}
                && msgTail[index] == old(msgTail)[index].(promised := old(msgTail)[index].promised + {r})
      ensures !(ok && index in msgTail) ==> msgTail == old(msgTail) && implied == old(implied)
    {
      if index !in msgTail {
        return true;
      }
      for r := 0 to |c.procs|
        invariant forall q :: 0 <= q < r ==> c.procs[q] != from
      {
        if c.procs[r] == from {
          implied := implied + {(r, index)};
          assert SharesOk(c, index, msgTail[index]);
          msgTail := msgTail[index := msgTail[index].(promised := msgTail[index].promised + {r})];
          return true;
        }
      }
      ok := false;
    }

    /** `forgetMessages`: everything up to the index, or all, popped from the front. */
    method ForgetMessages(index: Option<Index>)
      requires Valid()
      modifies this`msgTail
      ensures Valid()
      ensures msgTail == map k | k in old(msgTail) && index.Some? && index.value < k :: old(msgTail)[k]
    {
      ghost var before := msgTail;
      while msgTail != map[]
        invariant Valid()
        invariant msgTail.Keys <= before.Keys && forall k :: k in msgTail ==> msgTail[k] == before[k]
        invariant forall k :: k in before && k !in msgTail ==> index.None? || k <= index.value
        decreases |msgTail|
      {
        var first := First(msgTail);
        if index.Some? && index.value < first {
          break;
        }
        PopFront(first);
      }
    }

    method PopFront(first: Index)
      requires Valid() && first in msgTail
      modifies this`msgTail
      ensures Valid() && msgTail == old(msgTail) - {first} && |msgTail| < |old(msgTail)|
    {
      ghost var before := msgTail;
      msgTail := msgTail - {first};
      assert before.Keys == msgTail.Keys + {first};
      assert TailOk(c, msgTail) by {
        forall k | k in msgTail ensures SharesOk(c, k, msgTail[k]) {
          assert before[k] == msgTail[k] && SharesOk(c, k, before[k]);
        }
      }
    }

    /** `tryEmplace` of the acknowledged message. */
    method Enter(index: Index, message: Bytes)
      requires Valid() && index !in msgTail && index >= minimum
      modifies this`msgTail, this`minimum, this`acknowledged
      ensures Valid() && minimum == index && acknowledged == old(acknowledged)[index := message]
      ensures msgTail == (map k | k in old(msgTail) && index < k + c.tail :: old(msgTail)[k])[index := Data(message, {}, map[])]
    {
      minimum := index;
      acknowledged := acknowledged[index := message];
      msgTail := (map k | k in msgTail && index < k + c.tail :: msgTail[k])[index := Data(message, {}, map[])];
    }

    /** The replay of all buffers. */
    method ReplayAll(index: Index) returns (promised: set<nat>)
      requires Valid()
      modifies this`bufferedPromises
      ensures Valid()
      ensures forall r: nat :: r in promised <==> r < |c.procs| && Buffered(old(bufferedPromises)[r], index)
      ensures forall r: nat :: r in promised ==> (r, index) in promises
      ensures forall r: nat :: r < |c.procs| ==> bufferedPromises[r] == AfterReplay(old(bufferedPromises)[r], index)
    {
      hide TailOk, Config.Valid, Buffered, AfterReplay;
      ghost var before := bufferedPromises;
      promised := {};
      var r := 0;
      while r < |c.procs|
        invariant 0 <= r <= |c.procs| && Valid()
        invariant forall q: nat :: q in promised <==> q < r && Buffered(before[q], index)
        invariant forall q: nat :: q in promised ==> (q, index) in promises
        invariant forall q: nat :: r <= q < |c.procs| ==> bufferedPromises[q] == before[q]
        invariant forall q: nat :: q < r ==> bufferedPromises[q] == AfterReplay(before[q], index)
      {
        var replayed := Replay(index, r);
        if replayed {
          promised := promised + {r};
        }
        r := r + 1;
      }
    }

    method Promised(index: Index, promised: set<nat>)
      requires Valid() && index in msgTail && forall r: nat :: r in promised ==> r < |c.procs| && (r, index) in promises
      modifies this`msgTail
      ensures Valid() && msgTail == old(msgTail)[index := old(msgTail)[index].(promised := promised)]
    {
      assert SharesOk(c, index, msgTail[index]);
      msgTail := msgTail[index := msgTail[index].(promised := promised)];
    }

    /** `pollPromise`: promises are polled in increasing order, once every other replica promised or
        its promise went without saying. */
    method PollPromise() returns (polled: Option<Index>)
      requires Valid()
      modifies this`nextPromise
      ensures Valid() && nextPromise >= old(nextPromise)
      ensures polled.Some? ==> old(nextPromise) <= polled.value && nextPromise == polled.value + 1
      ensures polled.Some? ==> polled.value in msgTail && forall r: nat :: r < |c.procs| ==> (r, polled.value) in promises || (r, polled.value) in implied
      ensures Advanced(msgTail, old(nextPromise), if polled.Some? then polled.value else nextPromise)
      ensures polled.None? ==> msgTail == map[] || nextPromise !in msgTail || |msgTail[nextPromise].promised| != |c.procs|
    {
      if msgTail == map[] {
        return None;
      }
      var first := First(msgTail);
      nextPromise := if nextPromise < first then first else nextPromise;
      if nextPromise !in msgTail || |msgTail[nextPromise].promised| != |c.procs| {
        return None;
      }
      AllPromised(nextPromise);
      polled := Some(nextPromise);
      nextPromise := nextPromise + 1;
    }

    /** As many promises as there are other replicas are promises of all of them. */
    lemma AllPromised(k: Index)
      requires Valid() && k in msgTail && |msgTail[k].promised| == |c.procs|
      ensures forall r: nat :: r < |c.procs| ==> (r, k) in promises || (r, k) in implied
    {
      GroupSize(|c.procs|);
      assert msgTail[k].promised <= Group(|c.procs|);
      SubsetSize(msgTail[k].promised, Group(|c.procs|));
      forall r: nat | r < |c.procs| ensures (r, k) in promises || (r, k) in implied {
        assert r in msgTail[k].promised;
      }
    }

    /** `handleVerifiedShare`, for a share of the message acknowledged at its index; false
        where the source throws. */
    method HandleVerifiedShare(replica: nat, index: Index, signature: Bytes, valid: bool) returns (ok: bool)
      requires Valid() && replica <= |c.procs|
      requires valid ==> index in acknowledged && c.verify(signature, c.hash(c.identifier, index, acknowledged[index]), c.Source(replica))
      modifies this`msgTail
      ensures Valid()
      ensures ok <==> valid && (index in old(msgTail) ==> replica !in old(msgTail)[index].shares)
      ensures msgTail == if ok && index in old(msgTail)
                         then old(msgTail)[index := old(msgTail)[index].(shares := old(msgTail)[index].shares[replica := signature])]
                         else old(msgTail)
    {
      if !valid {
        return false;
      }
      if index !in msgTail {
        return true;
      }
      var d := msgTail[index];
      if replica in d.shares {
        return false;
      }
      assert SharesOk(c, index, d);
      msgTail := msgTail[index := d.(shares := d.shares[replica := signature])];
      ok := true;
    }

    /** The loop of `buildCertificate`: shares in the order of replicas, up to a quorum. */
    method Gather(d: Data) returns (shares: seq<Share>, ghost replicas: seq<nat>)
      requires (forall r :: r in d.shares ==> r <= |c.procs|) && |d.shares| >= c.Quorum()
      ensures FirstShares(c, d, shares, replicas) && |shares| == c.Quorum()
    {
      shares, replicas := [], [];
      var r := 0;
      assert SharesBelow(c, d, shares, replicas, r);
      assert Below(d.shares.Keys, 0) == {};
      hide FirstShares, SharesBelow, Config.Source, Below;
      while |shares| < c.Quorum()
        invariant 0 <= r <= |c.procs| + 1 && |shares| <= c.Quorum()
        invariant SharesBelow(c, d, shares, replicas, r)
        invariant |shares| == |Below(d.shares.Keys, r)|
        decreases |c.procs| + 1 - r
      {
        NextShare(c, d, shares, replicas, r);
        BelowAll(d.shares.Keys, |c.procs| + 1, r);
        assert |d.shares.Keys| == |d.shares|;
        BelowNext(d.shares.Keys, r);
        if r in d.shares {
          shares := shares + [Share(c.Source(r), d.shares[r])];
          replicas := replicas + [r];
        }
        r := r + 1;
      }
      AreFirst(d, shares, replicas, r);
    }

    lemma AreFirst(d: Data, shares: seq<Share>, replicas: seq<nat>, r: nat)
      requires SharesBelow(c, d, shares, replicas, r)
      ensures FirstShares(c, d, shares, replicas)
    {}

    /** `pollCertificate`: whatever it returns passes full verification, at every replica. */
    method PollCertificate() returns (polled: Option<Certificate>)
      requires Valid()
      modifies this`nextCertificate
      ensures Valid() && nextCertificate >= old(nextCertificate)
      ensures polled.Some? ==> FullCheck(c, polled.value) && polled.value.index >= old(nextCertificate) && nextCertificate == polled.value.index + 1
      ensures polled.Some? ==> polled.value.index in acknowledged && polled.value.message == acknowledged[polled.value.index]
      ensures Advanced(msgTail, old(nextCertificate), if polled.Some? then polled.value.index else nextCertificate)
      ensures polled.None? ==> msgTail == map[] || nextCertificate !in msgTail || |msgTail[nextCertificate].shares| < c.Quorum()
    {
      if msgTail == map[] {
        return None;
      }
      var first := First(msgTail);
      nextCertificate := if nextCertificate < first then first else nextCertificate;
      if nextCertificate !in msgTail || |msgTail[nextCertificate].shares| < c.Quorum() {
        return None;
      }
      var d := msgTail[nextCertificate];
      assert SharesOk(c, nextCertificate, d);
      var shares, replicas := Gather(d);
      BuiltIsValid(c, nextCertificate, d, shares, replicas);
      polled := Some(Certificate(c.identifier, nextCertificate, shares, d.message));
      nextCertificate := nextCertificate + 1;
    }

    /** `check` */
    method CheckCertificate(cert: Certificate) returns (ok: bool)
      requires Valid()
      ensures ok == Check(c, msgTail, cert)
    {
      if cert.identifier != c.identifier || |cert.shares| != c.Quorum() {
        return false;
      }
      var seen: set<nat> := {};
      for i := 0 to |cert.shares|
        invariant seen == set j | 0 <= j < i :: cert.shares[j].emitter
        invariant forall a, b :: 0 <= a < b < i ==> cert.shares[a].emitter != cert.shares[b].emitter
      {
        if cert.shares[i].emitter in seen {
          return false;
        }
        seen := seen + {cert.shares[i].emitter};
      }
      var hash: Option<Bytes> := None;
      for i := 0 to |cert.shares|
        invariant hash.Some? ==> hash.value == c.hash(cert.identifier, cert.index, cert.message)
        invariant forall j :: 0 <= j < i ==> Memo(c, msgTail, cert, cert.shares[j]) || ShareValid(c, cert, cert.shares[j])
      {
        var share := cert.shares[i];
        var remembered := IsRemembered(cert.index, share);
        if !remembered {
          if hash.None? {
            hash := Some(c.hash(cert.identifier, cert.index, cert.message));
          }
          if !c.verify(share.signature, hash.value, share.emitter) {
            return false;
          }
        }
      }
      ok := true;
    }

    /** `signatureVerified` */
    method IsRemembered(index: Index, share: Share) returns (ok: bool)
      requires Valid()
      ensures ok <==> index in msgTail && Remembered(c, msgTail[index], share.emitter, share.signature)
    {
      if index !in msgTail {
        return false;
      }
      var d := msgTail[index];
      assert SharesOk(c, index, d);
      for r := 0 to |c.procs| + 1
        invariant forall q :: q in d.shares && q < r ==> c.Source(q) != share.emitter
      {
        if r in d.shares && c.Source(r) == share.emitter {
          OneSource(c, d, r);
          return d.shares[r] == share.signature;
        }
      }
      ok := false;
    }
  }

  /** A buffered promise for `index`, once older ones are dropped. */
  predicate Buffered(queue: seq<Index>, index: Index) {
    var rest := DropBelow(queue, index);
    rest != [] && rest[0] == index
  }

  function AfterReplay(queue: seq<Index>, index: Index): seq<Index> {
    var rest := DropBelow(queue, index);
    if Buffered(queue, index) then rest[1..] else rest
  }

  ghost predicate Increasing(queue: seq<Index>) {
    forall i, j :: 0 <= i < j < |queue| ==> queue[i] < queue[j]
  }

  /** Exactly: what leads and is below the index is dropped. */
  lemma {:induction false} DropsExactly(queue: seq<Index>, index: Index) returns (n: nat)
    ensures n <= |queue| && DropBelow(queue, index) == queue[n..]
    ensures (forall i :: 0 <= i < n ==> queue[i] < index) && (n < |queue| ==> index <= queue[n])
  {
    if queue != [] && queue[0] < index {
      n := DropsExactly(queue[1..], index);
      assert queue[1..][n..] == queue[n + 1..];
      n := n + 1;
    } else {
      n := 0;
    }
  }

  /** In increasing order: a promise is found wherever it is, and exactly the later ones stay. */
  lemma InOrderReplays(queue: seq<Index>, index: Index)
    requires Increasing(queue)
    ensures Buffered(queue, index) <==> index in queue
    ensures Increasing(AfterReplay(queue, index)) && forall k :: k in AfterReplay(queue, index) <==> k in queue && index < k
  {
    var n := DropsExactly(queue, index);
    var after := AfterReplay(queue, index);
    var from := if Buffered(queue, index) then n + 1 else n;
    assert after == queue[from..];
    forall k | k in queue && index < k ensures k in after {
      var i :| 0 <= i < |queue| && queue[i] == k;
      assert after[i - from] == k;
    }
  }

  /** Promises are buffered in increasing order, as many as the tail. */
  predicate CanBuffer(queue: seq<Index>, index: Index) {
    queue == [] || queue[|queue| - 1] < index
  }

  function Below(keys: set<nat>, r: nat): set<nat> {
    set k | k in keys && k < r
  }

  lemma BelowNext(keys: set<nat>, r: nat)
    ensures |Below(keys, r + 1)| == |Below(keys, r)| + if r in keys then 1 else 0
  {
    assert Below(keys, r + 1) == Below(keys, r) + if r in keys then {r} else {};
  }

  lemma BelowAll(keys: set<nat>, n: nat, r: nat)
    requires forall k :: k in keys ==> k < n
    ensures r >= n ==> Below(keys, r) == keys
  {}

  lemma OneSource(c: Config, d: Data, r: nat)
    requires c.Valid() && (forall q :: q in d.shares ==> q <= |c.procs|) && r in d.shares
    ensures forall q :: q in d.shares && c.Source(q) == c.Source(r) ==> q == r
  {
    forall q | q in d.shares && c.Source(q) == c.Source(r) ensures q == r {
      SourcesDiffer(c, q, r);
    }
  }

  /** The next index to poll: it skips what left the tail. */
  ghost predicate Advanced(tail: map<Index, Data>, before: Index, after: Index) {
    if tail == map[] then after == before
    else exists k :: k in tail && (forall j :: j in tail ==> k <= j) && after == if before < k then k else before
  }

  /** The first key of an ordered map. */
  method First(m: map<Index, Data>) returns (k: Index)
    requires m != map[]
    ensures k in m && forall j :: j in m ==> k <= j
  {
    var keys := m.Keys;
    k :| k in keys;
    keys := keys - {k};
    while keys != {}
      invariant k in m && keys <= m.Keys
      invariant forall j :: j in m ==> j in keys || k <= j
      decreases keys
    {
      var j :| j in keys;
      if j < k {
        k := j;
      }
      keys := keys - {j};
    }
  }

  function DropBelow(queue: seq<Index>, index: Index): (r: seq<Index>)
    ensures r == [] || r[0] >= index
  {
    if queue != [] && queue[0] < index then DropBelow(queue[1..], index) else queue
  }
}
