/** What a certificate is worth: any two share an emitter, and it has the least number of shares for
    which that is so. */
module CertifierQuorum {
  import opened Quorums
  import opened Certifier

  function Elements(s: seq<nat>): set<nat> {
    set p | p in s
  }

  /** The processes that may emit shares. */
  function Members(c: Config): set<nat> {
    Elements(c.procs) + {c.me}
  }

  function Size(c: Config): nat { |c.procs| + 1 }

  lemma {:induction false} DistinctSize(s: seq<nat>)
    requires forall i, j :: 0 <= i < j < |s| ==> s[i] != s[j]
    ensures |Elements(s)| == |s|
    decreases |s|
  {
    if s != [] {
      var rest, last := s[..|s| - 1], s[|s| - 1];
      DistinctSize(rest);
      assert s == rest + [last];
      assert Elements(s) == Elements(rest) + {last};
    }
  }

  lemma MembersSize(c: Config)
    requires c.Valid()
    ensures |Members(c)| == Size(c)
  {
    DistinctSize(c.procs);
  }

  function Emitters(cert: Certificate): set<nat> {
    set i | 0 <= i < |cert.shares| :: cert.shares[i].emitter
  }

  lemma EmittersSize(cert: Certificate)
    requires Distinct(cert.shares)
    ensures |Emitters(cert)| == |cert.shares|
  {
    var s := seq(|cert.shares|, i requires 0 <= i < |cert.shares| => cert.shares[i].emitter);
    DistinctSize(s);
    forall p | p in s ensures p in Emitters(cert) {
      var i :| 0 <= i < |s| && s[i] == p;
      assert cert.shares[i].emitter == p;
    }
    forall p | p in Emitters(cert) ensures p in s {
      var i :| 0 <= i < |cert.shares| && cert.shares[i].emitter == p;
      assert s[i] == p;
    }
    assert Emitters(cert) == Elements(s);
  }

  /** A certificate that passes has a majority of shares, and no more than it takes. */
  lemma MajorityOfShares(c: Config, cert: Certificate)
    requires FullCheck(c, cert)
    ensures Size(c) < 2 * |cert.shares| <= Size(c) + 2
  {}

  /** Some member emitted a share of both. */
  lemma CertificatesMeet(c: Config, a: Certificate, b: Certificate) returns (i: nat, j: nat)
    requires c.Valid() && FullCheck(c, a) && FullCheck(c, b) && Emitters(a) <= Members(c) && Emitters(b) <= Members(c)
    ensures i < |a.shares| && j < |b.shares| && a.shares[i].emitter == b.shares[j].emitter
    ensures c.verify(a.shares[i].signature, c.hash(c.identifier, a.index, a.message), a.shares[i].emitter)
    ensures c.verify(b.shares[j].signature, c.hash(c.identifier, b.index, b.message), a.shares[i].emitter)
  {
    MembersSize(c);
    EmittersSize(a);
    EmittersSize(b);
    MajorityOfShares(c, a);
    MajorityOfShares(c, b);
    Meet(Members(c), Emitters(a), Emitters(b));
    var e :| e in Emitters(a) && e in Emitters(b);
    i :| 0 <= i < |a.shares| && a.shares[i].emitter == e;
    j :| 0 <= j < |b.shares| && b.shares[j].emitter == e;
    assert ShareValid(c, a, a.shares[i]) && ShareValid(c, b, b.shares[j]);
  }

  lemma Meet(all: set<nat>, a: set<nat>, b: set<nat>)
    requires a <= all && b <= all && |a| + |b| > |all|
    ensures exists e :: e in a && e in b
  {
    SubsetSize(a + b, all);
    assert |a + b| == |a| + |b| - |a * b|;
    var e :| e in a * b;
    assert e in a && e in b;
  }

  /** All sets of k processes of n share one with each other. */
  ghost predicate AlwaysMeet(n: nat, k: nat) {
    forall a: set<nat>, b: set<nat> :: a <= Group(n) && b <= Group(n) && |a| == |b| == k ==> a * b != {}
  }

  /** The quorum is the least number for which they do. */
  lemma QuorumIsLeast(c: Config, k: nat)
    requires k <= Size(c)
    ensures AlwaysMeet(Size(c), k) <==> c.Quorum() <= k
  {
    var n := Size(c);
    if c.Quorum() <= k {
      forall a: set<nat>, b: set<nat> | a <= Group(n) && b <= Group(n) && |a| == |b| == k ensures a * b != {} {
        var r := Intersect(n, a, b);
        assert r in a * b;
      }
    } else {
      var a, b := Group(k), Group(2 * k) - Group(k);
      GroupSize(k);
      GroupSize(2 * k);
      assert Group(2 * k) == a + b && |a + b| == |a| + |b| - |a * b|;
      assert a * b == {} && a <= Group(n) && b <= Group(n);
    }
  }
}
