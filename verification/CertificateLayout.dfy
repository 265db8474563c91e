/** The bytes of a certificate: a header, the shares and the message. */
module CertificateLayout {
  import opened ByteOrder

  const SIZE_T := 0x1_0000_0000_0000_0000
  const WORD := 8
  const EMITTER := 4
  const SIGNATURE := 64
  const HEADER := 24
  const SHARE := 68

  datatype Share = Share(emitter: Bytes, signature: Bytes) {
    predicate Valid() { |emitter| == EMITTER && |signature| == SIGNATURE }

    function Raw(): Bytes { emitter + signature }
  }

  predicate AllValid(shares: seq<Share>) {
    forall i :: 0 <= i < |shares| ==> shares[i].Valid()
  }

  function RawShares(shares: seq<Share>): (r: Bytes)
    requires AllValid(shares)
    ensures |r| == SHARE * |shares|
  {
    if shares == [] then [] else RawShares(shares[..|shares| - 1]) + shares[|shares| - 1].Raw()
  }

  function Header(id: nat, index: nat, count: nat): (r: Bytes)
    ensures |r| == HEADER
  {
    LittleEndian(id, WORD) + LittleEndian(index, WORD) + LittleEndian(count, WORD)
  }

  function Encode(id: nat, index: nat, shares: seq<Share>, message: Bytes): (r: Bytes)
    requires AllValid(shares)
    ensures |r| == HEADER + SHARE * |shares| + |message|
  {
    Header(id, index, |shares|) + RawShares(shares) + message
  }

  // ---------- Reading ----------

  /** `bufferSize(0, nb_shares)` in size_t. */
  function SharesEnd(count: nat): nat {
    (HEADER + SHARE * count) % SIZE_T
  }

  function Word(buf: Bytes, at: nat): nat
    requires at + WORD <= |buf|
  {
    FromLittleEndian(buf[at..at + WORD])
  }

  function Identifier(buf: Bytes): nat requires |buf| >= HEADER { Word(buf, 0) }

  function Index(buf: Bytes): nat requires |buf| >= HEADER { Word(buf, 8) }

  function NbShares(buf: Bytes): nat requires |buf| >= HEADER { Word(buf, 16) }

  /** `tryFrom` */
  predicate TryFrom(buf: Bytes) {
    |buf| >= HEADER && |buf| >= SharesEnd(NbShares(buf))
  }

  /** The buffer really holds the shares it announces. */
  predicate Holds(buf: Bytes) {
    |buf| >= HEADER && |buf| >= HEADER + SHARE * NbShares(buf)
  }

  function ShareAt(buf: Bytes, i: nat): Share
    requires HEADER + SHARE * i + SHARE <= |buf|
  {
    var at := HEADER + SHARE * i;
    Share(buf[at..at + EMITTER], buf[at + EMITTER..at + SHARE])
  }

  function Message(buf: Bytes): Bytes
    requires Holds(buf)
  {
    buf[HEADER + SHARE * NbShares(buf)..]
  }

  function Shares(buf: Bytes, n: nat): (r: seq<Share>)
    requires HEADER + SHARE * n <= |buf|
    ensures |r| == n && AllValid(r)
    ensures forall i :: 0 <= i < n ==> r[i] == ShareAt(buf, i)
  {
    if n == 0 then [] else Shares(buf, n - 1) + [ShareAt(buf, n - 1)]
  }

  lemma HeaderWords(id: nat, index: nat, count: nat, rest: Bytes)
    requires id < SIZE_T && index < SIZE_T && count < SIZE_T
    ensures var buf := Header(id, index, count) + rest;
            Identifier(buf) == id && Index(buf) == index && NbShares(buf) == count
  {
    var buf := Header(id, index, count) + rest;
    PowersOfWords();
    hide LittleEndian, FromLittleEndian;
    LittleEndianInverts(id, WORD);
    LittleEndianInverts(index, WORD);
    LittleEndianInverts(count, WORD);
    assert buf[0..8] == LittleEndian(id, WORD);
    assert buf[8..16] == LittleEndian(index, WORD);
    assert buf[16..24] == LittleEndian(count, WORD);
  }

  lemma {:induction false} RawShareAt(head: Bytes, shares: seq<Share>, rest: Bytes, i: nat)
    requires |head| == HEADER && AllValid(shares) && i < |shares|
    ensures ShareAt(head + RawShares(shares) + rest, i) == shares[i]
  {
    var end := |shares| - 1;
    var front, last := shares[..end], shares[end];
    if i == end {
      var buf := head + RawShares(shares) + rest;
      var at := HEADER + SHARE * end;
      assert buf[at..at + SHARE] == last.Raw();
      assert buf[at..at + EMITTER] == last.Raw()[..EMITTER] && buf[at + EMITTER..at + SHARE] == last.Raw()[EMITTER..];
    } else {
      RawShareAt(head, front, last.Raw() + rest, i);
      assert head + RawShares(shares) + rest == head + RawShares(front) + (last.Raw() + rest);
    }
  }

  /** A built certificate is accepted and read back as it was built. */
  lemma ReadsBack(id: nat, index: nat, shares: seq<Share>, message: Bytes)
    requires id < SIZE_T && index < SIZE_T && AllValid(shares) && HEADER + SHARE * |shares| + |message| < SIZE_T
    ensures var buf := Encode(id, index, shares, message);
            && TryFrom(buf) && Holds(buf)
            && Identifier(buf) == id && Index(buf) == index && NbShares(buf) == |shares|
            && Shares(buf, NbShares(buf)) == shares && Message(buf) == message
  {
    hide Header, RawShares;
    var buf := Encode(id, index, shares, message);
    var head := Header(id, index, |shares|);
    assert buf == head + (RawShares(shares) + message);
    HeaderWords(id, index, |shares|, RawShares(shares) + message);
    forall i: nat | i < |shares| ensures Shares(buf, |shares|)[i] == shares[i] {
      RawShareAt(head, shares, message, i);
    }
  }

  lemma {:induction false} RawOfShares(buf: Bytes, n: nat)
    requires HEADER + SHARE * n <= |buf|
    ensures RawShares(Shares(buf, n)) == buf[HEADER..HEADER + SHARE * n]
  {
    hide Shares, LittleEndian, FromLittleEndian;
    if n == 0 {
      assert Shares(buf, 0) == [];
    } else {
      RawOfShares(buf, n - 1);
      SharesNext(buf, n);
      RawNext(Shares(buf, n), n - 1);
      var at := HEADER + SHARE * (n - 1);
      assert ShareAt(buf, n - 1).Raw() == buf[at..at + SHARE];
      assert buf[HEADER..at + SHARE] == buf[HEADER..at] + buf[at..at + SHARE];
    }
  }

  lemma SharesNext(buf: Bytes, n: nat)
    requires n > 0 && HEADER + SHARE * n <= |buf|
    ensures Shares(buf, n)[..n - 1] == Shares(buf, n - 1) && Shares(buf, n)[n - 1] == ShareAt(buf, n - 1)
  {}

  lemma RawNext(shares: seq<Share>, i: nat)
    requires AllValid(shares) && i < |shares|
    ensures RawShares(shares[..i + 1]) == RawShares(shares[..i]) + shares[i].Raw()
  {
    assert shares[..i + 1][..i] == shares[..i];
  }

  /** A buffer that holds its shares is the certificate it reads as: no two differ in bytes only. */
  lemma EncodesBack(buf: Bytes)
    requires Holds(buf)
    ensures Encode(Identifier(buf), Index(buf), Shares(buf, NbShares(buf)), Message(buf)) == buf
  {
    hide LittleEndian, FromLittleEndian, RawShares;
    FromLittleEndianInverts(buf[0..8]);
    FromLittleEndianInverts(buf[8..16]);
    FromLittleEndianInverts(buf[16..24]);
    RawOfShares(buf, NbShares(buf));
    assert Header(Identifier(buf), Index(buf), NbShares(buf)) == buf[..HEADER];
  }

  /** `tryFrom` is right exactly where the size it computes does not wrap around. */
  lemma TryFromExactly(buf: Bytes)
    requires HEADER <= |buf| < SIZE_T && TryFrom(buf)
    ensures Holds(buf) <==> HEADER + SHARE * NbShares(buf) < SIZE_T
  {}

  // ---------- Building ----------

  method Write(buf: array<Byte>, at: nat, bytes: Bytes)
    requires at + |bytes| <= buf.Length
    modifies buf
    ensures buf[..at + |bytes|] == old(buf[..at]) + bytes
  {
    for i := 0 to |bytes|
      invariant buf[..at + i] == old(buf[..at]) + bytes[..i]
    {
      buf[at + i] := bytes[i];
    }
    assert bytes[..|bytes|] == bytes;
  }

  /** The constructor: header, then each share in its place, then the message. */
  method Build(id: nat, index: nat, shares: seq<Share>, message: Bytes) returns (buf: array<Byte>)
    requires AllValid(shares)
    ensures fresh(buf) && buf[..] == Encode(id, index, shares, message)
  {
    hide LittleEndian, RawShares;
    buf := new Byte[HEADER + |shares| * SHARE + |message|];
    Write(buf, 0, LittleEndian(id, WORD));
    Write(buf, 8, LittleEndian(index, WORD));
    Write(buf, 16, LittleEndian(|shares|, WORD));
    assert shares[..0] == [];
    NoShares();
    for i := 0 to |shares|
      invariant buf[..HEADER + SHARE * i] == Header(id, index, |shares|) + RawShares(shares[..i])
    {
      Write(buf, HEADER + SHARE * i, shares[i].Raw());
      RawNext(shares, i);
    }
    assert shares[..|shares|] == shares;
    Write(buf, HEADER + SHARE * |shares|, message);
  }

  lemma NoShares()
    ensures RawShares([]) == []
  {}
}
