/** Integers in memory: k bytes, the lowest first. */
module ByteOrder {
  type Byte = b: nat | b < 256
  type Bytes = seq<Byte>

  /** `k` bytes of n; larger values are truncated. */
  function LittleEndian(n: nat, k: nat): (r: Bytes)
    ensures |r| == k
  {
    if k == 0 then [] else [n % 256] + LittleEndian(n / 256, k - 1)
  }

  function FromLittleEndian(b: Bytes): nat {
    if b == [] then 0
    else
      var low: nat := b[0];
      low + 256 * FromLittleEndian(b[1..])
  }

  function Power(k: nat): (r: nat)
    ensures r > 0
  {
    if k == 0 then 1 else 256 * Power(k - 1)
  }

  lemma PowersOfWords()
    ensures Power(4) == 0x1_0000_0000 && Power(8) == 0x1_0000_0000_0000_0000
  {
    assert Power(4) == 256 * (256 * (256 * (256 * Power(0))));
    assert Power(8) == 256 * (256 * (256 * (256 * Power(4))));
  }

  lemma LowestFirst(n: nat, p: nat)
    requires p > 0
    ensures n % (256 * p) == n % 256 + 256 * (n / 256 % p)
  {
    var q := n / 256;
    var t, u := q / p, q % p;
    assert n == 256 * q + n % 256 && q == t * p + u;
    assert n == t * (256 * p) + (256 * u + n % 256);
    Remainder(n, 256 * p, t, 256 * u + n % 256);
  }

  lemma Remainder(n: nat, m: nat, t: nat, r: nat)
    requires m > 0 && n == t * m + r && r < m
    ensures n % m == r
  {
    assert n == n / m * m + n % m;
    assert (n / m - t) * m == r - n % m;
    NoMultiple(n / m - t, m);
  }

  lemma NoMultiple(d: int, m: int)
    requires -m < d * m < m
    ensures d == 0
  {}

  /** What is read back is what was written, up to the width. */
  lemma {:induction false} LittleEndianInverts(n: nat, k: nat)
    ensures FromLittleEndian(LittleEndian(n, k)) == n % Power(k)
  {
    if k > 0 {
      LittleEndianInverts(n / 256, k - 1);
      assert LittleEndian(n, k)[1..] == LittleEndian(n / 256, k - 1);
      LowestFirst(n, Power(k - 1));
    }
  }

  lemma {:induction false} FromLittleEndianInverts(b: Bytes)
    ensures LittleEndian(FromLittleEndian(b), |b|) == b && FromLittleEndian(b) < Power(|b|)
  {
    if b != [] {
      FromLittleEndianInverts(b[1..]);
      var rest := FromLittleEndian(b[1..]);
      var low: nat := b[0];
      assert FromLittleEndian(b) == low + 256 * rest;
      assert (low + 256 * rest) / 256 == rest && (low + 256 * rest) % 256 == low;
      assert b == [b[0]] + b[1..];
    }
  }
}
