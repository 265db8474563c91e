/** Powers of two, lowest bits and bit counts, as the hasher's stack uses them. */
module Blake3Bits {
  predicate IsPow2(n: nat) {
    n == 1 || (n > 1 && n % 2 == 0 && IsPow2(n / 2))
  }

  /** The largest power of two up to x; 1 for 0. */
  function RoundDown(x: nat): (p: nat)
    ensures IsPow2(p)
    ensures x > 0 ==> p <= x < 2 * p
    ensures x == 0 ==> p == 1
  {
    if x < 2 then 1 else 2 * RoundDown(x / 2)
  }

  lemma {:induction false} RoundDownOnly(x: nat, p: nat)
    requires IsPow2(p) && p <= x < 2 * p
    ensures RoundDown(x) == p
  {
    if p > 1 {
      RoundDownOnly(x / 2, p / 2);
    }
  }

  /** The lowest bit that is set. */
  function LowBit(n: nat): (l: nat)
    requires n > 0
    ensures 0 < l <= n && IsPow2(l)
  {
    if n % 2 == 1 then 1 else 2 * LowBit(n / 2)
  }

  /** The number of bits that are set, clearing the lowest one at a time. */
  function PopCount(n: nat): nat {
    if n == 0 then 0 else 1 + PopCount(n - LowBit(n))
  }

  lemma PowDouble(s: nat)
    requires IsPow2(s)
    ensures IsPow2(2 * s)
  {}

  /** Bits above s, or none. */
  predicate Above(a: nat, s: nat) {
    a == 0 || LowBit(a) > s
  }

  predicate AtLeast(a: nat, s: nat) {
    a == 0 || LowBit(a) >= s
  }

  lemma {:induction false} AddLow(a: nat, s: nat)
    requires IsPow2(s) && Above(a, s)
    ensures LowBit(a + s) == s
    decreases s
  {
    if s > 1 {
      assert a % 2 == 0;
      assert (a + s) / 2 == a / 2 + s / 2;
      AddLow(a / 2, s / 2);
    }
  }

  /** Powers of two are equal, or one is at least twice the other. */
  lemma {:induction false} PowGap(a: nat, b: nat)
    requires IsPow2(a) && IsPow2(b) && a < b
    ensures 2 * a <= b
  {
    if a > 1 {
      PowGap(a / 2, b / 2);
    }
  }

  lemma {:induction false} ClearLow(n: nat)
    requires n > 0
    ensures Above(n - LowBit(n), LowBit(n))
    ensures AtLeast(n - LowBit(n), LowBit(n)) && AtLeast(n - LowBit(n), 2 * LowBit(n))
  {
    if n % 2 == 1 {
      if n > 1 {
        assert LowBit(n - 1) == 2 * LowBit((n - 1) / 2);
      }
    } else {
      ClearLow(n / 2);
      assert n - LowBit(n) == 2 * (n / 2 - LowBit(n / 2));
      if n - LowBit(n) > 0 {
        assert (n - LowBit(n)) / 2 == n / 2 - LowBit(n / 2);
        assert (n - LowBit(n)) % 2 == 0;
      }
    }
  }

  lemma PopPush(a: nat, s: nat)
    requires IsPow2(s) && Above(a, s)
    ensures LowBit(a + s) == s && PopCount(a + s) == PopCount(a) + 1
  {
    AddLow(a, s);
  }

  /** Adding a bit at or below the lowest one carries, and never adds more than one bit. */
  lemma {:induction false} CarryBound(a: nat, s: nat)
    requires IsPow2(s) && AtLeast(a, s)
    ensures PopCount(a + s) <= PopCount(a) + 1
    decreases a
  {
    if Above(a, s) {
      PopPush(a, s);
    } else {
      ClearLow(a);
      PowDouble(s);
      CarryBound(a - s, 2 * s);
      assert a - s + 2 * s == a + s;
    }
  }

  lemma {:induction false} PopHalf(n: nat)
    ensures PopCount(2 * n) == PopCount(n)
  {
    if n > 0 {
      assert LowBit(2 * n) == 2 * LowBit(n);
      PopHalf(n - LowBit(n));
      assert 2 * n - LowBit(2 * n) == 2 * (n - LowBit(n));
    }
  }

  function Pow2(k: nat): nat {
    if k == 0 then 1 else 2 * Pow2(k - 1)
  }

  lemma {:induction false} Pow2Add(a: nat, b: nat)
    ensures Pow2(a + b) == Pow2(a) * Pow2(b)
  {
    if a > 0 {
      Pow2Add(a - 1, b);
      assert Pow2(a + b) == 2 * Pow2(a - 1 + b);
    }
  }

  /** A number below 2^k has at most k bits. */
  lemma {:induction false} PopBound(n: nat, k: nat)
    requires n < Pow2(k)
    ensures PopCount(n) <= k
    decreases k
  {
    if n > 0 {
      PopBound(n / 2, k - 1);
      PopHalf(n / 2);
      if n % 2 == 1 {
        assert LowBit(n) == 1 && n - 1 == 2 * (n / 2);
      } else {
        assert n == 2 * (n / 2);
      }
    }
  }

  /** A power of two that divides n is at most its lowest bit. */
  lemma {:induction false} Divides(n: nat, t: nat)
    requires IsPow2(t) && n % t == 0
    ensures AtLeast(n, t)
    decreases t
  {
    if t > 1 && n > 0 {
      var q := n / t;
      assert n == t * q == 2 * ((t / 2) * q) by { Halves(t, q); }
      assert n % 2 == 0 && n / 2 == (t / 2) * q;
      Multiple(t / 2, q);
      Divides(n / 2, t / 2);
    }
  }

  lemma Halves(t: nat, q: nat)
    requires t % 2 == 0
    ensures t * q == 2 * ((t / 2) * q)
  {
    assert t == 2 * (t / 2);
  }

  lemma Multiple(t: nat, q: nat)
    requires t > 0
    ensures (t * q) % t == 0
  {
    var r := (t * q) % t;
    var d := (t * q) / t;
    assert t * q == t * d + r;
    assert q < d ==> t * (q + 1) <= t * d;
    assert d < q ==> t * (d + 1) <= t * q;
  }

  /** A number of chunks of fewer than 2^64 bytes has at most 54 bits. */
  lemma ChunkBits(n: nat)
    requires n * 1024 < 0x1_0000_0000_0000_0000
    ensures PopCount(n) <= 54
  {
    assert Pow2(9) == 512;
    Pow2Add(9, 9);
    Pow2Add(18, 18);
    Pow2Add(36, 18);
    PopBound(n, 54);
  }

  /** A power of two of bytes that is at least a chunk is a power of two of chunks. */
  lemma {:induction false} PowChunks(len: nat, unit: nat)
    requires IsPow2(len) && IsPow2(unit) && len >= unit
    ensures len % unit == 0 && IsPow2(len / unit)
    decreases unit
  {
    if unit > 1 {
      PowChunks(len / 2, unit / 2);
      var q := (len / 2) / (unit / 2);
      assert len / 2 == (unit / 2) * q;
      Halves(unit, q);
      assert len == unit * q;
      Multiple(unit, q);
      Quotient(unit, q);
    }
  }

  lemma Quotient(t: nat, q: nat)
    requires t > 0
    ensures (t * q) / t == q
  {
    Multiple(t, q);
    var d := (t * q) / t;
    assert t * q == t * d;
    assert q < d ==> t * (q + 1) <= t * d;
    assert d < q ==> t * (d + 1) <= t * q;
  }

  lemma ScaledDivides(n: nat, t: nat)
    requires t > 0 && (n * 1024) % (t * 1024) == 0
    ensures n % t == 0
  {
    var q := (n * 1024) / (t * 1024);
    Unscale(n, t, q) by {
      Whole(n * 1024, t * 1024);
    }
  }

  lemma Whole(a: nat, b: nat)
    requires b > 0 && a % b == 0
    ensures a == b * (a / b)
  {}

  lemma Unscale(n: nat, t: nat, q: nat)
    requires t > 0 && n * 1024 == (t * 1024) * q
    ensures n % t == 0
  {
    assert (t * 1024) * q == (t * q) * 1024;
    Multiple(t, q);
  }
}
