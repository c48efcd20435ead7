/** Machine words as sequences of bits, most significant first, which is how section 7.3.2 of
    IEEE Std 1722.1-2013 numbers the bits of a stream format. */
module Bits {

  function Pow2(n: nat): (p: nat)
    ensures p > 0
  {
    if n == 0 then 1 else 2 * Pow2(n - 1)
  }

  /** The n low bits of v. */
  function ToBits(v: nat, n: nat): (bits: seq<bool>)
    ensures |bits| == n
  {
    if n == 0 then [] else ToBits(v / 2, n - 1) + [v % 2 == 1]
  }

  function FromBits(bits: seq<bool>): nat {
    if bits == [] then 0
    else 2 * FromBits(bits[..|bits| - 1]) + (if bits[|bits| - 1] then 1 else 0)
  }

  function Zeros(n: nat): (bits: seq<bool>)
    ensures |bits| == n
  {
    seq(n, _ => false)
  }

  lemma {:induction false} FromBitsBound(bits: seq<bool>)
    ensures FromBits(bits) < Pow2(|bits|)
  {
    if bits != [] {
      FromBitsBound(bits[..|bits| - 1]);
    }
  }

  lemma {:induction false} FromToBits(v: nat, n: nat)
    requires v < Pow2(n)
    ensures FromBits(ToBits(v, n)) == v
  {
    if n > 0 {
      FromToBits(v / 2, n - 1);
      assert ToBits(v, n)[..n - 1] == ToBits(v / 2, n - 1);
    }
  }

  lemma {:induction false} FromBitsInjective(a: seq<bool>, b: seq<bool>)
    requires |a| == |b| && FromBits(a) == FromBits(b)
    ensures a == b
  {
    if a != [] {
      var n := |a| - 1;
      FromBitsInjective(a[..n], b[..n]);
      assert a == a[..n] + [a[n]] && b == b[..n] + [b[n]];
    }
  }

  /** A value that fits in n bits has zeros above them. */
  lemma {:induction false} ToBitsOfSmall(v: nat, n: nat, m: nat)
    requires v < Pow2(n) && n <= m
    ensures ToBits(v, m) == Zeros(m - n) + ToBits(v, n)
  {
    if n == 0 {
      ToBitsOfZero(m);
    } else {
      ToBitsOfSmall(v / 2, n - 1, m - 1);
    }
  }

  lemma {:induction false} ToBitsOfZero(m: nat)
    ensures ToBits(0, m) == Zeros(m)
  {
    if m > 0 {
      ToBitsOfZero(m - 1);
    }
  }

  lemma {:induction false} ToFromBits(bits: seq<bool>)
    ensures ToBits(FromBits(bits), |bits|) == bits
  {
    if bits != [] {
      ToFromBits(bits[..|bits| - 1]);
    }
  }

  /** Beyond n bits a number wraps. */
  lemma {:induction false} FromToBitsWraps(v: nat, n: nat)
    ensures FromBits(ToBits(v, n)) == v % Pow2(n)
  {
    if n > 0 {
      FromToBitsWraps(v / 2, n - 1);
      assert ToBits(v, n)[..n - 1] == ToBits(v / 2, n - 1);
      HalfWraps(v, Pow2(n - 1));
    }
  }

  lemma HalfWraps(v: nat, m: nat)
    requires m > 0
    ensures v % (2 * m) == 2 * (v / 2 % m) + v % 2
  {
    var q, r, b := v / 2 / m, v / 2 % m, v % 2;
    assert v / 2 == q * m + r && v == 2 * (v / 2) + b;
    assert v == 2 * m * q + (2 * r + b);
    RemainderIs(2 * m, q, 2 * r + b);
  }

  lemma RemainderIs(d: nat, q: nat, r: nat)
    requires r < d
    ensures (d * q + r) % d == r
  {
    var x := d * q + r;
    assert x == d * (x / d) + x % d;
    var k := x / d - q;
    assert d * k == r - x % d;
    assert k >= 1 ==> d * k >= d;
    assert k <= -1 ==> d * k + d <= 0;
  }

  /** The upper bits of a number are those of its quotient. */
  lemma {:induction false} ToBitsPrefix(v: nat, n: nat, k: nat)
    requires k <= n
    ensures ToBits(v, n)[..n - k] == ToBits(v / Pow2(k), n - k)
  {
    if k > 0 {
      ToBitsPrefix(v / 2, n - 1, k - 1);
      Quotients(v, Pow2(k - 1));
      assert ToBits(v, n)[..n - k] == ToBits(v / 2, n - 1)[..n - k];
    }
  }

  lemma Quotients(v: nat, d: nat)
    requires d > 0
    ensures v / 2 / d == v / (2 * d)
  {
    HalfWraps(v, d);
    var q, r := v / 2 / d, v / 2 % d;
    assert v / 2 == q * d + r;
    assert v == 2 * d * q + (2 * r + v % 2);
    QuotientIs(2 * d, q, 2 * r + v % 2);
  }

  lemma QuotientIs(d: nat, q: nat, r: nat)
    requires r < d
    ensures (d * q + r) / d == q
  {
    RemainderIs(d, q, r);
    var x := d * q + r;
    assert x == d * (x / d) + x % d;
    assert d * (x / d - q) == 0;
  }

  /** The lower bits of a number do not depend on the upper ones. */
  lemma {:induction false} ToBitsSuffix(v: nat, n: nat, k: nat)
    requires k <= n
    ensures ToBits(v, n)[n - k..] == ToBits(v, k)
  {
    if k > 0 {
      ToBitsSuffix(v / 2, n - 1, k - 1);
      assert ToBits(v, n)[n - k..] == ToBits(v / 2, n - 1)[n - k..] + [v % 2 == 1];
    }
  }

  lemma DoublePower(x: nat, n: nat)
    ensures x * Pow2(n + 1) == 2 * (x * Pow2(n))
  {
    assert Pow2(n + 1) == 2 * Pow2(n);
  }

  lemma {:induction false} FromBitsConcat(a: seq<bool>, b: seq<bool>)
    ensures FromBits(a + b) == FromBits(a) * Pow2(|b|) + FromBits(b)
  {
    if b == [] {
      assert a + b == a;
    } else {
      var n := |b| - 1;
      var last := if b[n] then 1 else 0;
      FromBitsConcat(a, b[..n]);
      assert (a + b)[..|a| + n] == a + b[..n];
      DoublePower(FromBits(a), n);
      assert FromBits(a + b) == 2 * FromBits(a + b[..n]) + last && FromBits(b) == 2 * FromBits(b[..n]) + last;
      hide FromBits, Pow2;
    }
  }

  lemma {:induction false} FromBitsOfZeros(n: nat)
    ensures FromBits(Zeros(n)) == 0
  {
    if n > 0 {
      FromBitsOfZeros(n - 1);
      assert Zeros(n)[..n - 1] == Zeros(n - 1);
    }
  }
}

/** 32-bit words and their arithmetic, as the C++ types have it. */
module Words {
  import opened Bits

  type Word = w: seq<bool> | |w| == 32 witness Zeros(32)

  type Byte = b: seq<bool> | |b| == 8 witness Zeros(8)

  function Of(v: nat): Word {
    ToBits(v, 32)
  }

  /** Addition modulo 2^32. */
  function Add(x: Word, y: Word): Word {
    ToBits(FromBits(x) + FromBits(y), 32)
  }

  function Xor(x: Word, y: Word): Word {
    seq(32, i requires 0 <= i < 32 => x[i] != y[i])
  }

  function And(x: Word, y: Word): Word {
    seq(32, i requires 0 <= i < 32 => x[i] && y[i])
  }

  function Or(x: Word, y: Word): Word {
    seq(32, i requires 0 <= i < 32 => x[i] || y[i])
  }

  function Not(x: Word): Word {
    seq(32, i requires 0 <= i < 32 => !x[i])
  }

  function Shr(x: Word, n: nat): Word
    requires n <= 32
  {
    Zeros(n) + x[..32 - n]
  }

  function Shl(x: Word, n: nat): Word
    requires n <= 32
  {
    x[n..] + Zeros(n)
  }
}
