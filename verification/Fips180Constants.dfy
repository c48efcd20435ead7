/** Where the constants of FIPS 180-4 come from: sections 4.2.2 and 5.3.3 take them from the roots of the first
    primes. */
module Fips180Constants {

  import opened Fips180

  // ---------------------------------------------------------------- The first primes

  ghost predicate IsPrime(n: nat) {
    n >= 2 && forall d :: 2 <= d < n ==> n % d != 0
  }

  const Primes: seq<nat> := LowPrimes + HighPrimes

  const LowPrimes: seq<nat> := [
    2, 3, 5, 7, 11, 13, 17, 19, 23, 29, 31, 37, 41, 43, 47, 53,
    59, 61, 67, 71, 73, 79, 83, 89, 97, 101, 103, 107, 109, 113, 127, 131]

  const HighPrimes: seq<nat> := [
    137, 139, 149, 151, 157, 163, 167, 173, 179, 181, 191, 193, 197, 199, 211, 223,
    227, 229, 233, 239, 241, 251, 257, 263, 269, 271, 277, 281, 283, 293, 307, 311]

  /** No prime up to 17 divides n, but for n itself. */
  predicate Trial(n: nat) {
    && (n % 2 != 0 || n == 2) && (n % 3 != 0 || n == 3) && (n % 5 != 0 || n == 5) && (n % 7 != 0 || n == 7)
    && (n % 11 != 0 || n == 11) && (n % 13 != 0 || n == 13) && (n % 17 != 0 || n == 17)
  }

  /** No number between p and q passes, as long as they are at most 14 apart. */
  predicate NoneBetween(p: nat, q: nat) {
    && q <= p + 14
    && (p + 1 >= q || !Trial(p + 1)) && (p + 2 >= q || !Trial(p + 2)) && (p + 3 >= q || !Trial(p + 3))
    && (p + 4 >= q || !Trial(p + 4)) && (p + 5 >= q || !Trial(p + 5)) && (p + 6 >= q || !Trial(p + 6))
    && (p + 7 >= q || !Trial(p + 7)) && (p + 8 >= q || !Trial(p + 8)) && (p + 9 >= q || !Trial(p + 9))
    && (p + 10 >= q || !Trial(p + 10)) && (p + 11 >= q || !Trial(p + 11)) && (p + 12 >= q || !Trial(p + 12))
    && (p + 13 >= q || !Trial(p + 13))
  }

  lemma SmallFactor(n: nat, f: nat, g: nat)
    requires 2 <= f <= 18 && f < n && n == f * g
    ensures !Trial(n)
  {
    Multiples(g);
    if f % 2 == 0 {
      assert n == 2 * (f / 2 * g);
      Multiples(f / 2 * g);
    } else if f % 3 == 0 {
      assert n == 3 * (f / 3 * g);
      Multiples(f / 3 * g);
    } else {
      assert f == 5 || f == 7 || f == 11 || f == 13 || f == 17;
    }
  }

  lemma Multiples(m: nat)
    ensures 2 * m % 2 == 0 && 3 * m % 3 == 0 && 5 * m % 5 == 0 && 7 * m % 7 == 0
    ensures 11 * m % 11 == 0 && 13 * m % 13 == 0 && 17 * m % 17 == 0
  {
  }

  /** Below the square of 19 the trial divisions tell the primes. */
  lemma TrialIsPrime(n: nat)
    requires 2 <= n < 361
    ensures IsPrime(n) <==> Trial(n)
  {
    if !Trial(n) {
      var d :| d in {2, 3, 5, 7, 11, 13, 17} && n % d == 0 && n != d;
      assert d < n;
    } else if !IsPrime(n) {
      var d :| 2 <= d < n && n % d == 0;
      hide Trial;
      var e := Quotient(n, d);
      if d <= 18 {
        SmallFactor(n, d, e);
      } else {
        Cofactor(n, d, e);
        SmallFactor(n, e, d);
      }
    }
  }

  lemma Quotient(n: nat, d: nat) returns (e: nat)
    requires d > 0 && n % d == 0
    ensures n == d * e
  {
    e := n / d;
  }

  lemma Cofactor(n: nat, d: nat, e: nat)
    requires n == d * e && 18 < d < n < 361
    ensures 2 <= e <= 18 && e < n
  {
    assert e < 2 ==> d * e <= d;
    assert e >= 19 ==> d * e >= 19 * e;
    assert e * 2 <= d * e;
  }

  /** q is the next prime after p. */
  ghost predicate NextPrime(p: nat, q: nat) {
    p < q && IsPrime(q) && forall n :: p < n < q ==> !IsPrime(n)
  }

  lemma Next(p: nat, q: nat)
    requires 2 <= p < q < 361 && Trial(q) && NoneBetween(p, q)
    ensures NextPrime(p, q)
  {
    TrialIsPrime(q);
    forall n | p < n < q ensures !IsPrime(n) {
      NoneBetweenAt(p, q, n);
      TrialIsPrime(n);
    }
  }

  lemma NoneBetweenAt(p: nat, q: nat, n: nat)
    requires NoneBetween(p, q) && p < n < q
    ensures !Trial(n)
  {
    hide Trial;
    var k := n - p;
    assert k == 1 || k == 2 || k == 3 || k == 4 || k == 5 || k == 6 || k == 7 || k == 8 || k == 9 || k == 10
        || k == 11 || k == 12 || k == 13;
  }

  lemma Gaps0()
    ensures NextPrime(2, 3)
    ensures NextPrime(3, 5)
    ensures NextPrime(5, 7)
    ensures NextPrime(7, 11)
    ensures NextPrime(11, 13)
    ensures NextPrime(13, 17)
    ensures NextPrime(17, 19)
    ensures NextPrime(19, 23)
  {
    Next(2, 3);
    Next(3, 5);
    Next(5, 7);
    Next(7, 11);
    Next(11, 13);
    Next(13, 17);
    Next(17, 19);
    Next(19, 23);
  }

  lemma Gaps1()
    ensures NextPrime(23, 29)
    ensures NextPrime(29, 31)
    ensures NextPrime(31, 37)
    ensures NextPrime(37, 41)
    ensures NextPrime(41, 43)
    ensures NextPrime(43, 47)
    ensures NextPrime(47, 53)
    ensures NextPrime(53, 59)
  {
    Next(23, 29);
    Next(29, 31);
    Next(31, 37);
    Next(37, 41);
    Next(41, 43);
    Next(43, 47);
    Next(47, 53);
    Next(53, 59);
  }

  lemma Gaps2()
    ensures NextPrime(59, 61)
    ensures NextPrime(61, 67)
    ensures NextPrime(67, 71)
    ensures NextPrime(71, 73)
    ensures NextPrime(73, 79)
    ensures NextPrime(79, 83)
    ensures NextPrime(83, 89)
    ensures NextPrime(89, 97)
  {
    Next(59, 61);
    Next(61, 67);
    Next(67, 71);
    Next(71, 73);
    Next(73, 79);
    Next(79, 83);
    Next(83, 89);
    Next(89, 97);
  }

  lemma Gaps3()
    ensures NextPrime(97, 101)
    ensures NextPrime(101, 103)
    ensures NextPrime(103, 107)
    ensures NextPrime(107, 109)
    ensures NextPrime(109, 113)
    ensures NextPrime(113, 127)
    ensures NextPrime(127, 131)
    ensures NextPrime(131, 137)
  {
    Next(97, 101);
    Next(101, 103);
    Next(103, 107);
    Next(107, 109);
    Next(109, 113);
    Next(113, 127);
    Next(127, 131);
    Next(131, 137);
  }

  lemma Gaps4()
    ensures NextPrime(137, 139)
    ensures NextPrime(139, 149)
    ensures NextPrime(149, 151)
    ensures NextPrime(151, 157)
    ensures NextPrime(157, 163)
    ensures NextPrime(163, 167)
    ensures NextPrime(167, 173)
    ensures NextPrime(173, 179)
  {
    Next(137, 139);
    Next(139, 149);
    Next(149, 151);
    Next(151, 157);
    Next(157, 163);
    Next(163, 167);
    Next(167, 173);
    Next(173, 179);
  }

  lemma Gaps5()
    ensures NextPrime(179, 181)
    ensures NextPrime(181, 191)
    ensures NextPrime(191, 193)
    ensures NextPrime(193, 197)
    ensures NextPrime(197, 199)
    ensures NextPrime(199, 211)
    ensures NextPrime(211, 223)
    ensures NextPrime(223, 227)
  {
    Next(179, 181);
    Next(181, 191);
    Next(191, 193);
    Next(193, 197);
    Next(197, 199);
    Next(199, 211);
    Next(211, 223);
    Next(223, 227);
  }

  lemma Gaps6()
    ensures NextPrime(227, 229)
    ensures NextPrime(229, 233)
    ensures NextPrime(233, 239)
    ensures NextPrime(239, 241)
    ensures NextPrime(241, 251)
    ensures NextPrime(251, 257)
    ensures NextPrime(257, 263)
    ensures NextPrime(263, 269)
  {
    Next(227, 229);
    Next(229, 233);
    Next(233, 239);
    Next(239, 241);
    Next(241, 251);
    Next(251, 257);
    Next(257, 263);
    Next(263, 269);
  }

  lemma Gaps7()
    ensures NextPrime(269, 271)
    ensures NextPrime(271, 277)
    ensures NextPrime(277, 281)
    ensures NextPrime(281, 283)
    ensures NextPrime(283, 293)
    ensures NextPrime(293, 307)
    ensures NextPrime(307, 311)
  {
    Next(269, 271);
    Next(271, 277);
    Next(277, 281);
    Next(281, 283);
    Next(283, 293);
    Next(293, 307);
    Next(307, 311);
  }

  /** Every step in the table is to the next prime. */
  lemma PrimesAreNext(t: nat)
    requires t < 63
    ensures |Primes| == 64 && NextPrime(Primes[t], Primes[t + 1])
  {
    Gaps0();
    Gaps1();
    Gaps2();
    Gaps3();
    Gaps4();
    Gaps5();
    Gaps6();
    Gaps7();
    hide NextPrime;
    assert |LowPrimes| == 32 && |HighPrimes| == 32;
  }

  lemma {:induction false} PrimesIncrease(t: nat, u: nat)
    requires t <= u < 64 && |Primes| == 64
    ensures Primes[t] <= Primes[u] && (t < u ==> Primes[t] < Primes[u])
  {
    if t < u {
      PrimesIncrease(t, u - 1);
      PrimesAreNext(u - 1);
    }
  }

  lemma {:induction false} UpTo(u: nat, n: nat)
    requires u < 64 && |Primes| == 64 && n <= Primes[u]
    ensures IsPrime(n) <==> n in Primes[..u + 1]
  {
    hide IsPrime;
    if u == 0 {
      UpToTwo(n);
    } else {
      PrimesAreNext(u - 1);
      PrefixGrows(u, n);
      if n <= Primes[u - 1] {
        UpTo(u - 1, n);
      } else {
        AboveAll(u, n);
      }
    }
  }

  lemma UpToTwo(n: nat)
    requires |Primes| == 64 && n <= Primes[0]
    ensures IsPrime(n) <==> n in Primes[..1]
  {
    TrialIsPrime(2);
    assert Primes[0] == LowPrimes[0] == 2 && Primes[..1] == [2];
  }

  lemma PrefixGrows(u: nat, n: nat)
    requires 0 < u < 64 && |Primes| == 64
    ensures n in Primes[..u + 1] <==> n in Primes[..u] || n == Primes[u]
  {
    assert Primes[..u + 1] == Primes[..u] + [Primes[u]];
  }

  lemma AboveAll(u: nat, n: nat)
    requires 0 < u < 64 && |Primes| == 64 && Primes[u - 1] < n
    ensures n !in Primes[..u]
  {
    forall t: nat | t < u ensures Primes[t] < n {
      PrimesIncrease(t, u - 1);
    }
  }

  /** The table holds the first 64 primes in their order: each is above those before it, and every prime up to the
      last one is there. */
  lemma PrimesAreFirst(n: nat)
    ensures |Primes| == 64 && forall t, u :: 0 <= t < u < 64 ==> Primes[t] < Primes[u]
    ensures n <= Primes[63] ==> (IsPrime(n) <==> n in Primes)
  {
    PrimesAreNext(0);
    forall t: nat, u: nat | t < u < 64 ensures Primes[t] < Primes[u] {
      PrimesIncrease(t, u);
    }
    if n <= Primes[63] {
      hide IsPrime;
      UpTo(63, n);
      assert Primes[..64] == Primes;
    }
  }

  // ---------------------------------------------------------------- Roots

  const Two32: nat := 0x1_0000_0000

  /** k is the first 32 bits of the fractional part of the cube root of p, whose integral part is c: the number with
      these digits is the largest whose cube is not above p. */
  predicate HasCubeRoot(p: nat, c: nat, k: nat) {
    k < Two32 && IsCubeRoot(c * Two32 + k, p * (Two32 * Two32 * Two32))
  }

  predicate IsCubeRoot(r: nat, m: nat) {
    r * r * r <= m < (r + 1) * (r + 1) * (r + 1)
  }

  predicate HasSquareRoot(p: nat, c: nat, k: nat) {
    var r := c * Two32 + k;
    k < Two32 && r * r <= p * (Two32 * Two32) < (r + 1) * (r + 1)
  }

  ghost predicate IsCubeRootOf(p: nat, k: nat) {
    exists c :: HasCubeRoot(p, c, k)
  }

  ghost predicate IsSquareRootOf(p: nat, k: nat) {
    exists c :: HasSquareRoot(p, c, k)
  }

  lemma CubeRoot(p: nat, c: nat, k: nat)
    requires HasCubeRoot(p, c, k)
    ensures IsCubeRootOf(p, k)
  {
  }

  lemma SquareRoot(p: nat, c: nat, k: nat)
    requires HasSquareRoot(p, c, k)
    ensures IsSquareRootOf(p, k)
  {
  }

  lemma Cubes0()
    ensures IsCubeRootOf(2, 0x428a2f98) && IsCubeRootOf(3, 0x71374491)
    ensures IsCubeRootOf(5, 0xb5c0fbcf) && IsCubeRootOf(7, 0xe9b5dba5)
  {
    CubeRoot(2, 1, 0x428a2f98);
    CubeRoot(3, 1, 0x71374491);
    CubeRoot(5, 1, 0xb5c0fbcf);
    CubeRoot(7, 1, 0xe9b5dba5);
  }

  lemma Cubes1()
    ensures IsCubeRootOf(11, 0x3956c25b) && IsCubeRootOf(13, 0x59f111f1)
    ensures IsCubeRootOf(17, 0x923f82a4) && IsCubeRootOf(19, 0xab1c5ed5)
  {
    CubeRoot(11, 2, 0x3956c25b);
    CubeRoot(13, 2, 0x59f111f1);
    CubeRoot(17, 2, 0x923f82a4);
    CubeRoot(19, 2, 0xab1c5ed5);
  }

  lemma Cubes2()
    ensures IsCubeRootOf(23, 0xd807aa98) && IsCubeRootOf(29, 0x12835b01)
    ensures IsCubeRootOf(31, 0x243185be) && IsCubeRootOf(37, 0x550c7dc3)
  {
    CubeRoot(23, 2, 0xd807aa98);
    CubeRoot(29, 3, 0x12835b01);
    CubeRoot(31, 3, 0x243185be);
    CubeRoot(37, 3, 0x550c7dc3);
  }

  lemma Cubes3()
    ensures IsCubeRootOf(41, 0x72be5d74) && IsCubeRootOf(43, 0x80deb1fe)
    ensures IsCubeRootOf(47, 0x9bdc06a7) && IsCubeRootOf(53, 0xc19bf174)
  {
    CubeRoot(41, 3, 0x72be5d74);
    CubeRoot(43, 3, 0x80deb1fe);
    CubeRoot(47, 3, 0x9bdc06a7);
    CubeRoot(53, 3, 0xc19bf174);
  }

  lemma Cubes4()
    ensures IsCubeRootOf(59, 0xe49b69c1) && IsCubeRootOf(61, 0xefbe4786)
    ensures IsCubeRootOf(67, 0x0fc19dc6) && IsCubeRootOf(71, 0x240ca1cc)
  {
    CubeRoot(59, 3, 0xe49b69c1);
    CubeRoot(61, 3, 0xefbe4786);
    CubeRoot(67, 4, 0x0fc19dc6);
    CubeRoot(71, 4, 0x240ca1cc);
  }

  lemma Cubes5()
    ensures IsCubeRootOf(73, 0x2de92c6f) && IsCubeRootOf(79, 0x4a7484aa)
    ensures IsCubeRootOf(83, 0x5cb0a9dc) && IsCubeRootOf(89, 0x76f988da)
  {
    CubeRoot(73, 4, 0x2de92c6f);
    CubeRoot(79, 4, 0x4a7484aa);
    CubeRoot(83, 4, 0x5cb0a9dc);
    CubeRoot(89, 4, 0x76f988da);
  }

  lemma Cubes6()
    ensures IsCubeRootOf(97, 0x983e5152) && IsCubeRootOf(101, 0xa831c66d)
    ensures IsCubeRootOf(103, 0xb00327c8) && IsCubeRootOf(107, 0xbf597fc7)
  {
    CubeRoot(97, 4, 0x983e5152);
    CubeRoot(101, 4, 0xa831c66d);
    CubeRoot(103, 4, 0xb00327c8);
    CubeRoot(107, 4, 0xbf597fc7);
  }

  lemma Cubes7()
    ensures IsCubeRootOf(109, 0xc6e00bf3) && IsCubeRootOf(113, 0xd5a79147)
    ensures IsCubeRootOf(127, 0x06ca6351) && IsCubeRootOf(131, 0x14292967)
  {
    CubeRoot(109, 4, 0xc6e00bf3);
    CubeRoot(113, 4, 0xd5a79147);
    CubeRoot(127, 5, 0x06ca6351);
    CubeRoot(131, 5, 0x14292967);
  }

  lemma Cubes8()
    ensures IsCubeRootOf(137, 0x27b70a85) && IsCubeRootOf(139, 0x2e1b2138)
    ensures IsCubeRootOf(149, 0x4d2c6dfc) && IsCubeRootOf(151, 0x53380d13)
  {
    CubeRoot(137, 5, 0x27b70a85);
    CubeRoot(139, 5, 0x2e1b2138);
    CubeRoot(149, 5, 0x4d2c6dfc);
    CubeRoot(151, 5, 0x53380d13);
  }

  lemma Cubes9()
    ensures IsCubeRootOf(157, 0x650a7354) && IsCubeRootOf(163, 0x766a0abb)
    ensures IsCubeRootOf(167, 0x81c2c92e) && IsCubeRootOf(173, 0x92722c85)
  {
    CubeRoot(157, 5, 0x650a7354);
    CubeRoot(163, 5, 0x766a0abb);
    CubeRoot(167, 5, 0x81c2c92e);
    CubeRoot(173, 5, 0x92722c85);
  }

  lemma Cubes10()
    ensures IsCubeRootOf(179, 0xa2bfe8a1) && IsCubeRootOf(181, 0xa81a664b)
    ensures IsCubeRootOf(191, 0xc24b8b70) && IsCubeRootOf(193, 0xc76c51a3)
  {
    CubeRoot(179, 5, 0xa2bfe8a1);
    CubeRoot(181, 5, 0xa81a664b);
    CubeRoot(191, 5, 0xc24b8b70);
    CubeRoot(193, 5, 0xc76c51a3);
  }

  lemma Cubes11()
    ensures IsCubeRootOf(197, 0xd192e819) && IsCubeRootOf(199, 0xd6990624)
    ensures IsCubeRootOf(211, 0xf40e3585) && IsCubeRootOf(223, 0x106aa070)
  {
    CubeRoot(197, 5, 0xd192e819);
    CubeRoot(199, 5, 0xd6990624);
    CubeRoot(211, 5, 0xf40e3585);
    CubeRoot(223, 6, 0x106aa070);
  }

  lemma Cubes12()
    ensures IsCubeRootOf(227, 0x19a4c116) && IsCubeRootOf(229, 0x1e376c08)
    ensures IsCubeRootOf(233, 0x2748774c) && IsCubeRootOf(239, 0x34b0bcb5)
  {
    CubeRoot(227, 6, 0x19a4c116);
    CubeRoot(229, 6, 0x1e376c08);
    CubeRoot(233, 6, 0x2748774c);
    CubeRoot(239, 6, 0x34b0bcb5);
  }

  lemma Cubes13()
    ensures IsCubeRootOf(241, 0x391c0cb3) && IsCubeRootOf(251, 0x4ed8aa4a)
    ensures IsCubeRootOf(257, 0x5b9cca4f) && IsCubeRootOf(263, 0x682e6ff3)
  {
    CubeRoot(241, 6, 0x391c0cb3);
    CubeRoot(251, 6, 0x4ed8aa4a);
    CubeRoot(257, 6, 0x5b9cca4f);
    CubeRoot(263, 6, 0x682e6ff3);
  }

  lemma Cubes14()
    ensures IsCubeRootOf(269, 0x748f82ee) && IsCubeRootOf(271, 0x78a5636f)
    ensures IsCubeRootOf(277, 0x84c87814) && IsCubeRootOf(281, 0x8cc70208)
  {
    CubeRoot(269, 6, 0x748f82ee);
    CubeRoot(271, 6, 0x78a5636f);
    CubeRoot(277, 6, 0x84c87814);
    CubeRoot(281, 6, 0x8cc70208);
  }

  lemma Cubes15()
    ensures IsCubeRootOf(283, 0x90befffa) && IsCubeRootOf(293, 0xa4506ceb)
    ensures IsCubeRootOf(307, 0xbef9a3f7) && IsCubeRootOf(311, 0xc67178f2)
  {
    CubeRoot(283, 6, 0x90befffa);
    CubeRoot(293, 6, 0xa4506ceb);
    CubeRoot(307, 6, 0xbef9a3f7);
    CubeRoot(311, 6, 0xc67178f2);
  }

  lemma Squares()
    ensures IsSquareRootOf(2, 0x6a09e667) && IsSquareRootOf(3, 0xbb67ae85)
    ensures IsSquareRootOf(5, 0x3c6ef372) && IsSquareRootOf(7, 0xa54ff53a)
    ensures IsSquareRootOf(11, 0x510e527f) && IsSquareRootOf(13, 0x9b05688c)
    ensures IsSquareRootOf(17, 0x1f83d9ab) && IsSquareRootOf(19, 0x5be0cd19)
  {
    SquareRoot(2, 1, 0x6a09e667);
    SquareRoot(3, 1, 0xbb67ae85);
    SquareRoot(5, 2, 0x3c6ef372);
    SquareRoot(7, 2, 0xa54ff53a);
    SquareRoot(11, 3, 0x510e527f);
    SquareRoot(13, 3, 0x9b05688c);
    SquareRoot(17, 4, 0x1f83d9ab);
    SquareRoot(19, 4, 0x5be0cd19);
  }

  lemma LowRoundConstants(t: nat)
    requires t < 32
    ensures |LowPrimes| == 32 && |LowK| == 32 && IsCubeRootOf(LowPrimes[t], LowK[t])
  {
    hide IsCubeRootOf;
    Cubes0();
    Cubes1();
    Cubes2();
    Cubes3();
    Cubes4();
    Cubes5();
    Cubes6();
    Cubes7();
  }

  lemma HighRoundConstants(t: nat)
    requires t < 32
    ensures |HighPrimes| == 32 && |HighK| == 32 && IsCubeRootOf(HighPrimes[t], HighK[t])
  {
    hide IsCubeRootOf;
    Cubes8();
    Cubes9();
    Cubes10();
    Cubes11();
    Cubes12();
    Cubes13();
    Cubes14();
    Cubes15();
  }

  /** The round constants are the first 32 bits of the fractional parts of the cube roots of the first 64 primes. */
  lemma RoundConstants(t: nat)
    requires t < 64
    ensures |K| == 64 && |Primes| == 64 && IsCubeRootOf(Primes[t], K[t])
  {
    hide IsCubeRootOf;
    LowRoundConstants(if t < 32 then t else 0);
    HighRoundConstants(if t < 32 then 0 else t - 32);
  }

  /** The initial hash value is made of those of the square roots of the first 8 primes. */
  lemma InitialHashConstants(t: nat)
    requires t < 8
    ensures |IV| == 8 && |Primes| == 64 && IsSquareRootOf(Primes[t], IV[t])
  {
    hide IsSquareRootOf;
    Squares();
    assert |LowPrimes| == 32 && |HighPrimes| == 32 && Primes[t] == LowPrimes[t];
  }
}
