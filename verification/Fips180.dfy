/** The block function of FIPS 180-4, as its sections 3.2, 4.1.2, 4.2.2, 5.3.3 and 6.2.2 write it. */
module Fips180 {

  import opened Bits
  import opened Words

  datatype Registers = Registers(a: Word, b: Word, c: Word, d: Word, e: Word, f: Word, g: Word, h: Word)

  /** Section 3.2: circular right shift. */
  function ROTR(x: Word, n: nat): Word
    requires 0 < n < 32
  {
    Or(Shr(x, n), Shl(x, 32 - n))
  }

  /** Section 4.1.2. */
  function Ch(x: Word, y: Word, z: Word): Word {
    Xor(And(x, y), And(Not(x), z))
  }

  function Maj(x: Word, y: Word, z: Word): Word {
    Xor(Xor(And(x, y), And(x, z)), And(y, z))
  }

  /** Ch takes each bit of y or of z, as x chooses. */
  lemma ChChooses(x: Word, y: Word, z: Word, i: nat)
    requires i < 32
    ensures Ch(x, y, z)[i] == if x[i] then y[i] else z[i]
  {
  }

  /** Maj takes each bit that at least two of the words have. */
  lemma MajIsMajority(x: Word, y: Word, z: Word, i: nat)
    requires i < 32
    ensures Maj(x, y, z)[i] <==> (x[i] && y[i]) || (x[i] && z[i]) || (y[i] && z[i])
  {
  }

  /** Bit i of a rotation, counted from the most significant one, comes from n places before it, round the end. */
  lemma RotrTurns(x: Word, n: nat, i: nat)
    requires 0 < n < 32 && i < 32
    ensures ROTR(x, n)[i] == x[(i + 32 - n) % 32]
  {
  }

  function BigSigma0(x: Word): Word {
    Xor(Xor(ROTR(x, 2), ROTR(x, 13)), ROTR(x, 22))
  }

  function BigSigma1(x: Word): Word {
    Xor(Xor(ROTR(x, 6), ROTR(x, 11)), ROTR(x, 25))
  }

  function SmallSigma0(x: Word): Word {
    Xor(Xor(ROTR(x, 7), ROTR(x, 18)), Shr(x, 3))
  }

  function SmallSigma1(x: Word): Word {
    Xor(Xor(ROTR(x, 17), ROTR(x, 19)), Shr(x, 10))
  }

  /** Section 4.2.2. */
  const K: seq<nat> := LowK + HighK

  const LowK: seq<nat> := [
    0x428a2f98, 0x71374491, 0xb5c0fbcf, 0xe9b5dba5, 0x3956c25b, 0x59f111f1, 0x923f82a4, 0xab1c5ed5,
    0xd807aa98, 0x12835b01, 0x243185be, 0x550c7dc3, 0x72be5d74, 0x80deb1fe, 0x9bdc06a7, 0xc19bf174,
    0xe49b69c1, 0xefbe4786, 0x0fc19dc6, 0x240ca1cc, 0x2de92c6f, 0x4a7484aa, 0x5cb0a9dc, 0x76f988da,
    0x983e5152, 0xa831c66d, 0xb00327c8, 0xbf597fc7, 0xc6e00bf3, 0xd5a79147, 0x06ca6351, 0x14292967]

  const HighK: seq<nat> := [
    0x27b70a85, 0x2e1b2138, 0x4d2c6dfc, 0x53380d13, 0x650a7354, 0x766a0abb, 0x81c2c92e, 0x92722c85,
    0xa2bfe8a1, 0xa81a664b, 0xc24b8b70, 0xc76c51a3, 0xd192e819, 0xd6990624, 0xf40e3585, 0x106aa070,
    0x19a4c116, 0x1e376c08, 0x2748774c, 0x34b0bcb5, 0x391c0cb3, 0x4ed8aa4a, 0x5b9cca4f, 0x682e6ff3,
    0x748f82ee, 0x78a5636f, 0x84c87814, 0x8cc70208, 0x90befffa, 0xa4506ceb, 0xbef9a3f7, 0xc67178f2]

  lemma KLength()
    ensures |K| == 64 && |LowK| == 32 && |HighK| == 32
  {
  }

  /** Section 5.3.3. */
  const IV: seq<nat> := [
    0x6a09e667, 0xbb67ae85, 0x3c6ef372, 0xa54ff53a, 0x510e527f, 0x9b05688c, 0x1f83d9ab, 0x5be0cd19]

  function H0(): Registers {
    Registers(Of(IV[0]), Of(IV[1]), Of(IV[2]), Of(IV[3]), Of(IV[4]), Of(IV[5]), Of(IV[6]), Of(IV[7]))
  }

  /** Section 3.1: the first byte of a word is its most significant one. */
  function BigEndian(b0: Byte, b1: Byte, b2: Byte, b3: Byte): Word {
    b0 + b1 + b2 + b3
  }

  lemma BigEndianValue(b0: Byte, b1: Byte, b2: Byte, b3: Byte)
    ensures FromBits(BigEndian(b0, b1, b2, b3))
         == FromBits(b0) * 0x100_0000 + FromBits(b1) * 0x1_0000 + FromBits(b2) * 0x100 + FromBits(b3)
  {
    hide FromBits;
    FromBitsConcat(b0 + b1 + b2, b3);
    FromBitsConcat(b0 + b1, b2);
    FromBitsConcat(b0, b1);
    assert Pow2(8) == 0x100;
  }

  lemma AddWraps(x: Word, y: Word)
    ensures FromBits(Add(x, y)) == (FromBits(x) + FromBits(y)) % 0x1_0000_0000
  {
    FromToBitsWraps(FromBits(x) + FromBits(y), 32);
    assert Pow2(8) == 0x100 && Pow2(16) == 0x1_0000 && Pow2(24) == 0x100_0000;
    assert Pow2(32) == 0x1_0000_0000;
  }

  type Block = b: seq<Byte> | |b| == 64 witness seq(64, _ => Zeros(8))

  /** Section 6.2.2, step 1: the message schedule. */
  function W(block: Block, t: nat): Word {
    if t < 16 then BigEndian(block[4 * t], block[4 * t + 1], block[4 * t + 2], block[4 * t + 3])
    else NextW(W(block, t - 2), W(block, t - 7), W(block, t - 15), W(block, t - 16))
  }

  function NextW(w2: Word, w7: Word, w15: Word, w16: Word): Word {
    Add(Add(Add(SmallSigma1(w2), w7), SmallSigma0(w15)), w16)
  }

  /** Section 6.2.2, step 3: one round. */
  function Round(r: Registers, k: Word, w: Word): Registers {
    Registers(Add(T1(r, k, w), T2(r)), r.a, r.b, r.c, Add(r.d, T1(r, k, w)), r.e, r.f, r.g)
  }

  function T1(r: Registers, k: Word, w: Word): Word {
    Add(Add(Add(Add(r.h, BigSigma1(r.e)), Ch(r.e, r.f, r.g)), k), w)
  }

  function T2(r: Registers): Word {
    Add(BigSigma0(r.a), Maj(r.a, r.b, r.c))
  }

  function Rounds(h: Registers, block: Block, t: nat): Registers
    requires t <= 64
  {
    if t == 0 then h else KLength(); Round(Rounds(h, block, t - 1), Of(K[t - 1]), W(block, t - 1))
  }

  /** Section 6.2.2, step 4: the intermediate hash value after a block. */
  function Compress(h: Registers, block: Block): Registers {
    Sum(h, Rounds(h, block, 64))
  }

  function Sum(h: Registers, r: Registers): Registers {
    Registers(Add(h.a, r.a), Add(h.b, r.b), Add(h.c, r.c), Add(h.d, r.d),
              Add(h.e, r.e), Add(h.f, r.f), Add(h.g, r.g), Add(h.h, r.h))
  }
}
