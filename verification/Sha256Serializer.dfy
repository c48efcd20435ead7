/** Streams cut into 64-byte blocks, and a function folded over them. */
module Blocks {

  /** f folded over the first n blocks of a stream, the oldest first. */
  ghost function Fold<H, B>(f: (H, seq<B>) -> H, h: H, bytes: seq<B>, n: nat): H
    requires 64 * n <= |bytes|
  {
    if n == 0 then h else f(Fold(f, h, bytes, n - 1), bytes[64 * (n - 1)..64 * n])
  }

  lemma FoldNone<H, B>(f: (H, seq<B>) -> H, h: H, bytes: seq<B>)
    ensures Fold(f, h, bytes, 0) == h
  {
  }

  /** What comes after the blocks does not matter to them. */
  lemma {:induction false} FoldOfPrefix<H, B>(f: (H, seq<B>) -> H, h: H, bytes: seq<B>, more: seq<B>, n: nat)
    requires 64 * n <= |bytes|
    ensures Fold(f, h, bytes + more, n) == Fold(f, h, bytes, n)
  {
    if n > 0 {
      FoldOfPrefix(f, h, bytes, more, n - 1);
      assert (bytes + more)[64 * (n - 1)..64 * n] == bytes[64 * (n - 1)..64 * n];
    }
  }

  /** The number of blocks that are whole. */
  function WholeBlocks<B>(bytes: seq<B>): nat {
    |bytes| / 64
  }

  lemma WholeBlocksOf<B>(bytes: seq<B>, n: nat, rest: nat)
    requires |bytes| == 64 * n + rest && rest < 64
    ensures WholeBlocks(bytes) == n && |bytes| % 64 == rest
  {
  }

  /** The stream with zeros up to the end of its last block. */
  function ZeroPad<B>(bytes: seq<B>, zero: B): seq<B> {
    if |bytes| % 64 == 0 then bytes else bytes + seq(64 - |bytes| % 64, _ => zero)
  }

  /** Padding twice is padding once, so a second digest is the first one. */
  lemma ZeroPadIdempotent<B>(bytes: seq<B>, zero: B)
    ensures ZeroPad(ZeroPad(bytes, zero), zero) == ZeroPad(bytes, zero)
  {
  }

  lemma PadFills<B>(bytes: seq<B>, zero: B)
    ensures |ZeroPad(bytes, zero)| == 64 * ((|bytes| + 63) / 64) && |bytes| <= |ZeroPad(bytes, zero)|
    ensures ZeroPad(bytes, zero) == bytes + seq(|ZeroPad(bytes, zero)| - |bytes|, _ => zero)
  {
    if |bytes| % 64 == 0 {
      assert bytes + seq(0, _ => zero) == bytes;
    }
  }

  lemma MoreZeros<B>(bytes: seq<B>, m: nat, n: nat, zero: B)
    ensures bytes + seq(m, _ => zero) + seq(n, _ => zero) == bytes + seq(m + n, _ => zero)
  {
  }

  /** Exactly which streams the padding confuses: those that differ by zeros at the end, within one block. */
  lemma TrailingZerosUnseen<B>(a: seq<B>, b: seq<B>, zero: B)
    requires |a| <= |b|
    ensures ZeroPad(a, zero) == ZeroPad(b, zero)
            <==> b == a + seq(|b| - |a|, _ => zero) && (|a| + 63) / 64 == (|b| + 63) / 64
  {
    PadFills(a, zero);
    PadFills(b, zero);
    hide ZeroPad;
    var length := |ZeroPad(a, zero)|;
    if ZeroPad(a, zero) == ZeroPad(b, zero) {
      MoreZeros(a, |b| - |a|, length - |b|, zero);
      assert b == ZeroPad(b, zero)[..|b|];
      assert a + seq(|b| - |a|, _ => zero) == ZeroPad(a, zero)[..|b|];
    }
    if b == a + seq(|b| - |a|, _ => zero) && (|a| + 63) / 64 == (|b| + 63) / 64 {
      MoreZeros(a, |b| - |a|, length - |b|, zero);
    }
  }
}

/** The serializer under the entity model checksum: a 64-byte buffer in front of an in-place SHA-256
    compression. It does not pad as section 5.1.1 of FIPS 180-4 does; the last block is filled with zeros. */
module Sha256Serializer {
  import opened Bits
  import opened Words
  import opened Fips180
  import opened Blocks

  // ---------------------------------------------------------------- What the serializer computes

  ghost function Step(h: Registers, block: seq<Byte>): Registers {
    if |block| == 64 then Compress(h, block) else h
  }

  /** The hash value after the whole blocks of a stream. */
  ghost function Hash(bytes: seq<Byte>): Registers {
    Fold(Step, H0(), bytes, WholeBlocks(bytes))
  }

  const Zero: Byte := Zeros(8)

  // ---------------------------------------------------------------- The digest as text

  function HexDigit(nibble: seq<bool>): char
    requires |nibble| == 4
  {
    FromBitsBound(nibble);
    assert Pow2(4) == 16;
    var n := FromBits(nibble);
    if n < 10 then '0' + (n as char) else 'A' + ((n - 10) as char)
  }

  lemma HexDigitInjective(a: seq<bool>, b: seq<bool>)
    requires |a| == |b| == 4 && HexDigit(a) == HexDigit(b)
    ensures a == b
  {
    FromBitsBound(a);
    FromBitsBound(b);
    assert Pow2(4) == 16;
    FromBitsInjective(a, b);
  }

  function HexByte(b: seq<bool>): (s: string)
    requires |b| == 8
    ensures |s| == 2
  {
    [HexDigit(b[..4]), HexDigit(b[4..])]
  }

  function HexWord(w: Word): (s: string)
    ensures |s| == 8
  {
    HexByte(w[..8]) + HexByte(w[8..16]) + HexByte(w[16..24]) + HexByte(w[24..])
  }

  function HexWords(ws: seq<Word>): (s: string)
    ensures |s| == 8 * |ws|
  {
    if ws == [] then "" else HexWords(ws[..|ws| - 1]) + HexWord(ws[|ws| - 1])
  }

  function HexDigest(r: Registers): string {
    HexWords([r.a, r.b, r.c, r.d, r.e, r.f, r.g, r.h])
  }

  lemma HexByteInjective(a: seq<bool>, b: seq<bool>)
    requires |a| == |b| == 8 && HexByte(a) == HexByte(b)
    ensures a == b
  {
    hide HexDigit;
    assert HexByte(a)[0] == HexByte(b)[0] && HexByte(a)[1] == HexByte(b)[1];
    HexDigitInjective(a[..4], b[..4]);
    HexDigitInjective(a[4..], b[4..]);
    assert a == a[..4] + a[4..] && b == b[..4] + b[4..];
  }

  lemma HexWordInjective(v: Word, w: Word)
    requires HexWord(v) == HexWord(w)
    ensures v == w
  {
    hide HexByte;
    assert HexWord(v)[..2] == HexByte(v[..8]) && HexWord(w)[..2] == HexByte(w[..8]);
    assert HexWord(v)[2..4] == HexByte(v[8..16]) && HexWord(w)[2..4] == HexByte(w[8..16]);
    assert HexWord(v)[4..6] == HexByte(v[16..24]) && HexWord(w)[4..6] == HexByte(w[16..24]);
    assert HexWord(v)[6..] == HexByte(v[24..]) && HexWord(w)[6..] == HexByte(w[24..]);
    HexByteInjective(v[..8], w[..8]);
    HexByteInjective(v[8..16], w[8..16]);
    HexByteInjective(v[16..24], w[16..24]);
    HexByteInjective(v[24..], w[24..]);
    assert v == v[..8] + v[8..16] + v[16..24] + v[24..] && w == w[..8] + w[8..16] + w[16..24] + w[24..];
  }

  lemma {:induction false} HexWordsInjective(a: seq<Word>, b: seq<Word>)
    requires |a| == |b| && HexWords(a) == HexWords(b)
    ensures a == b
  {
    if a != [] {
      var n := |a| - 1;
      HexWordsLast(a);
      HexWordsLast(b);
      hide *;
      SplitEqual(HexWords(a[..n]), HexWord(a[n]), HexWords(b[..n]), HexWord(b[n]));
      HexWordsInjective(a[..n], b[..n]);
      HexWordInjective(a[n], b[n]);
      assert a == a[..n] + [a[n]] && b == b[..n] + [b[n]];
    }
  }

  lemma HexWordsLast(ws: seq<Word>)
    requires ws != []
    ensures HexWords(ws) == HexWords(ws[..|ws| - 1]) + HexWord(ws[|ws| - 1])
    ensures |HexWords(ws[..|ws| - 1])| == 8 * (|ws| - 1)
  {
    hide HexWord;
  }

  lemma SplitEqual(a: string, b: string, c: string, d: string)
    requires |a| == |c| && a + b == c + d
    ensures a == c && b == d
  {
    assert a == (a + b)[..|a|] && b == (a + b)[|a|..];
    assert c == (c + d)[..|c|] && d == (c + d)[|c|..];
  }

  lemma HexWordsStep(ws: seq<Word>, i: nat)
    requires i < |ws|
    ensures HexWords(ws[..0]) == "" && HexWords(ws[..i + 1]) == HexWords(ws[..i]) + HexWord(ws[i])
  {
    assert ws[..i + 1][..i] == ws[..i];
  }

  lemma HexDigestOf(h: seq<Word>)
    requires |h| == 8
    ensures HexWords(h[..8]) == HexDigest(AsRegisters(h))
  {
    assert h[..8] == [h[0], h[1], h[2], h[3], h[4], h[5], h[6], h[7]];
  }

  /** The text loses nothing of the hash. */
  lemma HexDigestInjective(r: Registers, q: Registers)
    requires HexDigest(r) == HexDigest(q)
    ensures r == q
  {
    hide HexWords;
    var a, b := [r.a, r.b, r.c, r.d, r.e, r.f, r.g, r.h], [q.a, q.b, q.c, q.d, q.e, q.f, q.g, q.h];
    HexWordsInjective(a, b);
    assert forall i :: 0 <= i < 8 ==> a[i] == b[i];
  }

  function RightRotate(value: Word, bits: nat): Word
    requires 0 < bits < 32
  {
    Add(Shr(value, bits), Shl(value, 32 - bits))
  }

  /** A rotation written with a sum is the rotation of section 3.2: the two halves share no bit. */
  lemma RotateIsRotr(v: Word, n: nat)
    requires 0 < n < 32
    ensures RightRotate(v, n) == ROTR(v, n)
  {
    hide Shr, Shl, ToBits, FromBits, Or;
    var high, low := v[..32 - n], v[32 - n..];
    HalvesOfRotation(v, n);
    FromBitsConcat(low, high);
    ToFromBits(low + high);
  }

  lemma HalvesOfRotation(v: Word, n: nat)
    requires 0 < n < 32
    ensures FromBits(Shr(v, n)) == FromBits(v[..32 - n])
    ensures FromBits(Shl(v, 32 - n)) == FromBits(v[32 - n..]) * Pow2(32 - n)
    ensures Or(Shr(v, n), Shl(v, 32 - n)) == v[32 - n..] + v[..32 - n]
  {
    hide FromBits, Pow2;
    FromBitsConcat(Zeros(n), v[..32 - n]);
    FromBitsOfZeros(n);
    FromBitsConcat(v[32 - n..], Zeros(32 - n));
    FromBitsOfZeros(32 - n);
    assert 0 * Pow2(32 - n) == 0;
  }

  function F1(v: Word): Word {
    Xor(Xor(RightRotate(v, 2), RightRotate(v, 13)), RightRotate(v, 22))
  }

  function F2(v: Word): Word {
    Xor(Xor(RightRotate(v, 6), RightRotate(v, 11)), RightRotate(v, 25))
  }

  function F3(v: Word): Word {
    Xor(Xor(RightRotate(v, 7), RightRotate(v, 18)), Shr(v, 3))
  }

  function F4(v: Word): Word {
    Xor(Xor(RightRotate(v, 17), RightRotate(v, 19)), Shr(v, 10))
  }

  lemma SigmasAgree(v: Word)
    ensures F1(v) == BigSigma0(v) && F2(v) == BigSigma1(v) && F3(v) == SmallSigma0(v) && F4(v) == SmallSigma1(v)
  {
    hide RightRotate, ROTR, Xor, Shr;
    forall n: nat | 0 < n < 32
      ensures RightRotate(v, n) == ROTR(v, n)
    {
      RotateIsRotr(v, n);
    }
  }

  lemma ScheduleStep(block: Block, t: nat)
    ensures t < 16 ==> W(block, t) == BigEndian(block[4 * t], block[4 * t + 1], block[4 * t + 2], block[4 * t + 3])
    ensures t >= 16 ==>
              W(block, t) == Add(Add(Add(F4(W(block, t - 2)), W(block, t - 7)), F3(W(block, t - 15))), W(block, t - 16))
  {
    if t >= 16 {
      hide F3, F4, SmallSigma0, SmallSigma1, Add;
      SigmasAgree(W(block, t - 2));
      SigmasAgree(W(block, t - 15));
    }
  }

  /** One turn of the loop over shifted registers is one round. */
  lemma RoundStep(h: Registers, block: Block, i: nat)
    requires i < 64
    ensures |K| == 64
    ensures var r := Rounds(h, block, i);
            var temp1 := Add(Add(Add(Add(r.h, F2(r.e)), Ch(r.e, r.f, r.g)), Of(K[i])), W(block, i));
            var temp2 := Add(F1(r.a), Maj(r.a, r.b, r.c));
            Rounds(h, block, i + 1) == Registers(Add(temp1, temp2), r.a, r.b, r.c, Add(r.d, temp1), r.e, r.f, r.g)
  {
    hide F1, F2, BigSigma0, BigSigma1, Ch, Maj, Add, Of, W, Fips180.K;
    KLength();
    SigmasAgree(Rounds(h, block, i).a);
    SigmasAgree(Rounds(h, block, i).e);
  }

  lemma RoundsStart(h: Registers, block: Block)
    ensures Rounds(h, block, 0) == h
  {
  }

  function AsRegisters(v: seq<Word>): Registers
    requires |v| == 8
  {
    Registers(v[0], v[1], v[2], v[3], v[4], v[5], v[6], v[7])
  }

  lemma InitialHash(v: seq<Word>)
    requires |v| == 8 && forall i :: 0 <= i < 8 ==> v[i] == Of(IV[i])
    ensures AsRegisters(v) == H0()
  {
    hide Of;
  }

  // ---------------------------------------------------------------- The serializer

  class Sha256Serializer {
    const hash: array<Word>
    const block: array<Byte>
    var blockPos: nat
    /** Every byte appended so far, with the zeros of every finalization, and how many of them are hashed. */
    ghost var absorbed: seq<Byte>
    ghost var processed: nat

    /** The hash is that of the blocks processed, and the block holds the rest; it may be full. */
    ghost predicate Buffered()
      reads this, hash, block
    {
      && hash.Length == 8 && block.Length == 64 && (hash as object) != block
      && 64 * processed + blockPos == |absorbed| && blockPos <= 64
      && AsRegisters(hash[..]) == Fold(Step, H0(), absorbed, processed)
      && block[..blockPos] == absorbed[64 * processed..]
    }

    ghost predicate Valid()
      reads this, hash, block
    {
      Buffered() && blockPos < 64
    }

    /** What Valid says of the stream alone. */
    lemma ValidMeans()
      requires Valid()
      ensures hash.Length == 8 && blockPos == |absorbed| % 64
      ensures AsRegisters(hash[..]) == Hash(absorbed)
      ensures block[..blockPos] == absorbed[64 * WholeBlocks(absorbed)..]
    {
      hide H0, Step, AsRegisters, WholeBlocks;
      WholeBlocksOf(absorbed, processed, blockPos);
    }

    constructor ()
      ensures Valid() && fresh(hash) && fresh(block)
      ensures absorbed == []
    {
      hide Of, H0, AsRegisters, Step, Fold;
      hash := new Word[8](i requires 0 <= i < 8 => Of(IV[i]));
      block := new Byte[64](_ => Zeros(8));
      blockPos := 0;
      absorbed := [];
      processed := 0;
      new;
      InitialHash(hash[..]);
      FoldNone(Step, H0(), absorbed);
    }

    /** Copies bytes to the free end of the block. */
    method Copy(part: seq<Byte>)
      requires Buffered() && blockPos + |part| <= 64
      modifies this`blockPos, this`absorbed, block
      ensures Buffered() && absorbed == old(absorbed) + part
      ensures blockPos == old(blockPos) + |part|
    {
      hide H0, Step, AsRegisters;
      ghost var tail := block[..blockPos];
      forall i | 0 <= i < |part| {
        block[blockPos + i] := part[i];
      }
      FoldOfPrefix(Step, H0(), absorbed, part, processed);
      assert (absorbed + part)[64 * processed..] == absorbed[64 * processed..] + part;
      blockPos := blockPos + |part|;
      absorbed := absorbed + part;
      assert block[..blockPos] == tail + part;
      assert block[..blockPos] == absorbed[64 * processed..];
      assert hash[..] == old(hash[..]);
    }

    /** Processes the full block and starts a new one. */
    method EndBlock()
      requires Buffered() && blockPos == 64
      modifies this`blockPos, this`processed, hash
      ensures Valid() && blockPos == 0
    {
      hide H0, Step, AsRegisters;
      assert block[..] == absorbed[64 * processed..64 * (processed + 1)];
      ProcessBlock();
      processed := processed + 1;
      blockPos := 0;
    }

    /** Appends bytes; where a stream is cut into calls leaves no trace. */
    method AppendBuffer(buffer: seq<Byte>)
      requires Valid()
      modifies this`blockPos, this`absorbed, this`processed, hash, block
      ensures Valid() && absorbed == old(absorbed) + buffer
    {
      hide Buffered;
      var remaining, ptr := |buffer|, 0;
      while remaining > 0
        invariant Valid() && 0 <= ptr && 0 <= remaining && ptr + remaining == |buffer|
        invariant absorbed == old(absorbed) + buffer[..ptr]
      {
        var remainingBlock := 64 - blockPos;
        var copyLen := if remaining < remainingBlock then remaining else remainingBlock;
        Copy(buffer[ptr..ptr + copyLen]);
        assert buffer[..ptr + copyLen] == buffer[..ptr] + buffer[ptr..ptr + copyLen];
        if blockPos < 64 {
          assert buffer[..ptr + copyLen] == buffer;
          return;
        }
        EndBlock();
        remaining := remaining - copyLen;
        ptr := ptr + copyLen;
      }
      assert buffer[..ptr] == buffer;
    }

    /** Fills an incomplete block with zeros and processes it. */
    method Finalize()
      requires Valid()
      modifies this`blockPos, this`absorbed, this`processed, hash, block
      ensures Valid() && blockPos == 0 && absorbed == ZeroPad(old(absorbed), Zero)
    {
      hide Buffered, Hash, WholeBlocks, AsRegisters;
      ValidMeans();
      if blockPos != 0 {
        Copy(seq(64 - blockPos, _ => Zero));
        EndBlock();
      }
    }

    /** The text of the hash of the zero-padded stream. */
    method GetHash() returns (digest: string)
      requires Valid()
      modifies this`blockPos, this`absorbed, this`processed, hash, block
      ensures Valid() && absorbed == ZeroPad(old(absorbed), Zero)
      ensures digest == HexDigest(Hash(ZeroPad(old(absorbed), Zero)))
    {
      hide HexWord, HexWords, AsRegisters, WholeBlocks, Hash, Buffered;
      Finalize();
      ValidMeans();
      digest := "";
      ghost var words := hash[..];
      HexWordsStep(words, 0);
      for i := 0 to 8
        modifies {}
        invariant hash[..] == words && digest == HexWords(words[..i])
      {
        HexWordsStep(words, i);
        digest := digest + HexWord(hash[i]);
      }
      HexDigestOf(words);
    }

    /** The schedule of step 1, built in place. */
    method Schedule() returns (scheduled: array<Word>)
      requires block.Length == 64
      ensures fresh(scheduled) && scheduled.Length == 64
      ensures forall t :: 0 <= t < 64 ==> scheduled[t] == W(block[..], t)
    {
      hide F3, F4, NextW, Add, W;
      scheduled := new Word[64](_ => Zeros(32));
      for i := 0 to 16
        invariant forall t :: 0 <= t < i ==> scheduled[t] == W(block[..], t)
      {
        ScheduleStep(block[..], i);
        scheduled[i] := BigEndian(block[4 * i], block[4 * i + 1], block[4 * i + 2], block[4 * i + 3]);
      }
      for i := 16 to 64
        invariant forall t :: 0 <= t < i ==> scheduled[t] == W(block[..], t)
      {
        ScheduleStep(block[..], i);
        scheduled[i] := Add(Add(Add(F4(scheduled[i - 2]), scheduled[i - 7]), F3(scheduled[i - 15])), scheduled[i - 16]);
      }
    }

    method CopyHash() returns (copy: array<Word>)
      requires hash.Length == 8
      ensures fresh(copy) && copy.Length == 8 && copy[..] == hash[..]
    {
      copy := new Word[8](_ => Zeros(32));
      for i := 0 to 8
        invariant forall j :: 0 <= j < i ==> copy[j] == hash[j]
      {
        copy[i] := hash[i];
      }
    }

    /** The 64 rounds of step 3, on shifted registers. */
    method Shuffle(scheduled: array<Word>) returns (compressed: array<Word>)
      requires hash.Length == 8 && block.Length == 64
      requires scheduled.Length == 64 && forall t :: 0 <= t < 64 ==> scheduled[t] == W(block[..], t)
      ensures fresh(compressed) && compressed.Length == 8
      ensures AsRegisters(compressed[..]) == Rounds(AsRegisters(hash[..]), block[..], 64)
    {
      hide F1, F2, Ch, Maj, Add, Of, W, Round, Rounds, Fips180.K;
      KLength();
      compressed := CopyHash();
      RoundsStart(AsRegisters(hash[..]), block[..]);
      for i := 0 to 64
        invariant AsRegisters(compressed[..]) == Rounds(AsRegisters(hash[..]), block[..], i)
      {
        RoundStep(AsRegisters(hash[..]), block[..], i);
        var temp1 := Add(Add(Add(Add(compressed[7], F2(compressed[4])),
                                 Ch(compressed[4], compressed[5], compressed[6])),
                             Of(K[i])), scheduled[i]);
        var temp2 := Add(F1(compressed[0]), Maj(compressed[0], compressed[1], compressed[2]));
        compressed[7] := compressed[6];
        compressed[6] := compressed[5];
        compressed[5] := compressed[4];
        compressed[4] := Add(compressed[3], temp1);
        compressed[3] := compressed[2];
        compressed[2] := compressed[1];
        compressed[1] := compressed[0];
        compressed[0] := Add(temp1, temp2);
      }
    }

    /** Replaces the hash by the block function of section 6.2.2 applied to it and the full block. */
    method ProcessBlock()
      requires hash.Length == 8 && block.Length == 64 && (hash as object) != block
      modifies hash
      ensures AsRegisters(hash[..]) == Step(old(AsRegisters(hash[..])), old(block[..]))
    {
      hide Rounds, Add;
      ghost var before, data := hash[..], block[..];
      var scheduled := Schedule();
      var compressed := Shuffle(scheduled);
      ghost var shuffled := compressed[..];
      assert AsRegisters(shuffled) == Rounds(AsRegisters(before), data, 64);
      for i := 0 to 8
        invariant compressed[..] == shuffled
        invariant forall j :: 0 <= j < i ==> hash[j] == Add(old(hash[j]), compressed[j])
        invariant forall j :: i <= j < 8 ==> hash[j] == old(hash[j])
      {
        hash[i] := Add(hash[i], compressed[i]);
      }
      assert forall j :: 0 <= j < 8 ==> hash[..][j] == Add(before[j], shuffled[j]);
    }
  }
}
