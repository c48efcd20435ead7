/** Stream formats: the packed 64-bit word of section 7.3.2 of IEEE Std 1722.1-2013, its builders, its parser
    and the matching of talker and listener formats. */
module StreamFormats {
  import opened Bits

  // ---------------------------------------------------------------- Fields

  /** Bit 0 is the most significant one. */
  type StreamFormat = bits: seq<bool> | |bits| == 64 witness Zeros(64)

  const Null: StreamFormat := Zeros(64)

  function GetField(first: nat, last: nat, format: StreamFormat): nat
    requires first <= last < 64
  {
    FromBits(format[first..last + 1])
  }

  lemma FieldBound(first: nat, last: nat, format: StreamFormat)
    requires first <= last < 64
    ensures GetField(first, last, format) < Pow2(last - first + 1)
  {
    FromBitsBound(format[first..last + 1]);
  }

  /** Clears the field and sets the bits of v where the shift puts them. v is not masked: its bits beyond
      the field fall on the fields before it, and those beyond the word are lost. A value that fits is read
      back, and every field beside it reads as before. */
  function ReplaceField(first: nat, last: nat, format: StreamFormat, v: nat): (r: StreamFormat)
    requires first <= last < 64
    ensures Fits(first, last, v) ==> GetField(first, last, r) == v
    ensures Fits(first, last, v) ==>
              forall f: nat, l: nat ::
                f <= l < 64 && (l < first || last < f) ==> GetField(f, l, r) == GetField(f, l, format)
  {
    ReplaceThenGet(first, last, format, v);
    Overlaid(first, last, format, v)
  }

  function Overlaid(first: nat, last: nat, format: StreamFormat, v: nat): StreamFormat
    requires first <= last < 64
  {
    var shifted := ToBits(v, last + 1) + Zeros(63 - last);
    seq(64, i requires 0 <= i < 64 => (!(first <= i <= last) && format[i]) || shifted[i])
  }

  predicate Fits(first: nat, last: nat, v: nat)
    requires first <= last
  {
    v < Pow2(last - first + 1)
  }

  lemma OverlayFitting(first: nat, last: nat, format: StreamFormat, v: nat)
    requires first <= last < 64 && Fits(first, last, v)
    ensures Overlaid(first, last, format, v) == format[..first] + ToBits(v, last - first + 1) + format[last + 1..]
  {
    ToBitsOfSmall(v, last - first + 1, last + 1);
  }

  lemma ReplaceThenGet(first: nat, last: nat, format: StreamFormat, v: nat)
    requires first <= last < 64
    ensures Fits(first, last, v) ==> GetField(first, last, Overlaid(first, last, format, v)) == v
    ensures Fits(first, last, v) ==>
              forall f: nat, l: nat ::
                f <= l < 64 && (l < first || last < f)
                ==> GetField(f, l, Overlaid(first, last, format, v)) == GetField(f, l, format)
  {
    if Fits(first, last, v) {
      OverlayFitting(first, last, format, v);
      FromToBits(v, last - first + 1);
      var w := Overlaid(first, last, format, v);
      assert w[first..last + 1] == ToBits(v, last - first + 1);
      forall f: nat, l: nat | f <= l < 64 && (l < first || last < f)
        ensures GetField(f, l, w) == GetField(f, l, format)
      {
        SliceBeside(format, ToBits(v, last - first + 1), first, last, f, l);
      }
    }
  }

  /** A field of a format is what a shift and a mask of the 64-bit word leave. */
  lemma FieldIsShifted(first: nat, last: nat, word: nat)
    requires first <= last < 64
    ensures GetField(first, last, ToBits(word, 64)) == word / Pow2(63 - last) % Pow2(last - first + 1)
  {
    hide *;
    ToBitsPrefix(word, 64, 63 - last);
    FieldOfUpper(first, last, ToBits(word, 64), word / Pow2(63 - last));
  }

  lemma FieldOfUpper(first: nat, last: nat, format: StreamFormat, upper: nat)
    requires first <= last < 64 && format[..last + 1] == ToBits(upper, last + 1)
    ensures GetField(first, last, format) == upper % Pow2(last - first + 1)
  {
    FieldOfBits(first, last, format);
    hide *;
    ToBitsSuffix(upper, last + 1, last - first + 1);
    FromToBitsWraps(upper, last - first + 1);
  }

  lemma FieldOfBits(first: nat, last: nat, format: StreamFormat)
    requires first <= last < 64
    ensures GetField(first, last, format) == FromBits(format[..last + 1][first..])
  {
    assert format[first..last + 1] == format[..last + 1][first..];
  }

  /** The value of a word up to a field is that of the word before the field, shifted, and the field. */
  lemma FieldAdds(first: nat, last: nat, format: StreamFormat, shift: nat, v: nat)
    requires first <= last < 64 && shift == Pow2(last - first + 1) && GetField(first, last, format) == v
    ensures FromBits(format[..last + 1]) == FromBits(format[..first]) * shift + v
  {
    FromBitsConcat(format[..first], format[first..last + 1]);
    assert format[..last + 1] == format[..first] + format[first..last + 1];
  }

  lemma SliceBeside(format: StreamFormat, bits: seq<bool>, first: nat, last: nat, f: nat, l: nat)
    requires first <= last < 64 && |bits| == last - first + 1 && f <= l < 64 && (l < first || last < f)
    ensures (format[..first] + bits + format[last + 1..])[f..l + 1] == format[f..l + 1]
  {
  }

  // ---------------------------------------------------------------- What a format says

  datatype FormatType = NoFormat | Iec61883_6 | Aaf | ClockReference | Unsupported

  datatype SampleFormat = Int8 | Int16 | Int24 | Int32 | Int64 | FixedPoint32 | FloatingPoint32 | Unknown

  datatype SamplingRate = SamplingRate(pull: nat, base: nat)

  datatype Info = Info(
    format: StreamFormat,
    kind: FormatType,
    channels: nat,
    upTo: bool,
    rate: SamplingRate,
    sample: SampleFormat,
    synchronous: bool,
    bitDepth: nat)

  function Blank(format: StreamFormat, kind: FormatType): Info {
    Info(format, kind, 0, false, SamplingRate(0, 0), Unknown, false, 0)
  }

  /** The sampling rates of an fdf_sfc field and of an nsr field, by their codes. */
  const IecRates: seq<nat> := [32000, 44100, 48000, 88200, 96000, 176400, 192000]
  const AafRates: seq<nat> := [0, 8000, 16000, 32000, 44100, 48000, 88200, 96000, 176400, 192000, 24000]

  /** The parser; what it throws it also catches, as an unsupported format. */
  function Parse(format: StreamFormat): Info {
    if format == Null then Blank(format, NoFormat)
    else if GetField(0, 0, format) == 1 then Blank(format, Unsupported)
    else match GetField(1, 7, format)
      case 0x00 => Parse61883(format)
      case 0x02 => ParseAaf(format)
      case 0x04 => ParseClockReference(format)
      case _ => Blank(format, Unsupported)
  }

  function Parse61883(format: StreamFormat): Info {
    var fdfSfc := GetField(21, 23, format);
    if GetField(8, 8, format) == 0 || GetField(9, 14, format) != 0x10 || GetField(16, 20, format) != 0
      || fdfSfc >= |IecRates| then Blank(format, Unsupported)
    else
      Info(format, Iec61883_6, GetField(24, 31, format), GetField(34, 34, format) != 0,
           SamplingRate(0, IecRates[fdfSfc]), Int24, GetField(35, 35, format) != 0, 24)
  }

  function ParseAaf(format: StreamFormat): Info {
    var nsr, code := GetField(12, 15, format), GetField(16, 23, format);
    if !(2 <= code <= 4) || nsr >= |AafRates| then Blank(format, Unsupported)
    else
      Info(format, Aaf, GetField(32, 41, format), GetField(11, 11, format) != 0, SamplingRate(0, AafRates[nsr]),
           match code case 2 => Int32 case 3 => Int24 case _ => Int16, true, GetField(24, 31, format))
  }

  function ParseClockReference(format: StreamFormat): Info {
    var crfType := GetField(8, 11, format);
    if crfType != 0 && crfType != 1 && crfType != 4 then Blank(format, Unsupported)
    else
      Info(format, ClockReference, 0, false,
           SamplingRate(GetField(32, 34, format), GetField(35, 63, format)), Int64, true, 64)
  }

  // ---------------------------------------------------------------- Builders

  /** The position of a rate in a table of codes, or its length when it is not there. */
  function CodeOf(rates: seq<nat>, base: nat): (code: nat)
    ensures code <= |rates|
    ensures code < |rates| ==> rates[code] == base
    ensures code == |rates| <==> base !in rates
  {
    if rates == [] then 0
    else if rates[0] == base then 0
    else 1 + CodeOf(rates[1..], base)
  }

  lemma FieldWidths()
    ensures Pow2(1) == 2 && Pow2(3) == 8 && Pow2(4) == 16 && Pow2(5) == 32 && Pow2(6) == 64
    ensures Pow2(7) == 128 && Pow2(8) == 256 && Pow2(10) == 1024
  {
    assert Pow2(4) == 16;
    assert Pow2(7) == 128;
    assert Pow2(10) == 1024;
  }

  lemma NullFields()
    ensures FromBits(Null) == 0
    ensures forall f: nat, l: nat :: f <= l < 64 ==> GetField(f, l, Null) == 0
  {
    FromBitsOfZeros(64);
    forall f: nat, l: nat | f <= l < 64 ensures GetField(f, l, Null) == 0 {
      assert Null[f..l + 1] == Zeros(l + 1 - f);
      FromBitsOfZeros(l + 1 - f);
    }
  }

  /** A set bit tells a format from the null one. */
  lemma NotNull(first: nat, last: nat, format: StreamFormat)
    requires first <= last < 64 && GetField(first, last, format) != 0
    ensures format != Null
  {
    ToBitsOfZero(last - first + 1);
    FromToBits(0, last - first + 1);
    assert Null[first..last + 1] == Zeros(last - first + 1);
  }

  lemma Parse61883Reads(format: StreamFormat, fdfSfc: nat)
    requires GetField(0, 0, format) == 0 && GetField(1, 7, format) == 0 && GetField(8, 8, format) == 1
    requires GetField(9, 14, format) == 0x10 && GetField(16, 20, format) == 0
    requires GetField(21, 23, format) == fdfSfc < |IecRates|
    ensures format != Null
    ensures Parse(format) ==
            Info(format, Iec61883_6, GetField(24, 31, format), GetField(34, 34, format) != 0,
                 SamplingRate(0, IecRates[fdfSfc]), Int24, GetField(35, 35, format) != 0, 24)
  {
    NotNull(8, 8, format);
  }

  lemma Parsed61883Channels(format: StreamFormat)
    requires Parse(format).kind == Iec61883_6
    ensures Parse(format).channels <= 255
  {
    FieldBound(24, 31, format);
    FieldWidths();
  }

  /** The 64-bit word of a 61883-6 format. */
  function Word61883(channels: nat, upTo: bool, code: nat, synchronous: bool): nat {
    0x00A0_0000_4000_0000 + code * 0x0000_0100_0000_0000 + channels * 0x0000_0001_0000_0100
    + (if upTo then 0x2000_0000 else 0) + if synchronous then 0x1000_0000 else 0
  }

  lemma Layout61883(format: StreamFormat, channels: nat, upTo: bool, code: nat, synchronous: bool)
    requires GetField(0, 0, format) == 0 && GetField(1, 7, format) == 0 && GetField(8, 8, format) == 1
    requires GetField(9, 14, format) == 0x10 && GetField(15, 15, format) == 0 && GetField(16, 20, format) == 0
    requires GetField(21, 23, format) == code && GetField(24, 31, format) == channels
    requires GetField(32, 32, format) == 0 && GetField(33, 33, format) == 1
    requires GetField(34, 34, format) == if upTo then 1 else 0
    requires GetField(35, 35, format) == if synchronous then 1 else 0
    requires GetField(36, 47, format) == 0 && GetField(48, 55, format) == channels && GetField(56, 63, format) == 0
    ensures FromBits(format) == Word61883(channels, upTo, code, synchronous)
  {
    hide *;
    HighPart61883(format, code, channels);
    Flags61883(format, 0x00A0_0000 + code * 256 + channels, upTo, synchronous);
    var high := (0x00A0_0000 + code * 256 + channels) * 16 + 4 + (if upTo then 2 else 0);
    LowPart(format, high + if synchronous then 1 else 0, channels);
    WordIs61883(channels, upTo, code, synchronous);
  }

  lemma WordIs61883(channels: nat, upTo: bool, code: nat, synchronous: bool)
    ensures Word61883(channels, upTo, code, synchronous) ==
            ((0x00A0_0000 + code * 256 + channels) * 16 + 4 + (if upTo then 2 else 0) + (if synchronous then 1 else 0))
            * 0x1000_0000 + channels * 256
  {
  }

  lemma Flags61883(format: StreamFormat, high: nat, upTo: bool, synchronous: bool)
    requires FromBits(format[..32]) == high && GetField(32, 32, format) == 0 && GetField(33, 33, format) == 1
    requires GetField(34, 34, format) == if upTo then 1 else 0
    requires GetField(35, 35, format) == if synchronous then 1 else 0
    ensures FromBits(format[..36]) == high * 16 + 4 + (if upTo then 2 else 0) + if synchronous then 1 else 0
  {
    FieldWidths();
    hide *;
    FieldAdds(32, 32, format, 2, 0);
    FieldAdds(33, 33, format, 2, 1);
    FieldAdds(34, 34, format, 2, if upTo then 1 else 0);
    FieldAdds(35, 35, format, 2, if synchronous then 1 else 0);
  }

  lemma LowPart(format: StreamFormat, high: nat, channels: nat)
    requires FromBits(format[..36]) == high
    requires GetField(36, 47, format) == 0 && GetField(48, 55, format) == channels && GetField(56, 63, format) == 0
    ensures FromBits(format) == high * 0x1000_0000 + channels * 256
  {
    FieldWidths();
    assert Pow2(12) == 4096 && format[..64] == format;
    hide *;
    FieldAdds(36, 47, format, 4096, 0);
    FieldAdds(48, 55, format, 256, channels);
    FieldAdds(56, 63, format, 256, 0);
  }

  lemma HighPart61883(format: StreamFormat, code: nat, channels: nat)
    requires GetField(0, 0, format) == 0 && GetField(1, 7, format) == 0 && GetField(8, 8, format) == 1
    requires GetField(9, 14, format) == 0x10 && GetField(15, 15, format) == 0 && GetField(16, 20, format) == 0
    requires GetField(21, 23, format) == code && GetField(24, 31, format) == channels
    ensures FromBits(format[..32]) == 0x00A0_0000 + code * 256 + channels
  {
    FieldWidths();
    assert format[..0] == [] && FromBits([]) == 0;
    hide *;
    FieldAdds(0, 0, format, 2, 0);
    FieldAdds(1, 7, format, 128, 0);
    FieldAdds(8, 8, format, 2, 1);
    FieldAdds(9, 14, format, 64, 0x10);
    FieldAdds(15, 15, format, 2, 0);
    FieldAdds(16, 20, format, 32, 0);
    FieldAdds(21, 23, format, 8, code);
    FieldAdds(24, 31, format, 256, channels);
  }

  /** Every format the builder accepts parses back to what it was built from, exactly when the channel count
      fits its 8-bit field; everything it does not accept yields the null format. */
  method BuildFormat61883_6(channels: nat, upTo: bool, rate: SamplingRate, sample: SampleFormat, synchronous: bool)
    returns (fmt: StreamFormat)
    requires channels < 0x1_0000
    ensures sample != Int24 || rate.pull != 0 || rate.base !in IecRates ==> fmt == Null
    ensures sample == Int24 && rate.pull == 0 && rate.base in IecRates ==>
              (Parse(fmt) == Info(fmt, Iec61883_6, channels, upTo, rate, Int24, synchronous, 24) <==> channels <= 255)
    ensures sample == Int24 && rate.pull == 0 && rate.base in IecRates && channels <= 255 ==>
              FromBits(fmt) == Word61883(channels, upTo, CodeOf(IecRates, rate.base), synchronous)
  {
    hide ReplaceField, GetField, Parse;
    FieldWidths();
    NullFields();
    fmt := Null;
    fmt := ReplaceField(0, 0, fmt, 0);
    fmt := ReplaceField(1, 7, fmt, 0x00);
    fmt := ReplaceField(8, 8, fmt, 1);
    fmt := ReplaceField(9, 14, fmt, 0x10);
    if sample != Int24 {
      return Null;
    }
    fmt := ReplaceField(16, 20, fmt, 0x00);
    if rate.pull != 0 {
      return Null;
    }
    var fdfSfc := CodeOf(IecRates, rate.base);
    if fdfSfc == |IecRates| {
      return Null;
    }
    fmt := ReplaceField(21, 23, fmt, fdfSfc);
    fmt := ReplaceField(24, 31, fmt, channels);
    fmt := ReplaceField(33, 33, fmt, 1);
    fmt := ReplaceField(34, 34, fmt, if upTo then 1 else 0);
    fmt := ReplaceField(35, 35, fmt, if synchronous then 1 else 0);
    fmt := ReplaceField(48, 55, fmt, channels);
    if channels <= 255 {
      Layout61883(fmt, channels, upTo, fdfSfc, synchronous);
      Parse61883Reads(fmt, fdfSfc);
    } else if Parse(fmt).kind == Iec61883_6 {
      Parsed61883Channels(fmt);
    }
  }

  lemma ParseAafReads(format: StreamFormat, nsr: nat, code: nat)
    requires GetField(0, 0, format) == 0 && GetField(1, 7, format) == 2
    requires GetField(12, 15, format) == nsr < |AafRates| && GetField(16, 23, format) == code && 2 <= code <= 4
    ensures format != Null
    ensures Parse(format) ==
            Info(format, Aaf, GetField(32, 41, format), GetField(11, 11, format) != 0, SamplingRate(0, AafRates[nsr]),
                 match code case 2 => Int32 case 3 => Int24 case _ => Int16, true, GetField(24, 31, format))
  {
    NotNull(1, 7, format);
  }

  lemma ParsedAafChannels(format: StreamFormat)
    requires Parse(format).kind == Aaf
    ensures Parse(format).channels <= 1023
  {
    FieldBound(32, 41, format);
    FieldWidths();
  }

  /** The bits of a samples-per-frame count beyond its own 10-bit field fall on the field of the channel count
      before it, and change nothing when they are set there already. */
  predicate Covered(samples: nat, channelField: seq<bool>)
    requires |channelField| == 10
  {
    forall i :: 0 <= i < 10 && ToBits(samples, 20)[i] ==> channelField[i]
  }

  /** A 16-bit samples-per-frame count spills onto the field of the channel count and no further. */
  lemma SamplesSpill(format: StreamFormat, samples: nat)
    requires samples < 0x1_0000
    ensures forall f: nat, l: nat :: f <= l < 32
              ==> GetField(f, l, ReplaceField(42, 51, format, samples)) == GetField(f, l, format)
    ensures GetField(32, 41, ReplaceField(42, 51, format, samples)) == GetField(32, 41, format)
            <==> Covered(samples, format[32..42])
  {
    var w := ReplaceField(42, 51, format, samples);
    assert Pow2(16) == 0x1_0000 by { assert Pow2(8) == 256; }
    ToBitsOfSmall(samples, 16, 52);
    ToBitsOfSmall(samples, 16, 20);
    forall f: nat, l: nat | f <= l < 32
      ensures GetField(f, l, w) == GetField(f, l, format)
    {
      assert w[f..l + 1] == format[f..l + 1];
    }
    forall i | 0 <= i < 10
      ensures w[32..42][i] == (format[32..42][i] || ToBits(samples, 20)[i])
    {
    }
    if GetField(32, 41, w) == GetField(32, 41, format) {
      FromBitsInjective(w[32..42], format[32..42]);
    }
    if Covered(samples, format[32..42]) {
      assert w[32..42] == format[32..42];
    }
  }

  lemma ChannelBits(format: StreamFormat, channels: nat)
    requires GetField(32, 41, format) == channels <= 1023
    ensures format[32..42] == ToBits(channels, 10)
  {
    FieldWidths();
    FromToBits(channels, 10);
    FromBitsInjective(format[32..42], ToBits(channels, 10));
  }

  /** The 64-bit word of an AAF format. */
  function WordAaf(channels: nat, upTo: bool, nsr: nat, code: nat, bitDepth: nat, samples: nat): nat {
    0x0200_0000_0000_0000 + (if upTo then 0x0010_0000_0000_0000 else 0) + nsr * 0x0001_0000_0000_0000
    + code * 0x0000_0100_0000_0000 + bitDepth * 0x0000_0001_0000_0000 + channels * 0x0040_0000 + samples * 0x1000
  }

  lemma LayoutAaf(format: StreamFormat, channels: nat, upTo: bool, nsr: nat, code: nat, bitDepth: nat, samples: nat)
    requires GetField(0, 0, format) == 0 && GetField(1, 7, format) == 2 && GetField(8, 10, format) == 0
    requires GetField(11, 11, format) == if upTo then 1 else 0
    requires GetField(12, 15, format) == nsr && GetField(16, 23, format) == code && GetField(24, 31, format) == bitDepth
    requires GetField(32, 41, format) == channels && GetField(42, 51, format) == samples
    requires GetField(52, 63, format) == 0
    ensures FromBits(format) == WordAaf(channels, upTo, nsr, code, bitDepth, samples)
  {
    hide *;
    HighPartAaf(format, upTo);
    var high := 0x20 + if upTo then 1 else 0;
    MiddlePartAaf(format, high, nsr, code, bitDepth);
    LowPartAaf(format, high * 0x0010_0000 + nsr * 0x0001_0000 + code * 256 + bitDepth, channels, samples);
    WordIsAaf(channels, upTo, nsr, code, bitDepth, samples);
  }

  lemma WordIsAaf(channels: nat, upTo: bool, nsr: nat, code: nat, bitDepth: nat, samples: nat)
    ensures WordAaf(channels, upTo, nsr, code, bitDepth, samples) ==
            ((0x20 + if upTo then 1 else 0) * 0x0010_0000 + nsr * 0x0001_0000 + code * 256 + bitDepth)
            * 0x0001_0000_0000 + channels * 0x0040_0000 + samples * 0x1000
  {
  }

  lemma HighPartAaf(format: StreamFormat, upTo: bool)
    requires GetField(0, 0, format) == 0 && GetField(1, 7, format) == 2 && GetField(8, 10, format) == 0
    requires GetField(11, 11, format) == if upTo then 1 else 0
    ensures FromBits(format[..12]) == 0x20 + if upTo then 1 else 0
  {
    FieldWidths();
    assert format[..0] == [] && FromBits([]) == 0;
    hide *;
    FieldAdds(0, 0, format, 2, 0);
    FieldAdds(1, 7, format, 128, 2);
    FieldAdds(8, 10, format, 8, 0);
    FieldAdds(11, 11, format, 2, if upTo then 1 else 0);
  }

  lemma MiddlePartAaf(format: StreamFormat, high: nat, nsr: nat, code: nat, bitDepth: nat)
    requires FromBits(format[..12]) == high
    requires GetField(12, 15, format) == nsr && GetField(16, 23, format) == code && GetField(24, 31, format) == bitDepth
    ensures FromBits(format[..32]) == high * 0x0010_0000 + nsr * 0x0001_0000 + code * 256 + bitDepth
  {
    FieldWidths();
    hide *;
    FieldAdds(12, 15, format, 16, nsr);
    FieldAdds(16, 23, format, 256, code);
    FieldAdds(24, 31, format, 256, bitDepth);
  }

  lemma LowPartAaf(format: StreamFormat, high: nat, channels: nat, samples: nat)
    requires FromBits(format[..32]) == high && GetField(32, 41, format) == channels
    requires GetField(42, 51, format) == samples && GetField(52, 63, format) == 0
    ensures FromBits(format) == high * 0x0001_0000_0000 + channels * 0x0040_0000 + samples * 0x1000
  {
    FieldWidths();
    assert Pow2(12) == 4096 && format[..64] == format;
    hide *;
    FieldAdds(32, 41, format, 1024, channels);
    FieldAdds(42, 51, format, 1024, samples);
    FieldAdds(52, 63, format, 4096, 0);
  }

  /** As for the other builder: what is accepted parses back to what it was built from, exactly when the channel
      count fits its 10-bit field and what spills over from the samples-per-frame count leaves it alone. */
  method BuildFormatAaf(channels: nat, upTo: bool, rate: SamplingRate, sample: SampleFormat, bitDepth: nat,
                        samples: nat)
    returns (fmt: StreamFormat)
    requires channels < 0x1_0000 && samples < 0x1_0000
    ensures rate.pull != 0 || rate.base !in AafRates || !AafAccepts(sample, bitDepth) ==> fmt == Null
    ensures rate.pull == 0 && rate.base in AafRates && AafAccepts(sample, bitDepth) ==>
              (Parse(fmt) == Info(fmt, Aaf, channels, upTo, rate, sample, true, bitDepth)
               <==> channels <= 1023 && Covered(samples, ToBits(channels, 10)))
    ensures rate.pull == 0 && rate.base in AafRates && AafAccepts(sample, bitDepth)
            && channels <= 1023 && samples <= 1023 ==>
              FromBits(fmt) ==
              WordAaf(channels, upTo, CodeOf(AafRates, rate.base),
                      match sample case Int32 => 2 case Int24 => 3 case _ => 4, bitDepth, samples)
  {
    hide ReplaceField, GetField, Parse, Covered;
    FieldWidths();
    NullFields();
    fmt := Null;
    fmt := ReplaceField(0, 0, fmt, 0);
    fmt := ReplaceField(1, 7, fmt, 0x02);
    fmt := ReplaceField(11, 11, fmt, if upTo then 1 else 0);
    if rate.pull != 0 {
      return Null;
    }
    var nsr := CodeOf(AafRates, rate.base);
    if nsr == |AafRates| {
      return Null;
    }
    fmt := ReplaceField(12, 15, fmt, nsr);
    var format, maxDepth := 0, 0;
    match sample {
      case Int32 => maxDepth, format := 32, 0x02;
      case Int24 => maxDepth, format := 24, 0x03;
      case Int16 => maxDepth, format := 16, 0x04;
      case _ => return Null;
    }
    if bitDepth > maxDepth {
      return Null;
    }
    fmt := ReplaceField(16, 23, fmt, format);
    fmt := ReplaceField(24, 31, fmt, bitDepth);
    fmt := ReplaceField(32, 41, fmt, channels);
    ghost var before := fmt;
    fmt := ReplaceField(42, 51, fmt, samples);
    if channels <= 1023 && samples <= 1023 {
      LayoutAaf(fmt, channels, upTo, nsr, format, bitDepth, samples);
    }
    if channels <= 1023 {
      SamplesSpill(before, samples);
      ChannelBits(before, channels);
      ParseAafReads(fmt, nsr, format);
    } else if Parse(fmt).kind == Aaf {
      ParsedAafChannels(fmt);
    }
  }

  predicate AafAccepts(sample: SampleFormat, bitDepth: nat) {
    (sample == Int32 && bitDepth <= 32) || (sample == Int24 && bitDepth <= 24) || (sample == Int16 && bitDepth <= 16)
  }

  lemma SmallSamplesCovered(samples: nat, channelField: seq<bool>)
    requires samples <= 1023 && |channelField| == 10
    ensures Covered(samples, channelField)
  {
    FieldWidths();
    ToBitsOfSmall(samples, 10, 20);
  }

  // ---------------------------------------------------------------- Adapting a format

  /** The channel counts a format can be set to. */
  predicate Admits(i: Info, channels: nat) {
    if i.upTo then channels <= i.channels else channels == i.channels
  }

  /** The format with its channel count fixed, or the null format when it does not admit that count. A fixed
      count is written over the fields of the format and parses back; nothing else it says changes. */
  method GetAdaptedStreamFormat(i: Info, channels: nat) returns (fmt: StreamFormat)
    requires i == Parse(i.format) && channels < 0x1_0000
    ensures fmt != Null <==> i.format != Null && Admits(i, channels)
    ensures fmt != Null ==> Parse(fmt) == i.(format := fmt, channels := channels, upTo := false)
    ensures fmt != Null && !i.upTo ==> fmt == i.format
  {
    match i.kind {
      case Iec61883_6 =>
        if i.upTo {
          if channels > i.channels {
            return Null;
          }
          Parsed61883Channels(i.format);
          fmt := Narrow61883(i.format, channels);
          return;
        }
      case Aaf =>
        if i.upTo {
          if channels > i.channels {
            return Null;
          }
          ParsedAafChannels(i.format);
          fmt := NarrowAaf(i.format, channels);
          return;
        }
      case _ =>
    }
    if channels != i.channels {
      return Null;
    }
    return i.format;
  }

  /** The fixed-count form of an up-to 61883-6 format. */
  method Narrow61883(format: StreamFormat, channels: nat) returns (fmt: StreamFormat)
    requires Parse(format).kind == Iec61883_6 && channels <= 255
    ensures fmt != Null && Parse(fmt) == Parse(format).(format := fmt, channels := channels, upTo := false)
  {
    var fdfSfc := Parsed61883Fields(format);
    hide ReplaceField, GetField, Parse;
    FieldWidths();
    fmt := format;
    fmt := ReplaceField(34, 34, fmt, 0);
    fmt := ReplaceField(24, 31, fmt, channels);
    fmt := ReplaceField(48, 55, fmt, channels);
    Parse61883Reads(format, fdfSfc);
    Parse61883Reads(fmt, fdfSfc);
  }

  lemma Parsed61883Fields(format: StreamFormat) returns (fdfSfc: nat)
    requires Parse(format).kind == Iec61883_6
    ensures GetField(0, 0, format) == 0 && GetField(1, 7, format) == 0 && GetField(8, 8, format) == 1
    ensures GetField(9, 14, format) == 0x10 && GetField(16, 20, format) == 0
    ensures GetField(21, 23, format) == fdfSfc < |IecRates|
  {
    FieldBound(0, 0, format);
    FieldBound(8, 8, format);
    FieldWidths();
    fdfSfc := GetField(21, 23, format);
  }

  /** The fixed-count form of an up-to AAF format. */
  method NarrowAaf(format: StreamFormat, channels: nat) returns (fmt: StreamFormat)
    requires Parse(format).kind == Aaf && channels <= 1023
    ensures fmt != Null && Parse(fmt) == Parse(format).(format := fmt, channels := channels, upTo := false)
  {
    var nsr, code := ParsedAafFields(format);
    hide ReplaceField, GetField, Parse;
    FieldWidths();
    fmt := format;
    fmt := ReplaceField(11, 11, fmt, 0);
    fmt := ReplaceField(32, 41, fmt, channels);
    ParseAafReads(format, nsr, code);
    ParseAafReads(fmt, nsr, code);
  }

  lemma ParsedAafFields(format: StreamFormat) returns (nsr: nat, code: nat)
    requires Parse(format).kind == Aaf
    ensures GetField(0, 0, format) == 0 && GetField(1, 7, format) == 2
    ensures GetField(12, 15, format) == nsr < |AafRates| && GetField(16, 23, format) == code && 2 <= code <= 4
  {
    FieldBound(0, 0, format);
    FieldWidths();
    nsr, code := GetField(12, 15, format), GetField(16, 23, format);
  }

  // ---------------------------------------------------------------- Matching a talker and a listener

  predicate ClocksAgree(l: Info, t: Info) {
    t.synchronous || !l.synchronous
  }

  predicate IsCompatible(listener: StreamFormat, talker: StreamFormat) {
    var l, t := Parse(listener), Parse(talker);
    && l.kind == t.kind && l.channels == t.channels && !l.upTo && !t.upTo
    && l.rate == t.rate && l.sample == t.sample && ClocksAgree(l, t)
  }

  /** What two formats have to share whatever their channel counts. */
  predicate SameStream(l: Info, t: Info) {
    l.kind == t.kind && l.rate == t.rate && l.sample == t.sample && ClocksAgree(l, t)
  }

  predicate CommonCount(l: Info, t: Info, channels: nat) {
    Admits(l, channels) && Admits(t, channels)
  }

  /** Sound and complete: a pair comes back exactly when both formats are non-null, carry the same kind of stream
      and admit a common channel count; it has the largest such count, differs from the formats given in the
      count alone, and is compatible. */
  method GetAdaptedCompatibleFormats(listener: StreamFormat, talker: StreamFormat)
    returns (l: StreamFormat, t: StreamFormat)
    ensures l != Null <==> t != Null
    ensures l != Null <==>
              && listener != Null && talker != Null && SameStream(Parse(listener), Parse(talker))
              && exists n: nat :: CommonCount(Parse(listener), Parse(talker), n)
    ensures l != Null ==>
              && Parse(l) == Parse(listener).(format := l, channels := Parse(l).channels, upTo := false)
              && Parse(t) == Parse(talker).(format := t, channels := Parse(l).channels, upTo := false)
              && CommonCount(Parse(listener), Parse(talker), Parse(l).channels)
              && (forall n: nat :: CommonCount(Parse(listener), Parse(talker), n) ==> n <= Parse(l).channels)
              && IsCompatible(l, t)
  {
    var lInfo, tInfo := Parse(listener), Parse(talker);
    ParsedIsSmall(listener);
    ParsedIsSmall(talker);
    hide Parse;
    if SameStream(lInfo, tInfo) {
      var lCount, tCount := lInfo.channels, tInfo.channels;
      if lInfo.upTo {
        lCount := if tCount < lCount then tCount else lCount;
      }
      if tInfo.upTo {
        tCount := if lCount < tCount then lCount else tCount;
      }
      if lCount == tCount {
        assert CommonCount(lInfo, tInfo, lCount);
        var lAdapted := GetAdaptedStreamFormat(lInfo, lCount);
        var tAdapted := GetAdaptedStreamFormat(tInfo, tCount);
        if lAdapted != Null && tAdapted != Null {
          return lAdapted, tAdapted;
        }
      }
    }
    return Null, Null;
  }

  lemma ParsedIsSmall(format: StreamFormat)
    ensures Parse(format).format == format && Parse(format).channels < 0x1_0000
    ensures (Parse(format).kind == NoFormat) == (format == Null)
  {
    if Parse(format).kind == Iec61883_6 {
      Parsed61883Channels(format);
    } else if Parse(format).kind == Aaf {
      ParsedAafChannels(format);
    }
  }
}
