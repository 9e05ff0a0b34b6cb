/** The WAV encoder: little-endian writers, the 44-byte header, silence and 16-bit samples, with a decoder.

    RIFF/WAVE is the "Waveform Audio File Format (WAVE)" of Multimedia Programming Interface and Data
    Specifications 1.0. Shifts and masks appear as division and remainder; uint32_t arithmetic wraps at 2^32.
 */
module Wav {
  import opened Basics

  type Byte = n: nat | n < 256

  const RIFF: seq<Byte> := [82, 73, 70, 70]
  const WAVE: seq<Byte> := [87, 65, 86, 69]
  const FMT: seq<Byte> := [102, 109, 116, 32]
  const DATA: seq<Byte> := [100, 97, 116, 97]

  // ---------------------------------------------------------------- little-endian fields

  /** The k low bytes of v, least significant first. */
  function LittleEndian(v: nat, k: nat): (b: seq<Byte>)
    ensures |b| == k
  {
    if k == 0 then [] else [v % 256] + LittleEndian(v / 256, k - 1)
  }

  /** What the bytes are worth. */
  function Value(b: seq<Byte>): (v: nat)
  {
    if b == [] then 0 else b[0] as int + 256 * Value(b[1..])
  }

  /** 256 to the power k. */
  function Range(k: nat): nat {
    if k == 0 then 1 else 256 * Range(k - 1)
  }

  lemma Ranges()
    ensures Range(2) == TWO_16 && Range(4) == TWO_32
  {
    assert Range(1) == 256;
    assert Range(3) == 256 * TWO_16;
  }

  lemma LowByte(v: nat, low: nat, rest: nat)
    requires low < 256
    ensures v == low + 256 * rest <==> low == v % 256 && rest == v / 256
  {
  }

  lemma {:induction false} ValueInRange(b: seq<Byte>)
    ensures Value(b) < Range(|b|)
  {
    if b != [] {
      ValueInRange(b[1..]);
    }
  }

  /** A field and its value determine each other. */
  lemma {:induction false} FieldIsExact(v: nat, b: seq<Byte>)
    requires v < Range(|b|)
    ensures LittleEndian(v, |b|) == b <==> Value(b) == v
  {
    if b != [] {
      FieldIsExact(v / 256, b[1..]);
      LowByte(v, b[0], Value(b[1..]));
      assert b == [b[0]] + b[1..];
    }
  }

  function U16(v: nat): seq<Byte> { LittleEndian(v, 2) }

  function U32(v: nat): seq<Byte> { LittleEndian(v, 4) }

  function Read16(b: seq<Byte>): (v: nat)
    requires |b| == 2
    ensures v < TWO_16
  {
    ValueInRange(b);
    Ranges();
    Value(b)
  }

  function Read32(b: seq<Byte>): (v: nat)
    requires |b| == 4
    ensures v < TWO_32
  {
    ValueInRange(b);
    Ranges();
    Value(b)
  }

  lemma U16IsExact(v: nat, b: seq<Byte>)
    requires v < TWO_16 && |b| == 2
    ensures U16(v) == b <==> Read16(b) == v
  {
    Ranges();
    FieldIsExact(v, b);
  }

  lemma U32IsExact(v: nat, b: seq<Byte>)
    requires v < TWO_32 && |b| == 4
    ensures U32(v) == b <==> Read32(b) == v
  {
    Ranges();
    FieldIsExact(v, b);
  }

  lemma U16Bytes(v: nat)
    ensures U16(v) == [v % 256, v / 256 % 256]
  {
    assert LittleEndian(v / 256, 1) == [v / 256 % 256];
  }

  lemma U32Bytes(v: nat)
    ensures U32(v) == [v % 256, v / 256 % 256, v / 256 / 256 % 256, v / 256 / 256 / 256 % 256]
  {
    U16Bytes(v / 256 / 256);
    assert LittleEndian(v / 256, 3) == [v / 256 % 256] + U16(v / 256 / 256);
  }

  method WriteU32(dst: array<Byte>, at: nat, val: nat)
    requires at + 4 <= dst.Length && val < TWO_32
    modifies dst
    ensures dst[..at + 4] == old(dst[..at]) + U32(val) && dst[at + 4..] == old(dst[at + 4..])
  {
    U32Bytes(val);
    dst[at] := val % 256;
    dst[at + 1] := val / 256 % 256;
    dst[at + 2] := val / 256 / 256 % 256;
    dst[at + 3] := val / 256 / 256 / 256 % 256;
  }

  method WriteU16(dst: array<Byte>, at: nat, val: nat)
    requires at + 2 <= dst.Length && val < TWO_16
    modifies dst
    ensures dst[..at + 2] == old(dst[..at]) + U16(val) && dst[at + 2..] == old(dst[at + 2..])
  {
    U16Bytes(val);
    dst[at] := val % 256;
    dst[at + 1] := val / 256 % 256;
  }

  /** memcpy of a four-letter tag. */
  method WriteTag(dst: array<Byte>, at: nat, tag: seq<Byte>)
    requires at + 4 <= dst.Length && |tag| == 4
    modifies dst
    ensures dst[..at + 4] == old(dst[..at]) + tag && dst[at + 4..] == old(dst[at + 4..])
  {
    for i := 0 to 4
      invariant dst[..at + i] == old(dst[..at]) + tag[..i] && dst[at + i..] == old(dst[at + i..])
    {
      dst[at + i] := tag[i];
    }
  }

  // ---------------------------------------------------------------- the header

  function DataSize(numSamples: nat): nat { numSamples * 2 % TWO_32 }

  function RiffChunk(size: nat): (b: seq<Byte>)
    ensures |b| == 12
  {
    RIFF + U32(size) + WAVE
  }

  /** Format: PCM, mono. */
  function FmtHead(): (b: seq<Byte>)
    ensures |b| == 12
  {
    FMT + U32(16) + (U16(1) + U16(1))
  }

  /** Sample rate, byte rate, block align and bits per sample. */
  function FmtTail(rate: nat, byteRate: nat): (b: seq<Byte>)
    ensures |b| == 12
  {
    U32(rate) + U32(byteRate) + (U16(2) + U16(16))
  }

  function DataChunk(size: nat): (b: seq<Byte>)
    ensures |b| == 8
  {
    DATA + U32(size)
  }

  function FirstPart(size: nat): (b: seq<Byte>)
    ensures |b| == 24
  {
    RiffChunk(size) + FmtHead()
  }

  function SecondPart(rate: nat, byteRate: nat, dataSize: nat): (b: seq<Byte>)
    ensures |b| == 20
  {
    FmtTail(rate, byteRate) + DataChunk(dataSize)
  }

  function Header(rate: int, numSamples: nat): (b: seq<Byte>)
    ensures |b| == 44
  {
    FirstPart((36 + DataSize(numSamples)) % TWO_32)
    + SecondPart(rate % TWO_32, rate * 2 % TWO_32, DataSize(numSamples))
  }

  method WriteRiff(dst: array<Byte>, size: nat)
    requires dst.Length == 44 && size < TWO_32
    modifies dst
    ensures dst[..12] == RiffChunk(size)
  {
    WriteTag(dst, 0, RIFF);
    WriteU32(dst, 4, size);
    WriteTag(dst, 8, WAVE);
  }

  method WriteFmt(dst: array<Byte>, rate: nat, byteRate: nat)
    requires dst.Length == 44 && rate < TWO_32 && byteRate < TWO_32
    modifies dst
    ensures dst[..36] == old(dst[..12]) + FmtHead() + FmtTail(rate, byteRate)
  {
    WriteTag(dst, 12, FMT);
    WriteU32(dst, 16, 16);
    WriteU16(dst, 20, 1);
    WriteU16(dst, 22, 1);
    WriteU32(dst, 24, rate);
    WriteU32(dst, 28, byteRate);
    WriteU16(dst, 32, 2);
    WriteU16(dst, 34, 16);
  }

  /** The byte rate is computed in int, which must not overflow. */
  method BuildWavHeader(rate: int, numSamples: nat) returns (hdr: array<Byte>)
    requires -0x4000_0000 <= rate < 0x4000_0000 && numSamples < TWO_32
    ensures fresh(hdr) && hdr.Length == 44 && hdr[..] == Header(rate, numSamples)
  {
    var dataSize := numSamples * 2 % TWO_32;
    var fileSize := (36 + dataSize) % TWO_32;
    var sampleRate, byteRate := rate % TWO_32, rate * 2 % TWO_32;
    hdr := WriteChunks(fileSize, sampleRate, byteRate, dataSize);
  }

  method WriteChunks(fileSize: nat, rate: nat, byteRate: nat, dataSize: nat) returns (hdr: array<Byte>)
    requires fileSize < TWO_32 && rate < TWO_32 && byteRate < TWO_32 && dataSize < TWO_32
    ensures fresh(hdr) && hdr.Length == 44 && hdr[..] == FirstPart(fileSize) + SecondPart(rate, byteRate, dataSize)
  {
    hdr := new Byte[44](_ => 0);
    WriteRiff(hdr, fileSize);
    WriteFmt(hdr, rate, byteRate);
    WriteTag(hdr, 36, DATA);
    WriteU32(hdr, 40, dataSize);
    FiveChunks(RiffChunk(fileSize), FmtHead(), FmtTail(rate, byteRate), DATA, U32(dataSize));
    assert hdr[..] == hdr[..44];
  }

  lemma FiveChunks(a: seq<Byte>, b: seq<Byte>, c: seq<Byte>, d: seq<Byte>, e: seq<Byte>)
    ensures a + b + c + d + e == (a + b) + (c + (d + e))
  {
  }

  // ---------------------------------------------------------------- samples

  predicate IsInt16(s: int) { -0x8000 <= s < 0x8000 }

  /** static_cast<uint16_t>: two's complement. */
  function AsU16(s: int): (u: nat)
    requires IsInt16(s)
    ensures u < TWO_16
  {
    s % TWO_16
  }

  function FromU16(u: nat): int {
    if u >= 0x8000 then u - TWO_16 else u
  }

  predicate AllInt16(pcm: seq<int>) {
    forall i | 0 <= i < |pcm| :: IsInt16(pcm[i])
  }

  function Body(pcm: seq<int>): (b: seq<Byte>)
    requires AllInt16(pcm)
    ensures |b| == 2 * |pcm|
  {
    if pcm == [] then [] else Body(pcm[..|pcm| - 1]) + U16(AsU16(pcm[|pcm| - 1]))
  }

  function ReadBody(b: seq<Byte>): (pcm: seq<int>)
    requires |b| % 2 == 0
    ensures 2 * |pcm| == |b| && AllInt16(pcm)
  {
    if b == [] then [] else ReadBody(b[..|b| - 2]) + [FromU16(Read16(b[|b| - 2..]))]
  }

  /** The two casts are inverse to each other. */
  lemma CastIsExact(s: int, u: nat)
    requires IsInt16(s) && u < TWO_16
    ensures AsU16(s) == u <==> FromU16(u) == s
  {
  }

  lemma {:induction false} SampleIsExact(s: int, b: seq<Byte>)
    requires IsInt16(s) && |b| == 2
    ensures U16(AsU16(s)) == b <==> FromU16(Read16(b)) == s
  {
    U16IsExact(AsU16(s), b);
    CastIsExact(s, Read16(b));
  }

  lemma Even(n: nat)
    ensures 2 * n % 2 == 0 && 2 * n / 2 == n
  {
  }

  lemma TwoLess(n: nat)
    requires n >= 1 && n % 2 == 0
    ensures n >= 2 && (n - 2) % 2 == 0
  {
  }

  lemma SplitTail<T>(a: seq<T>, x: seq<T>, b: seq<T>, k: nat)
    requires |x| == k <= |b|
    ensures a + x == b <==> a == b[..|b| - k] && x == b[|b| - k..]
  {
    assert b == b[..|b| - k] + b[|b| - k..];
    if a + x == b {
      assert a == (a + x)[..|a|] && x == (a + x)[|a|..];
    }
  }

  lemma {:induction false} BodyIsExact(pcm: seq<int>, b: seq<Byte>)
    requires AllInt16(pcm) && |b| % 2 == 0
    ensures Body(pcm) == b <==> ReadBody(b) == pcm
    decreases |b|
  {
    if b != [] && pcm != [] {
      TwoLess(|b|);
      var front, last := b[..|b| - 2], b[|b| - 2..];
      var before, s := pcm[..|pcm| - 1], pcm[|pcm| - 1];
      BodyIsExact(before, front);
      SampleIsExact(s, last);
      LastSample(pcm, b, before, s, front, last);
    }
  }

  lemma {:induction false} LastSample(pcm: seq<int>, b: seq<Byte>, before: seq<int>, s: int,
                                      front: seq<Byte>, last: seq<Byte>)
    requires AllInt16(pcm) && AllInt16(before) && IsInt16(s) && |b| % 2 == 0 && |front| % 2 == 0 && |last| == 2
    requires b == front + last && pcm == before + [s]
    requires Body(before) == front <==> ReadBody(front) == before
    requires U16(AsU16(s)) == last <==> FromU16(Read16(last)) == s
    ensures Body(pcm) == b <==> ReadBody(b) == pcm
  {
    var bytes, sample := U16(AsU16(s)), FromU16(Read16(last));
    assert pcm[..|pcm| - 1] == before && b[..|b| - 2] == front && b[|b| - 2..] == last;
    SplitTail(Body(before), bytes, b, 2);
    SplitTail(ReadBody(front), [sample], pcm, 1);
    assert pcm[|pcm| - 1..] == [s];
  }

  /** A whole file: header and samples. */
  function Encode(rate: int, pcm: seq<int>): seq<Byte>
    requires AllInt16(pcm)
  {
    Header(rate, |pcm|) + Body(pcm)
  }

  // ---------------------------------------------------------------- the decoder

  function ReadRiff(c: seq<Byte>): Option<nat>
    requires |c| == 12
  {
    if c[..4] == RIFF && c[8..] == WAVE then Some(Read32(c[4..8])) else None
  }

  predicate ReadFmtHead(c: seq<Byte>)
    requires |c| == 12
  {
    c[..4] == FMT && Read32(c[4..8]) == 16 && Read16(c[8..10]) == 1 && Read16(c[10..]) == 1
  }

  /** Sample rate and byte rate. */
  function ReadFmtTail(c: seq<Byte>): Option<(nat, nat)>
    requires |c| == 12
  {
    if Read16(c[8..10]) == 2 && Read16(c[10..]) == 16 then Some((Read32(c[..4]), Read32(c[4..8]))) else None
  }

  function ReadData(c: seq<Byte>): Option<nat>
    requires |c| == 8
  {
    if c[..4] == DATA then Some(Read32(c[4..])) else None
  }

  datatype Audio = Audio(rate: int, pcm: seq<int>)

  function ByteRate(rate: nat): nat { rate * 2 % TWO_32 }

  function ReadFirst(c: seq<Byte>): Option<nat>
    requires |c| == 24
  {
    if ReadFmtHead(c[12..]) then ReadRiff(c[..12]) else None
  }

  /** Sample rate, byte rate and data size. */
  function ReadSecond(c: seq<Byte>): Option<(nat, nat, nat)>
    requires |c| == 20
  {
    var fmt, data := ReadFmtTail(c[..12]), ReadData(c[12..]);
    if fmt.Some? && data.Some? then Some((fmt.value.0, fmt.value.1, data.value)) else None
  }

  /** The sample rate, if the header is that of a mono 16-bit PCM file of the given number of samples. */
  function ReadHeader(c: seq<Byte>, numSamples: nat): Option<nat>
    requires |c| == 44
  {
    var riff, rest := ReadFirst(c[..24]), ReadSecond(c[24..]);
    if riff == Some(36 + 2 * numSamples) && rest.Some? && rest.value.1 == ByteRate(rest.value.0)
       && rest.value.2 == 2 * numSamples && rest.value.0 != 0
    then Some(rest.value.0) else None
  }

  /** A file whose header agrees with itself and, in both size fields, with the length of the file. */
  function Decode(b: seq<Byte>): Option<Audio> {
    if |b| < 44 || |b| % 2 != 0 then None
    else
      var rate := ReadHeader(b[..44], (|b| - 44) / 2);
      if rate.Some? then Some(Audio(rate.value, ReadBody(b[44..]))) else None
  }

  lemma RiffIsExact(size: nat, c: seq<Byte>)
    requires size < TWO_32 && |c| == 12
    ensures RiffChunk(size) == c <==> ReadRiff(c) == Some(size)
  {
    U32IsExact(size, c[4..8]);
    SplitTail(RIFF + U32(size), WAVE, c, 4);
    SplitTail(RIFF, U32(size), c[..8], 4);
  }

  lemma DataIsExact(size: nat, c: seq<Byte>)
    requires size < TWO_32 && |c| == 8
    ensures DataChunk(size) == c <==> ReadData(c) == Some(size)
  {
    U32IsExact(size, c[4..]);
    SplitTail(DATA, U32(size), c, 4);
  }

  /** Twelve bytes as two fields of four and two of two. */
  lemma TwelveBytes(c: seq<Byte>, f0: seq<Byte>, f1: seq<Byte>, f2: seq<Byte>, f3: seq<Byte>)
    requires |c| == 12 && |f0| == |f1| == 4 && |f2| == |f3| == 2
    ensures f0 + f1 + (f2 + f3) == c <==> c[..4] == f0 && c[4..8] == f1 && c[8..10] == f2 && c[10..] == f3
  {
    SplitTail(f0 + f1, f2 + f3, c, 4);
    SplitTail(f0, f1, c[..8], 4);
    SplitTail(f2, f3, c[8..], 2);
    assert c[8..][..2] == c[8..10] && c[8..][2..] == c[10..];
  }

  lemma FmtHeadIsExact(c: seq<Byte>)
    requires |c| == 12
    ensures FmtHead() == c <==> ReadFmtHead(c)
  {
    U32IsExact(16, c[4..8]);
    U16IsExact(1, c[8..10]);
    U16IsExact(1, c[10..]);
    TwelveBytes(c, FMT, U32(16), U16(1), U16(1));
  }

  lemma FmtTailIsExact(rate: nat, byteRate: nat, c: seq<Byte>)
    requires rate < TWO_32 && byteRate < TWO_32 && |c| == 12
    ensures FmtTail(rate, byteRate) == c <==> ReadFmtTail(c) == Some((rate, byteRate))
  {
    U32IsExact(rate, c[..4]);
    U32IsExact(byteRate, c[4..8]);
    U16IsExact(2, c[8..10]);
    U16IsExact(16, c[10..]);
    TwelveBytes(c, U32(rate), U32(byteRate), U16(2), U16(16));
  }

  lemma FirstIsExact(size: nat, c: seq<Byte>)
    requires size < TWO_32 && |c| == 24
    ensures FirstPart(size) == c <==> ReadFirst(c) == Some(size)
  {
    RiffIsExact(size, c[..12]);
    FmtHeadIsExact(c[12..]);
    SplitTail(RiffChunk(size), FmtHead(), c, 12);
  }

  lemma SecondIsExact(rate: nat, byteRate: nat, dataSize: nat, c: seq<Byte>)
    requires rate < TWO_32 && byteRate < TWO_32 && dataSize < TWO_32 && |c| == 20
    ensures SecondPart(rate, byteRate, dataSize) == c <==> ReadSecond(c) == Some((rate, byteRate, dataSize))
  {
    FmtTailIsExact(rate, byteRate, c[..12]);
    DataIsExact(dataSize, c[12..]);
    SplitTail(FmtTail(rate, byteRate), DataChunk(dataSize), c, 8);
  }

  /** Header and samples fit the 32-bit sizes: up to 2147483625 samples. */
  predicate FitsSizes(numSamples: nat) {
    44 + 2 * numSamples < TWO_32
  }

  /** The buffer of build_wav_from_float_samples has room for all samples exactly up to that bound. */
  lemma BufferHoldsSamples(numSamples: nat)
    requires numSamples < 0x8000_0000
    ensures (44 + 2 * numSamples) % TWO_32 >= 44 + 2 * numSamples <==> FitsSizes(numSamples)
  {
  }

  lemma SizesDoNotWrap(numSamples: nat)
    requires FitsSizes(numSamples)
    ensures DataSize(numSamples) == 2 * numSamples && (36 + DataSize(numSamples)) % TWO_32 == 36 + 2 * numSamples
    ensures (44 + numSamples * 2) % TWO_32 == 44 + 2 * numSamples
  {
  }

  lemma HeaderFits(rate: nat, numSamples: nat)
    requires rate < TWO_32 && FitsSizes(numSamples)
    ensures Header(rate, numSamples)
         == FirstPart(36 + 2 * numSamples) + SecondPart(rate, ByteRate(rate), 2 * numSamples)
  {
    SizesDoNotWrap(numSamples);
    assert rate % TWO_32 == rate;
  }

  lemma HeaderIsExact(rate: nat, numSamples: nat, c: seq<Byte>)
    requires 0 < rate < TWO_32 && FitsSizes(numSamples) && |c| == 44
    ensures Header(rate, numSamples) == c <==> ReadHeader(c, numSamples) == Some(rate)
  {
    HeaderFits(rate, numSamples);
    FirstIsExact(36 + 2 * numSamples, c[..24]);
    SecondIsExact(rate, ByteRate(rate), 2 * numSamples, c[24..]);
    SplitTail(FirstPart(36 + 2 * numSamples), SecondPart(rate, ByteRate(rate), 2 * numSamples), c, 20);
  }

  lemma DecodeParts(rate: nat, pcm: seq<int>, b: seq<Byte>)
    requires |b| == 44 + 2 * |pcm|
    ensures Decode(b) == Some(Audio(rate, pcm)) <==>
      ReadHeader(b[..44], |pcm|) == Some(rate) && ReadBody(b[44..]) == pcm
  {
    Even(|pcm|);
  }

  lemma EncodeParts(rate: nat, pcm: seq<int>, b: seq<Byte>)
    requires AllInt16(pcm) && |b| == 44 + 2 * |pcm|
    ensures Encode(rate, pcm) == b <==> Header(rate, |pcm|) == b[..44] && Body(pcm) == b[44..]
  {
    SplitTail(Header(rate, |pcm|), Body(pcm), b, 2 * |pcm|);
  }

  lemma {:induction false} PartsAreExact(rate: nat, pcm: seq<int>, header: seq<Byte>, body: seq<Byte>)
    requires |header| == 44 && |body| % 2 == 0 && |body| == 2 * |pcm|
    requires 0 < rate < TWO_32 && AllInt16(pcm) && FitsSizes(|pcm|)
    ensures Header(rate, |pcm|) == header && Body(pcm) == body
       <==> ReadHeader(header, |pcm|) == Some(rate) && ReadBody(body) == pcm
  {
    HeaderIsExact(rate, |pcm|, header);
    BodyIsExact(pcm, body);
  }

  lemma {:induction false} SizedEncodeIsExact(rate: nat, pcm: seq<int>, b: seq<Byte>)
    requires 0 < rate < TWO_32 && AllInt16(pcm) && FitsSizes(|pcm|) && |b| == 44 + 2 * |pcm|
    ensures Encode(rate, pcm) == b <==> Decode(b) == Some(Audio(rate, pcm))
  {
    var header, body := b[..44], b[44..];
    EncodeInParts(rate, pcm, b, header, body);
    PartsDecode(rate, pcm, b, header, body);
  }

  lemma {:induction false} PartsDecode(rate: nat, pcm: seq<int>, b: seq<Byte>, header: seq<Byte>, body: seq<Byte>)
    requires 0 < rate < TWO_32 && AllInt16(pcm) && FitsSizes(|pcm|)
    requires |b| == 44 + 2 * |pcm| && header == b[..44] && body == b[44..]
    ensures Header(rate, |pcm|) == header && Body(pcm) == body <==> Decode(b) == Some(Audio(rate, pcm))
  {
    Even(|pcm|);
    PartsAreExact(rate, pcm, header, body);
    DecodeInParts(rate, pcm, b, header, body);
  }

  lemma {:induction false} EncodeInParts(rate: nat, pcm: seq<int>, b: seq<Byte>, header: seq<Byte>, body: seq<Byte>)
    requires AllInt16(pcm) && |b| == 44 + 2 * |pcm| && header == b[..44] && body == b[44..]
    ensures Encode(rate, pcm) == b <==> Header(rate, |pcm|) == header && Body(pcm) == body
  {
    EncodeParts(rate, pcm, b);
  }

  lemma {:induction false} DecodeInParts(rate: nat, pcm: seq<int>, b: seq<Byte>, header: seq<Byte>, body: seq<Byte>)
    requires |b| == 44 + 2 * |pcm| && header == b[..44] && body == b[44..] && |body| % 2 == 0
    ensures Decode(b) == Some(Audio(rate, pcm)) <==>
      ReadHeader(header, |pcm|) == Some(rate) && ReadBody(body) == pcm
  {
    DecodeParts(rate, pcm, b);
  }

  lemma DecodedLength(b: seq<Byte>)
    ensures Decode(b).Some? ==> |b| == 44 + 2 * |Decode(b).value.pcm|
  {
  }

  /** Encoding and decoding are inverse to each other: the bytes are the encoding of this audio exactly when
      they decode to it. */
  lemma EncodeIsExact(rate: nat, pcm: seq<int>, b: seq<Byte>)
    requires 0 < rate < TWO_32 && AllInt16(pcm) && FitsSizes(|pcm|)
    ensures Encode(rate, pcm) == b <==> Decode(b) == Some(Audio(rate, pcm))
  {
    DecodedLength(b);
    if |b| == 44 + 2 * |pcm| {
      SizedEncodeIsExact(rate, pcm, b);
    } else {
      assert |Encode(rate, pcm)| != |b|;
    }
  }

  /** Round trip: decoding gives back rate and samples. */
  lemma RoundTrip(rate: nat, pcm: seq<int>)
    requires 0 < rate < TWO_32 && AllInt16(pcm) && FitsSizes(|pcm|)
    ensures Decode(Encode(rate, pcm)) == Some(Audio(rate, pcm))
  {
    EncodeIsExact(rate, pcm, Encode(rate, pcm));
  }

  /** The dependent fields of a file that decodes: RIFF size, byte rate and data size. */
  lemma DependentFields(b: seq<Byte>)
    requires Decode(b).Some?
    ensures Read32(b[4..8]) == |b| - 8 && Read32(b[40..44]) == |b| - 44
    ensures Read32(b[28..32]) == ByteRate(Read32(b[24..28])) && Read16(b[32..34]) == 2
    ensures Read32(b[24..28]) == Decode(b).value.rate && |b| == 44 + 2 * |Decode(b).value.pcm|
  {
    var header := b[..44];
    Slice(b, 0, 44, 24, 44);
    HeaderFields(header);
    Slice(b, 0, 44, 4, 8);
    Slice(b, 0, 44, 24, 28);
    Slice(b, 0, 44, 28, 32);
    Slice(b, 0, 44, 32, 34);
    Slice(b, 0, 44, 40, 44);
  }

  lemma HeaderFields(c: seq<Byte>)
    requires |c| == 44
    ensures c[..24][..12][4..8] == c[4..8]
    ensures c[24..][..12][..4] == c[24..28] && c[24..][..12][4..8] == c[28..32] && c[24..][..12][8..10] == c[32..34]
    ensures c[24..][12..][4..] == c[40..44]
  {
    Slice(c, 0, 24, 0, 12);
    Slice(c, 0, 12, 4, 8);
    Slice(c, 24, 44, 0, 12);
    Slice(c, 24, 36, 0, 4);
    Slice(c, 24, 36, 4, 8);
    Slice(c, 24, 36, 8, 10);
    Slice(c, 24, 44, 12, 20);
    Slice(c, 36, 44, 4, 8);
  }

  lemma Slice<T>(b: seq<T>, i: nat, j: nat, k: nat, l: nat)
    requires i <= j <= |b| && k <= l <= j - i
    ensures b[i..j][k..l] == b[i + k..i + l]
  {
    var x, y := b[i..j][k..l], b[i + k..i + l];
    assert |x| == |y| && forall m | 0 <= m < |x| :: x[m] == b[i + k + m] == y[m];
  }

  // ---------------------------------------------------------------- the bytes of a file

  lemma RiffLayout(size: nat)
    ensures RiffChunk(size)[..4] == ['R' as int, 'I' as int, 'F' as int, 'F' as int]
    ensures RiffChunk(size)[4..8] == U32(size)
    ensures RiffChunk(size)[8..12] == ['W' as int, 'A' as int, 'V' as int, 'E' as int]
  {
  }

  lemma FmtHeadLayout()
    ensures FmtHead()[..4] == ['f' as int, 'm' as int, 't' as int, ' ' as int]
    ensures FmtHead()[4..8] == U32(16) && FmtHead()[8..10] == U16(1) && FmtHead()[10..12] == U16(1)
  {
  }

  lemma FmtTailLayout(rate: nat, byteRate: nat)
    ensures FmtTail(rate, byteRate)[..4] == U32(rate) && FmtTail(rate, byteRate)[4..8] == U32(byteRate)
    ensures FmtTail(rate, byteRate)[8..10] == U16(2) && FmtTail(rate, byteRate)[10..12] == U16(16)
  {
  }

  lemma DataLayout(size: nat)
    ensures DataChunk(size)[..4] == ['d' as int, 'a' as int, 't' as int, 'a' as int]
    ensures DataChunk(size)[4..8] == U32(size)
  {
  }

  /** The header of n samples, field by field: PCM, mono, 16 bits, and sizes and rates modulo 2^32. */
  lemma HeaderLayout(rate: int, n: nat)
    ensures var h := Header(rate, n);
      && h[..4] == ['R' as int, 'I' as int, 'F' as int, 'F' as int]
      && h[4..8] == U32((36 + 2 * n % 0x1_0000_0000) % 0x1_0000_0000)
      && h[8..12] == ['W' as int, 'A' as int, 'V' as int, 'E' as int]
      && h[12..16] == ['f' as int, 'm' as int, 't' as int, ' ' as int]
      && h[16..20] == U32(16) && h[20..22] == U16(1) && h[22..24] == U16(1)
      && h[24..28] == U32(rate % 0x1_0000_0000) && h[28..32] == U32(2 * rate % 0x1_0000_0000)
      && h[32..34] == U16(2) && h[34..36] == U16(16)
      && h[36..40] == ['d' as int, 'a' as int, 't' as int, 'a' as int] && h[40..44] == U32(2 * n % 0x1_0000_0000)
  {
    var size, dataSize := (36 + DataSize(n)) % TWO_32, DataSize(n);
    var sampleRate, byteRate := rate % TWO_32, rate * 2 % TWO_32;
    RiffLayout(size);
    FmtHeadLayout();
    FmtTailLayout(sampleRate, byteRate);
    DataLayout(dataSize);
    FourChunks(Header(rate, n), RiffChunk(size), FmtHead(), FmtTail(sampleRate, byteRate), DataChunk(dataSize));
  }

  lemma FourChunks(h: seq<Byte>, riff: seq<Byte>, head: seq<Byte>, tail: seq<Byte>, data: seq<Byte>)
    requires |riff| == |head| == |tail| == 12 && |data| == 8 && h == (riff + head) + (tail + data)
    ensures h[..4] == riff[..4] && h[4..8] == riff[4..8] && h[8..12] == riff[8..12]
    ensures h[12..16] == head[..4] && h[16..20] == head[4..8] && h[20..22] == head[8..10] && h[22..24] == head[10..12]
    ensures h[24..28] == tail[..4] && h[28..32] == tail[4..8] && h[32..34] == tail[8..10] && h[34..36] == tail[10..12]
    ensures h[36..40] == data[..4] && h[40..44] == data[4..8]
  {
    assert h[..12] == riff && h[12..24] == head && h[24..36] == tail && h[36..44] == data;
    Slice(h, 0, 12, 0, 4);
    Slice(h, 0, 12, 4, 8);
    Slice(h, 0, 12, 8, 12);
    Slice(h, 12, 24, 0, 4);
    Slice(h, 12, 24, 4, 8);
    Slice(h, 12, 24, 8, 10);
    Slice(h, 12, 24, 10, 12);
    Slice(h, 24, 36, 0, 4);
    Slice(h, 24, 36, 4, 8);
    Slice(h, 24, 36, 8, 10);
    Slice(h, 24, 36, 10, 12);
    Slice(h, 36, 44, 0, 4);
    Slice(h, 36, 44, 4, 8);
  }

  /** Two's complement. */
  lemma CastIs(s: int)
    requires IsInt16(s)
    ensures AsU16(s) == if s < 0 then s + 0x1_0000 else s
  {
  }

  lemma {:induction false} BodyAt(pcm: seq<int>, i: nat)
    requires AllInt16(pcm) && i < |pcm|
    ensures Body(pcm)[2 * i] == AsU16(pcm[i]) % 256 && Body(pcm)[2 * i + 1] == AsU16(pcm[i]) / 256
  {
    var last := |pcm| - 1;
    U16Bytes(AsU16(pcm[last]));
    if i < last {
      BodyAt(pcm[..last], i);
      assert Body(pcm)[2 * i] == Body(pcm[..last])[2 * i] && Body(pcm)[2 * i + 1] == Body(pcm[..last])[2 * i + 1];
    }
  }

  /** Every sample of a file is in its place, low byte first. */
  lemma SampleBytes(rate: int, pcm: seq<int>, i: nat)
    requires AllInt16(pcm) && i < |pcm|
    ensures |Encode(rate, pcm)| == 44 + 2 * |pcm|
    ensures var word := if pcm[i] < 0 then pcm[i] + 0x1_0000 else pcm[i];
      Encode(rate, pcm)[44 + 2 * i] == word % 256 && Encode(rate, pcm)[45 + 2 * i] == word / 256
  {
    BodyAt(pcm, i);
    CastIs(pcm[i]);
  }

  // ---------------------------------------------------------------- silence

  function Zeros(n: nat): (z: seq<Byte>)
    ensures |z| == n
  {
    seq(n, _ => 0)
  }

  /** std::vector::resize with zero fill: longer or shorter. */
  function Resized(b: seq<Byte>, n: nat): (c: seq<Byte>)
    ensures |c| == n
  {
    if n <= |b| then b[..n] else b + Zeros(n - |b|)
  }

  method Resize(a: array<Byte>, n: nat) returns (c: array<Byte>)
    ensures fresh(c) && c[..] == Resized(a[..], n)
  {
    c := new Byte[n](_ => 0);
    for i := 0 to n
      invariant forall k | 0 <= k < i && k < a.Length :: c[k] == a[k]
      invariant forall k | 0 <= k < n && (i <= k || a.Length <= k) :: c[k] == 0
    {
      if i < a.Length {
        c[i] := a[i];
      }
    }
  }

  /** What build_silent_wav makes of its sample count: the length is computed in uint32_t too. */
  function Silence(rate: int, numSamples: nat): seq<Byte> {
    Resized(Header(rate, numSamples), (44 + 2 * numSamples) % TWO_32)
  }

  lemma ProductFloor(rate: int, duration: real)
    requires rate > 0 && duration >= 0.0
    ensures (rate as real * duration).Floor >= 0
  {
    assert rate as real * duration >= 0.0;
  }

  /** The sample count must fit uint32_t for the conversion from double to be defined. */
  method BuildSilentWav(rate: int, duration: real) returns (wav: array<Byte>)
    requires rate < 0x4000_0000 && (rate > 0 && duration >= 0.0 ==> (rate as real * duration).Floor < TWO_32)
    ensures fresh(wav)
    ensures wav[..] == if rate <= 0 || duration < 0.0 then [] else Silence(rate, (rate as real * duration).Floor)
    ensures rate > 0 && duration >= 0.0 ==> wav.Length == (44 + 2 * (rate as real * duration).Floor) % TWO_32
  {
    if rate <= 0 || duration < 0.0 {
      wav := new Byte[0];
      return;
    }
    ProductFloor(rate, duration);
    var numSamples := (rate as real * duration).Floor;
    var hdr := BuildWavHeader(rate, numSamples);
    wav := Resize(hdr, (44 + numSamples * 2) % TWO_32);
  }

  function ZeroSamples(n: nat): (pcm: seq<int>)
    ensures |pcm| == n && AllInt16(pcm)
  {
    seq(n, _ => 0)
  }

  lemma {:induction false} ZeroBody(n: nat)
    ensures Body(ZeroSamples(n)) == Zeros(2 * n)
  {
    if n > 0 {
      ZeroBody(n - 1);
      assert ZeroSamples(n)[..n - 1] == ZeroSamples(n - 1);
      assert Zeros(2 * n) == Zeros(2 * (n - 1)) + [0, 0];
    }
  }

  /** Header and zeros, as far as the wrapped length goes. */
  lemma SilenceLayout(rate: int, numSamples: nat, i: nat)
    requires i < |Silence(rate, numSamples)|
    ensures |Silence(rate, numSamples)| == (44 + 2 * numSamples) % 0x1_0000_0000
    ensures Silence(rate, numSamples)[i] == if i < 44 then Header(rate, numSamples)[i] else 0
  {
  }

  /** Silence decodes to its own sample count exactly as long as header and samples fit 32 bits. */
  lemma SilenceRoundTrip(rate: nat, numSamples: nat)
    requires 0 < rate < TWO_32 && numSamples < TWO_32
    ensures Decode(Silence(rate, numSamples)) == Some(Audio(rate, ZeroSamples(numSamples))) <==> FitsSizes(numSamples)
  {
    var b := Silence(rate, numSamples);
    if FitsSizes(numSamples) {
      SizesDoNotWrap(numSamples);
      ZeroBody(numSamples);
      assert b == Header(rate, numSamples) + Zeros(2 * numSamples);
      EncodeIsExact(rate, ZeroSamples(numSamples), b);
    } else {
      assert |b| < 44 + 2 * numSamples;
    }
  }

  // ---------------------------------------------------------------- float samples

  function Clamp(x: real): real {
    var low := if x > 1.0 then 1.0 else x;
    if low < -1.0 then -1.0 else low
  }

  /** static_cast<int16_t> of a float: toward zero. */
  function Truncate(x: real): int {
    if x >= 0.0 then x.Floor else -((-x).Floor)
  }

  function Quantise(x: real): int {
    Truncate(Clamp(x) * 32767.0)
  }

  lemma QuantiseInRange(x: real)
    ensures -32767 <= Quantise(x) <= 32767 && IsInt16(Quantise(x))
  {
  }

  lemma QuantiseIsOdd(x: real)
    ensures Quantise(-x) == -Quantise(x)
  {
    assert Clamp(-x) == -Clamp(x);
  }

  lemma QuantiseIsMonotone(x: real, y: real)
    requires x <= y
    ensures Quantise(x) <= Quantise(y)
  {
    assert Clamp(x) * 32767.0 <= Clamp(y) * 32767.0;
  }

  lemma QuantiseError(x: real)
    ensures -1.0 / 32767.0 < Quantise(x) as real / 32767.0 - Clamp(x) < 1.0 / 32767.0
  {
    var scaled := Clamp(x) * 32767.0;
    assert -1.0 < Quantise(x) as real - scaled < 1.0;
    assert Quantise(x) as real / 32767.0 - Clamp(x) == (Quantise(x) as real - scaled) / 32767.0;
  }

  /** The cast goes toward zero: the sample times 32767 lies between the result and the next number away from
      zero; and what is out of range is clamped. */
  lemma QuantiseTruncates(x: real)
    ensures 0.0 <= x <= 1.0 ==> Quantise(x) as real <= x * 32767.0 < (Quantise(x) + 1) as real
    ensures -1.0 <= x <= 0.0 ==> (Quantise(x) - 1) as real < x * 32767.0 <= Quantise(x) as real
    ensures (x >= 1.0 ==> Quantise(x) == 32767) && (x <= -1.0 ==> Quantise(x) == -32767)
  {
  }

  function Quantised(samples: seq<real>): (pcm: seq<int>)
    ensures |pcm| == |samples| && AllInt16(pcm)
    ensures forall i | 0 <= i < |pcm| :: pcm[i] == Quantise(samples[i])
  {
    seq(|samples|, i requires 0 <= i < |samples| => QuantiseInRange(samples[i]); Quantise(samples[i]))
  }

  lemma BodySnoc(pcm: seq<int>, i: nat)
    requires AllInt16(pcm) && i < |pcm|
    ensures Body(pcm[..i + 1]) == Body(pcm[..i]) + U16(AsU16(pcm[i]))
  {
    assert pcm[..i + 1][..i] == pcm[..i];
  }

  lemma OneSampleMore(header: seq<Byte>, before: seq<Byte>, body: seq<Byte>, sample: seq<Byte>)
    requires before == header + body
    ensures before + sample == header + (body + sample)
  {
  }

  /** The sample loop: bytes 44 + 2i and 45 + 2i take sample i. */
  method FillSamples(wav: array<Byte>, samples: array<real>, n: nat)
    requires n <= samples.Length && wav.Length == 44 + 2 * n
    modifies wav
    ensures wav[..] == old(wav[..44]) + Body(Quantised(samples[..n]))
  {
    ghost var pcm := Quantised(samples[..n]);
    for i := 0 to n
      invariant wav[..44 + 2 * i] == old(wav[..44]) + Body(pcm[..i])
    {
      var sample := Quantise(samples[i]);
      QuantiseInRange(samples[i]);
      ghost var before := wav[..44 + 2 * i];
      WriteU16(wav, 44 + 2 * i, AsU16(sample));
      BodySnoc(pcm, i);
      OneSampleMore(old(wav[..44]), before, Body(pcm[..i]), U16(AsU16(sample)));
    }
    assert pcm[..n] == pcm && wav[..] == wav[..44 + 2 * n];
  }

  /** Beyond the size bound the program would write outside its buffer, so the bound is a precondition. */
  method BuildWavFromFloatSamples(samples: array?<real>, nSamples: int, rate: int) returns (wav: array<Byte>)
    requires -0x4000_0000 <= rate < 0x4000_0000
    requires samples != null && nSamples > 0 ==> nSamples <= samples.Length && FitsSizes(nSamples)
    ensures fresh(wav)
    ensures samples != null && nSamples > 0 ==> wav[..] == Encode(rate, Quantised(samples[..nSamples]))
    ensures samples == null || nSamples <= 0 ==> wav[..] == if rate <= 0 then [] else Encode(rate, [])
  {
    if nSamples <= 0 || samples == null {
      wav := BuildSilentWav(rate, 0.0);
      SizesDoNotWrap(0);
      return;
    }
    SizesDoNotWrap(nSamples);
    var hdr := BuildWavHeader(rate, nSamples);
    wav := Resize(hdr, (44 + nSamples * 2) % TWO_32);
    assert wav[..44] == wav[..][..44];
    FillSamples(wav, samples, nSamples);
  }
}
