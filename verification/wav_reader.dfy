/** `WavReader.ts`: the canonical 44-byte RIFF/WAVE header read at fixed
    little-endian offsets, then signed PCM samples read from byte 44 on,
    de-interleaved into left and right for two channels. */
module WavReader {
  import opened Common
  import opened Audio

  type Byte = b: int | 0 <= b < 256

  /** 256^w, the number of values `w` bytes hold. */
  function Pow256(w: nat): (r: nat)
    ensures 0 < r
  {
    if w == 0 then 1 else 256 * Pow256(w - 1)
  }

  /** The unsigned little-endian value of the `w` bytes at `offset`. */
  function LeValue(buf: seq<Byte>, offset: nat, w: nat): (r: nat)
    requires offset + w <= |buf|
    decreases w
    ensures r < Pow256(w)
  {
    if w == 0 then 0 else buf[offset] + 256 * LeValue(buf, offset + 1, w - 1)
  }

  /** The `w` little-endian bytes of `v`: what a writer stores and
      `LeValue` reads back. */
  function LeBytes(v: nat, w: nat): (r: seq<Byte>)
    requires v < Pow256(w)
    ensures |r| == w
  {
    if w == 0 then [] else [v % 256] + LeBytes(v / 256, w - 1)
  }

  /** Reading the bytes of `v` gives `v`. */
  lemma {:induction false} LeValueOfBytes(buf: seq<Byte>, offset: nat, v: nat, w: nat)
    requires offset + w <= |buf| && v < Pow256(w)
    requires buf[offset..offset + w] == LeBytes(v, w)
    decreases w
    ensures LeValue(buf, offset, w) == v
  {
    if w > 0 {
      assert buf[offset] == buf[offset..offset + w][0];
      assert buf[offset + 1..offset + 1 + (w - 1)] == buf[offset..offset + w][1..];
      LeValueOfBytes(buf, offset + 1, v / 256, w - 1);
    }
  }

  /** Writing back the value read gives the bytes read. */
  lemma {:induction false} BytesOfLeValue(buf: seq<Byte>, offset: nat, w: nat)
    requires offset + w <= |buf|
    decreases w
    ensures LeBytes(LeValue(buf, offset, w), w) == buf[offset..offset + w]
  {
    if w > 0 {
      var v := LeValue(buf, offset, w);
      assert v % 256 == buf[offset] && v / 256 == LeValue(buf, offset + 1, w - 1);
      BytesOfLeValue(buf, offset + 1, w - 1);
      assert buf[offset..offset + w] == [buf[offset]] + buf[offset + 1..offset + 1 + (w - 1)];
    }
  }

  /** The values a `w`-byte two's complement integer holds. */
  predicate SignedRange(x: int, w: nat) {
    -(Pow256(w) as int) <= 2 * x < Pow256(w)
  }

  /** `readInt8` / `readInt16LE` / `readInt32LE`: the unsigned value read
      as two's complement. */
  function ToSigned(u: nat, w: nat): (x: int)
    requires u < Pow256(w)
    ensures SignedRange(x, w)
  {
    if 2 * u >= Pow256(w) then u - Pow256(w) else u
  }

  /** The unsigned pattern of a two's complement value. */
  function FromSigned(x: int, w: nat): (u: nat)
    requires SignedRange(x, w)
    ensures u < Pow256(w)
  {
    if x < 0 then x + Pow256(w) else x
  }

  lemma SignedRoundTrip(x: int, u: nat, w: nat)
    requires SignedRange(x, w) && u < Pow256(w)
    ensures ToSigned(FromSigned(x, w), w) == x
    ensures FromSigned(ToSigned(u, w), w) == u
  {
  }

  /** A fixed-width unsigned read: a `RangeError` when the field runs past
      the end of the buffer. */
  function ReadUInt(buf: seq<Byte>, offset: nat, w: nat): (r: Result<nat>)
    ensures r.Success? <==> offset + w <= |buf|
    ensures r.Failure? ==> r.error == OutOfBounds
    ensures r.Success? ==> r.value == LeValue(buf, offset, w)
  {
    if offset + w <= |buf| then
      Success(LeValue(buf, offset, w))
    else Failure(OutOfBounds)
  }

  /** The signed sample stored at `offset`. */
  function SampleAt(buf: seq<Byte>, offset: nat, w: nat): (x: int)
    requires offset + w <= |buf|
    ensures SignedRange(x, w)
  {
    ToSigned(LeValue(buf, offset, w), w)
  }

  /** A fixed-width signed read, failing past the end of the buffer. */
  function ReadInt(buf: seq<Byte>, offset: nat, w: nat): (r: Result<int>)
    ensures r.Success? <==> offset + w <= |buf|
    ensures r.Failure? ==> r.error == OutOfBounds
    ensures r.Success? ==> r.value == SampleAt(buf, offset, w)
  {
    var u :- ReadUInt(buf, offset, w);
    Success(ToSigned(u, w))
  }

  /** `buffer.toString('ascii', start, end)`: the end is clamped to the
      buffer, an empty range gives "", and each byte loses its high bit. */
  function Ascii(buf: seq<Byte>, start: nat, end: nat): (r: string)
    ensures |r| == if start < end && start < |buf| then (if end < |buf| then end else |buf|) - start else 0
    ensures forall i :: 0 <= i < |r| ==> r[i] as int == buf[start + i] % 128
  {
    var e := if end < |buf| then end else |buf|;
    if start >= e then ""
    else seq(e - start, i requires 0 <= i < e - start => (buf[start + i] % 128) as char)
  }

  /** The header fields, as `parseHeader` names them. */
  datatype Header = Header(
    chunkId: string,
    chunkSize: nat,
    format: string,
    subchunk1Id: string,
    subchunk1Size: nat,
    audioFormat: nat,
    numChannels: nat,
    sampleRate: nat,
    byteRate: nat,
    blockAlign: nat,
    bitsPerSample: nat,
    subchunk2Id: string,
    subchunk2Size: nat
  )

  /** `parseHeader(buffer)`: every field at its fixed offset. A buffer
      shorter than the 44 header bytes makes one of the reads throw. */
  function ParseHeader(buf: seq<Byte>): (r: Result<Header>)
    ensures r.Success? <==> |buf| >= 44
    ensures r.Failure? ==> r.error == OutOfBounds
  {
    var chunkSize :- ReadUInt(buf, 4, 4);
    var subchunk1Size :- ReadUInt(buf, 16, 4);
    var audioFormat :- ReadUInt(buf, 20, 2);
    var numChannels :- ReadUInt(buf, 22, 2);
    var sampleRate :- ReadUInt(buf, 24, 4);
    var byteRate :- ReadUInt(buf, 28, 4);
    var blockAlign :- ReadUInt(buf, 32, 2);
    var bitsPerSample :- ReadUInt(buf, 34, 2);
    var subchunk2Size :- ReadUInt(buf, 40, 4);
    Success(Header(Ascii(buf, 0, 4), chunkSize, Ascii(buf, 8, 12), Ascii(buf, 12, 16),
                   subchunk1Size, audioFormat, numChannels, sampleRate, byteRate,
                   blockAlign, bitsPerSample, Ascii(buf, 36, 40), subchunk2Size))
  }

  /** A four-character chunk id of 7-bit characters. */
  predicate ChunkId(s: string) {
    |s| == 4 && forall i :: 0 <= i < 4 ==> s[i] as int < 128
  }

  /** A header every field of which fits its slot. */
  predicate WellFormed(h: Header) {
    && ChunkId(h.chunkId) && ChunkId(h.format) && ChunkId(h.subchunk1Id) && ChunkId(h.subchunk2Id)
    && h.chunkSize < Pow256(4) && h.subchunk1Size < Pow256(4) && h.audioFormat < Pow256(2)
    && h.numChannels < Pow256(2) && h.sampleRate < Pow256(4) && h.byteRate < Pow256(4)
    && h.blockAlign < Pow256(2) && h.bitsPerSample < Pow256(2) && h.subchunk2Size < Pow256(4)
  }

  function IdBytes(s: string): (r: seq<Byte>)
    requires ChunkId(s)
    ensures |r| == 4
  {
    seq(4, i requires 0 <= i < 4 => s[i] as int)
  }

  /** The 44 bytes a writer of `h` produces: the inverse of `ParseHeader`. */
  function EncodeHeader(h: Header): (r: seq<Byte>)
    requires WellFormed(h)
    ensures |r| == 44
  {
    IdBytes(h.chunkId) + LeBytes(h.chunkSize, 4) + IdBytes(h.format) + IdBytes(h.subchunk1Id)
    + LeBytes(h.subchunk1Size, 4) + LeBytes(h.audioFormat, 2) + LeBytes(h.numChannels, 2)
    + LeBytes(h.sampleRate, 4) + LeBytes(h.byteRate, 4) + LeBytes(h.blockAlign, 2)
    + LeBytes(h.bitsPerSample, 2) + IdBytes(h.subchunk2Id) + LeBytes(h.subchunk2Size, 4)
  }

  /** A field written with `LeBytes` reads back as its value. */
  lemma FieldReadsBack(buf: seq<Byte>, offset: nat, w: nat, v: nat)
    requires v < Pow256(w) && offset + w <= |buf|
    requires buf[offset..offset + w] == LeBytes(v, w)
    ensures ReadUInt(buf, offset, w) == Success(v)
  {
    LeValueOfBytes(buf, offset, v, w);
  }

  /** A chunk id written with `IdBytes` reads back as itself. */
  lemma IdReadsBack(buf: seq<Byte>, offset: nat, s: string)
    requires ChunkId(s) && offset + 4 <= |buf|
    requires buf[offset..offset + 4] == IdBytes(s)
    ensures Ascii(buf, offset, offset + 4) == s
  {
    var a := Ascii(buf, offset, offset + 4);
    forall i | 0 <= i < 4 ensures a[i] == s[i] {
      assert buf[offset + i] == buf[offset..offset + 4][i];
    }
  }

  /** Parsing undoes writing: a well-formed header followed by any bytes
      parses back to itself. */
  lemma HeaderRoundTrip(h: Header, rest: seq<Byte>)
    requires WellFormed(h)
    ensures ParseHeader(EncodeHeader(h) + rest) == Success(h)
  {
    RiffFieldsReadBack(h, rest);
    FormatFieldsReadBack(h, rest);
    DataFieldsReadBack(h, rest);
  }

  /** The RIFF descriptor: `chunkId`, `chunkSize`, `format`. */
  lemma RiffFieldsReadBack(h: Header, rest: seq<Byte>)
    requires WellFormed(h)
    ensures var b := EncodeHeader(h) + rest;
      && Ascii(b, 0, 4) == h.chunkId && ReadUInt(b, 4, 4) == Success(h.chunkSize)
      && Ascii(b, 8, 12) == h.format
  {
    var b := EncodeHeader(h) + rest;
    IdReadsBack(b, 0, h.chunkId);
    FieldReadsBack(b, 4, 4, h.chunkSize);
    IdReadsBack(b, 8, h.format);
  }

  /** The `fmt ` sub-chunk, bytes 12 to 36. */
  lemma FormatFieldsReadBack(h: Header, rest: seq<Byte>)
    requires WellFormed(h)
    ensures var b := EncodeHeader(h) + rest;
      && Ascii(b, 12, 16) == h.subchunk1Id && ReadUInt(b, 16, 4) == Success(h.subchunk1Size)
      && ReadUInt(b, 20, 2) == Success(h.audioFormat) && ReadUInt(b, 22, 2) == Success(h.numChannels)
      && ReadUInt(b, 24, 4) == Success(h.sampleRate) && ReadUInt(b, 28, 4) == Success(h.byteRate)
      && ReadUInt(b, 32, 2) == Success(h.blockAlign) && ReadUInt(b, 34, 2) == Success(h.bitsPerSample)
  {
    var b := EncodeHeader(h) + rest;
    IdReadsBack(b, 12, h.subchunk1Id);
    FieldReadsBack(b, 16, 4, h.subchunk1Size);
    FieldReadsBack(b, 20, 2, h.audioFormat);
    FieldReadsBack(b, 22, 2, h.numChannels);
    FormatRatesReadBack(h, rest);
  }

  lemma FormatRatesReadBack(h: Header, rest: seq<Byte>)
    requires WellFormed(h)
    ensures var b := EncodeHeader(h) + rest;
      && ReadUInt(b, 24, 4) == Success(h.sampleRate) && ReadUInt(b, 28, 4) == Success(h.byteRate)
      && ReadUInt(b, 32, 2) == Success(h.blockAlign) && ReadUInt(b, 34, 2) == Success(h.bitsPerSample)
  {
    var b := EncodeHeader(h) + rest;
    FieldReadsBack(b, 24, 4, h.sampleRate);
    FieldReadsBack(b, 28, 4, h.byteRate);
    FieldReadsBack(b, 32, 2, h.blockAlign);
    FieldReadsBack(b, 34, 2, h.bitsPerSample);
  }

  /** The `data` sub-chunk header, bytes 36 to 44. */
  lemma DataFieldsReadBack(h: Header, rest: seq<Byte>)
    requires WellFormed(h)
    ensures var b := EncodeHeader(h) + rest;
      Ascii(b, 36, 40) == h.subchunk2Id && ReadUInt(b, 40, 4) == Success(h.subchunk2Size)
  {
    var b := EncodeHeader(h) + rest;
    IdReadsBack(b, 36, h.subchunk2Id);
    FieldReadsBack(b, 40, 4, h.subchunk2Size);
  }

  /** The arrays the reader fills: `audioData`, `audioDataLeft` and
      `audioDataRight`, each empty until the matching branch assigns it. */
  datatype Channels = Channels(audioData: seq<int>, left: seq<int>, right: seq<int>)

  /** `bytesPerSample` is 1, 2 or 4, the widths the loop knows. */
  predicate SupportedWidth(bitsPerSample: nat) {
    bitsPerSample == 8 || bitsPerSample == 16 || bitsPerSample == 32
  }

  /** `dataSize / bytesPerSample` with `bytesPerSample = bitsPerSample / 8`,
      in exact arithmetic; `None` stands for the NaN or Infinity a zero bit
      depth gives. */
  function NumSamples(h: Header): Option<real> {
    if h.bitsPerSample == 0 then None
    else Some(h.subchunk2Size as real / (h.bitsPerSample as real / 8.0))
  }

  /** Half a sample count: NaN and Infinity stay what they are. */
  function Half(n: Option<real>): Option<real> {
    if n.None? then None else Some(n.value / 2.0)
  }

  /** `new Array(n)`: a `RangeError` unless `n` is a valid length. */
  function ArrayLength(n: Option<real>): (r: Result<nat>)
    ensures r.Success? <==> n.Some? && IsArrayLength(n.value)
    ensures r.Failure? ==> r.error == InvalidArrayLength
    ensures r.Success? ==> r.value as real == n.value
  {
    if n.Some? && IsArrayLength(n.value) then Success(n.value.Floor) else Failure(InvalidArrayLength)
  }

  lemma MulMono(i: nat, k: nat, s: nat)
    requires i <= k
    ensures i * s <= k * s
  {
  }

  /** Where sample `j` starts when samples are `stride` bytes apart. */
  function Pos(start: nat, j: nat, stride: nat): nat {
    NatMul(j, stride);
    start + j * stride
  }

  /** The mono loop from index `i` on: sample `j` of `w` bytes sits at
      `start + j * stride`, and the first read past the end throws. */
  function DecodeFrom(buf: seq<Byte>, start: nat, stride: nat, w: nat, i: nat, count: nat): (r: Result<seq<int>>)
    requires i <= count
    decreases count - i
    ensures r.Success? <==> i == count || Pos(start, count - 1, stride) + w <= |buf|
    ensures r.Failure? ==> r.error == OutOfBounds
    ensures r.Success? ==> |r.value| == count - i
    ensures r.Success? ==> forall j :: i <= j < count ==>
      Pos(start, j, stride) + w <= |buf| && r.value[j - i] == SampleAt(buf, Pos(start, j, stride), w)
  {
    if i == count then Success([])
    else
      MulMono(i, count - 1, stride);
      var x :- ReadInt(buf, Pos(start, i, stride), w);
      var rest :- DecodeFrom(buf, start, stride, w, i + 1, count);
      Success([x] + rest)
  }

  /** `count` samples of `w` bytes, `stride` bytes apart from `start`. */
  function Decode(buf: seq<Byte>, start: nat, stride: nat, w: nat, count: nat): (r: Result<seq<int>>)
    ensures r.Success? <==> count == 0 || Pos(start, count - 1, stride) + w <= |buf|
    ensures r.Failure? ==> r.error == OutOfBounds
    ensures r.Success? ==> |r.value| == count
    ensures r.Success? ==> forall j :: 0 <= j < count ==>
      Pos(start, j, stride) + w <= |buf| && r.value[j] == SampleAt(buf, Pos(start, j, stride), w)
  {
    DecodeFrom(buf, start, stride, w, 0, count)
  }

  /** The stereo loop from frame `i` on: frame `j` holds the left sample
      at `start + j * (2 * w)` and the right one `w` bytes later, so the
      left channel is every other sample from `start` and the right one
      every other sample from `start + w`. */
  function DecodeFrames(buf: seq<Byte>, start: nat, w: nat, i: nat, count: nat): (r: Result<(seq<int>, seq<int>)>)
    requires i <= count
    decreases count - i
    ensures r.Success? <==> i == count || Pos(start, count - 1, 2 * w) + 2 * w <= |buf|
    ensures r.Failure? ==> r.error == OutOfBounds
    ensures r.Success? ==> DecodeFrom(buf, start, 2 * w, w, i, count) == Success(r.value.0)
    ensures r.Success? ==> DecodeFrom(buf, start + w, 2 * w, w, i, count) == Success(r.value.1)
  {
    if i == count then Success(([], []))
    else
      MulMono(i, count - 1, 2 * w);
      var left :- ReadInt(buf, Pos(start, i, 2 * w), w);
      var right :- ReadInt(buf, Pos(start, i, 2 * w) + w, w);
      var rest :- DecodeFrames(buf, start, w, i + 1, count);
      Success(([left] + rest.0, [right] + rest.1))
  }

  /** `bytesPerSample`, for the widths it is used with. */
  function Width(h: Header): nat {
    h.bitsPerSample / 8
  }

  /** The one-channel branch of `parseAudioData`: the array allocation
      comes first, then the width check on the first sample, then the
      reads from byte 44 on. */
  function ParseMono(buf: seq<Byte>, h: Header): (r: Result<seq<int>>)
    ensures r.Success? <==>
      && ArrayLength(NumSamples(h)).Success?
      && var n := ArrayLength(NumSamples(h)).value;
         n == 0 || (SupportedWidth(h.bitsPerSample) && Pos(44, n - 1, Width(h)) + Width(h) <= |buf|)
    ensures r.Failure? && ArrayLength(NumSamples(h)).Success? && !SupportedWidth(h.bitsPerSample)
            ==> r.error == UnsupportedBitDepth(h.bitsPerSample)
    ensures r.Success? ==> NumSamples(h) == Some(|r.value| as real)
    ensures r.Success? ==> r.value == Decode(buf, 44, Width(h), Width(h), |r.value|).value
  {
    var n :- ArrayLength(NumSamples(h));
    if n > 0 && !SupportedWidth(h.bitsPerSample) then Failure(UnsupportedBitDepth(h.bitsPerSample))
    else Decode(buf, 44, Width(h), Width(h), n)
  }

  /** The two-channel branch: `numSamples / 2` frames, each a left and a
      right sample. */
  function ParseStereo(buf: seq<Byte>, h: Header): (r: Result<(seq<int>, seq<int>)>)
    ensures r.Success? <==>
      && ArrayLength(Half(NumSamples(h))).Success?
      && var n := ArrayLength(Half(NumSamples(h))).value;
         n == 0 || (SupportedWidth(h.bitsPerSample) && Pos(44, n - 1, 2 * Width(h)) + 2 * Width(h) <= |buf|)
    ensures r.Failure? && ArrayLength(Half(NumSamples(h))).Success? && !SupportedWidth(h.bitsPerSample)
            ==> r.error == UnsupportedBitDepth(h.bitsPerSample)
    ensures r.Success? ==> NumSamples(h) == Some(2.0 * |r.value.0| as real) && |r.value.1| == |r.value.0|
    ensures r.Success? ==> r.value.0 == Decode(buf, 44, 2 * Width(h), Width(h), |r.value.0|).value
    ensures r.Success? ==> r.value.1 == Decode(buf, 44 + Width(h), 2 * Width(h), Width(h), |r.value.0|).value
  {
    var n :- ArrayLength(Half(NumSamples(h)));
    if n > 0 && !SupportedWidth(h.bitsPerSample) then Failure(UnsupportedBitDepth(h.bitsPerSample))
    else DecodeFrames(buf, 44, Width(h), 0, n)
  }

  /** `parseAudioData(buffer)`: one channel fills `audioData`, two fill
      `audioDataLeft` and `audioDataRight`, any other count throws.
      Samples are read from byte 44 whatever `subchunk1Size` says. */
  function ParseAudioData(buf: seq<Byte>, h: Header): (r: Result<Channels>)
    ensures h.numChannels != 1 && h.numChannels != 2 ==> r == Failure(UnsupportedChannels(h.numChannels))
    ensures h.numChannels == 1 ==> (r.Success? <==> ParseMono(buf, h).Success?)
    ensures h.numChannels == 2 ==> (r.Success? <==> ParseStereo(buf, h).Success?)
    ensures h.numChannels == 1 && r.Success? ==> r.value == Channels(ParseMono(buf, h).value, [], [])
    ensures h.numChannels == 2 && r.Success? ==>
      r.value == Channels([], ParseStereo(buf, h).value.0, ParseStereo(buf, h).value.1)
  {
    if h.numChannels == 1 then
      var data :- ParseMono(buf, h);
      Success(Channels(data, [], []))
    else if h.numChannels == 2 then
      var frames :- ParseStereo(buf, h);
      Success(Channels([], frames.0, frames.1))
    else
      Failure(UnsupportedChannels(h.numChannels))
  }

  /** Integer samples as the numbers the effects take. */
  function Reals(s: seq<int>): (r: seq<real>)
    ensures |r| == |s|
    ensures forall i :: 0 <= i < |s| ==> r[i] == s[i] as real
  {
    seq(|s|, i requires 0 <= i < |s| => s[i] as real)
  }

  /** `getAudioData()`: `{audioData}` for one channel; for two, the still
      empty `audioData` together with both channels. */
  function GetAudioData(h: Header, ch: Channels): (r: Result<Container>)
    ensures r.Success? <==> h.numChannels == 1 || h.numChannels == 2
    ensures r.Failure? ==> r.error == UnsupportedChannels(h.numChannels)
    ensures h.numChannels == 1 ==> !IsStereo(r.value) && r.value.mono == Some(Reals(ch.audioData))
    ensures h.numChannels == 2 ==>
      IsStereo(r.value) && r.value.left == Some(Reals(ch.left)) && r.value.right == Some(Reals(ch.right))
  {
    if h.numChannels == 1 then Success(Container(Some(Reals(ch.audioData)), None, None))
    else if h.numChannels == 2 then
      Success(Container(Some(Reals(ch.audioData)), Some(Reals(ch.left)), Some(Reals(ch.right))))
    else Failure(UnsupportedChannels(h.numChannels))
  }

  /** A parsed file: `getHeader()` and `getAudioData()`. */
  datatype WavFile = WavFile(header: Header, audio: Container)

  /** `readWavFile` followed by the two getters, on the bytes of the file. */
  function ReadWav(buf: seq<Byte>): (r: Result<WavFile>)
    ensures |buf| < 44 ==> r == Failure(OutOfBounds)
    ensures r.Success? <==> ParseHeader(buf).Success? && ParseAudioData(buf, ParseHeader(buf).value).Success?
    ensures r.Success? ==> r.value.header == ParseHeader(buf).value
    ensures r.Success? && r.value.header.numChannels == 1 ==>
      r.value.audio == Container(Some(Reals(ParseAudioData(buf, r.value.header).value.audioData)), None, None)
    ensures r.Success? && r.value.header.numChannels == 2 ==>
      var ch := ParseAudioData(buf, r.value.header).value;
      r.value.audio == Container(Some([]), Some(Reals(ch.left)), Some(Reals(ch.right)))
  {
    var h :- ParseHeader(buf);
    var ch :- ParseAudioData(buf, h);
    Success(WavFile(h, GetAudioData(h, ch).value))
  }

  /** With one of the supported widths, a data chunk of `k` whole samples
      announces exactly `k` samples, or `k / 2` frames when `k` is even. */
  lemma SampleCountOfWholeSamples(h: Header, k: nat)
    requires SupportedWidth(h.bitsPerSample)
    requires h.subchunk2Size == k * Width(h)
    ensures NumSamples(h) == Some(k as real)
    ensures Half(NumSamples(h)) == Some(k as real / 2.0)
  {
    var b := h.bitsPerSample as real;
    assert b / 8.0 == Width(h) as real;
    assert (k * Width(h)) as real == k as real * Width(h) as real;
  }

  /** The bytes of `s` as `w`-byte two's complement samples, in order. */
  function EncodeSamples(s: seq<int>, w: nat): (r: seq<Byte>)
    requires forall i :: 0 <= i < |s| ==> SignedRange(s[i], w)
    ensures |r| == |s| * w
  {
    if |s| == 0 then []
    else
      SuccMul(|s| - 1, w);
      LeBytes(FromSigned(s[0], w), w) + EncodeSamples(s[1..], w)
  }

  lemma NatMul(a: nat, b: nat)
    ensures 0 <= a * b
  {
  }

  lemma SuccMul(n: nat, w: nat)
    ensures (n + 1) * w == w + n * w
  {
  }

  lemma SuffixSlice(a: seq<Byte>, b: seq<Byte>, i: nat, j: nat)
    requires i <= j <= |b|
    ensures (a + b)[|a| + i .. |a| + j] == b[i..j]
  {
  }

  /** Chunk `j` of `head + tail`, for a `head` of one chunk, is chunk
      `j - 1` of `tail`. */
  lemma ShiftChunk(head: seq<Byte>, tail: seq<Byte>, j: nat, w: nat)
    requires |head| == w && 0 < j && (j - 1) * w + w <= |tail|
    ensures j * w + w <= |head + tail|
    ensures (head + tail)[j * w .. j * w + w] == tail[(j - 1) * w .. (j - 1) * w + w]
  {
    SuccMul(j - 1, w);
    NatMul(j - 1, w);
    SuffixSlice(head, tail, (j - 1) * w, (j - 1) * w + w);
  }

  /** Sample `j` of an encoding occupies bytes `j * w` to `j * w + w`. */
  lemma {:induction false} EncodedSlice(s: seq<int>, w: nat, j: nat)
    requires forall i :: 0 <= i < |s| ==> SignedRange(s[i], w)
    requires j < |s|
    ensures j * w + w <= |EncodeSamples(s, w)|
    ensures EncodeSamples(s, w)[j * w .. j * w + w] == LeBytes(FromSigned(s[j], w), w)
  {
    var head := LeBytes(FromSigned(s[0], w), w);
    var tail := EncodeSamples(s[1..], w);
    assert EncodeSamples(s, w) == head + tail;
    if j == 0 {
      assert (head + tail)[0..w] == head;
    } else {
      EncodedSlice(s[1..], w, j - 1);
      assert s[1..][j - 1] == s[j];
      ShiftChunk(head, tail, j, w);
    }
  }

  /** The sample whose bytes are those of `x` is `x`. */
  lemma SampleOfBytes(buf: seq<Byte>, offset: nat, w: nat, x: int)
    requires offset + w <= |buf| && SignedRange(x, w)
    requires buf[offset..offset + w] == LeBytes(FromSigned(x, w), w)
    ensures SampleAt(buf, offset, w) == x
  {
    LeValueOfBytes(buf, offset, FromSigned(x, w), w);
    SignedRoundTrip(x, 0, w);
  }

  /** Bytes `a` to `a + w` of `enc` placed after `prefix`, holding the
      pattern of `x`, read back as `x`. */
  lemma SampleInSuffix(prefix: seq<Byte>, enc: seq<Byte>, a: nat, w: nat, x: int)
    requires a + w <= |enc| && SignedRange(x, w)
    requires enc[a..a + w] == LeBytes(FromSigned(x, w), w)
    ensures SampleAt(prefix + enc, |prefix| + a, w) == x
  {
    SuffixSlice(prefix, enc, a, a + w);
    SampleOfBytes(prefix + enc, |prefix| + a, w, x);
  }

  /** Sample `j` of an encoding placed after `prefix` reads back as `s[j]`. */
  lemma EncodedSampleAt(prefix: seq<Byte>, s: seq<int>, w: nat, j: nat)
    requires forall i :: 0 <= i < |s| ==> SignedRange(s[i], w)
    requires j < |s|
    ensures Pos(|prefix|, j, w) + w <= |prefix + EncodeSamples(s, w)|
    ensures SampleAt(prefix + EncodeSamples(s, w), Pos(|prefix|, j, w), w) == s[j]
  {
    EncodedSlice(s, w, j);
    NatMul(j, w);
    SampleInSuffix(prefix, EncodeSamples(s, w), j * w, w, s[j]);
  }

  /** The loop decodes `expected` when every sample it reads is the
      expected one. */
  lemma DecodeMatches(buf: seq<Byte>, start: nat, stride: nat, w: nat, expected: seq<int>)
    requires forall j :: 0 <= j < |expected| ==>
      Pos(start, j, stride) + w <= |buf| && SampleAt(buf, Pos(start, j, stride), w) == expected[j]
    ensures Decode(buf, start, stride, w, |expected|) == Success(expected)
  {
    var d := Decode(buf, start, stride, w, |expected|);
    assert d.Success?;
    assert d.value == expected;
  }

  /** Decoding an encoding, wherever it starts in the buffer, gives back
      the samples. */
  lemma DecodeEncoded(prefix: seq<Byte>, s: seq<int>, w: nat)
    requires forall i :: 0 <= i < |s| ==> SignedRange(s[i], w)
    ensures Decode(prefix + EncodeSamples(s, w), |prefix|, w, w, |s|) == Success(s)
  {
    var buf := prefix + EncodeSamples(s, w);
    forall j | 0 <= j < |s|
      ensures Pos(|prefix|, j, w) + w <= |buf| && SampleAt(buf, Pos(|prefix|, j, w), w) == s[j]
    {
      EncodedSampleAt(prefix, s, w, j);
    }
    DecodeMatches(buf, |prefix|, w, w, s);
  }

  lemma WholeCountIsLength(n: nat, w: nat)
    requires 0 < w && n * w < 4294967296
    ensures IsArrayLength(n as real)
  {
    assert n <= n * w;
  }

  /** The samples of a one-channel encoding are read back. */
  lemma ParseMonoEncoded(h: Header, s: seq<int>)
    requires WellFormed(h) && SupportedWidth(h.bitsPerSample)
    requires h.subchunk2Size == |s| * Width(h)
    requires forall i :: 0 <= i < |s| ==> SignedRange(s[i], Width(h))
    ensures ParseMono(EncodeHeader(h) + EncodeSamples(s, Width(h)), h) == Success(s)
  {
    SampleCountOfWholeSamples(h, |s|);
    assert Pow256(4) == 4294967296;
    WholeCountIsLength(|s|, Width(h));
    DecodeEncoded(EncodeHeader(h), s, Width(h));
  }

  /** A one-channel file written from `s` reads back as `s`. */
  lemma MonoRoundTrip(h: Header, s: seq<int>)
    requires WellFormed(h) && h.numChannels == 1 && SupportedWidth(h.bitsPerSample)
    requires h.subchunk2Size == |s| * Width(h)
    requires forall i :: 0 <= i < |s| ==> SignedRange(s[i], Width(h))
    ensures ReadWav(EncodeHeader(h) + EncodeSamples(s, Width(h)))
         == Success(WavFile(h, Container(Some(Reals(s)), None, None)))
  {
    HeaderRoundTrip(h, EncodeSamples(s, Width(h)));
    ParseMonoEncoded(h, s);
    ReadWavMono(EncodeHeader(h) + EncodeSamples(s, Width(h)), h, s);
  }

  lemma ReadWavMono(buf: seq<Byte>, h: Header, s: seq<int>)
    requires ParseHeader(buf) == Success(h) && h.numChannels == 1
    requires ParseMono(buf, h) == Success(s)
    ensures ReadWav(buf) == Success(WavFile(h, Container(Some(Reals(s)), None, None)))
  {
  }

  lemma ReadWavStereo(buf: seq<Byte>, h: Header, l: seq<int>, r: seq<int>)
    requires ParseHeader(buf) == Success(h) && h.numChannels == 2
    requires ParseStereo(buf, h) == Success((l, r))
    ensures ReadWav(buf) == Success(WavFile(h, Container(Some([]), Some(Reals(l)), Some(Reals(r)))))
  {
  }

  /** Frames laid out as the stereo loop reads them: left, right, left, … */
  function Interleave(l: seq<int>, r: seq<int>): (f: seq<int>)
    requires |l| == |r|
    ensures |f| == 2 * |l|
  {
    seq(2 * |l|, i requires 0 <= i < 2 * |l| => if i % 2 == 0 then l[i / 2] else r[i / 2])
  }

  /** Frame `j` of `2 * w` bytes starts where sample `2 * j` of `w` bytes
      does, and its right half where sample `2 * j + 1` does. */
  lemma FramePos(p: nat, j: nat, w: nat)
    ensures Pos(p, j, 2 * w) == Pos(p, 2 * j, w)
    ensures Pos(p + w, j, 2 * w) == Pos(p, 2 * j + 1, w)
  {
    assert j * (2 * w) == (2 * j) * w;
    assert w + j * (2 * w) == (2 * j + 1) * w;
  }

  lemma InterleaveInRange(l: seq<int>, r: seq<int>, w: nat)
    requires |l| == |r|
    requires forall i :: 0 <= i < |l| ==> SignedRange(l[i], w) && SignedRange(r[i], w)
    ensures forall i :: 0 <= i < |Interleave(l, r)| ==> SignedRange(Interleave(l, r)[i], w)
  {
    var f := Interleave(l, r);
    forall i | 0 <= i < |f| ensures SignedRange(f[i], w) {
      assert f[i] == if i % 2 == 0 then l[i / 2] else r[i / 2];
    }
  }

  lemma InterleaveAt(l: seq<int>, r: seq<int>, j: nat)
    requires |l| == |r| && j < |l|
    ensures Interleave(l, r)[2 * j] == l[j] && Interleave(l, r)[2 * j + 1] == r[j]
  {
  }

  /** Samples `2 * j` and `2 * j + 1` of an encoding placed after `prefix`
      sit `j` frames of `2 * w` bytes in. */
  lemma FrameAt(prefix: seq<Byte>, f: seq<int>, w: nat, j: nat)
    requires 2 * j + 1 < |f|
    requires forall i :: 0 <= i < |f| ==> SignedRange(f[i], w)
    ensures Pos(|prefix| + w, j, 2 * w) + w <= |prefix + EncodeSamples(f, w)|
    ensures SampleAt(prefix + EncodeSamples(f, w), Pos(|prefix|, j, 2 * w), w) == f[2 * j]
    ensures SampleAt(prefix + EncodeSamples(f, w), Pos(|prefix| + w, j, 2 * w), w) == f[2 * j + 1]
  {
    FrameLeftAt(prefix, f, w, j);
    FrameRightAt(prefix, f, w, j);
  }

  lemma FrameLeftAt(prefix: seq<Byte>, f: seq<int>, w: nat, j: nat)
    requires 2 * j < |f|
    requires forall i :: 0 <= i < |f| ==> SignedRange(f[i], w)
    ensures Pos(|prefix|, j, 2 * w) + w <= |prefix + EncodeSamples(f, w)|
    ensures SampleAt(prefix + EncodeSamples(f, w), Pos(|prefix|, j, 2 * w), w) == f[2 * j]
  {
    FramePos(|prefix|, j, w);
    EncodedSampleAt(prefix, f, w, 2 * j);
  }

  lemma FrameRightAt(prefix: seq<Byte>, f: seq<int>, w: nat, j: nat)
    requires 2 * j + 1 < |f|
    requires forall i :: 0 <= i < |f| ==> SignedRange(f[i], w)
    ensures Pos(|prefix| + w, j, 2 * w) + w <= |prefix + EncodeSamples(f, w)|
    ensures SampleAt(prefix + EncodeSamples(f, w), Pos(|prefix| + w, j, 2 * w), w) == f[2 * j + 1]
  {
    FramePos(|prefix|, j, w);
    EncodedSampleAt(prefix, f, w, 2 * j + 1);
  }

  /** The left channel of an interleaved encoding reads back with stride
      `2 * w` from its start. */
  lemma DecodeLeft(prefix: seq<Byte>, l: seq<int>, r: seq<int>, w: nat)
    requires |l| == |r|
    requires forall i :: 0 <= i < |Interleave(l, r)| ==> SignedRange(Interleave(l, r)[i], w)
    ensures Decode(prefix + EncodeSamples(Interleave(l, r), w), |prefix|, 2 * w, w, |l|) == Success(l)
  {
    var f := Interleave(l, r);
    var buf := prefix + EncodeSamples(f, w);
    forall j | 0 <= j < |l|
      ensures Pos(|prefix|, j, 2 * w) + w <= |buf| && SampleAt(buf, Pos(|prefix|, j, 2 * w), w) == l[j]
    {
      FrameAt(prefix, f, w, j);
      InterleaveAt(l, r, j);
    }
    DecodeMatches(buf, |prefix|, 2 * w, w, l);
  }

  /** The right channel reads back with the same stride, `w` bytes on. */
  lemma DecodeRight(prefix: seq<Byte>, l: seq<int>, r: seq<int>, w: nat)
    requires |l| == |r|
    requires forall i :: 0 <= i < |Interleave(l, r)| ==> SignedRange(Interleave(l, r)[i], w)
    ensures Decode(prefix + EncodeSamples(Interleave(l, r), w), |prefix| + w, 2 * w, w, |l|) == Success(r)
  {
    var f := Interleave(l, r);
    var buf := prefix + EncodeSamples(f, w);
    var start, stride := |prefix| + w, 2 * w;
    forall j | 0 <= j < |r|
      ensures Pos(start, j, stride) + w <= |buf| && SampleAt(buf, Pos(start, j, stride), w) == r[j]
    {
      FrameAt(prefix, f, w, j);
      InterleaveAt(l, r, j);
    }
    DecodeMatches(buf, start, stride, w, r);
  }

  /** A data chunk of `n` whole frames allocates `n` frames. */
  lemma FrameCount(h: Header, n: nat)
    requires WellFormed(h) && SupportedWidth(h.bitsPerSample)
    requires h.subchunk2Size == 2 * n * Width(h)
    ensures ArrayLength(Half(NumSamples(h))) == Success(n)
  {
    SampleCountOfWholeSamples(h, 2 * n);
    assert (2 * n) as real / 2.0 == n as real;
    assert Pow256(4) == 4294967296;
    assert n <= 2 * n * Width(h);
  }

  /** The last frame of `n` ends `2 * n * w` bytes after `p`. */
  lemma FramesEnd(p: nat, n: nat, w: nat)
    requires 0 < n
    ensures Pos(p, n - 1, 2 * w) + 2 * w == p + (2 * n) * w
  {
    assert (n - 1) * (2 * w) + 2 * w == (2 * n) * w;
  }

  /** The frames of a two-channel encoding are read back. */
  lemma ParseStereoEncoded(h: Header, l: seq<int>, r: seq<int>)
    requires WellFormed(h) && SupportedWidth(h.bitsPerSample) && |l| == |r|
    requires h.subchunk2Size == 2 * |l| * Width(h)
    requires forall i :: 0 <= i < |l| ==> SignedRange(l[i], Width(h)) && SignedRange(r[i], Width(h))
    ensures forall i :: 0 <= i < |Interleave(l, r)| ==> SignedRange(Interleave(l, r)[i], Width(h))
    ensures ParseStereo(EncodeHeader(h) + EncodeSamples(Interleave(l, r), Width(h)), h) == Success((l, r))
  {
    var w := Width(h);
    InterleaveInRange(l, r, w);
    var buf := EncodeHeader(h) + EncodeSamples(Interleave(l, r), w);
    StereoDecodes(EncodeHeader(h), l, r, w);
    FrameCount(h, |l|);
    StereoFromDecodes(buf, h, l, r);
  }

  /** Both channels of an interleaved encoding placed after `prefix` read
      back with stride `2 * w`, and the last frame ends the buffer. */
  lemma StereoDecodes(prefix: seq<Byte>, l: seq<int>, r: seq<int>, w: nat)
    requires |l| == |r|
    requires forall i :: 0 <= i < |l| ==> SignedRange(l[i], w) && SignedRange(r[i], w)
    ensures forall i :: 0 <= i < |Interleave(l, r)| ==> SignedRange(Interleave(l, r)[i], w)
    ensures var buf := prefix + EncodeSamples(Interleave(l, r), w);
      && (|l| == 0 || Pos(|prefix|, |l| - 1, 2 * w) + 2 * w <= |buf|)
      && Decode(buf, |prefix|, 2 * w, w, |l|) == Success(l)
      && Decode(buf, |prefix| + w, 2 * w, w, |l|) == Success(r)
  {
    InterleaveInRange(l, r, w);
    DecodeLeft(prefix, l, r, w);
    DecodeRight(prefix, l, r, w);
    if |l| > 0 {
      FramesEnd(|prefix|, |l|, w);
    }
  }

  /** `ParseStereo` succeeds with the two strided decodes once the frame
      count is known and the last frame fits. */
  lemma StereoFromDecodes(buf: seq<Byte>, h: Header, l: seq<int>, r: seq<int>)
    requires SupportedWidth(h.bitsPerSample)
    requires ArrayLength(Half(NumSamples(h))) == Success(|l|)
    requires |l| == 0 || Pos(44, |l| - 1, 2 * Width(h)) + 2 * Width(h) <= |buf|
    requires Decode(buf, 44, 2 * Width(h), Width(h), |l|) == Success(l)
    requires Decode(buf, 44 + Width(h), 2 * Width(h), Width(h), |l|) == Success(r)
    ensures ParseStereo(buf, h) == Success((l, r))
  {
  }

  /** A two-channel file written from `l` and `r` reads back as `l` and
      `r`, next to the empty `audioData`. */
  lemma StereoRoundTrip(h: Header, l: seq<int>, r: seq<int>)
    requires WellFormed(h) && h.numChannels == 2 && SupportedWidth(h.bitsPerSample) && |l| == |r|
    requires h.subchunk2Size == 2 * |l| * Width(h)
    requires forall i :: 0 <= i < |l| ==> SignedRange(l[i], Width(h)) && SignedRange(r[i], Width(h))
    ensures forall i :: 0 <= i < |Interleave(l, r)| ==> SignedRange(Interleave(l, r)[i], Width(h))
    ensures ReadWav(EncodeHeader(h) + EncodeSamples(Interleave(l, r), Width(h)))
         == Success(WavFile(h, Container(Some([]), Some(Reals(l)), Some(Reals(r)))))
  {
    ParseStereoEncoded(h, l, r);
    HeaderRoundTrip(h, EncodeSamples(Interleave(l, r), Width(h)));
    ReadWavStereo(EncodeHeader(h) + EncodeSamples(Interleave(l, r), Width(h)), h, l, r);
  }
}
