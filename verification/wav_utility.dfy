/** `WavUtility.ToAudioClip` up to the point where the runtime's audio clip
    is created: the canonical 44-byte RIFF/WAVE header read at fixed
    offsets, and the 16-bit little-endian PCM samples that follow it. */
module WavUtility {

  type byte = x: int | 0 <= x < 0x100

  const RiffTag: seq<byte> := [0x52, 0x49, 0x46, 0x46]  // "RIFF"
  const WaveTag: seq<byte> := [0x57, 0x41, 0x56, 0x45]  // "WAVE"
  const FmtTag: seq<byte> := [0x66, 0x6d, 0x74, 0x20]   // "fmt "
  const DataTag: seq<byte> := [0x64, 0x61, 0x74, 0x61]  // "data"

  /** Offset of the data tag, and of the first payload byte. */
  const DataTagOffset: nat := 36
  const HeaderSize: nat := 44

  /** What the decoder hands to the runtime: channel count, sample rate and
      the samples as signed 16-bit integers (before division by 32768). */
  datatype Wav = Wav(channels: nat, sampleRate: int, samples: seq<int>)

  /** Why `null` is returned. */
  datatype Rejection = MissingRiff | MissingData

  /** Exceptions the reader raises. */
  datatype ReadError = EndOfStream | NegativeCount

  datatype Decoded = Clip(wav: Wav) | NoClip(reason: Rejection) | ReadFailed(error: ReadError)

  /** The header's character reads are decoded as UTF-8; the fixed offsets
      used below are exact when bytes 8..15 (the "WAVE" and "fmt " tags) are
      ASCII, since a multi-byte sequence there would move every later field. */
  predicate TagBytesAscii(buf: seq<byte>)
  {
    forall i :: 8 <= i < 16 && i < |buf| ==> buf[i] < 0x80
  }

  /** The 16-bit pattern of a low and a high byte, `lo | hi << 8`: the two
      bytes occupy disjoint bits, so the `|` is a sum. */
  function Word(lo: byte, hi: byte): (v: nat)
    ensures v < 0x1_0000
  {
    lo as int + 0x100 * (hi as int)
  }

  /** Little-endian unsigned 16-bit value (`ReadUInt16`). */
  function U16At(buf: seq<byte>, off: nat): nat
    requires off + 2 <= |buf|
  {
    Word(buf[off], buf[off + 1])
  }

  /** Little-endian unsigned 32-bit value. */
  function U32At(buf: seq<byte>, off: nat): (v: nat)
    requires off + 4 <= |buf|
    ensures v < 0x1_0000_0000
  {
    Word(buf[off], buf[off + 1]) + 0x1_0000 * Word(buf[off + 2], buf[off + 3])
  }

  /** Two's-complement reading of a 32-bit pattern (`ReadInt32`). */
  function I32At(buf: seq<byte>, off: nat): (v: int)
    requires off + 4 <= |buf|
    ensures -0x8000_0000 <= v < 0x8000_0000
  {
    var u := U32At(buf, off);
    if u < 0x8000_0000 then u else u - 0x1_0000_0000
  }

  /** The `(short)` cast of a 16-bit pattern. */
  function ToInt16(u: nat): (v: int)
    requires u < 0x1_0000
    ensures -0x8000 <= v < 0x8000
    ensures v % 0x1_0000 == u
  {
    if u < 0x8000 then u else u - 0x1_0000
  }

  /** The sample loop: consecutive byte pairs, low byte first, each read as
      a signed 16-bit value; a trailing odd byte is dropped. */
  function Samples(payload: seq<byte>): (r: seq<int>)
    ensures |r| == |payload| / 2
    ensures forall i :: 0 <= i < |r| ==> r[i] == ToInt16(Word(payload[2 * i], payload[2 * i + 1]))
    ensures forall i :: 0 <= i < |r| ==> -0x8000 <= r[i] < 0x8000
  {
    if |payload| < 2 then []
    else [ToInt16(Word(payload[0], payload[1]))] + Samples(payload[2..])
  }

  function Min(a: int, b: int): int
  {
    if a <= b then a else b
  }

  /** `ToAudioClip` up to `AudioClip.Create`. Only the "RIFF" tag at 0..3
      and the "data" tag at 36..39 are checked. A buffer that ends inside
      the "RIFF" or "data" read yields a short tag and so fails that tag's
      check. Otherwise end-of-stream is raised iff a "RIFF" buffer is
      shorter than 36 bytes, or is 40 to 43 bytes long with the "data" tag
      in place: the first numeric read past its end fails. The payload is at most `dataSize`
      bytes from offset 44, fewer if the buffer is shorter. The tags are
      compared as raw bytes, which matches the reader's UTF-8 character
      reads when bytes 0..3 and 36..39 are ASCII. */
  function ToAudioClip(buf: seq<byte>): (r: Decoded)
    requires TagBytesAscii(buf)
    ensures r == NoClip(MissingRiff) <==> |buf| < 4 || buf[..4] != RiffTag
    ensures r == NoClip(MissingData) <==>
      |buf| >= DataTagOffset && buf[..4] == RiffTag
      && (|buf| < DataTagOffset + 4 || buf[DataTagOffset..DataTagOffset + 4] != DataTag)
    ensures r == ReadFailed(EndOfStream) <==>
      |buf| >= 4 && buf[..4] == RiffTag
      && (|buf| < DataTagOffset || (DataTagOffset + 4 <= |buf| < HeaderSize && buf[DataTagOffset..DataTagOffset + 4] == DataTag))
    ensures r == ReadFailed(NegativeCount) <==>
      |buf| >= HeaderSize && buf[..4] == RiffTag && buf[DataTagOffset..DataTagOffset + 4] == DataTag
      && I32At(buf, 40) < 0
    ensures r.Clip? ==>
      && |buf| >= HeaderSize
      && r.wav.channels == Word(buf[22], buf[23])
      && r.wav.sampleRate == I32At(buf, 24)
      && 0 <= I32At(buf, 40)
      && r.wav.samples == Samples(buf[HeaderSize..Min(HeaderSize + I32At(buf, 40), |buf|)])
  {
    if |buf| < 4 || buf[..4] != RiffTag then NoClip(MissingRiff)
    else if |buf| < DataTagOffset then ReadFailed(EndOfStream)
    else if |buf| < DataTagOffset + 4 || buf[DataTagOffset..DataTagOffset + 4] != DataTag then NoClip(MissingData)
    else if |buf| < HeaderSize then ReadFailed(EndOfStream)
    else
      var dataSize := I32At(buf, 40);
      if dataSize < 0 then ReadFailed(NegativeCount)
      else
        var payload := buf[HeaderSize..Min(HeaderSize + dataSize, |buf|)];
        Clip(Wav(U16At(buf, 22), I32At(buf, 24), Samples(payload)))
  }

  /** Only the two tags, the channel count, the sample rate, the data size
      and the payload are read for the result: bytes 4..21 (chunk size,
      "WAVE", "fmt ", format chunk size, audio format) and 28..35 (byte
      rate, block align, bits per sample) may hold anything. */
  lemma UncheckedFieldsIgnored(a: seq<byte>, b: seq<byte>)
    requires TagBytesAscii(a) && TagBytesAscii(b) && |a| == |b|
    requires forall i :: 0 <= i < |a| && !(4 <= i < 22) && !(28 <= i < 36) ==> a[i] == b[i]
    ensures ToAudioClip(a) == ToAudioClip(b)
  {
  }

  // ---------------------------------------------------------------------
  // Writing a canonical file, the reference the decoder is checked against

  /** Two bytes, low first, of a 16-bit pattern. */
  function Le16(v: nat): (r: seq<byte>)
    requires v < 0x1_0000
    ensures |r| == 2 && Word(r[0], r[1]) == v
  {
    [v % 0x100, v / 0x100]
  }

  /** Four bytes, low first, of the two's-complement 32-bit pattern of `v`. */
  function Le32(v: int): (r: seq<byte>)
    ensures |r| == 4 && U32At(r, 0) == v % 0x1_0000_0000
  {
    var u := v % 0x1_0000_0000;
    Le16(u % 0x1_0000) + Le16(u / 0x1_0000)
  }

  predicate IsInt16(v: int)
  {
    -0x8000 <= v < 0x8000
  }

  predicate IsInt32(v: int)
  {
    -0x8000_0000 <= v < 0x8000_0000
  }

  lemma I32OfLe32(v: int)
    requires IsInt32(v)
    ensures I32At(Le32(v), 0) == v
  {
    var u := U32At(Le32(v), 0);
    assert u == v % 0x1_0000_0000;
    if v < 0 {
      assert (v + 0x1_0000_0000) % 0x1_0000_0000 == v % 0x1_0000_0000;
      assert u == v + 0x1_0000_0000;
    } else {
      assert u == v;
    }
  }

  /** The payload of a sample list: each sample's two bytes, low first. */
  function EncodeSamples(samples: seq<int>): (r: seq<byte>)
    requires forall i :: 0 <= i < |samples| ==> IsInt16(samples[i])
    ensures |r| == 2 * |samples|
  {
    if samples == [] then []
    else Le16(samples[0] % 0x1_0000) + EncodeSamples(samples[1..])
  }

  /** Decoding the samples of an encoded list gives the list back. */
  lemma {:induction false} SamplesOfEncodeSamples(samples: seq<int>)
    requires forall i :: 0 <= i < |samples| ==> IsInt16(samples[i])
    ensures Samples(EncodeSamples(samples)) == samples
  {
    if samples != [] {
      var p := EncodeSamples(samples);
      SamplesOfEncodeSamples(samples[1..]);
      assert p[2..] == EncodeSamples(samples[1..]);
      assert ToInt16(Word(p[0], p[1])) == samples[0];
      assert samples == [samples[0]] + samples[1..];
    }
  }

  /** What a canonical file can carry: a 16-bit channel count, a 32-bit
      rate, 16-bit samples, and a payload size that fits `dataSize`. */
  predicate Encodable(w: Wav)
  {
    && w.channels < 0x1_0000
    && IsInt32(w.sampleRate)
    && 2 * |w.samples| < 0x8000_0000
    && forall i :: 0 <= i < |w.samples| ==> IsInt16(w.samples[i])
  }

  /** The 12-byte RIFF header: tag, chunk size, "WAVE". */
  function RiffHeader(chunkSize: int): (r: seq<byte>)
    ensures |r| == 12 && r[..4] == RiffTag && r[8..12] == WaveTag
  {
    RiffTag + Le32(chunkSize) + WaveTag
  }

  /** The 24-byte PCM format chunk for 16-bit samples. */
  function FmtChunk(channels: nat, sampleRate: int): (r: seq<byte>)
    requires channels < 0x1_0000
    ensures |r| == 24
    ensures r[..4] == FmtTag && r[10..12] == Le16(channels) && r[12..16] == Le32(sampleRate)
  {
    var front := FmtTag + Le32(16) + Le16(1) + Le16(channels);
    var back := Le32(sampleRate) + Le32(sampleRate * channels * 2) + Le16((channels * 2) % 0x1_0000) + Le16(16);
    assert |front| == 12;
    assert (front + back)[10..12] == front[10..12];
    assert (front + back)[12..16] == back[..4];
    front + back
  }

  /** The 8-byte data chunk header: tag and payload size. */
  function DataHeader(dataSize: int): (r: seq<byte>)
    ensures |r| == 8 && r[..4] == DataTag && r[4..8] == Le32(dataSize)
  {
    DataTag + Le32(dataSize)
  }

  /** The canonical 44-byte header of a 16-bit PCM file holding `w`. */
  function Header(w: Wav): (r: seq<byte>)
    requires Encodable(w)
    ensures |r| == HeaderSize
  {
    RiffHeader(36 + 2 * |w.samples|) + FmtChunk(w.channels, w.sampleRate) + DataHeader(2 * |w.samples|)
  }

  function EncodeWav(w: Wav): (r: seq<byte>)
    requires Encodable(w)
    ensures |r| == HeaderSize + 2 * |w.samples|
  {
    Header(w) + EncodeSamples(w.samples)
  }

  /** Where the header puts each field. */
  lemma HeaderLayout(w: Wav)
    requires Encodable(w)
    ensures var h := Header(w);
      && h[..4] == RiffTag
      && h[8..12] == WaveTag
      && h[12..16] == FmtTag
      && h[22..24] == Le16(w.channels)
      && h[24..28] == Le32(w.sampleRate)
      && h[36..40] == DataTag
      && h[40..44] == Le32(2 * |w.samples|)
  {
  }

  /** The fields of a 4-byte-aligned slice read the same in place. */
  lemma ReadInPlace(buf: seq<byte>, off: nat, field: seq<byte>)
    requires off + |field| <= |buf| && buf[off..off + |field|] == field
    ensures |field| == 2 ==> U16At(buf, off) == U16At(field, 0)
    ensures |field| == 4 ==> I32At(buf, off) == I32At(field, 0)
  {
  }

  /** A canonical file decodes to exactly the channel count, rate and
      samples it was written from. */
  lemma DecodeEncodeWav(w: Wav)
    requires Encodable(w)
    ensures TagBytesAscii(EncodeWav(w))
    ensures ToAudioClip(EncodeWav(w)) == Clip(w)
  {
    var h := Header(w);
    var body := EncodeSamples(w.samples);
    var buf := h + body;
    var n := 2 * |w.samples|;
    HeaderLayout(w);
    assert buf[..HeaderSize] == h;
    assert forall i :: 0 <= i < HeaderSize ==> buf[i] == h[i];
    assert buf[..4] == RiffTag;
    assert buf[8..12] == WaveTag && buf[12..16] == FmtTag;
    assert TagBytesAscii(buf);
    assert buf[DataTagOffset..DataTagOffset + 4] == DataTag;
    ReadInPlace(buf, 22, Le16(w.channels));
    ReadInPlace(buf, 24, Le32(w.sampleRate));
    ReadInPlace(buf, 40, Le32(n));
    I32OfLe32(w.sampleRate);
    I32OfLe32(n);
    assert Min(HeaderSize + n, |buf|) == |buf|;
    assert buf[HeaderSize..|buf|] == body;
    SamplesOfEncodeSamples(w.samples);
  }

  /** A two-channel file of eight samples decodes to two channels and
      eight samples. */
  lemma StereoEightSamples(rate: int)
    requires IsInt32(rate)
    ensures var w := Wav(2, rate, [0, 1, -1, 0x7FFF, -0x8000, 2, 3, 4]);
      && Encodable(w)
      && TagBytesAscii(EncodeWav(w))
      && ToAudioClip(EncodeWav(w)).Clip?
      && ToAudioClip(EncodeWav(w)).wav.channels == 2
      && |ToAudioClip(EncodeWav(w)).wav.samples| == 8
  {
    var samples := [0, 1, -1, 0x7FFF, -0x8000, 2, 3, 4];
    assert forall i :: 0 <= i < |samples| ==> IsInt16(samples[i]);
    var w := Wav(2, rate, samples);
    assert Encodable(w);
    DecodeEncodeWav(w);
  }
}
