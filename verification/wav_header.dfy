/**
  The 44-byte RIFF/WAVE header sv2wav writes before any audio: a `RIFF`
  chunk header whose form type is `WAVE`, a 16-byte `fmt ` chunk and the
  header of the `data` chunk, in the canonical layout of the WAVE form in
  Microsoft/IBM's Multimedia Programming Interface and Data Specifications
  1.0. Every field is derived up front from the song length reported by
  the engine, the sample rate and the byte width of a sample.
 */
module WavHeader {

  import opened Wrappers
  import opened LittleEndian
  import opened SampleFormat

  /** The integer fields of the header, in file order. */
  datatype Header = Header(
    riffSize: int,
    fmtSize: int,
    formatTag: int,
    channels: int,
    sampleRate: int,
    byteRate: int,
    blockAlign: int,
    bitsPerSample: int,
    dataSize: int)

  /** Size of the `fmt ` chunk body for PCM and IEEE float. */
  const FMT_CHUNK_SIZE: int := 16

  /** Bytes in the serialized header. */
  const HEADER_SIZE: int := 44

  const RIFF_ID: seq<byte> := Ascii("RIFF")
  const WAVE_ID: seq<byte> := Ascii("WAVE")
  const FMT_ID: seq<byte> := Ascii("fmt ")
  const DATA_ID: seq<byte> := Ascii("data")

  /**
    The consistency rules of the WAVE form: a frame holds one sample per
    channel, the byte rate is a second of frames, and the RIFF chunk's size
    counts the form type, the `fmt ` chunk (tag, size and body) and the
    `data` chunk (tag, size and body).
   */
  predicate WellFormed(h: Header)
  {
    && h.fmtSize == FMT_CHUNK_SIZE
    && h.blockAlign * 8 == h.channels * h.bitsPerSample
    && h.byteRate == h.sampleRate * h.blockAlign
    && h.riffSize == 4 + (8 + h.fmtSize) + (8 + h.dataSize)
  }

  /**
    The header fields sv2wav computes from `song_frames`, `sample` and
    `bytes` before it writes anything.
   */
  function Derive(songFrames: int, sample: int, b: SampleBytes): (h: Header)
    ensures WellFormed(h)
    ensures h.formatTag == RegistryTag(EncodingOf(b))
    ensures h.channels == CHANNELS
    ensures h.sampleRate == sample
    ensures h.bitsPerSample == SampleBits(EncodingOf(b))
    ensures h.blockAlign == FrameSize(b)
    ensures h.dataSize == songFrames * FrameSize(b)
  {
    var frameSize := FrameSize(b);
    var songSize := songFrames * frameSize;
    Header(
      4 + 24 + 8 + songSize,
      16,
      b - 1,
      2,
      sample,
      sample * frameSize,
      frameSize,
      b * 8,
      songSize)
  }

  /** The worked example: 2500 frames of 16-bit stereo at 44100 Hz. */
  lemma DeriveExample()
    ensures Derive(2500, 44100, 2) == Header(10036, 16, 1, 2, 44100, 176400, 4, 16, 10000)
  {
  }

  /** `pack("LHHLLHH", ...)` accepts the `fmt ` chunk body. */
  predicate FmtFits(h: Header)
  {
    && FitsU32(h.fmtSize) && FitsU16(h.formatTag) && FitsU16(h.channels)
    && FitsU32(h.sampleRate) && FitsU32(h.byteRate)
    && FitsU16(h.blockAlign) && FitsU16(h.bitsPerSample)
  }

  /** Every `pack` call of the header accepts its arguments. */
  predicate Fits(h: Header)
  {
    FitsI32(h.riffSize) && FmtFits(h) && FitsI32(h.dataSize)
  }

  /** `"RIFF"`, the RIFF size and `"WAVE"`. */
  function RiffPart(h: Header): (s: seq<byte>)
    requires FitsI32(h.riffSize)
    ensures |s| == 12
  {
    RIFF_ID + I32(h.riffSize) + WAVE_ID
  }

  /** The `fmt ` chunk: tag, size and the 16-byte body. */
  function FmtPart(h: Header): (s: seq<byte>)
    requires FmtFits(h)
    ensures |s| == 24
  {
    FMT_ID + U32(h.fmtSize) + U16(h.formatTag) + U16(h.channels)
      + U32(h.sampleRate) + U32(h.byteRate) + U16(h.blockAlign) + U16(h.bitsPerSample)
  }

  /** `"data"` and the declared data size. */
  function DataPart(h: Header): (s: seq<byte>)
    requires FitsI32(h.dataSize)
    ensures |s| == 8
  {
    DATA_ID + I32(h.dataSize)
  }

  /** The header bytes, in the order sv2wav writes them. */
  function Serialize(h: Header): (s: seq<byte>)
    requires Fits(h)
    ensures |s| == HEADER_SIZE
    ensures s[..4] == RIFF_ID && s[8..12] == WAVE_ID && s[12..16] == FMT_ID && s[36..40] == DATA_ID
  {
    RiffPart(h) + FmtPart(h) + DataPart(h)
  }

  /**
    Reads a 44-byte canonical header back: the four chunk identifiers must
    be in place; every integer field is read little-endian with the
    signedness of the code that wrote it.
   */
  function Parse(s: seq<byte>): Option<Header>
  {
    if |s| != HEADER_SIZE then None
    else if s[..4] != RIFF_ID || s[8..12] != WAVE_ID || s[12..16] != FMT_ID || s[36..40] != DATA_ID then None
    else Some(Header(
      Signed32(s[4..8]),
      Unsigned(s[16..20]),
      Unsigned(s[20..22]),
      Unsigned(s[22..24]),
      Unsigned(s[24..28]),
      Unsigned(s[28..32]),
      Unsigned(s[32..34]),
      Unsigned(s[34..36]),
      Signed32(s[40..44])))
  }

  /** Decoding the serialized header recovers every field. */
  lemma ParseSerialize(h: Header)
    requires Fits(h)
    ensures Parse(Serialize(h)) == Some(h)
  {
    var s := Serialize(h);
    var r, f, d := RiffPart(h), FmtPart(h), DataPart(h);
    assert s == r + f + d;
    assert s[..12] == r;
    assert s[12..36] == f;
    assert s[36..] == d;
    ReadRiffPart(h);
    ReadFmtPart(h);
    ReadDataPart(h);
    assert s[4..8] == r[4..8];
    assert s[16..20] == f[4..8] && s[20..22] == f[8..10] && s[22..24] == f[10..12];
    assert s[24..28] == f[12..16] && s[28..32] == f[16..20];
    assert s[32..34] == f[20..22] && s[34..36] == f[22..24];
    assert s[40..44] == d[4..8];
    assert Parse(s).Some?;
    assert Parse(s).value == h;
  }

  lemma ReadRiffPart(h: Header)
    requires FitsI32(h.riffSize)
    ensures RiffPart(h)[..4] == RIFF_ID && RiffPart(h)[8..12] == WAVE_ID
    ensures Signed32(RiffPart(h)[4..8]) == h.riffSize
  {
    assert RiffPart(h)[..4] == RIFF_ID;
    assert RiffPart(h)[4..8] == I32(h.riffSize);
    assert RiffPart(h)[8..12] == WAVE_ID;
  }

  lemma ReadFmtPart(h: Header)
    requires FmtFits(h)
    ensures var f := FmtPart(h);
      && f[..4] == FMT_ID
      && Unsigned(f[4..8]) == h.fmtSize
      && Unsigned(f[8..10]) == h.formatTag
      && Unsigned(f[10..12]) == h.channels
      && Unsigned(f[12..16]) == h.sampleRate
      && Unsigned(f[16..20]) == h.byteRate
      && Unsigned(f[20..22]) == h.blockAlign
      && Unsigned(f[22..24]) == h.bitsPerSample
  {
    var f := FmtPart(h);
    var g1 := FMT_ID + U32(h.fmtSize);
    var g2 := g1 + U16(h.formatTag);
    var g3 := g2 + U16(h.channels);
    var g4 := g3 + U32(h.sampleRate);
    var g5 := g4 + U32(h.byteRate);
    var g6 := g5 + U16(h.blockAlign);
    assert f == g6 + U16(h.bitsPerSample);
    LastPiece(g6, U16(h.bitsPerSample));
    LastPiece(g5, U16(h.blockAlign));
    LastPiece(g4, U32(h.byteRate));
    LastPiece(g3, U32(h.sampleRate));
    LastPiece(g2, U16(h.channels));
    LastPiece(g1, U16(h.formatTag));
    LastPiece(FMT_ID, U32(h.fmtSize));
    assert f[22..24] == U16(h.bitsPerSample);
    assert f[..22] == g6;
    assert f[20..22] == g6[20..22] == U16(h.blockAlign);
    assert f[..20] == g6[..20] == g5;
    assert f[16..20] == g5[16..20] == U32(h.byteRate);
    assert f[..16] == g5[..16] == g4;
    assert f[12..16] == g4[12..16] == U32(h.sampleRate);
    assert f[..12] == g4[..12] == g3;
    assert f[10..12] == g3[10..12] == U16(h.channels);
    assert f[..10] == g3[..10] == g2;
    assert f[8..10] == g2[8..10] == U16(h.formatTag);
    assert f[..8] == g2[..8] == g1;
    assert f[4..8] == g1[4..8] == U32(h.fmtSize);
  }

  /** The two halves of a concatenation are its slices. */
  lemma LastPiece(x: seq<byte>, y: seq<byte>)
    ensures (x + y)[..|x|] == x && (x + y)[|x|..] == y
  {
  }

  lemma ReadDataPart(h: Header)
    requires FitsI32(h.dataSize)
    ensures Signed32(DataPart(h)[4..8]) == h.dataSize
  {
    assert DataPart(h)[4..8] == I32(h.dataSize);
  }

  /** Every sequence the parser accepts is the serialization of what it read. */
  lemma SerializeParse(s: seq<byte>)
    requires Parse(s).Some?
    ensures Fits(Parse(s).value)
    ensures Serialize(Parse(s).value) == s
  {
    var h := Parse(s).value;
    RiffPartOfParsed(s, h);
    FmtPartOfParsed(s, h);
    DataPartOfParsed(s, h);
    assert s == s[..12] + s[12..36] + s[36..];
  }

  lemma RiffPartOfParsed(s: seq<byte>, h: Header)
    requires Parse(s) == Some(h)
    ensures FitsI32(h.riffSize) && RiffPart(h) == s[..12]
  {
    I32OfSigned(s[4..8]);
    assert s[..12] == s[..4] + s[4..8] + s[8..12];
  }

  lemma FmtPartOfParsed(s: seq<byte>, h: Header)
    requires Parse(s) == Some(h)
    ensures FmtFits(h) && FmtPart(h) == s[12..36]
  {
    U32OfUnsigned(s[16..20]);
    U16OfUnsigned(s[20..22]);
    U16OfUnsigned(s[22..24]);
    U32OfUnsigned(s[24..28]);
    U32OfUnsigned(s[28..32]);
    U16OfUnsigned(s[32..34]);
    U16OfUnsigned(s[34..36]);
    Split(s, 12, 16, 36);
    Split(s, 16, 20, 36);
    Split(s, 20, 22, 36);
    Split(s, 22, 24, 36);
    Split(s, 24, 28, 36);
    Split(s, 28, 32, 36);
    Split(s, 32, 34, 36);
  }

  lemma DataPartOfParsed(s: seq<byte>, h: Header)
    requires Parse(s) == Some(h)
    ensures FitsI32(h.dataSize) && DataPart(h) == s[36..]
  {
    I32OfSigned(s[40..44]);
    assert s[36..] == s[36..40] + s[40..44];
  }

  lemma Split(s: seq<byte>, i: int, j: int, k: int)
    requires 0 <= i <= j <= k <= |s|
    ensures s[i..k] == s[i..j] + s[j..k]
  {
  }

  /** Which `pack` call of the header raised `struct.error`. */
  datatype Field = RiffSizeField | FmtChunkField | DataSizeField

  /**
    A `struct.error` from `pack`: the field it rejected and the bytes the
    earlier `f.write` calls had already put in the file.
   */
  datatype PackError = PackError(field: Field, written: seq<byte>)

  /** The file when the `fmt ` chunk's `pack` raises: `RIFF`, size, `WAVE`, `fmt `. */
  function WrittenBeforeFmt(h: Header): (w: seq<byte>)
    requires FitsI32(h.riffSize)
    ensures |w| == 16 && w[..4] == RIFF_ID && w[8..12] == WAVE_ID && w[12..16] == FMT_ID
    ensures Signed32(w[4..8]) == h.riffSize
  {
    var w := RiffPart(h) + FMT_ID;
    ReadRiffPart(h);
    assert w[4..8] == RiffPart(h)[4..8];
    w
  }

  /**
    The first 36 bytes of a header for `h`: the `RIFF` chunk header with
    `WAVE`, and the whole `fmt ` chunk, each field read back with the
    signedness of the code that wrote it.
   */
  predicate HoldsThroughFmt(w: seq<byte>, h: Header)
  {
    && |w| >= 36
    && w[..4] == RIFF_ID && Signed32(w[4..8]) == h.riffSize && w[8..12] == WAVE_ID
    && w[12..16] == FMT_ID
    && Unsigned(w[16..20]) == h.fmtSize
    && Unsigned(w[20..22]) == h.formatTag
    && Unsigned(w[22..24]) == h.channels
    && Unsigned(w[24..28]) == h.sampleRate
    && Unsigned(w[28..32]) == h.byteRate
    && Unsigned(w[32..34]) == h.blockAlign
    && Unsigned(w[34..36]) == h.bitsPerSample
  }

  /** The file when the data size's `pack` raises: everything up to `data`. */
  function WrittenBeforeDataSize(h: Header): (w: seq<byte>)
    requires FitsI32(h.riffSize) && FmtFits(h)
    ensures |w| == 40 && w[..4] == RIFF_ID && w[36..40] == DATA_ID
    ensures Signed32(w[4..8]) == h.riffSize
    ensures HoldsThroughFmt(w, h)
  {
    var r, f := RiffPart(h), FmtPart(h);
    var w := r + f + DATA_ID;
    ReadRiffPart(h);
    ReadFmtPart(h);
    LastPiece(r + f, DATA_ID);
    LastPiece(r, f);
    assert w[..36] == r + f;
    assert w[..4] == r[..4] && w[4..8] == r[4..8] && w[8..12] == r[8..12];
    assert w[12..16] == f[..4] && w[16..20] == f[4..8] && w[20..22] == f[8..10] && w[22..24] == f[10..12];
    assert w[24..28] == f[12..16] && w[28..32] == f[16..20];
    assert w[32..34] == f[20..22] && w[34..36] == f[22..24];
    w
  }

  /**
    Writes the header as sv2wav does, one `f.write` per field group:
    each `pack` runs before its write, so an out-of-range field stops the
    header after the bytes written so far.
   */
  function EncodeHeader(songFrames: int, sample: int, b: SampleBytes): (r: Result<seq<byte>, PackError>)
    ensures r.Success? <==> Fits(Derive(songFrames, sample, b))
    ensures r.Success? ==> Parse(r.value) == Some(Derive(songFrames, sample, b))
    ensures r.Failure? ==> 4 <= |r.error.written| < HEADER_SIZE && r.error.written[..4] == RIFF_ID
    ensures r.Failure? ==>
      (r.error.field == RiffSizeField <==> !FitsI32(Derive(songFrames, sample, b).riffSize))
    ensures r.Failure? && r.error.field == RiffSizeField ==> |r.error.written| == 4
    ensures r.Failure? && r.error.field == FmtChunkField ==>
      var w := r.error.written;
      && !FmtFits(Derive(songFrames, sample, b))
      && |w| == 16 && w[8..12] == WAVE_ID && w[12..16] == FMT_ID
      && Signed32(w[4..8]) == Derive(songFrames, sample, b).riffSize
    ensures r.Failure? && r.error.field == DataSizeField ==>
      var w := r.error.written;
      && FmtFits(Derive(songFrames, sample, b))
      && !FitsI32(Derive(songFrames, sample, b).dataSize)
      && |w| == 40 && w[36..40] == DATA_ID
      && Signed32(w[4..8]) == Derive(songFrames, sample, b).riffSize
      && HoldsThroughFmt(w, Derive(songFrames, sample, b))
  {
    var h := Derive(songFrames, sample, b);
    if !FitsI32(h.riffSize) then
      Failure(PackError(RiffSizeField, RIFF_ID))
    else if !FmtFits(h) then
      Failure(PackError(FmtChunkField, WrittenBeforeFmt(h)))
    else if !FitsI32(h.dataSize) then
      Failure(PackError(DataSizeField, WrittenBeforeDataSize(h)))
    else
      ParseSerialize(h);
      Success(Serialize(h))
  }

  /**
    For any song length that `pack("l")` accepts, the RIFF size declares
    exactly the header plus the declared data, less the 8-byte chunk header.
   */
  lemma RiffSizeCoversHeaderAndData(songFrames: int, sample: int, b: SampleBytes)
    requires Fits(Derive(songFrames, sample, b))
    ensures EncodeHeader(songFrames, sample, b).Success?
    ensures var h := Derive(songFrames, sample, b);
      h.riffSize == |EncodeHeader(songFrames, sample, b).value| - 8 + h.dataSize
  {
  }

  /**
    The header of a real song fits whenever its data fits in a signed
    32-bit size with room for the 36 bytes of chunk overhead, and the rate
    and byte rate fit in 32 bits.
   */
  lemma FitsForRealisticSongs(songFrames: int, sample: int, b: SampleBytes)
    requires 0 <= songFrames * FrameSize(b) < TWO_31 - 36
    requires 0 <= sample && sample * FrameSize(b) < TWO_32
    ensures EncodeHeader(songFrames, sample, b).Success?
  {
  }
}
