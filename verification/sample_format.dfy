/**
  The sample-format policy of sv2wav: the `--bytes` choice (2 for 16-bit
  integer samples, 4 for 32-bit float samples) decides the SunVox init flags
  and every per-sample field of the WAVE `fmt ` chunk.
 */
module SampleFormat {

  import opened Wrappers

  /** `--bytes` after argparse has enforced `choices=[2, 4]`. */
  type SampleBytes = b: int | b == 2 || b == 4 witness 2

  /** The sample encodings the engine can render. */
  datatype Encoding = Int16Pcm | Float32

  /** SunVox only renders stereo. */
  const CHANNELS: int := 2

  /** WAVE format tags from the codec registry of RFC 2361. */
  const WAVE_FORMAT_PCM: int := 1
  const WAVE_FORMAT_IEEE_FLOAT: int := 3

  /** SunVox `sv_init` flag bits. */
  const SV_INIT_FLAG_NO_DEBUG_OUTPUT: bv32 := 1
  const SV_INIT_FLAG_USER_AUDIO_CALLBACK: bv32 := 2
  const SV_INIT_FLAG_AUDIO_INT16: bv32 := 4
  const SV_INIT_FLAG_AUDIO_FLOAT32: bv32 := 8
  const SV_INIT_FLAG_ONE_THREAD: bv32 := 16

  /** What the help text promises: 2 = int16, 4 = float32. */
  function EncodingOf(b: SampleBytes): Encoding
  {
    if b == 2 then Int16Pcm else Float32
  }

  /** Registry tag of an encoding, independent of the byte width. */
  function RegistryTag(e: Encoding): int
  {
    match e
    case Int16Pcm => WAVE_FORMAT_PCM
    case Float32 => WAVE_FORMAT_IEEE_FLOAT
  }

  /** Bits in one sample of an encoding. */
  function SampleBits(e: Encoding): int
  {
    match e
    case Int16Pcm => 16
    case Float32 => 32
  }

  /** True when the flag word asks for `bit`. */
  predicate HasFlag(flags: bv32, bit: bv32)
  {
    flags & bit != 0
  }

  /**
    The `sv_init` flags: no debug output, user-driven audio callback and a
    single thread always, plus the sample-format flag of the encoding.
   */
  function InitFlags(b: SampleBytes): (flags: bv32)
    ensures HasFlag(flags, SV_INIT_FLAG_NO_DEBUG_OUTPUT)
    ensures HasFlag(flags, SV_INIT_FLAG_USER_AUDIO_CALLBACK)
    ensures HasFlag(flags, SV_INIT_FLAG_ONE_THREAD)
    ensures HasFlag(flags, SV_INIT_FLAG_AUDIO_INT16) <==> EncodingOf(b) == Int16Pcm
    ensures HasFlag(flags, SV_INIT_FLAG_AUDIO_FLOAT32) <==> EncodingOf(b) == Float32
    ensures flags == 23 || flags == 27
  {
    var base := 0
      | SV_INIT_FLAG_NO_DEBUG_OUTPUT
      | SV_INIT_FLAG_USER_AUDIO_CALLBACK
      | SV_INIT_FLAG_ONE_THREAD;
    if b == 2 then base | SV_INIT_FLAG_AUDIO_INT16
    else base | SV_INIT_FLAG_AUDIO_FLOAT32
  }

  /** Reads the sample encoding back out of an init flag word. */
  function EncodingOfFlags(flags: bv32): Option<Encoding>
  {
    if HasFlag(flags, SV_INIT_FLAG_AUDIO_INT16) && !HasFlag(flags, SV_INIT_FLAG_AUDIO_FLOAT32) then Some(Int16Pcm)
    else if HasFlag(flags, SV_INIT_FLAG_AUDIO_FLOAT32) && !HasFlag(flags, SV_INIT_FLAG_AUDIO_INT16) then Some(Float32)
    else None
  }

  /** The flags name exactly one sample format, the one `--bytes` chose. */
  lemma InitFlagsNameEncoding(b: SampleBytes)
    ensures EncodingOfFlags(InitFlags(b)) == Some(EncodingOf(b))
  {
  }

  /** Bytes in one stereo frame. */
  function FrameSize(b: SampleBytes): (n: int)
    ensures n == CHANNELS * SampleBits(EncodingOf(b)) / 8
    ensures n == 4 || n == 8
  {
    2 * b
  }

  /** The WAVE format tag written to the `fmt ` chunk. */
  function FormatTag(b: SampleBytes): (tag: int)
    ensures tag == RegistryTag(EncodingOf(b))
  {
    b - 1
  }

  /** Bits per sample written to the `fmt ` chunk. */
  function BitsPerSample(b: SampleBytes): (bits: int)
    ensures bits == SampleBits(EncodingOf(b))
  {
    b * 8
  }

  /** The format fields name the encoding uniquely: the byte choice is recoverable from the tag. */
  lemma FormatTagInjective(b1: SampleBytes, b2: SampleBytes)
    ensures FormatTag(b1) == FormatTag(b2) <==> b1 == b2
    ensures BitsPerSample(b1) == BitsPerSample(b2) <==> b1 == b2
  {
  }
}
