/**
  The whole export as sv2wav runs it: argument checks, engine init and
  project load (their return codes are inputs), then the header and the
  data section written to the output file. The engine is represented only
  by what it reports: the `sv_init` and `sv_load` return codes, the song
  length in frames, and the frames its audio callback renders.
 */
module Converter {

  import opened Wrappers
  import opened LittleEndian
  import opened SampleFormat
  import opened WavHeader
  import opened RenderLoop
  import opened OutputName

  /** The parsed command line. */
  datatype Args = Args(infile: string, out: Option<string>, sample: int, bufFrames: int, bytes: int)

  /**
    What the engine reports: the `sv_init` and `sv_load` return codes, the
    value of `sv_get_song_length_frames` (a C `int` through ctypes, so it
    may be negative) and the song's frames as the callback renders them.
   */
  datatype Engine = Engine(initCode: int, loadCode: int, songFrames: int, audio: seq<Frame>)

  /** How a run ends. */
  datatype Outcome =
    | Rejected(usage: UsageError)
      // sv_init returned a negative version code
    | InitFailed(initCode: int)
      // sv_load returned a non-zero status
    | LoadFailed(loadCode: int)
      // pack raised inside the `with` block; the file keeps the earlier writes
    | HeaderFailed(outfile: string, err: PackError)
      // create_string_buffer raised; the file holds the header
    | BufferFailed(outfile: string, file: seq<byte>)
    | Exported(outfile: string, counts: seq<int>, file: seq<byte>)

  /** Process exit status: argparse exits 2, `exit(1)` and an uncaught exception 1. */
  function ExitStatus(o: Outcome): (code: int)
    ensures code == 0 <==> o.Exported?
    ensures code == 2 <==> o.Rejected?
    ensures code == 1 <==> o.InitFailed? || o.LoadFailed? || o.HeaderFailed? || o.BufferFailed?
  {
    match o
    case Rejected(_) => 2
    case InitFailed(_) => 1
    case LoadFailed(_) => 1
    case HeaderFailed(_, _) => 1
    case BufferFailed(_, _) => 1
    case Exported(_, _, _) => 0
  }

  /** argparse accepts the command line. */
  predicate ValidArgs(args: Args, isFile: bool)
  {
    CheckProject(args.infile, isFile).Success? && (args.bytes == 2 || args.bytes == 4)
  }

  /** The engine came up and loaded the project. */
  predicate EngineReady(engine: Engine)
  {
    engine.initCode >= 0 && engine.loadCode == 0
  }

  /**
    One run of the script. `isFile` stands for `os.path.isfile(infile)`
    and `canAllocate` for whether ctypes can allocate a non-negative
    buffer of `buf_frames * frame_size` bytes (it raises `OverflowError`
    above `sys.maxsize` and `MemoryError` beyond available memory). The
    data section is the whole reused buffer per engine call, exactly as
    sv2wav writes it. A zero-frame buffer with a non-empty song, once the
    header is written, never advances and is the one run left out.
   */
  method Convert(args: Args, isFile: bool, canAllocate: bool, engine: Engine) returns (o: Outcome)
    requires ValidArgs(args, isFile) && EngineReady(engine)
      && Fits(Derive(engine.songFrames, args.sample, args.bytes as SampleBytes))
      ==> args.bufFrames != 0 || engine.songFrames <= 0
    requires |engine.audio| == Max0(engine.songFrames)
    requires ValidArgs(args, isFile) ==> FramesOfSize(engine.audio, FrameSize(args.bytes as SampleBytes))
    ensures o.Rejected? <==> !ValidArgs(args, isFile)
    ensures o.InitFailed? <==> ValidArgs(args, isFile) && engine.initCode < 0
    ensures o.InitFailed? ==> o.initCode == engine.initCode
    ensures o.LoadFailed? <==> ValidArgs(args, isFile) && engine.initCode >= 0 && engine.loadCode != 0
    ensures o.LoadFailed? ==> o.loadCode == engine.loadCode
    ensures o.HeaderFailed? <==>
      (ValidArgs(args, isFile) && EngineReady(engine)
       && !Fits(Derive(engine.songFrames, args.sample, args.bytes as SampleBytes)))
    ensures o.HeaderFailed? ==> o.err == EncodeHeader(engine.songFrames, args.sample, args.bytes as SampleBytes).error
    ensures o.BufferFailed? <==>
      (ValidArgs(args, isFile) && EngineReady(engine)
       && Fits(Derive(engine.songFrames, args.sample, args.bytes as SampleBytes))
       && (args.bufFrames < 0 || !canAllocate))
    ensures o.BufferFailed? ==>
      && |o.file| == HEADER_SIZE
      && Parse(o.file) == Some(Derive(engine.songFrames, args.sample, args.bytes as SampleBytes))
    ensures o.HeaderFailed? || o.BufferFailed? || o.Exported? ==> o.outfile == OutputPath(args.infile, args.out)
    ensures o.Exported? && engine.songFrames <= 0 ==> o.counts == [] && |o.file| == HEADER_SIZE
    ensures o.Exported? ==>
      && |o.file| >= HEADER_SIZE
      && Parse(o.file[..HEADER_SIZE]) == Some(Derive(engine.songFrames, args.sample, args.bytes as SampleBytes))
    ensures o.Exported? && args.bufFrames > 0 ==>
      var b := args.bytes as SampleBytes;
      && o.counts == ChunkPlan(engine.songFrames, args.bufFrames)
      && o.file[HEADER_SIZE..] == Flatten(engine.audio + StaleTail(engine.songFrames, args.bufFrames, FrameSize(b), engine.audio))
      && |o.file| == HEADER_SIZE + (NumBlocks(engine.songFrames, args.bufFrames) * args.bufFrames) * FrameSize(b)
  {
    var infile := CheckProject(args.infile, isFile);
    if infile.Failure? {
      return Rejected(infile.error);
    }
    if args.bytes != 2 && args.bytes != 4 {
      return Rejected(BadByteWidth(args.bytes));
    }
    var b: SampleBytes := args.bytes;
    var outfile := OutputPath(args.infile, args.out);
    var flags := InitFlags(b);  // handed to sv_init with the sample rate
    if engine.initCode < 0 {
      return InitFailed(engine.initCode);
    }
    if engine.loadCode != 0 {
      return LoadFailed(engine.loadCode);
    }
    var header := EncodeHeader(engine.songFrames, args.sample, b);
    if header.Failure? {
      return HeaderFailed(outfile, header.error);
    }
    o := WriteData(outfile, header.value, engine.songFrames, args.bufFrames, FrameSize(b), engine.audio, canAllocate);
  }

  /**
    Everything after the header: the buffer allocation, which raises for a
    negative size or one ctypes cannot allocate, and the render loop
    appending to the header's bytes.
   */
  method WriteData(outfile: string, header: seq<byte>, songFrames: int, bufFrames: int, frameSize: nat,
                   audio: seq<Frame>, canAllocate: bool)
    returns (o: Outcome)
    requires bufFrames != 0 || songFrames <= 0
    requires |header| == HEADER_SIZE && |audio| == Max0(songFrames)
    ensures o.BufferFailed? <==> bufFrames < 0 || !canAllocate
    ensures o.BufferFailed? ==> o.outfile == outfile && o.file == header
    ensures o.Exported? <==> bufFrames >= 0 && canAllocate
    ensures o.Exported? ==> o.outfile == outfile && |o.file| >= HEADER_SIZE && o.file[..HEADER_SIZE] == header
    ensures o.Exported? && songFrames <= 0 ==> o.counts == [] && o.file == header
    ensures o.Exported? && bufFrames > 0 ==>
      && o.counts == ChunkPlan(songFrames, bufFrames)
      && o.file[HEADER_SIZE..] == Flatten(audio + StaleTail(songFrames, bufFrames, frameSize, audio))
    ensures o.Exported? && bufFrames > 0 && FramesOfSize(audio, frameSize) ==>
      |o.file| == HEADER_SIZE + (NumBlocks(songFrames, bufFrames) * bufFrames) * frameSize
  {
    if bufFrames < 0 || !canAllocate {
      return BufferFailed(outfile, header);
    }
    if bufFrames == 0 {
      // the loop is never entered: the file is the header alone
      assert header[..HEADER_SIZE] == header;
      return Exported(outfile, [], header);
    }
    var counts, data := RenderData(songFrames, bufFrames, frameSize, audio);
    var file := header + Flatten(data);
    assert file[..HEADER_SIZE] == header;
    assert file[HEADER_SIZE..] == Flatten(data);
    if songFrames <= 0 {
      assert data == [] && file == header;
    }
    if FramesOfSize(audio, frameSize) {
      StaleTailLength(songFrames, bufFrames, frameSize, audio);
      StaleTailFramesOfSize(songFrames, bufFrames, frameSize, audio);
      FlattenLength(data, frameSize);
    }
    return Exported(outfile, counts, file);
  }

  /**
    A negative rate with `-b 0`: the `fmt ` pack raises before the buffer
    is ever allocated, so the run ends with the 16 bytes before that chunk
    and exit status 1 rather than in the endless loop.
   */
  method NegativeRateStopsBeforeLoop(audio: seq<Frame>) returns (o: Outcome)
    requires |audio| == 1000 && FramesOfSize(audio, 4)
    ensures o.HeaderFailed? && ExitStatus(o) == 1
    ensures o.err.field == FmtChunkField && |o.err.written| == 16
  {
    var args := Args(PROJECT_SUFFIX, None, -1, 0, 2);
    assert EndsWith(args.infile, PROJECT_SUFFIX);
    o := Convert(args, true, true, Engine(0, 0, 1000, audio));
  }

  /**
    With frames of the declared size, the file holds the 44-byte header and
    one full buffer per engine call, so it matches the header's declared
    data size exactly when `buf_frames` divides the song's length.
   */
  lemma WrittenSizeVersusDeclared(songFrames: int, sample: int, b: SampleBytes, bufFrames: int, audio: seq<Frame>)
    requires bufFrames > 0 && songFrames >= 0
    requires |audio| == songFrames && FramesOfSize(audio, FrameSize(b))
    ensures var written := Flatten(audio + StaleTail(songFrames, bufFrames, FrameSize(b), audio));
      && |written| == NumBlocks(songFrames, bufFrames) * (bufFrames * FrameSize(b))
      && (|written| == Derive(songFrames, sample, b).dataSize <==> songFrames % bufFrames == 0)
  {
    var fs := FrameSize(b);
    var tail := StaleTail(songFrames, bufFrames, fs, audio);
    var n := NumBlocks(songFrames, bufFrames);
    StaleTailLength(songFrames, bufFrames, fs, audio);
    StaleTailFramesOfSize(songFrames, bufFrames, fs, audio);
    FlattenLength(audio + tail, fs);
    MulAssoc(n, bufFrames, fs);
    MulCancel(|audio + tail|, songFrames, fs);
  }

  /**
    The worked example: 2500 frames of 16-bit stereo through a 1024-frame
    buffer declare 10000 data bytes but write three 4096-byte buffers.
   */
  lemma OverrunExample(audio: seq<Frame>)
    requires |audio| == 2500 && FramesOfSize(audio, 4)
    ensures Derive(2500, 44100, 2).dataSize == 10000
    ensures |Flatten(audio + StaleTail(2500, 1024, 4, audio))| == 12288
  {
    WrittenSizeVersusDeclared(2500, 44100, 2, 1024, audio);
    NumBlocksBounds(2500, 1024, 2);
  }

  /** The corrected writer fills the data chunk with exactly its declared size. */
  lemma ExactWriterMatchesDeclared(songFrames: int, sample: int, b: SampleBytes, audio: seq<Frame>)
    requires songFrames >= 0
    requires |audio| == songFrames && FramesOfSize(audio, FrameSize(b))
    ensures |Flatten(audio)| == Derive(songFrames, sample, b).dataSize
  {
    FlattenLength(audio, FrameSize(b));
  }
}
