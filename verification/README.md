# sv2wav in Dafny

sv2wav exports a SunVox project (`.sunvox`) to a `.wav` file. It starts
the SunVox engine in single-threaded, user-driven callback mode and pulls
the song out in fixed-size blocks of stereo frames. Before any audio
exists, it writes a RIFF/WAVE header whose sizes come from the song length
the engine reports. It then appends one buffer per engine call.

This project models the part of that script that is not engine or file
glue. Besides `Wrappers`, which holds the shared `Option` and `Result`
datatypes, it has six modules:

- `SampleFormat`: the sample-format policy. `--bytes` 2 means 16-bit
  integer PCM and 4 means 32-bit IEEE float. This choice decides the
  `sv_init` flag word, the frame size, the WAVE format tag (registry
  values from RFC 2361) and the bit depth.
- `LittleEndian`: `struct.pack` with the native codes of the Windows
  target. `l` is a signed 4-byte integer, `L` an unsigned 4-byte integer
  and `H` an unsigned 2-byte integer, all little-endian. Each has its
  range check and a decoder.
- `WavHeader`: the 44-byte canonical header of the WAVE form from
  Microsoft/IBM's Multimedia Programming Interface and Data
  Specifications 1.0. It covers the field derivation, the byte layout, a
  parser, and the `struct.error` paths that stop the header part-way.
- `RenderLoop`: the block-chunking loop. The reused, zero-initialised
  buffer is modelled frame by frame, so the stale frames written after a
  short final call are part of the model. It also holds a corrected writer.
- `OutputName`: the `.sunvox` check on the input path and the default
  output name `re.sub(r"\.sunvox$", ".wav", infile)`. An explicit
  non-empty `-o` wins.
- `Converter`: one run of the script. Usage errors, the `sv_init` and
  `sv_load` failure codes, header failures, a failed buffer allocation
  and the exported file are distinguished by the outcome, along with the
  exit status of each.

The engine appears only through what it reports. That is the two return
codes, the song length in frames, and the frames its audio callback
renders, given as a sequence `audio` of opaque frames of `frame_size`
bytes each (`Convert` requires that size once the arguments are
accepted). The file is the accumulated byte sequence.

One engine behaviour is assumed rather than derived: a call
`sv_audio_callback(_buf, frame_count, ...)` overwrites the first
`frame_count` frames of the buffer with the next frames of the song and
leaves the rest of the buffer as it was. The SunVox library is not part
of this model.

## Model

| member | source | states |
|---|---|---|
| `SampleFormat.InitFlags` | sv2wav.py:50-58 | The init flag word always asks for no debug output, the user audio callback and one thread. It asks for int16 audio exactly when `--bytes` is 2 and for float32 audio exactly when it is 4. Its value is therefore 23 or 27. |
| `SampleFormat.InitFlagsNameEncoding` | sv2wav.py:55-58 | Reading the sample-format bits back out of the flag word gives exactly the encoding `--bytes` chose. |
| `SampleFormat.FrameSize` | sv2wav.py:76 | A frame is two channels of one sample each: 4 bytes for int16, 8 for float32. |
| `SampleFormat.FormatTag` | sv2wav.py:90 | The format tag written is the RFC 2361 registry tag of the chosen encoding: 1 (PCM) for int16, 3 (IEEE float) for float32. |
| `SampleFormat.BitsPerSample` | sv2wav.py:95 | The bit depth written is the sample width of the chosen encoding, 16 or 32. |
| `SampleFormat.FormatTagInjective` | sv2wav.py:90-95 | The format tag and the bit depth each identify the `--bytes` choice uniquely. |
| `LittleEndian.FitsU16` | sv2wav.py:88-96 | `pack("H")` accepts exactly the values two bytes can hold, 0 to 256^2 - 1. |
| `LittleEndian.FitsU32` | sv2wav.py:88-96 | `pack("L")` accepts exactly the values four bytes can hold, 0 to 256^4 - 1. |
| `LittleEndian.FitsI32` | sv2wav.py:83 | `pack("l")` accepts exactly the values that, shifted up by 2^31, fit four unsigned bytes; the negative ones are those in the lower half. |
| `LittleEndian.EncodeUnsigned` | sv2wav.py:88-96 | A `k`-byte little-endian encoding has `k` bytes and reads back as the encoded value. |
| `LittleEndian.EncodeUnsignedOfUnsigned` | sv2wav.py:88-96 | Every `k`-byte sequence is the encoding of the value it reads as, so the encoding is a bijection onto `k`-byte sequences. |
| `LittleEndian.U16` | sv2wav.py:88-96 | `pack("H")` gives two bytes, low byte first, that read back as the value. |
| `LittleEndian.U32` | sv2wav.py:88-96 | `pack("L")` gives four bytes that read back as the value. |
| `LittleEndian.I32` | sv2wav.py:100 | `pack("l")` gives four two's-complement bytes that read back, signed, as the value. |
| `LittleEndian.I32OfSigned` | sv2wav.py:100 | Every four bytes are the `pack("l")` encoding of their signed reading. |
| `LittleEndian.Ascii` | sv2wav.py:82 | `"RIFF".encode()` and the other chunk identifiers are one byte per character with the character's code. |
| `WavHeader.Derive` | sv2wav.py:76-100 | The derived header obeys the WAVE consistency rules: block align times 8 is channels times bits, byte rate is rate times block align, and the RIFF size counts `WAVE`, the whole `fmt ` chunk and the whole `data` chunk. Its tag, channel count (2), rate and bit depth are those of the request, and the data size is the song's frames times the frame size. |
| `WavHeader.DeriveExample` | sv2wav.py:76-100 | 2500 frames of 16-bit stereo at 44100 Hz give byte rate 176400, block align 4, data size 10000 and RIFF size 10036. |
| `WavHeader.Serialize` | sv2wav.py:82-100 | The header is 44 bytes with `RIFF`, `WAVE`, `fmt ` and `data` at their canonical offsets. |
| `WavHeader.ParseSerialize` | sv2wav.py:82-100 | Parsing the 44 header bytes recovers every field that was encoded, including the sample rate, channel count, bit depth and data size. |
| `WavHeader.SerializeParse` | sv2wav.py:82-100 | Any 44 bytes the parser accepts are exactly the serialization of the header it reads, so parser and encoder are mutual inverses. |
| `WavHeader.WrittenBeforeFmt` | sv2wav.py:82-88 | When the `fmt ` pack raises, the file holds 16 bytes: `RIFF`, the RIFF size, `WAVE` and `fmt `. |
| `WavHeader.WrittenBeforeDataSize` | sv2wav.py:82-100 | When the data-size pack raises, the file holds 40 bytes: `RIFF`, the RIFF size, `WAVE`, `fmt `, the seven `fmt ` fields each reading back as written, and `data`. |
| `WavHeader.EncodeHeader` | sv2wav.py:81-100 | The header is written exactly when every packed field is in range: the RIFF and data sizes fit a signed 32-bit integer, and the rate and byte rate fit an unsigned one. The bytes written then parse back to the derived header. Otherwise the failing field is the first out-of-range one in write order, and the file keeps the 4, 16 or 40 bytes written before it, every one of them pinned: `RIFF`; then the RIFF size, `WAVE` and `fmt `; then also the seven `fmt ` fields and `data`. |
| `WavHeader.RiffSizeCoversHeaderAndData` | sv2wav.py:83 | A written header's RIFF size is the header length minus 8 plus the declared data size. |
| `WavHeader.FitsForRealisticSongs` | sv2wav.py:83-100 | A non-negative song whose data size leaves room for the 36 bytes of chunk overhead below 2^31, at a rate whose byte rate fits 32 bits, always gets its header. |
| `RenderLoop.SilentFrame` | sv2wav.py:102 | A frame of a fresh buffer has `frame_size` bytes, every one of them zero. |
| `RenderLoop.FreshBuffer` | sv2wav.py:102 | A fresh buffer has `buf_frames` frames of `frame_size` bytes each, every byte zero. |
| `RenderLoop.FreshBufferBytes` | sv2wav.py:102 | As bytes, a fresh buffer is exactly `buf_frames * frame_size` zero bytes, which is what `create_string_buffer` allocates. |
| `RenderLoop.NumBlocksBracket` | sv2wav.py:103-110 | For a non-empty song, the number of engine calls `n` is the least count of full buffers covering it: `(n-1)*buf_frames < song_frames <= n*buf_frames`. |
| `RenderLoop.ChunkPlanShape` | sv2wav.py:101-110 | Every call asks for between 1 and `buf_frames` frames, and every call but the last asks for a full buffer. The calls sum to the song length, and there are no calls exactly when the song has no frames. |
| `RenderLoop.ChunkPlanSum` | sv2wav.py:101-110 | The frame counts of all calls add up to the song length (0 for a non-positive length). |
| `RenderLoop.ChunkPlanExample` | sv2wav.py:103-110 | 2500 frames through a 1024-frame buffer are rendered as 1024, 1024 and 452 frames. |
| `RenderLoop.RenderData` | sv2wav.py:101-113 | The loop terminates and makes the calls of the reference schedule, whose counts sum to the song length. It writes one whole buffer per call. The data written is the song's frames followed by the stale tail of the reused buffer. |
| `RenderLoop.StaleTailLength` | sv2wav.py:102-113 | The data written is `ceil(song_frames / buf_frames)` buffers long. The stale tail is empty exactly when the song is empty or `buf_frames` divides it. |
| `RenderLoop.RenderDataExact` | sv2wav.py:101-113 | With only the rendered `frame_count` frames written per call, the same schedule writes exactly the song's frames. |
| `OutputName.EndsWith` | sv2wav.py:18 | `str.endswith` holds exactly when the string is some prefix followed by the suffix. |
| `OutputName.EndsWithAppend` | sv2wav.py:18 | Any prefix followed by the suffix ends with it, and the prefix is what comes before it. |
| `OutputName.CheckProject` | sv2wav.py:16-20 | The input path is accepted exactly when it ends in `.sunvox` and names an existing file, and it is then passed on unchanged. |
| `OutputName.ReplaceProjectSuffix` | sv2wav.py:38 | A path ending in `.sunvox` becomes the same stem followed by `.wav`. A path with no `.sunvox` at its end (or before a final newline) is unchanged. |
| `OutputName.OutputPath` | sv2wav.py:38 | A non-empty `-o` value is the output path verbatim. An absent or empty one gives the input's stem followed by `.wav`. |
| `OutputName.DefaultNameInverse` | sv2wav.py:38 | Swapping the default name's `.wav` back for `.sunvox` recovers the input path. |
| `OutputName.DefaultNameInjective` | sv2wav.py:38 | Distinct accepted inputs get distinct default output paths. |
| `OutputName.DefaultNameDiffersFromInput` | sv2wav.py:38 | The default output path is never the input project itself. |
| `Converter.ExitStatus` | sv2wav.py:59-69 | The exit status is 0 exactly for a completed export and 2 exactly for a rejected command line. It is 1 exactly for an engine failure, a raised `pack` or a failed buffer allocation. |
| `Converter.Convert` | sv2wav.py:16-113 | The run is rejected exactly when argparse rejects the input path or `--bytes`. It fails with the engine's own code exactly when `sv_init` is negative or `sv_load` is non-zero. It stops in the header exactly when a field is out of range, reporting the error `EncodeHeader` gives. A negative `-b`, or a buffer ctypes cannot allocate, leaves exactly the 44-byte header, because `create_string_buffer` raises after it is written. Otherwise it writes a file whose first 44 bytes parse to the derived header, whose calls follow the reference schedule, and whose data is the song's frames followed by the stale tail, `ceil(song_frames / buf_frames) * buf_frames * frame_size` bytes after the header. A song of no frames makes no engine call and leaves a header-only file, also with `-b 0`. |
| `Converter.WriteData` | sv2wav.py:101-113 | After the header, a negative `-b` or an allocation ctypes refuses fails with the header alone as the file. Otherwise the file is the header followed by the loop's data, with no calls and no data for an empty song; for frames of `frame_size` bytes that is `ceil(song_frames / buf_frames) * buf_frames * frame_size` bytes of data. |
| `Converter.NegativeRateStopsBeforeLoop` | sv2wav.py:88-102 | With `-s -1` and `-b 0` on a 1000-frame song, the `fmt ` pack raises first: the run stops with the 16 bytes written before that chunk and exit status 1, and never reaches the loop. |
| `Converter.WrittenSizeVersusDeclared` | sv2wav.py:100-113 | The bytes written after the header are `ceil(song_frames / buf_frames) * buf_frames * frame_size`. They equal the declared data size exactly when `buf_frames` divides the song length. |
| `Converter.OverrunExample` | sv2wav.py:100-113 | 2500 frames of 16-bit stereo through a 1024-frame buffer declare 10000 data bytes but write 12288. |
| `Converter.ExactWriterMatchesDeclared` | sv2wav.py:100-113 | Writing only the song's frames fills the data chunk with exactly its declared size. |

## Left out

- Loading `sunvox.dll` through `ctypes`/`WinDLL` and the pointer-width choice of the 32- or 64-bit library: platform glue.
- The `sv_*` engine calls (`sv_init`, `sv_open_slot`, `sv_load`, `sv_volume`, `sv_play_from_beginning`, `sv_audio_callback`, `sv_get_ticks`, `sv_stop`, `sv_close_slot`, `sv_deinit`): foreign code. The engine is reduced to its two return codes, its song length and the frames it renders. The flag word is computed but not sent anywhere.
- Sample values (int16 or float32): they come from the engine, so frames are opaque bytes.
- File I/O: `open`, `f.write` and `os.path.isfile`. The file is the accumulated byte sequence, and the existence test is a boolean input.
- Memory limits of `create_string_buffer`: whether ctypes can allocate a non-negative buffer (`OverflowError` above `sys.maxsize`, `MemoryError` beyond available memory) is the boolean input `canAllocate` of `Convert`, since it depends on the interpreter and the machine.
- argparse wiring, help text and the `print` calls. Only the accept/reject decision and the exit status are modelled. When both the path and `--bytes` are bad, the model reports the path; argparse reports whichever comes first on the command line.
- `-b 0` with a non-empty song whose header is written: `frame_count` is 0 on every pass, so the loop never advances and the run never ends. `Convert` requires a non-zero buffer or an empty song only when the arguments, the engine and the header all succeed; earlier failures are modelled as such. `-b 0` with an empty song (a header-only export, exit 0) and a negative `-b` (header written, then `create_string_buffer` raises, exit 1) are modelled.
- `c_int(sample)` truncates the rate passed to `sv_init` to 32 bits. The engine is opaque, so only the header's use of the full Python integer is modelled.
- Platform variation of native `struct` sizes: `l`/`L` are fixed at 4 bytes and `H` at 2, as on Windows. Native alignment adds no padding to `LHHLLHH`.
- Engine release on error paths: the script exits after an `sv_init` or `sv_load` failure, or on a `pack` error, without calling `sv_stop`/`sv_close_slot`/`sv_deinit`. Release is outside the modelled state.

## Findings

In the WAVE format the `data` chunk's size field is the number of sample
bytes that follow it, and the RIFF size covers exactly the chunks
declared. The code writes `bytes(_buf)`, the whole reused buffer,
after every engine call. After a short final call, the file therefore
gets the frames the engine did not overwrite. Those are zeros when the
song fits in one buffer, and otherwise the tail of the previous block.
For 2500 frames through a 1024-frame buffer, 10000 data bytes are
declared and 12288 written: the extra 2288 bytes lie outside every chunk
the header declares, and the file is longer than its RIFF size says.
`Convert` models the code as written. `RenderLoop.RenderDataExact` is the
corrected loop.

| source | as written | input that shows it | evidently intended | confidence | as-written member | corrected member |
|---|---|---|---|---|---|---|
| sv2wav.py:102-113 | `f.write(bytes(_buf))` writes `buf_frames * frame_size` bytes per call even when `frame_count < buf_frames` | `song_frames=2500`, `-b 1024`, `--bytes 2`: header declares 10000 data bytes, 12288 are written | write only `frame_count * frame_size` bytes per call, so the data matches its declared size | high; not executed | `RenderLoop.RenderData` with `Converter.OverrunExample` | `RenderLoop.RenderDataExact` with `Converter.ExactWriterMatchesDeclared` |
