/**
  The block-chunking loop that streams the rendered song into the `data`
  chunk. The song is split into calls of at most `buf_frames` frames, the
  last one clamped to what is left. One buffer of `buf_frames` frames is
  allocated (zero-filled) before the loop and reused, and every iteration
  writes the WHOLE buffer to the file. The engine is assumed to overwrite
  only the first `frame_count` frames on each call.

  The engine is deterministic and renders the song front to back, so its
  output is modelled as the sequence `audio` of the song's frames, each
  `frame_size` opaque bytes; the call for frames `[frame, frame + n)`
  yields the slice of `audio` for those frames. The loop is stated over
  frames; `Flatten` turns frames into the bytes of the file.
 */
module RenderLoop {

  import opened LittleEndian

  function Max0(x: int): nat
  {
    if x < 0 then 0 else x
  }

  function Min(a: int, b: int): int
  {
    if a <= b then a else b
  }

  /** A frame: one sample per channel, as raw bytes. */
  type Frame = seq<byte>

  /** The frame a fresh `create_string_buffer` holds: all zero bytes. */
  function SilentFrame(frameSize: nat): (f: Frame)
    ensures |f| == frameSize
    ensures forall i :: 0 <= i < |f| ==> f[i] == 0
  {
    seq(frameSize, _ => 0)
  }

  /** A fresh buffer of `n` frames. */
  function FreshBuffer(n: nat, frameSize: nat): (b: seq<Frame>)
    ensures |b| == n
    ensures FramesOfSize(b, frameSize)
    ensures forall i, j :: 0 <= i < n && 0 <= j < |b[i]| ==> b[i][j] == 0
  {
    seq(n, _ => SilentFrame(frameSize))
  }

  /**
    As bytes, a fresh buffer is what `create_string_buffer(n * frame_size)`
    allocates: `n * frame_size` zero bytes.
   */
  lemma {:induction false} FreshBufferBytes(n: nat, frameSize: nat)
    ensures Flatten(FreshBuffer(n, frameSize)) == seq(n * frameSize, _ => 0)
  {
    if n > 0 {
      FreshBufferBytes(n - 1, frameSize);
      assert FreshBuffer(n, frameSize)[1..] == FreshBuffer(n - 1, frameSize);
      MulAdd(n - 1, 1, frameSize);
      assert seq(n * frameSize, _ => 0) == SilentFrame(frameSize) + seq((n - 1) * frameSize, _ => 0);
    }
  }

  /** Every frame has `frameSize` bytes. */
  predicate FramesOfSize(frames: seq<Frame>, frameSize: nat)
  {
    forall i :: 0 <= i < |frames| ==> |frames[i]| == frameSize
  }

  /** The bytes of a run of frames, in order. */
  function Flatten(frames: seq<Frame>): seq<byte>
  {
    if |frames| == 0 then [] else frames[0] + Flatten(frames[1..])
  }

  lemma {:induction false} FlattenLength(frames: seq<Frame>, frameSize: nat)
    requires FramesOfSize(frames, frameSize)
    ensures |Flatten(frames)| == |frames| * frameSize
  {
    if |frames| > 0 {
      FlattenLength(frames[1..], frameSize);
    }
  }

  function Sum(s: seq<int>): int
  {
    if |s| == 0 then 0 else s[0] + Sum(s[1..])
  }

  lemma {:induction false} SumAppend(s: seq<int>, x: int)
    ensures Sum(s + [x]) == Sum(s) + x
  {
    if |s| > 0 {
      assert (s + [x])[1..] == s[1..] + [x];
      SumAppend(s[1..], x);
    }
  }

  /** Number of engine calls: the song length divided by the buffer, rounded up. */
  function NumBlocks(songFrames: int, bufFrames: int): nat
    requires bufFrames > 0
  {
    if songFrames <= 0 then 0 else (songFrames + bufFrames - 1) / bufFrames
  }

  /**
    Reference schedule of frame counts: call `i` starts at frame
    `i * buf_frames` and takes a full buffer or whatever remains.
   */
  function ChunkPlan(songFrames: int, bufFrames: int): seq<int>
    requires bufFrames > 0
  {
    seq(NumBlocks(songFrames, bufFrames), i => Min(bufFrames, songFrames - i * bufFrames))
  }

  lemma MulAdd(a: int, b: int, c: int)
    ensures (a + b) * c == a * c + b * c
  {
  }

  lemma MulMono(a: int, b: int, c: int)
    requires a <= b && c >= 0
    ensures a * c <= b * c
  {
  }

  lemma MulAssoc(a: int, b: int, c: int)
    ensures (a * b) * c == a * (b * c)
  {
  }

  lemma MulCancel(a: int, b: int, c: int)
    requires c > 0
    ensures a * c == b * c <==> a == b
  {
    if a < b {
      MulMono(a + 1, b, c);
      MulAdd(a, 1, c);
    } else if a > b {
      MulMono(b + 1, a, c);
      MulAdd(b, 1, c);
    }
  }

  /** Division characterised by the bracketing multiples. */
  lemma DivFromBounds(x: int, d: int, k: int)
    requires d > 0 && k * d <= x < (k + 1) * d
    ensures x / d == k && x % d == x - k * d
  {
    var q, r := x / d, x % d;
    assert x == q * d + r && 0 <= r < d;
    if q < k {
      MulMono(q + 1, k, d);
      MulAdd(q, 1, d);
    } else if q > k {
      MulMono(k + 1, q, d);
      MulAdd(k, 1, d);
    }
  }

  /** The call count is the least number of full buffers covering the song. */
  lemma NumBlocksBounds(songFrames: int, bufFrames: int, k: nat)
    requires bufFrames > 0 && songFrames > 0
    requires k * bufFrames < songFrames <= (k + 1) * bufFrames
    ensures NumBlocks(songFrames, bufFrames) == k + 1
  {
    MulAdd(k, 1, bufFrames);
    MulAdd(k, 2, bufFrames);
    DivFromBounds(songFrames + bufFrames - 1, bufFrames, k + 1);
  }

  /**
    The frames that follow the song's audio in the file: the part of the
    reused buffer that the last, short call did not overwrite. They are the
    silent frames of the fresh buffer when the song fits in one call, and
    otherwise the tail of the previous block, which ended `rem` frames
    before the song's end; there are none when `buf_frames` divides the
    song.
   */
  function StaleTail(songFrames: int, bufFrames: int, frameSize: nat, audio: seq<Frame>): (t: seq<Frame>)
    requires bufFrames > 0
    requires |audio| == Max0(songFrames)
  {
    if songFrames <= 0 || songFrames % bufFrames == 0 then []
    else
      var rem := songFrames % bufFrames;
      if songFrames < bufFrames then FreshBuffer(bufFrames - rem, frameSize)
      else audio[songFrames - bufFrames .. songFrames - rem]
  }

  /**
    The data section as sv2wav writes it: one engine call per block with
    the frame count clamped at the end, and the whole reused buffer
    appended to the file after every call.
   */
  method RenderData(songFrames: int, bufFrames: int, frameSize: nat, audio: seq<Frame>)
    returns (counts: seq<int>, data: seq<Frame>)
    requires bufFrames > 0
    requires |audio| == Max0(songFrames)
    ensures counts == ChunkPlan(songFrames, bufFrames)
    ensures Sum(counts) == Max0(songFrames)
    ensures |data| == |counts| * bufFrames
    ensures data == audio + StaleTail(songFrames, bufFrames, frameSize, audio)
  {
    var frame := 0;
    counts, data := [], [];
    var buf := FreshBuffer(bufFrames, frameSize);
    RenderStart(songFrames, bufFrames, frameSize, audio);
    while frame < songFrames
      invariant ScheduleSoFar(songFrames, bufFrames, frame, counts)
      invariant WrittenSoFar(songFrames, bufFrames, frameSize, audio, frame, |counts|, data, buf)
      decreases songFrames - frame
    {
      var frameCount := bufFrames;
      if frame + frameCount > songFrames {
        frameCount := songFrames - frame;
      }
      // the engine fills the first frameCount frames of the buffer
      assert frameCount == Min(bufFrames, songFrames - frame);
      RenderStep(songFrames, bufFrames, frameSize, audio, frame, counts, data, buf, frameCount);
      buf := audio[frame .. frame + frameCount] + buf[frameCount..];
      counts := counts + [frameCount];
      data := data + buf;
      frame := frame + frameCount;
    }
    ScheduleDone(songFrames, bufFrames, frame, counts);
  }

  /** One engine call and its whole-buffer write keep both loop invariants. */
  lemma RenderStep(songFrames: int, bufFrames: int, frameSize: nat, audio: seq<Frame>,
                   frame: int, counts: seq<int>, data: seq<Frame>, buf: seq<Frame>, c: int)
    requires bufFrames > 0 && |audio| == Max0(songFrames) && frame < songFrames
    requires ScheduleSoFar(songFrames, bufFrames, frame, counts)
    requires WrittenSoFar(songFrames, bufFrames, frameSize, audio, frame, |counts|, data, buf)
    requires c == Min(bufFrames, songFrames - frame)
    ensures 0 < c <= |buf| && frame + c <= |audio|
    ensures ScheduleSoFar(songFrames, bufFrames, frame + c, counts + [c])
    ensures WrittenSoFar(songFrames, bufFrames, frameSize, audio, frame + c, |counts + [c]|,
                         data + (audio[frame .. frame + c] + buf[c..]), audio[frame .. frame + c] + buf[c..])
  {
    ScheduleStep(songFrames, bufFrames, frame, counts, c);
    WrittenStep(songFrames, bufFrames, frameSize, audio, frame, counts, data, buf, c);
  }

  /** Before the first call both loop invariants hold. */
  lemma RenderStart(songFrames: int, bufFrames: int, frameSize: nat, audio: seq<Frame>)
    requires bufFrames > 0 && |audio| == Max0(songFrames)
    ensures ScheduleSoFar(songFrames, bufFrames, 0, [])
    ensures WrittenSoFar(songFrames, bufFrames, frameSize, audio, 0, 0, [], FreshBuffer(bufFrames, frameSize))
  {
    if songFrames <= 0 {
      assert NumBlocks(songFrames, bufFrames) == 0;
      assert audio == [];
    }
  }

  /** Once the song is covered, the counts are the reference schedule. */
  lemma ScheduleDone(songFrames: int, bufFrames: int, frame: int, counts: seq<int>)
    requires bufFrames > 0 && frame >= songFrames
    requires ScheduleSoFar(songFrames, bufFrames, frame, counts)
    ensures counts == ChunkPlan(songFrames, bufFrames)
    ensures Sum(counts) == Max0(songFrames)
  {
    assert forall i :: 0 <= i < |counts| ==> counts[i] == ChunkPlan(songFrames, bufFrames)[i];
  }

  /**
    Loop invariant for the frame counts: `frame` frames have been asked
    for, by the first calls of the reference schedule; before the end
    every call was a full buffer.
   */
  ghost predicate ScheduleSoFar(songFrames: int, bufFrames: int, frame: int, counts: seq<int>)
    requires bufFrames > 0
  {
    && 0 <= frame <= Max0(songFrames)
    && Sum(counts) == frame
    && (forall i :: 0 <= i < |counts| ==> counts[i] == Min(bufFrames, songFrames - i * bufFrames))
    && (frame < songFrames ==> frame == |counts| * bufFrames)
    && (frame >= songFrames ==> |counts| == NumBlocks(songFrames, bufFrames))
  }

  /**
    Loop invariant for the file: before the end, the file holds the frames
    rendered so far and the buffer holds the last block (or is fresh); at
    the end, the file holds the song followed by the stale tail.
   */
  ghost predicate WrittenSoFar(songFrames: int, bufFrames: int, frameSize: nat, audio: seq<Frame>,
                               frame: int, k: nat, data: seq<Frame>, buf: seq<Frame>)
    requires bufFrames > 0 && |audio| == Max0(songFrames) && 0 <= frame <= Max0(songFrames)
  {
    && |buf| == bufFrames
    && |data| == k * bufFrames
    && (frame < songFrames ==> data == audio[..frame])
    && (frame < songFrames && k == 0 ==> buf == FreshBuffer(bufFrames, frameSize))
    && (frame < songFrames && k > 0 ==> frame >= bufFrames && buf == audio[frame - bufFrames .. frame])
    && (frame >= songFrames ==> data == audio + StaleTail(songFrames, bufFrames, frameSize, audio))
  }

  /** One call keeps the schedule invariant. */
  lemma ScheduleStep(songFrames: int, bufFrames: int, frame: int, counts: seq<int>, c: int)
    requires bufFrames > 0 && frame < songFrames
    requires ScheduleSoFar(songFrames, bufFrames, frame, counts)
    requires c == Min(bufFrames, songFrames - frame)
    ensures ScheduleSoFar(songFrames, bufFrames, frame + c, counts + [c])
  {
    var k := |counts|;
    SumAppend(counts, c);
    MulAdd(k, 1, bufFrames);
    if frame + c >= songFrames {
      NumBlocksBounds(songFrames, bufFrames, k);
    }
    assert (counts + [c])[k] == Min(bufFrames, songFrames - k * bufFrames);
  }

  /** One call, with its whole-buffer write, keeps the file invariant. */
  lemma WrittenStep(songFrames: int, bufFrames: int, frameSize: nat, audio: seq<Frame>,
                    frame: int, counts: seq<int>, data: seq<Frame>, buf: seq<Frame>, c: int)
    requires bufFrames > 0 && |audio| == Max0(songFrames) && frame < songFrames
    requires ScheduleSoFar(songFrames, bufFrames, frame, counts)
    requires WrittenSoFar(songFrames, bufFrames, frameSize, audio, frame, |counts|, data, buf)
    requires c == Min(bufFrames, songFrames - frame)
    ensures 0 < c <= |buf| && frame + c <= |audio|
    ensures var nextBuf := audio[frame .. frame + c] + buf[c..];
      WrittenSoFar(songFrames, bufFrames, frameSize, audio, frame + c, |counts| + 1, data + nextBuf, nextBuf)
  {
    var k := |counts|;
    var block := audio[frame .. frame + c];
    var nextBuf := block + buf[c..];
    MulAdd(k, 1, bufFrames);
    if frame + c < songFrames {
      assert nextBuf == block;
      assert audio[..frame + c] == audio[..frame] + block;
    } else {
      LastBlock(songFrames, bufFrames, frameSize, audio, k, buf);
    }
  }

  /** The final iteration leaves the song's audio followed by the stale tail. */
  lemma LastBlock(songFrames: int, bufFrames: int, frameSize: nat, audio: seq<Frame>, k: nat, oldBuf: seq<Frame>)
    requires bufFrames > 0
    requires |audio| == Max0(songFrames)
    requires k * bufFrames < songFrames <= (k + 1) * bufFrames
    requires |oldBuf| == bufFrames
    requires k == 0 ==> oldBuf == FreshBuffer(bufFrames, frameSize)
    requires k > 0 ==> (k * bufFrames >= bufFrames && oldBuf == audio[k * bufFrames - bufFrames .. k * bufFrames])
    ensures audio[..k * bufFrames] + (audio[k * bufFrames .. songFrames] + oldBuf[songFrames - k * bufFrames..])
      == audio + StaleTail(songFrames, bufFrames, frameSize, audio)
  {
    var frame := k * bufFrames;
    var rem := songFrames - frame;
    MulAdd(k, 1, bufFrames);
    assert audio == audio[..frame] + audio[frame .. songFrames];
    if rem == bufFrames {
      assert songFrames == (k + 1) * bufFrames;
      DivFromBounds(songFrames, bufFrames, k + 1);
      assert oldBuf[rem..] == [];
    } else {
      DivFromBounds(songFrames, bufFrames, k);
      if k > 0 {
        MulAdd(k - 1, 1, bufFrames);
        assert oldBuf[rem..] == audio[(k - 1) * bufFrames + rem .. k * bufFrames];
      } else {
        assert oldBuf[rem..] == FreshBuffer(bufFrames - rem, frameSize);
      }
    }
  }

  /** The call count brackets the song between two multiples of the buffer. */
  lemma NumBlocksBracket(songFrames: int, bufFrames: int)
    requires bufFrames > 0 && songFrames > 0
    ensures var n := NumBlocks(songFrames, bufFrames);
      n >= 1 && (n - 1) * bufFrames < songFrames <= n * bufFrames
  {
    var n := NumBlocks(songFrames, bufFrames);
    var r := (songFrames + bufFrames - 1) % bufFrames;
    assert songFrames + bufFrames - 1 == n * bufFrames + r;
    MulAdd(n - 1, 1, bufFrames);
  }

  /**
    Shape of the schedule: every call asks for between 1 and `buf_frames`
    frames, all calls but the last ask for a full buffer, and the calls
    together cover the song exactly; a song of no frames makes no call.
   */
  lemma ChunkPlanShape(songFrames: int, bufFrames: int)
    requires bufFrames > 0
    ensures var plan := ChunkPlan(songFrames, bufFrames);
      && (|plan| == 0 <==> songFrames <= 0)
      && (forall i :: 0 <= i < |plan| ==> 0 < plan[i] <= bufFrames)
      && (forall i :: 0 <= i < |plan| - 1 ==> plan[i] == bufFrames)
      && Sum(plan) == Max0(songFrames)
  {
    var plan := ChunkPlan(songFrames, bufFrames);
    if songFrames > 0 {
      var n := NumBlocks(songFrames, bufFrames);
      NumBlocksBracket(songFrames, bufFrames);
      forall i | 0 <= i < n
        ensures 0 < plan[i] <= bufFrames
        ensures i < n - 1 ==> plan[i] == bufFrames
      {
        MulMono(i, n - 1, bufFrames);
        MulAdd(i, 1, bufFrames);
        if i < n - 1 {
          MulMono(i + 1, n - 1, bufFrames);
        }
      }
    }
    ChunkPlanSum(songFrames, bufFrames);
  }

  lemma {:induction false} ChunkPlanSum(songFrames: int, bufFrames: int)
    requires bufFrames > 0
    ensures Sum(ChunkPlan(songFrames, bufFrames)) == Max0(songFrames)
    decreases Max0(songFrames)
  {
    var plan := ChunkPlan(songFrames, bufFrames);
    if songFrames <= 0 {
      assert plan == [];
    } else if songFrames <= bufFrames {
      NumBlocksBounds(songFrames, bufFrames, 0);
      assert plan == [songFrames];
    } else {
      var rest := ChunkPlan(songFrames - bufFrames, bufFrames);
      var n := NumBlocks(songFrames, bufFrames);
      NumBlocksBracket(songFrames, bufFrames);
      MulAdd(n - 2, 1, bufFrames);
      NumBlocksBounds(songFrames - bufFrames, bufFrames, n - 2);
      forall i | 0 <= i < |rest|
        ensures rest[i] == plan[i + 1]
      {
        MulAdd(i, 1, bufFrames);
      }
      assert plan == [bufFrames] + rest;
      ChunkPlanSum(songFrames - bufFrames, bufFrames);
    }
  }

  /** The worked example: 2500 frames through a 1024-frame buffer. */
  lemma ChunkPlanExample()
    ensures ChunkPlan(2500, 1024) == [1024, 1024, 452]
  {
    NumBlocksBounds(2500, 1024, 2);
  }

  /**
    The whole-buffer writes put `NumBlocks * buf_frames` frames in the file,
    and that is the song's length exactly when `buf_frames` divides it.
   */
  lemma StaleTailLength(songFrames: int, bufFrames: int, frameSize: nat, audio: seq<Frame>)
    requires bufFrames > 0
    requires |audio| == Max0(songFrames)
    ensures |audio + StaleTail(songFrames, bufFrames, frameSize, audio)| == NumBlocks(songFrames, bufFrames) * bufFrames
    ensures StaleTail(songFrames, bufFrames, frameSize, audio) == [] <==> songFrames <= 0 || songFrames % bufFrames == 0
  {
    StaleTailSize(songFrames, bufFrames, frameSize, audio);
    if songFrames > 0 {
      BlocksCover(songFrames, bufFrames);
    }
  }

  /** The calls cover the song plus what the last one leaves unfilled. */
  lemma BlocksCover(songFrames: int, bufFrames: int)
    requires bufFrames > 0 && songFrames > 0
    ensures NumBlocks(songFrames, bufFrames) * bufFrames
      == songFrames + if songFrames % bufFrames == 0 then 0 else bufFrames - songFrames % bufFrames
  {
    var full := songFrames / bufFrames;
    var rem := songFrames % bufFrames;
    assert songFrames == full * bufFrames + rem;
    if rem == 0 {
      MulAdd(full - 1, 1, bufFrames);
      NumBlocksBounds(songFrames, bufFrames, full - 1);
    } else {
      MulAdd(full, 1, bufFrames);
      NumBlocksBounds(songFrames, bufFrames, full);
    }
  }

  /** The stale tail is what the last call leaves unfilled of the buffer. */
  lemma StaleTailSize(songFrames: int, bufFrames: int, frameSize: nat, audio: seq<Frame>)
    requires bufFrames > 0
    requires |audio| == Max0(songFrames)
    ensures |StaleTail(songFrames, bufFrames, frameSize, audio)|
      == if songFrames <= 0 || songFrames % bufFrames == 0 then 0 else bufFrames - songFrames % bufFrames
  {
    if songFrames > 0 && songFrames % bufFrames != 0 {
      var full := songFrames / bufFrames;
      if full > 0 {
        MulAdd(full - 1, 1, bufFrames);
      }
    }
  }

  /**
    The data section with the evidently intended write of only the
    `frame_count` frames the engine rendered: the file then holds the song's
    audio exactly, matching the declared data size.
   */
  method RenderDataExact(songFrames: int, bufFrames: int, audio: seq<Frame>)
    returns (counts: seq<int>, data: seq<Frame>)
    requires bufFrames > 0
    requires |audio| == Max0(songFrames)
    ensures counts == ChunkPlan(songFrames, bufFrames)
    ensures data == audio
  {
    var frame := 0;
    counts, data := [], [];
    RenderStart(songFrames, bufFrames, 0, audio);
    while frame < songFrames
      invariant ScheduleSoFar(songFrames, bufFrames, frame, counts)
      invariant data == audio[..frame]
      decreases songFrames - frame
    {
      var frameCount := bufFrames;
      if frame + frameCount > songFrames {
        frameCount := songFrames - frame;
      }
      assert frameCount == Min(bufFrames, songFrames - frame);
      ScheduleStep(songFrames, bufFrames, frame, counts, frameCount);
      data := data + audio[frame .. frame + frameCount];
      counts := counts + [frameCount];
      frame := frame + frameCount;
    }
    ScheduleDone(songFrames, bufFrames, frame, counts);
  }

  /**
    The stale frames are silent frames or frames of the song, so they have
    the frame size, and so does every frame of the data section.
   */
  lemma StaleTailFramesOfSize(songFrames: int, bufFrames: int, frameSize: nat, audio: seq<Frame>)
    requires bufFrames > 0 && |audio| == Max0(songFrames)
    requires FramesOfSize(audio, frameSize)
    ensures FramesOfSize(StaleTail(songFrames, bufFrames, frameSize, audio), frameSize)
    ensures FramesOfSize(audio + StaleTail(songFrames, bufFrames, frameSize, audio), frameSize)
  {
    var t := StaleTail(songFrames, bufFrames, frameSize, audio);
    if songFrames > 0 && songFrames % bufFrames != 0 && songFrames >= bufFrames {
      var lo := songFrames - bufFrames;
      var hi := songFrames - songFrames % bufFrames;
      assert t == audio[lo .. hi];
      forall i | 0 <= i < |t|
        ensures |t[i]| == frameSize
      {
        assert t[i] == audio[lo + i];
      }
    }
    forall i | 0 <= i < |audio + t|
      ensures |(audio + t)[i]| == frameSize
    {
      if i >= |audio| {
        assert (audio + t)[i] == t[i - |audio|];
      }
    }
  }
}
