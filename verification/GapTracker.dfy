/** The datagram receiver of one source: sequence and capture-frame tracking, and the silence it fills gaps with. */
module GapTracker {
  import opened Bytes
  import opened Division
  import FQ = FrameQueue

  const DEFAULT_MAX_GAP: int := 192000 * 3
  const MAX_PAYLOAD: nat := 960

  type GoInt = x: int | -0x8000_0000_0000_0000 <= x <= 0x7fff_ffff_ffff_ffff

  datatype Frame = Frame(seqNo: UInt64, captureFrame: UInt64, payload: seq<Byte>)

  /** What the tracker makes of one frame. */
  datatype Verdict = Verdict(stale: bool, missingPackets: nat, gapFrames: nat)

  datatype Tracker = Tracker(seen: bool, expectedSeq: UInt64, expectedCaptureFrame: UInt64, maxGapFrames: GoInt) {
    /** The longest gap that is filled. */
    function Cap(): (r: nat)
      ensures r > 0
    {
      if maxGapFrames <= 0 then DEFAULT_MAX_GAP else maxGapFrames
    }

    /** A frame older than the newest one accepted is stale; a missing stretch is measured by the capture clock,
        or, where that clock did not move forward, by the number of packets. All in unbounded arithmetic. */
    function Judge(seqNo: UInt64, captureFrame: UInt64, packetFrames: nat): Verdict
    {
      if !seen then Verdict(false, 0, 0)
      else if seqNo < expectedSeq then Verdict(true, 0, 0)
      else
        var missing := seqNo - expectedSeq;
        var gap := if captureFrame > expectedCaptureFrame then captureFrame - expectedCaptureFrame
                   else missing * packetFrames;
        Verdict(false, missing, Min(gap, Cap()))
    }

    function After(seqNo: UInt64, captureFrame: UInt64, packetFrames: nat): Tracker
    {
      if Judge(seqNo, captureFrame, packetFrames).stale then this
      else this.(seen := true, expectedSeq := (seqNo + 1) % U64_SPAN,
                 expectedCaptureFrame := PlusSat(captureFrame, packetFrames))
    }
  }

  /** What a frame is judged to be: stale exactly if a frame with its number or a larger one was accepted before; otherwise the
      gap is what the capture clock has moved on beyond the last frame's end or, if it has not moved on, the missing packets,
      taken to be as long as this one. */
  lemma JudgedByClockOrPackets(t: Tracker, last: UInt64, lastEnd: UInt64, seqNo: UInt64, captureFrame: UInt64, packetFrames: nat)
    requires last < U64_MAX && t.seen && t.expectedSeq == last + 1 && t.expectedCaptureFrame == lastEnd
    ensures var v, t' := t.Judge(seqNo, captureFrame, packetFrames), t.After(seqNo, captureFrame, packetFrames);
            && (v.stale <==> seqNo <= last)
            && (v.stale ==> v == Verdict(true, 0, 0) && t' == t)
            && (!v.stale ==>
                  && v.missingPackets == seqNo - last - 1
                  && (captureFrame > lastEnd ==> v.gapFrames == Min(captureFrame - lastEnd, t.Cap()))
                  && (captureFrame <= lastEnd ==> v.gapFrames == Min(v.missingPackets * packetFrames, t.Cap()))
                  && (seqNo < U64_MAX && captureFrame + packetFrames <= U64_MAX ==>
                        t' == Tracker(true, seqNo + 1, captureFrame + packetFrames, t.maxGapFrames)))
  {
  }

  /** The first frame is accepted whatever its number, and no gap is seen before it. */
  lemma FirstIsAccepted(max: GoInt, seqNo: UInt64, captureFrame: UInt64, packetFrames: nat)
    requires seqNo < U64_MAX && captureFrame + packetFrames <= U64_MAX
    ensures var t := Tracker(false, 0, 0, max);
            && t.Judge(seqNo, captureFrame, packetFrames) == Verdict(false, 0, 0)
            && t.After(seqNo, captureFrame, packetFrames) == Tracker(true, seqNo + 1, captureFrame + packetFrames, max)
  {
  }

  /** Gaps up to 576000 frames are filled unless another limit is given. */
  lemma LimitOf(t: Tracker)
    ensures t.Cap() == if t.maxGapFrames > 0 then t.maxGapFrames else 576000
  {
  }

  class FrameTracker {
    var seen: bool
    var expectedSeq: UInt64
    var expectedCaptureFrame: UInt64
    const maxGapFrames: GoInt

    function Now(): Tracker
      reads this
    {
      Tracker(seen, expectedSeq, expectedCaptureFrame, maxGapFrames)
    }

    constructor (max: GoInt)
      ensures Now() == Tracker(false, 0, 0, max)
    {
      seen, expectedSeq, expectedCaptureFrame, maxGapFrames := false, 0, 0, max;
    }

    method Accept(seqNo: UInt64, captureFrame: UInt64, packetFrames: nat) returns (v: Verdict)
      requires packetFrames <= U64_MAX
      modifies this
      ensures v == old(Now()).Judge(seqNo, captureFrame, packetFrames)
      ensures Now() == old(Now()).After(seqNo, captureFrame, packetFrames)
    {
      if !seen {
        Advance(seqNo, captureFrame, packetFrames);
        return Verdict(false, 0, 0);
      }
      if seqNo < expectedSeq {
        return Verdict(true, 0, 0);
      }
      var missing := seqNo - expectedSeq;
      var gapFrames := 0;
      if captureFrame > expectedCaptureFrame {
        gapFrames := CapGapFrames(captureFrame - expectedCaptureFrame);
      }
      if gapFrames == 0 && missing > 0 {
        gapFrames := CapMissingPacketFrames(missing, packetFrames);
      }
      Advance(seqNo, captureFrame, packetFrames);
      v := Verdict(false, missing, gapFrames);
    }

    method Advance(seqNo: UInt64, captureFrame: UInt64, packetFrames: nat)
      requires packetFrames <= U64_MAX
      modifies this
      ensures seen && expectedSeq == (seqNo + 1) % U64_SPAN
      ensures expectedCaptureFrame == PlusSat(captureFrame, packetFrames)
    {
      seen, expectedSeq := true, (seqNo + 1) % U64_SPAN;
      if packetFrames <= 0 {
        expectedCaptureFrame := captureFrame;
      } else if U64_MAX - captureFrame < packetFrames {
        expectedCaptureFrame := U64_MAX;
      } else {
        expectedCaptureFrame := captureFrame + packetFrames;
      }
    }

    /** The product is never formed when it would not fit 64 bits. */
    method CapMissingPacketFrames(missing: UInt64, packetFrames: nat) returns (r: nat)
      requires packetFrames <= U64_MAX
      ensures r == Min(missing * packetFrames, Now().Cap())
    {
      if missing == 0 || packetFrames <= 0 {
        return 0;
      }
      Recompose(U64_MAX, packetFrames);
      if missing > U64_MAX / packetFrames {
        MulMonotone(U64_MAX / packetFrames + 1, missing, packetFrames);
        MulMonotone(U64_MAX / packetFrames, missing, packetFrames);
        r := CapGapFrames(U64_MAX);
      } else {
        MulMonotone(missing, U64_MAX / packetFrames, packetFrames);
        r := CapGapFrames(missing * packetFrames);
      }
    }

    method CapGapFrames(gap: UInt64) returns (r: nat)
      ensures r == Min(gap, Now().Cap())
    {
      var limit := maxGapFrames;
      if limit <= 0 {
        limit := DEFAULT_MAX_GAP;
      }
      if gap > limit {
        return limit;
      }
      r := gap;
    }
  }

  /** One source as the run sees it: its tracker, the bytes handed to its stream, and its share of the counters. */
  datatype Source = Source(tracker: Tracker, handed: seq<Byte>, staleFrames: nat, gaps: nat)

  function Handle(s: Source, frame: Frame, bpf: nat): Source
    requires bpf > 0
  {
    if |frame.payload| % bpf != 0 then s else
    var frames := FQ.Frames(|frame.payload|, bpf);
    var v := s.tracker.Judge(frame.seqNo, frame.captureFrame, frames);
    if v.stale then s.(staleFrames := s.staleFrames + 1)
    else Source(s.tracker.After(frame.seqNo, frame.captureFrame, frames),
                s.handed + FQ.Zeros(FQ.InBytes(v.gapFrames, bpf)) + frame.payload,
                s.staleFrames, s.gaps + v.missingPackets)
  }

  /** A frame that is neither stale nor cut off inside a frame adds its gap in silence, and itself, to the stream; any other
      leaves the stream and the tracker alone, and only a stale one is counted. */
  lemma HandledIsHeard(s: Source, f: Frame, bpf: nat)
    requires bpf > 0
    ensures var s', v := Handle(s, f, bpf), s.tracker.Judge(f.seqNo, f.captureFrame, FQ.Frames(|f.payload|, bpf));
            if |f.payload| % bpf != 0 then s' == s
            else if v.stale then s' == s.(staleFrames := s.staleFrames + 1)
            else
              && s'.staleFrames == s.staleFrames && s'.gaps == s.gaps + v.missingPackets
              && s'.tracker == s.tracker.After(f.seqNo, f.captureFrame, FQ.Frames(|f.payload|, bpf))
              && |s'.handed| == |s.handed| + FQ.InBytes(v.gapFrames, bpf) + |f.payload|
              && s.handed <= s'.handed && s'.handed[|s'.handed| - |f.payload|..] == f.payload
              && (forall i | |s.handed| <= i < |s'.handed| - |f.payload| :: s'.handed[i] == 0)
  {
  }

  /** `to` is `from` followed by n bytes of silence. */
  ghost predicate Extended(from: seq<Byte>, to: seq<Byte>, n: nat)
  {
    exists silence: seq<Byte> :: silence == FQ.Zeros(n) && to == from + silence
  }

  lemma SilenceStarts(s: seq<Byte>)
    ensures Extended(s, s, 0)
  {
    assert s == s + FQ.Zeros(0);
  }

  lemma SilenceGrows(s: seq<Byte>, s': seq<Byte>, s'': seq<Byte>, a: nat, b: nat)
    requires Extended(s, s', a) && Extended(s', s'', b)
    ensures Extended(s, s'', a + b)
  {
    var z, z' := FQ.Zeros(a), FQ.Zeros(b);
    assert z + z' == FQ.Zeros(a + b);
    assert s'' == s + (z + z');
  }

  /** The silence written in one piece: a full payload, at least one frame. */
  function SilenceChunk(bpf: nat): (r: nat)
    requires bpf > 0
    ensures r > 0
  {
    Max(1, MAX_PAYLOAD / bpf)
  }

  class UdpSource {
    const tracker: FrameTracker
    const stream: FQ.FrameQueue
    var staleFrames: nat
    var gaps: nat

    ghost predicate Valid()
      reads this, stream, stream.buf
    {
      stream.Valid()
    }

    ghost function Now(): Source
      reads this, tracker, stream
    {
      Source(tracker.Now(), stream.stream, staleFrames, gaps)
    }

    constructor (maxGapFrames: GoInt, bytesPerFrame: nat, targetFrames: nat, highFrames: nat)
      requires bytesPerFrame > 0 && 0 < targetFrames <= highFrames
      ensures Valid() && stream.bytesPerFrame == bytesPerFrame && fresh(stream) && fresh(tracker) && fresh(stream.buf)
      ensures Now() == Source(Tracker(false, 0, 0, maxGapFrames), [], 0, 0)
    {
      tracker := new FrameTracker(maxGapFrames);
      stream := new FQ.FrameQueue(bytesPerFrame, targetFrames, highFrames);
      staleFrames, gaps := 0, 0;
    }

    method HandleAudio(frame: Frame)
      requires Valid() && |frame.payload| <= MAX_PAYLOAD
      modifies this, tracker, stream, stream.buf
      ensures Valid() && Now() == Handle(old(Now()), frame, stream.bytesPerFrame)
    {
      var bpf := stream.bytesPerFrame;
      if |frame.payload| % bpf != 0 {
        return;
      }
      var frames := FQ.Frames(|frame.payload|, bpf);
      var v := tracker.Accept(frame.seqNo, frame.captureFrame, frames);
      if v.stale {
        staleFrames := staleFrames + 1;
        return;
      }
      gaps := gaps + v.missingPackets;
      WriteSilence(v.gapFrames);
      FQ.FramesFit(|frame.payload|, bpf);
      assert FQ.WholeFrames(frame.payload, bpf) == frame.payload;
      var _ := stream.Write(frame.payload);
    }

    /** Writes silence in pieces no longer than a datagram's payload. */
    method WriteSilence(gapFrames: nat)
      requires Valid()
      modifies stream, stream.buf
      ensures Valid() && Extended(old(stream.stream), stream.stream, FQ.InBytes(gapFrames, stream.bytesPerFrame))
    {
      var chunkFrames := SilenceChunk(stream.bytesPerFrame);
      var left: nat := gapFrames;
      ghost var before, size: nat := stream.stream, 0;
      SilenceStarts(before);
      while left > 0
        invariant Valid() && Silenced(before, size, left, gapFrames)
      {
        var n := Min(left, chunkFrames);
        size := WriteMore(before, size, n, left, gapFrames);
        left := left - n;
      }
    }

    /** Since `before`, silence of some size was written; with the frames left it will be that of all frames. */
    ghost predicate Silenced(before: seq<Byte>, size: nat, left: nat, frames: nat)
      reads stream
    {
      && Extended(before, stream.stream, size)
      && size + FQ.InBytes(left, stream.bytesPerFrame) == FQ.InBytes(frames, stream.bytesPerFrame)
    }

    method WriteMore(ghost before: seq<Byte>, ghost size: nat, n: nat, ghost left: nat, ghost frames: nat)
      returns (ghost size': nat)
      requires Valid() && Silenced(before, size, left, frames) && n <= left
      modifies stream, stream.buf
      ensures Valid() && Silenced(before, size', left - n, frames)
    {
      ghost var between := stream.stream;
      FQ.InBytesMonotone(n, left, stream.bytesPerFrame);
      size' := size + FQ.InBytes(n, stream.bytesPerFrame);
      WriteZeros(n);
      SilenceGrows(before, between, stream.stream, size, FQ.InBytes(n, stream.bytesPerFrame));
    }

    method WriteZeros(n: nat)
      requires Valid()
      modifies stream, stream.buf
      ensures Valid() && Extended(old(stream.stream), stream.stream, FQ.InBytes(n, stream.bytesPerFrame))
    {
      var bpf := stream.bytesPerFrame;
      var zeros := FQ.Zeros(FQ.InBytes(n, bpf));
      FQ.FramesInBytes(n, bpf);
      assert FQ.WholeFrames(zeros, bpf) == zeros;
      var _ := stream.Write(zeros);
    }
  }
}
