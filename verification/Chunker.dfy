/** The datagram sender's packet filling: what it reads from the capture becomes numbered frames on the capture clock. */
module Chunker {
  import opened Bytes
  import GapTracker
  import FQ = FrameQueue

  type Frame = GapTracker.Frame

  /** The capture clock: where in the captured bytes a frame count points. */
  function At(frames: nat, bpf: nat): nat { FQ.InBytes(frames, bpf) }

  /** A frame carries `chunk` frames cut from the capture at the place its capture frame names. */
  ghost predicate Cut(f: Frame, captured: seq<Byte>, bpf: nat, chunk: nat)
  {
    && |f.payload| == At(chunk, bpf)
    && At(f.captureFrame, bpf) + |f.payload| <= |captured|
    && f.payload == captured[At(f.captureFrame, bpf)..At(f.captureFrame, bpf) + |f.payload|]
  }

  /** Frames are numbered without gaps and cut from the capture without overlap. */
  ghost predicate Honest(sent: seq<Frame>, captured: seq<Byte>, bpf: nat, chunk: nat)
  {
    && (forall i | 0 <= i < |sent| :: sent[i].seqNo == i && Cut(sent[i], captured, bpf, chunk))
    && (forall i, j | 0 <= i < j < |sent| :: sent[i].captureFrame + chunk <= sent[j].captureFrame)
  }

  /** Nothing that was sent overlaps what is captured from `captureFrame` on. */
  ghost predicate EndsBefore(sent: seq<Frame>, captureFrame: nat, chunk: nat)
  {
    forall i | 0 <= i < |sent| :: sent[i].captureFrame + chunk <= captureFrame
  }

  lemma HonestUnderCapture(sent: seq<Frame>, captured: seq<Byte>, more: seq<Byte>, bpf: nat, chunk: nat)
    requires Honest(sent, captured, bpf, chunk)
    ensures Honest(sent, captured + more, bpf, chunk)
  {
    forall i | 0 <= i < |sent|
      ensures Cut(sent[i], captured + more, bpf, chunk)
    {
      var at := At(sent[i].captureFrame, bpf);
      assert Cut(sent[i], captured, bpf, chunk);
      assert (captured + more)[at..at + |sent[i].payload|] == captured[at..at + |sent[i].payload|];
    }
  }

  lemma HonestSend(sent: seq<Frame>, captured: seq<Byte>, f: Frame, bpf: nat, chunk: nat)
    requires Honest(sent, captured, bpf, chunk) && EndsBefore(sent, f.captureFrame, chunk)
    requires f.seqNo == |sent| && Cut(f, captured, bpf, chunk)
    ensures Honest(sent + [f], captured, bpf, chunk)
  {
  }

  /** A packet that reaches from one capture frame to another spans exactly the frames between them. */
  lemma {:induction false} FullPacket(from: nat, to: nat, chunk: nat, bpf: nat)
    requires bpf > 0 && At(from, bpf) + At(chunk, bpf) == At(to, bpf)
    ensures from + chunk == to
  {
    FQ.InBytesAdds(from, chunk, bpf);
    FQ.InBytesMonotone(Min(from + chunk, to), Max(from + chunk, to), bpf);
  }

  /** The first `filled` bytes of the packet are the last captured ones. */
  ghost predicate Partial(packet: seq<Byte>, filled: nat, captured: seq<Byte>)
  {
    filled <= |packet| && filled <= |captured| && packet[..filled] == captured[|captured| - filled..]
  }

  lemma PartialGrows(packet: seq<Byte>, filled: nat, captured: seq<Byte>, input: seq<Byte>)
    requires filled + |input| <= |packet| && Partial(packet, filled, captured)
    ensures Partial(packet[..filled] + input + packet[filled + |input|..], filled + |input|, captured + input)
  {
  }

  /** The bytes captured last. */
  ghost predicate LastOf(captured: seq<Byte>, bytes: seq<Byte>)
  {
    |bytes| <= |captured| && captured[|captured| - |bytes|..] == bytes
  }

  /** The frames sent are numbered from 0 and of one size. */
  ghost predicate Numbered(sent: seq<Frame>, bytes: nat)
  {
    forall i | 0 <= i < |sent| :: sent[i].seqNo == i && |sent[i].payload| == bytes
  }

  class Chunker {
    const bpf: nat
    const chunk: nat
    const packet: array<Byte>
    var filled: nat
    var seqNo: nat
    var captureFrame: nat
    var packetCaptureFrame: nat
    /** Everything read from the capture, and everything sent. */
    ghost var captured: seq<Byte>
    ghost var sent: seq<Frame>
    /** Every read so far was a whole number of frames. */
    ghost var whole: bool

    ghost predicate Valid()
      reads this, packet
    {
      && bpf > 0 && chunk > 0 && packet.Length == At(chunk, bpf) && filled < packet.Length && seqNo == |sent|
      && packetCaptureFrame <= captureFrame
      && Partial(packet[..], filled, captured) && Numbered(sent, packet.Length)
      && (whole ==> OnClock())
    }

    /** The capture clock points at the captured bytes, and the frames sent are cut from them without overlap. */
    ghost predicate OnClock()
      reads this
    {
      && |captured| == At(captureFrame, bpf) && Honest(sent, captured, bpf, chunk)
      && (filled == 0 ==> EndsBefore(sent, captureFrame, chunk))
      && (filled > 0 ==> EndsBefore(sent, packetCaptureFrame, chunk)
                         && At(packetCaptureFrame, bpf) + filled == |captured|)
    }

    constructor (bytesPerFrame: nat)
      requires bytesPerFrame > 0
      ensures Valid() && whole && sent == [] && captured == [] && bpf == bytesPerFrame
      ensures chunk == GapTracker.SilenceChunk(bytesPerFrame)
    {
      bpf := bytesPerFrame;
      var c := GapTracker.SilenceChunk(bytesPerFrame);
      chunk := c;
      FQ.InBytesMonotone(1, c, bytesPerFrame);
      packet := new Byte[At(c, bytesPerFrame)](_ => 0);
      filled, seqNo, captureFrame, packetCaptureFrame := 0, 0, 0, 0;
      captured, sent, whole := [], [], true;
    }

    /** A new connection starts on an empty packet; the counters go on. */
    method Reconnect()
      requires Valid()
      modifies this`filled, this`packetCaptureFrame
      ensures Valid() && filled == 0
    {
      filled := 0;
      packetCaptureFrame := captureFrame;
    }

    /** One pass of the sending loop over what a capture read returned, whole frames or not. */
    method Poll(input: seq<Byte>) returns (out: Option<Frame>)
      requires Valid() && |input| <= packet.Length - filled
      requires seqNo < U64_MAX && captureFrame + FQ.Frames(|input|, bpf) <= U64_MAX
      modifies this, packet
      ensures Valid() && captured == old(captured) + input
      ensures whole == (old(whole) && |input| % bpf == 0)
      ensures captureFrame == old(captureFrame) + FQ.Frames(|input|, bpf)
      ensures out.None? ==> sent == old(sent)
      ensures out.Some? ==> sent == old(sent) + [out.value] && LastOf(captured, out.value.payload)
      ensures out.Some? == (old(filled) + |input| == packet.Length)
    {
      if filled == 0 {
        packetCaptureFrame := captureFrame;
      }
      Take(input);
      if filled < packet.Length {
        return None;
      }
      out := Send();
    }

    /** Appends to the packet and moves the clock on. */
    method Take(input: seq<Byte>)
      requires Valid() && |input| <= packet.Length - filled && (filled == 0 ==> packetCaptureFrame == captureFrame)
      modifies this`filled, this`captureFrame, this`captured, this`whole, packet
      ensures Filled(old(filled) + |input|) && captured == old(captured) + input
      ensures whole == (old(whole) && |input| % bpf == 0)
      ensures captureFrame == old(captureFrame) + FQ.Frames(|input|, bpf)
    {
      PartialGrows(packet[..], filled, captured, input);
      CopyInto(packet, filled, input);
      HonestIfWhole(input);
      captured := captured + input;
      whole := whole && |input| % bpf == 0;
      captureFrame := captureFrame + FQ.Frames(|input|, bpf);
      filled := filled + |input|;
    }

    lemma HonestIfWhole(input: seq<Byte>)
      requires bpf > 0
      ensures Honest(sent, captured, bpf, chunk) ==> Honest(sent, captured + input, bpf, chunk)
      ensures |input| % bpf == 0 ==>
                At(captureFrame + FQ.Frames(|input|, bpf), bpf) == At(captureFrame, bpf) + |input|
    {
      if Honest(sent, captured, bpf, chunk) {
        HonestUnderCapture(sent, captured, input, bpf, chunk);
      }
      FQ.FramesFit(|input|, bpf);
      FQ.InBytesAdds(captureFrame, FQ.Frames(|input|, bpf), bpf);
    }

    /** `Valid`, with a packet that may be full. */
    ghost predicate Filled(bytes: nat)
      reads this, packet
    {
      && bpf > 0 && chunk > 0 && packet.Length == At(chunk, bpf) && filled == bytes <= packet.Length && seqNo == |sent|
      && packetCaptureFrame <= captureFrame
      && Partial(packet[..], filled, captured) && Numbered(sent, packet.Length)
      && (whole ==>
            && |captured| == At(captureFrame, bpf) && Honest(sent, captured, bpf, chunk)
            && EndsBefore(sent, packetCaptureFrame, chunk) && At(packetCaptureFrame, bpf) + filled == |captured|)
    }

    /** Sends the full packet and starts an empty one. */
    method Send() returns (out: Option<Frame>)
      requires Filled(packet.Length) && seqNo < U64_MAX && captureFrame <= U64_MAX
      modifies this`sent, this`seqNo, this`filled
      ensures Valid() && out.Some? && sent == old(sent) + [out.value]
      ensures LastOf(captured, out.value.payload)
    {
      var frame := GapTracker.Frame(seqNo, packetCaptureFrame, packet[..]);
      if whole {
        FullPacket(packetCaptureFrame, captureFrame, chunk, bpf);
        HonestSend(sent, captured, frame, bpf, chunk);
      }
      sent := sent + [frame];
      seqNo := seqNo + 1;
      filled := 0;
      out := Some(frame);
    }
  }
}
