/** The mixer's jitter buffer: a drop-oldest queue of whole frames with an all-or-nothing reader. */
module FrameQueue {
  import opened Bytes
  import opened Division
  import opened Ring

  function Frames(bytes: nat, bytesPerFrame: nat): nat
    requires bytesPerFrame > 0
  {
    bytes / bytesPerFrame
  }

  /** The bytes that a number of frames fill. */
  function InBytes(frames: nat, bytesPerFrame: nat): nat
  {
    if frames == 0 then 0 else InBytes(frames - 1, bytesPerFrame) + bytesPerFrame
  }

  lemma {:induction false} InBytesIsProduct(frames: nat, bytesPerFrame: nat)
    ensures InBytes(frames, bytesPerFrame) == frames * bytesPerFrame
  {
    if frames > 0 {
      InBytesIsProduct(frames - 1, bytesPerFrame);
      MulMonotone(frames - 1, frames, bytesPerFrame);
    }
  }

  lemma {:induction false} InBytesAdds(a: nat, b: nat, bytesPerFrame: nat)
    ensures InBytes(a + b, bytesPerFrame) == InBytes(a, bytesPerFrame) + InBytes(b, bytesPerFrame)
  {
    if b > 0 {
      InBytesAdds(a, b - 1, bytesPerFrame);
    }
  }

  lemma {:induction false} FramesFit(bytes: nat, bytesPerFrame: nat)
    requires bytesPerFrame > 0
    ensures InBytes(Frames(bytes, bytesPerFrame), bytesPerFrame) <= bytes
    ensures bytes % bytesPerFrame == 0 ==> InBytes(Frames(bytes, bytesPerFrame), bytesPerFrame) == bytes
  {
    Recompose(bytes, bytesPerFrame);
    InBytesIsProduct(Frames(bytes, bytesPerFrame), bytesPerFrame);
  }

  /** The part of a write that the buffer looks at. */
  function WholeFrames(pcm: seq<Byte>, bytesPerFrame: nat): (r: seq<Byte>)
    requires bytesPerFrame > 0
    ensures |r| == InBytes(Frames(|pcm|, bytesPerFrame), bytesPerFrame)
  {
    FramesFit(|pcm|, bytesPerFrame);
    pcm[..InBytes(Frames(|pcm|, bytesPerFrame), bytesPerFrame)]
  }

  function Zeros(n: nat): (s: seq<Byte>)
    ensures |s| == n
  {
    seq(n, _ => 0)
  }

  lemma {:induction false} FramesInBytes(frames: nat, bytesPerFrame: nat)
    requires bytesPerFrame > 0
    ensures Frames(InBytes(frames, bytesPerFrame), bytesPerFrame) == frames
  {
    InBytesIsProduct(frames, bytesPerFrame);
    DivMod(frames, 0, bytesPerFrame);
  }

  lemma {:induction false} InBytesMonotone(a: nat, b: nat, bytesPerFrame: nat)
    requires a <= b
    ensures InBytes(a, bytesPerFrame) + InBytes(b - a, bytesPerFrame) == InBytes(b, bytesPerFrame)
  {
    InBytesAdds(a, b - a, bytesPerFrame);
  }

  /** Dropping the excess frames drops exactly the bytes that do not fit. */
  lemma {:induction false} Excess(queued: nat, frames: nat, high: nat, excess: nat, queued': nat, bpf: nat)
    requires frames <= high && queued <= high
    requires excess == Max(queued + frames - high, 0) && queued' == queued - excess + frames
    ensures InBytes(excess, bpf) == Max(0, InBytes(queued, bpf) + InBytes(frames, bpf) - InBytes(high, bpf))
    ensures InBytes(queued', bpf) == InBytes(queued, bpf) - InBytes(excess, bpf) + InBytes(frames, bpf)
  {
    if excess == 0 {
      InBytesAdds(queued, frames, bpf);
      InBytesMonotone(queued', high, bpf);
    } else {
      assert queued' == high;
      InBytesAdds(queued, frames, bpf);
      InBytesAdds(high, excess, bpf);
    }
  }

  /** The queue stays a suffix of everything ever written. */
  ghost predicate EndsWith(stream: seq<Byte>, tail: seq<Byte>)
  {
    exists head: seq<Byte> :: head + tail == stream
  }

  lemma KeptEndsTheStream(stream: seq<Byte>, content: seq<Byte>, p: seq<Byte>, capacity: nat)
    requires EndsWith(stream, content)
    ensures EndsWith(stream + p, KeepLast(content + p, capacity))
  {
    var head :| head + content == stream;
    var all := content + p;
    assert head + all == stream + p;
    if |all| > capacity {
      var cut := |all| - capacity;
      assert all == all[..cut] + all[cut..];
      assert (head + all[..cut]) + all[cut..] == stream + p;
    }
  }

  lemma PrefixTakenEndsTheStream(stream: seq<Byte>, content: seq<Byte>, n: nat)
    requires EndsWith(stream, content) && n <= |content|
    ensures EndsWith(stream, content[n..])
  {
    var head :| head + content == stream;
    assert content == content[..n] + content[n..];
    assert head + content[..n] + content[n..] == stream;
  }

  /** The frames a read asks for: no more than its buffer holds. */
  function Wanted(frameCount: int, room: nat, bytesPerFrame: nat): nat
    requires bytesPerFrame > 0
  {
    Max(0, Min(frameCount, Frames(room, bytesPerFrame)))
  }

  /** As many whole frames as were asked for, or as fit. */
  lemma {:induction false} WantedIs(frameCount: int, room: nat, bytesPerFrame: nat)
    requires bytesPerFrame > 0
    ensures var n := Wanted(frameCount, room, bytesPerFrame);
            && (frameCount <= 0 ==> n == 0) && (frameCount > 0 ==> n <= frameCount)
            && n * bytesPerFrame <= room && (n < frameCount ==> room < (n + 1) * bytesPerFrame)
  {
    Recompose(room, bytesPerFrame);
    MulMonotone(Wanted(frameCount, room, bytesPerFrame), room / bytesPerFrame, bytesPerFrame);
  }

  lemma {:induction false} WantedFits(frameCount: int, room: nat, bytesPerFrame: nat)
    requires bytesPerFrame > 0
    ensures InBytes(Wanted(frameCount, room, bytesPerFrame), bytesPerFrame) <= room
  {
    FramesFit(room, bytesPerFrame);
    InBytesMonotone(Wanted(frameCount, room, bytesPerFrame), Frames(room, bytesPerFrame), bytesPerFrame);
  }

  /** A read either moves the first n bytes of the queue to the reader or writes n zeros and leaves the queue alone. */
  ghost predicate Handed(queue: seq<Byte>, queue': seq<Byte>, dst: seq<Byte>, dst': seq<Byte>, n: nat, serve: bool)
  {
    && n <= |dst|
    && (serve ==> n <= |queue| && dst' == queue[..n] + dst[n..] && queue' == queue[n..])
    && (!serve ==> dst' == Zeros(n) + dst[n..] && queue' == queue)
  }

  class FrameQueue {
    const buf: array<Byte>
    const bytesPerFrame: nat
    const targetFrames: nat
    const highFrames: nat
    var read: nat
    var used: nat
    var primed: bool
    var discardedFrames: nat
    var underrunFrames: nat
    var queueFrames: nat
    /** Frames queued: `used` in frames. */
    ghost var queued: nat
    /** All whole frames ever written, and how many were handed to a reader. */
    ghost var stream: seq<Byte>
    ghost var offered: nat
    ghost var served: nat

    ghost predicate Shape()
      reads this
    {
      && bytesPerFrame > 0 && 0 < targetFrames <= highFrames
      && buf.Length == InBytes(highFrames, bytesPerFrame) && buf.Length > 0
      && read < buf.Length && used == InBytes(queued, bytesPerFrame) && queued <= highFrames && used <= buf.Length
    }

    ghost predicate Valid()
      reads this, buf
    {
      && Shape()
      && queueFrames == queued
      && offered == served + queued + discardedFrames
      && EndsWith(stream, View(buf[..], read, used))
    }

    ghost function Contents(): (s: seq<Byte>)
      requires Valid()
      reads this, buf
      ensures |s| == InBytes(queued, bytesPerFrame)
    {
      View(buf[..], read, used)
    }

    constructor (bpf: nat, target: nat, high: nat)
      requires bpf > 0 && 0 < target <= high
      ensures Valid() && fresh(buf) && !primed && Contents() == [] && stream == []
      ensures bytesPerFrame == bpf && targetFrames == target && highFrames == high
      ensures discardedFrames == 0 && underrunFrames == 0 && offered == 0 && served == 0
    {
      InBytesMonotone(1, high, bpf);
      var size := InBytes(high, bpf);
      ghost var nothing: seq<Byte> := [];
      assert nothing + nothing == nothing;
      buf := new Byte[size](_ => 0);
      bytesPerFrame, targetFrames, highFrames := bpf, target, high;
      read, used, primed, discardedFrames, underrunFrames, queueFrames := 0, 0, false, 0, 0, 0;
      queued, stream, offered, served := 0, [], 0, 0;
    }

    /** Keeps the newest frames of the queue and the input; whatever is older is discarded and counted. */
    method Write(pcm: seq<Byte>) returns (frames: nat)
      requires Valid()
      modifies this, buf
      ensures Valid() && served == old(served) && underrunFrames == old(underrunFrames)
      ensures frames == Min(Frames(|pcm|, bytesPerFrame), highFrames)
      ensures stream == old(stream) + WholeFrames(pcm, bytesPerFrame)
      ensures offered == old(offered) + Frames(|pcm|, bytesPerFrame)
      ensures Contents() == KeepLast(old(Contents()) + WholeFrames(pcm, bytesPerFrame), buf.Length)
      ensures queued == Min(old(queued) + Frames(|pcm|, bytesPerFrame), highFrames)
      ensures primed == (old(primed) || (Frames(|pcm|, bytesPerFrame) > 0 && queued >= targetFrames))
    {
      frames := Frames(|pcm|, bytesPerFrame);
      if frames <= 0 {
        assert WholeFrames(pcm, bytesPerFrame) == [];
        assert Contents() + [] == Contents() && stream + [] == stream;
        return 0;
      }
      Enqueue(WholeFrames(pcm, bytesPerFrame), frames);
      frames := Min(frames, highFrames);
      FramesInBytes(queued, bytesPerFrame);
      if !primed && Frames(used, bytesPerFrame) >= targetFrames {
        primed := true;
      }
      queueFrames := Frames(used, bytesPerFrame);
    }

    /** The queue takes whole frames, and forgets the oldest ones that no longer fit. */
    method Enqueue(whole: seq<Byte>, frames: nat)
      requires Valid() && frames > 0 && |whole| == InBytes(frames, bytesPerFrame)
      modifies this`read, this`used, this`queued, this`discardedFrames, this`stream, this`offered, buf
      ensures Shape() && queued == Min(old(queued) + frames, highFrames) && offered == old(offered) + frames
      ensures stream == old(stream) + whole && offered == served + queued + discardedFrames
      ensures View(buf[..], read, used) == KeepLast(old(Contents()) + whole, buf.Length)
      ensures EndsWith(stream, View(buf[..], read, used))
    {
      KeptEndsTheStream(stream, Contents(), whole, buf.Length);
      stream := stream + whole;
      offered := offered + frames;
      WriteFrames(whole, frames);
    }

    /** Appends `frames` whole frames, dropping what does not fit from the front. */
    method WriteFrames(pcm: seq<Byte>, frames: nat)
      requires Shape() && |pcm| == InBytes(frames, bytesPerFrame) && frames > 0
      modifies this`read, this`used, this`queued, this`discardedFrames, buf
      ensures Shape() && queued == Min(old(queued) + frames, highFrames)
      ensures discardedFrames == old(discardedFrames) + (old(queued) + frames - queued)
      ensures View(buf[..], read, used) == KeepLast(old(View(buf[..], read, used)) + pcm, buf.Length)
    {
      KeepLastOfCut(View(buf[..], read, used), pcm, buf.Length);
      if frames > highFrames {
        var dropFrames := frames - highFrames;
        InBytesMonotone(highFrames, frames, bytesPerFrame);
        discardedFrames := discardedFrames + dropFrames;
        WriteFitting(pcm[InBytes(dropFrames, bytesPerFrame)..], highFrames);
      } else {
        InBytesMonotone(frames, highFrames, bytesPerFrame);
        WriteFitting(pcm, frames);
      }
    }

    method WriteFitting(pcm: seq<Byte>, frames: nat)
      requires Shape() && |pcm| == InBytes(frames, bytesPerFrame) && |pcm| <= buf.Length && frames <= highFrames
      modifies this`read, this`used, this`queued, this`discardedFrames, buf
      ensures Shape() && queued == Min(old(queued) + frames, highFrames)
      ensures discardedFrames == old(discardedFrames) + (old(queued) + frames - queued)
      ensures View(buf[..], read, used) == KeepLast(old(View(buf[..], read, used)) + pcm, buf.Length)
    {
      FramesInBytes(queued, bytesPerFrame);
      var excessFrames := Max(Frames(used, bytesPerFrame) + frames - highFrames, 0);
      var dropBytes := InBytes(excessFrames, bytesPerFrame);
      ghost var after := queued - excessFrames + frames;
      Excess(queued, frames, highFrames, excessFrames, after, bytesPerFrame);
      queued := after;
      discardedFrames := discardedFrames + excessFrames;
      ReplaceOldest(pcm, dropBytes);
    }

    /** Drops just enough bytes from the front for the new ones. */
    method ReplaceOldest(pcm: seq<Byte>, dropBytes: nat)
      requires read < buf.Length && used <= buf.Length && |pcm| <= buf.Length
      requires dropBytes == Max(0, used + |pcm| - buf.Length)
      modifies this`read, this`used, buf
      ensures read < buf.Length && used == old(used) - dropBytes + |pcm|
      ensures View(buf[..], read, used) == KeepLast(old(View(buf[..], read, used)) + pcm, buf.Length)
    {
      KeepLastByDropping(View(buf[..], read, used), pcm, buf.Length);
      DropBytes(dropBytes);
      AppendBytes(pcm);
    }

    method DropBytes(n: nat)
      requires read < buf.Length && n <= used <= buf.Length
      modifies this`read, this`used
      ensures read < buf.Length && used == old(used) - n
      ensures View(buf[..], read, used) == old(View(buf[..], read, used)[n..])
    {
      read := MoveIndex(buf, read, used, n);
      used := used - n;
    }

    method AppendBytes(pcm: seq<Byte>)
      requires read < buf.Length && used + |pcm| <= buf.Length
      modifies this`used, buf
      ensures used == old(used) + |pcm|
      ensures View(buf[..], read, used) == old(View(buf[..], read, used)) + pcm
    {
      Append(buf, read, used, pcm);
      used := used + |pcm|;
    }

    /** Serves `frameCount` frames, or as many as dst holds, from the front, or nothing but silence. */
    method Read(dst: array<Byte>, frameCount: int, busy: bool) returns (n: nat)
      requires Valid() && dst != buf
      modifies this, dst
      ensures Valid() && stream == old(stream) && offered == old(offered) && discardedFrames == old(discardedFrames)
      ensures served == old(served) + n
      ensures var want := Wanted(frameCount, dst.Length, bytesPerFrame);
              var serve := !busy && want > 0 && (old(primed) || old(queued) >= targetFrames) && old(queued) >= want;
              && n == (if serve then want else 0)
              && primed == (serve || (old(primed) && (busy || old(queued) >= want)))
              && underrunFrames == old(underrunFrames) + (if serve then 0 else want)
              && Handed(old(Contents()), Contents(), old(dst[..]), dst[..], InBytes(want, bytesPerFrame), serve)
    {
      var frames := Wanted(frameCount, dst.Length, bytesPerFrame);
      assert dst[..] == Zeros(0) + dst[..][0..];
      if frames <= 0 {
        return 0;
      }
      WantedFits(frameCount, dst.Length, bytesPerFrame);
      var wantBytes := InBytes(frames, bytesPerFrame);
      FramesInBytes(queued, bytesPerFrame);
      var queuedFrames := Frames(used, bytesPerFrame);
      if !busy && !primed && queuedFrames >= targetFrames {
        primed := true;
      }
      if busy || !primed || queuedFrames < frames {
        if !busy {
          primed := false;
        }
        Starve(dst, frames, wantBytes);
        return 0;
      }
      ServeFront(dst, frames, wantBytes);
      n := frames;
    }

    method Starve(dst: array<Byte>, frames: nat, wantBytes: nat)
      requires Valid() && dst != buf && wantBytes <= dst.Length
      modifies this`underrunFrames, dst
      ensures Valid() && underrunFrames == old(underrunFrames) + frames
      ensures Handed(Contents(), Contents(), old(dst[..]), dst[..], wantBytes, false)
    {
      underrunFrames := underrunFrames + frames;
      CopyInto(dst, 0, Zeros(wantBytes));
    }

    method ServeFront(dst: array<Byte>, frames: nat, wantBytes: nat)
      requires Valid() && dst != buf && frames <= queued
      requires wantBytes == InBytes(frames, bytesPerFrame) && wantBytes <= dst.Length
      modifies this`read, this`used, this`queued, this`served, this`queueFrames, dst
      ensures Valid() && served == old(served) + frames
      ensures Handed(old(Contents()), Contents(), old(dst[..]), dst[..], wantBytes, true)
    {
      ghost var left := queued - frames;
      InBytesMonotone(frames, queued, bytesPerFrame);
      PrefixTakenEndsTheStream(stream, Contents(), wantBytes);
      CopyOut(buf, read, used, dst, wantBytes);
      DropBytes(wantBytes);
      queued, served := left, served + frames;
      FramesInBytes(queued, bytesPerFrame);
      queueFrames := Frames(used, bytesPerFrame);
    }
  }

  const DEFAULT_TARGET_MS := 60
  const DEFAULT_HIGH_MS := 80

  function MillisToFrames(rate: nat, millis: nat): (frames: nat)
    ensures frames >= 1
  {
    Max(1, rate * millis / 1000)
  }

  lemma MillisInFrames(rate: nat, millis: nat)
    ensures var n := MillisToFrames(rate, millis);
            n >= 1 && rate * millis < 1000 * (n + 1) && (n > 1 ==> 1000 * n <= rate * millis)
  {
  }

  /** The format of a stream, 16-bit samples interleaved. */
  datatype Format = Format(rate: int, channels: int, frameSamples: int)
  {
    predicate IsValid() { rate > 0 && channels > 0 && frameSamples > 0 }
  }

  const DEFAULT_FORMAT := Format(48000, 2, 480)

  /** No format means the default one. A format must be valid; watermarks that are not positive take their defaults, and
      the target must not exceed the high watermark. */
  method NewFrameQueue(given: Format, target: int, high: int) returns (q: Option<FrameQueue>)
    ensures var format := if given == Format(0, 0, 0) then DEFAULT_FORMAT else given;
            var rate := Max(format.rate, 0);
            var t := if target > 0 then target else MillisToFrames(rate, DEFAULT_TARGET_MS);
            var h := if high > 0 then high else MillisToFrames(rate, DEFAULT_HIGH_MS);
            && (q.None? <==> !format.IsValid() || t > h)
            && (q.Some? ==>
                  && fresh(q.value) && fresh(q.value.buf) && q.value.Valid() && q.value.Contents() == []
                  && !q.value.primed
                  && q.value.targetFrames == t && q.value.highFrames == h && q.value.bytesPerFrame == 2 * format.channels)
  {
    var format := if given == Format(0, 0, 0) then DEFAULT_FORMAT else given;
    if !format.IsValid() {
      return None;
    }
    var t: nat := if target > 0 then target else MillisToFrames(format.rate, DEFAULT_TARGET_MS);
    var h: nat := if high > 0 then high else MillisToFrames(format.rate, DEFAULT_HIGH_MS);
    if t > h {
      return None;
    }
    var buffer := new FrameQueue(2 * format.channels, t, h);
    q := Some(buffer);
  }
}
