/** Chunker and gap tracker together, over a network that drops, repeats and reorders frames. */
module CaptureTimeline {
  import opened Bytes
  import opened Chunker
  import Division
  import GapTracker
  import FQ = FrameQueue

  type Source = GapTracker.Source

  function Start(maxGapFrames: GapTracker.GoInt): Source
  {
    GapTracker.Source(GapTracker.Tracker(false, 0, 0, maxGapFrames), [], 0, 0)
  }

  ghost predicate Within(indices: seq<nat>, n: nat)
  {
    forall i | 0 <= i < |indices| :: indices[i] < n
  }

  /** The source after a list of deliveries, each named by the index of the frame that arrives. */
  ghost function Delivered(max: GapTracker.GoInt, sent: seq<Frame>, arrivals: seq<nat>, bpf: nat): Source
    requires bpf > 0 && Within(arrivals, |sent|)
  {
    if arrivals == [] then Start(max) else
      GapTracker.Handle(Delivered(max, sent, arrivals[..|arrivals| - 1], bpf), sent[arrivals[|arrivals| - 1]], bpf)
  }

  /** The frames heard when one more arrives. */
  function WithNext(h: seq<nat>, a: nat): seq<nat>
  {
    if h == [] || a > h[|h| - 1] then h + [a] else h
  }

  /** The arrivals that were the newest so far. */
  function Newest(arrivals: seq<nat>): (h: seq<nat>)
    ensures |h| <= |arrivals|
    ensures h == [] <==> arrivals == []
  {
    if arrivals == [] then [] else
      var before := Newest(arrivals[..|arrivals| - 1]);
      var a := arrivals[|arrivals| - 1];
      WithNext(before, a)
  }

  /** The frames missing between each newest arrival and the next, as the capture clock has them. */
  function Gap(sent: seq<Frame>, a: nat, b: nat, chunk: nat): nat
    requires a < |sent| && b < |sent|
  {
    MinusSat(sent[b].captureFrame, sent[a].captureFrame + chunk)
  }

  /** What the cap cuts off the gaps between the frames of h. */
  ghost function Truncated(sent: seq<Frame>, h: seq<nat>, chunk: nat, cap: nat): nat
    requires Within(h, |sent|)
  {
    if |h| < 2 then 0 else
      Truncated(sent, h[..|h| - 1], chunk, cap) + MinusSat(Gap(sent, h[|h| - 2], h[|h| - 1], chunk), cap)
  }

  ghost predicate Covers(f: Frame, pos: nat, bpf: nat)
  {
    At(f.captureFrame, bpf) <= pos < At(f.captureFrame, bpf) + |f.payload|
  }

  /** What ought to be heard at a place on the capture clock: the captured byte if its frame was heard, else silence. */
  ghost function Ideal(sent: seq<Frame>, h: seq<nat>, captured: seq<Byte>, bpf: nat, pos: nat): Byte
    requires pos < |captured|
  {
    if exists i :: 0 <= i < |h| && h[i] < |sent| && Covers(sent[h[i]], pos, bpf) then captured[pos] else 0
  }

  /** The bytes handed over are the ideal ones from `from` on. */
  ghost predicate Rebuilt(sent: seq<Frame>, h: seq<nat>, captured: seq<Byte>, bpf: nat, from: nat, handed: seq<Byte>)
  {
    && from + |handed| <= |captured|
    && forall i | 0 <= i < |handed| :: handed[i] == Ideal(sent, h, captured, bpf, from + i)
  }

  ghost predicate Increasing(h: seq<nat>)
  {
    forall i, j | 0 <= i < j < |h| :: h[i] < h[j]
  }

  lemma WithNextIncreases(h: seq<nat>, a: nat, n: nat)
    requires Increasing(h) && Within(h, n) && a < n
    ensures Increasing(WithNext(h, a)) && Within(WithNext(h, a), n)
    ensures h != [] ==> WithNext(h, a)[0] == h[0] && WithNext(h, a)[|WithNext(h, a)| - 1] == Max(h[|h| - 1], a)
  {
  }

  lemma {:induction false} NewestIncreases(arrivals: seq<nat>, n: nat)
    requires Within(arrivals, n)
    ensures Increasing(Newest(arrivals)) && Within(Newest(arrivals), n)
    ensures arrivals != [] ==> Newest(arrivals)[0] == arrivals[0]
    ensures arrivals != [] ==> Newest(arrivals)[|Newest(arrivals)| - 1] == MaxOf(arrivals)
  {
    if arrivals != [] {
      var before := arrivals[..|arrivals| - 1];
      NewestIncreases(before, n);
      WithNextIncreases(Newest(before), arrivals[|arrivals| - 1], n);
    }
  }

  ghost predicate EndsBy(f: Frame, pos: nat, bpf: nat)
  {
    At(f.captureFrame, bpf) + |f.payload| <= pos
  }

  lemma OldBytesStay(sent: seq<Frame>, h: seq<nat>, k: nat, captured: seq<Byte>, bpf: nat, pos: nat)
    requires k < |sent| && pos < |captured| && !Covers(sent[k], pos, bpf)
    ensures Ideal(sent, h + [k], captured, bpf, pos) == Ideal(sent, h, captured, bpf, pos)
  {
    var h' := h + [k];
    if i :| 0 <= i < |h| && h[i] < |sent| && Covers(sent[h[i]], pos, bpf) {
      assert h'[i] == h[i];
    }
  }

  lemma NoneCovers(sent: seq<Frame>, h: seq<nat>, k: nat, bpf: nat, pos: nat, end: nat)
    requires k < |sent| && end <= pos && !Covers(sent[k], pos, bpf)
    requires forall i | 0 <= i < |h| :: h[i] < |sent| && EndsBy(sent[h[i]], end, bpf)
    ensures !exists i :: 0 <= i < |h + [k]| && (h + [k])[i] < |sent| && Covers(sent[(h + [k])[i]], pos, bpf)
  {
    var h' := h + [k];
    forall i | 0 <= i < |h'| && h'[i] < |sent|
      ensures !Covers(sent[h'[i]], pos, bpf)
    {
      if i < |h| {
        assert h'[i] == h[i] && EndsBy(sent[h[i]], end, bpf);
      }
    }
  }

  /** One more heard frame behind a stretch of silence continues the rebuilt timeline. */
  lemma RebuiltGrows(sent: seq<Frame>, h: seq<nat>, k: nat, captured: seq<Byte>, bpf: nat, chunk: nat,
                     from: nat, handed: seq<Byte>, silence: nat)
    requires Honest(sent, captured, bpf, chunk) && k < |sent|
    requires Rebuilt(sent, h, captured, bpf, from, handed)
    requires from + |handed| + silence == At(sent[k].captureFrame, bpf)
    requires forall i | 0 <= i < |h| :: h[i] < |sent| && EndsBy(sent[h[i]], from + |handed|, bpf)
    ensures Rebuilt(sent, h + [k], captured, bpf, from, handed + FQ.Zeros(silence) + sent[k].payload)
  {
    var h', f, end := h + [k], sent[k], from + |handed|;
    var handed' := handed + FQ.Zeros(silence) + f.payload;
    assert Cut(f, captured, bpf, chunk);
    forall i | 0 <= i < |handed'|
      ensures handed'[i] == Ideal(sent, h', captured, bpf, from + i)
    {
      if i < |handed| + silence {
        assert !Covers(f, from + i, bpf);
        if i < |handed| {
          OldBytesStay(sent, h, k, captured, bpf, from + i);
        } else {
          NoneCovers(sent, h, k, bpf, from + i, end);
        }
      } else {
        assert h'[|h|] == k && Covers(sent[h'[|h|]], from + i, bpf);
        assert handed'[i] == f.payload[i - |handed| - silence];
      }
    }
  }

  /** Every frame of h ends before the capture frame that a later one of h ends at. */
  lemma {:induction false} EarlierEnd(sent: seq<Frame>, h: seq<nat>, captured: seq<Byte>, bpf: nat, chunk: nat)
    requires Honest(sent, captured, bpf, chunk) && Increasing(h) && h != []
    requires forall i | 0 <= i < |h| :: h[i] < |sent|
    ensures forall i | 0 <= i < |h| :: EndsBy(sent[h[i]], At(sent[h[|h| - 1]].captureFrame + chunk, bpf), bpf)
  {
    var last := sent[h[|h| - 1]];
    forall i | 0 <= i < |h|
      ensures EndsBy(sent[h[i]], At(last.captureFrame + chunk, bpf), bpf)
    {
      var f := sent[h[i]];
      assert Cut(f, captured, bpf, chunk);
      assert f.captureFrame <= last.captureFrame;
      FQ.InBytesAdds(f.captureFrame, chunk, bpf);
      FQ.InBytesMonotone(f.captureFrame + chunk, last.captureFrame + chunk, bpf);
    }
  }

  /** What a source holds after hearing the frames of h, the last of them the newest. */
  ghost predicate Tracks(s: Source, max: GapTracker.GoInt, sent: seq<Frame>, captured: seq<Byte>, h: seq<nat>,
                         bpf: nat, chunk: nat)
  {
    && h != [] && Within(h, |sent|) && Increasing(h)
    && var first, last := h[0], h[|h| - 1];
       var cut := Truncated(sent, h, chunk, s.tracker.Cap());
    && s.tracker.seen && s.tracker.maxGapFrames == max && s.tracker.expectedSeq == last + 1
    && s.tracker.expectedCaptureFrame == sent[last].captureFrame + chunk
    && s.gaps + |h| == last + 1 - first
    && |s.handed| + At(cut, bpf) + At(sent[first].captureFrame, bpf) == At(sent[last].captureFrame + chunk, bpf)
    && (cut == 0 ==> Rebuilt(sent, h, captured, bpf, At(sent[first].captureFrame, bpf), s.handed))
  }

  /** The frame count of a full packet is the chunk. */
  lemma {:induction false} PayloadFrames(sent: seq<Frame>, captured: seq<Byte>, k: nat, bpf: nat, chunk: nat)
    requires bpf > 0 && Honest(sent, captured, bpf, chunk) && k < |sent|
    ensures |sent[k].payload| == At(chunk, bpf) && |sent[k].payload| % bpf == 0
    ensures FQ.Frames(|sent[k].payload|, bpf) == chunk
  {
    assert Cut(sent[k], captured, bpf, chunk);
    FQ.FramesInBytes(chunk, bpf);
    FQ.InBytesIsProduct(chunk, bpf);
    Division.DivMod(chunk, 0, bpf);
  }

  /** What the tracker makes of a frame that is newer than all heard. */
  lemma JudgedByTheClock(t: GapTracker.Tracker, sent: seq<Frame>, captured: seq<Byte>, a: nat, k: nat, bpf: nat, chunk: nat)
    requires Honest(sent, captured, bpf, chunk) && a < k < |sent| && chunk > 0
    requires t.seen && t.expectedSeq == a + 1 && t.expectedCaptureFrame == sent[a].captureFrame + chunk
    ensures t.Judge(sent[k].seqNo, sent[k].captureFrame, chunk)
            == GapTracker.Verdict(false, k - a - 1, Min(Gap(sent, a, k, chunk), t.Cap()))
  {
    assert Cut(sent[k], captured, bpf, chunk);
    if k > a + 1 {
      assert sent[a + 1].captureFrame + chunk <= sent[k].captureFrame;
    }
  }

  /** Neither the numbering nor the capture clock has reached the end of 64 bits. */
  ghost predicate Fits(sent: seq<Frame>, chunk: nat)
  {
    |sent| <= U64_MAX && forall i | 0 <= i < |sent| :: sent[i].captureFrame + chunk <= U64_MAX
  }

  lemma {:induction false} FirstFrame(max: GapTracker.GoInt, sent: seq<Frame>, captured: seq<Byte>, k: nat, bpf: nat, chunk: nat)
    requires bpf > 0 && chunk > 0 && Honest(sent, captured, bpf, chunk) && Fits(sent, chunk) && k < |sent|
    ensures Tracks(GapTracker.Handle(Start(max), sent[k], bpf), max, sent, captured, [k], bpf, chunk)
    ensures GapTracker.Handle(Start(max), sent[k], bpf).staleFrames == 0
  {
    PayloadFrames(sent, captured, k, bpf, chunk);
    var f := sent[k];
    var s := GapTracker.Handle(Start(max), f, bpf);
    assert s.tracker.seen && s.tracker.expectedSeq == k + 1;
    FQ.InBytesAdds(f.captureFrame, chunk, bpf);
    assert s.handed == f.payload;
    RebuiltGrows(sent, [], k, captured, bpf, chunk, At(f.captureFrame, bpf), [], 0);
    assert [] + FQ.Zeros(0) + f.payload == f.payload;
    assert [] + [k] == [k];
  }

  lemma {:induction false} StaleFrame(s: Source, max: GapTracker.GoInt, sent: seq<Frame>, captured: seq<Byte>, h: seq<nat>, k: nat,
                   bpf: nat, chunk: nat)
    requires bpf > 0 && Honest(sent, captured, bpf, chunk) && k < |sent|
    requires Tracks(s, max, sent, captured, h, bpf, chunk) && k <= h[|h| - 1]
    ensures GapTracker.Handle(s, sent[k], bpf) == s.(staleFrames := s.staleFrames + 1)
    ensures Tracks(s.(staleFrames := s.staleFrames + 1), max, sent, captured, h, bpf, chunk)
  {
    PayloadFrames(sent, captured, k, bpf, chunk);
    assert Cut(sent[k], captured, bpf, chunk);
  }

  lemma {:induction false} HeardInFull(sent: seq<Frame>, captured: seq<Byte>, h: seq<nat>, k: nat, bpf: nat, chunk: nat,
                                       from: nat, handed: seq<Byte>, gap: nat)
    requires Honest(sent, captured, bpf, chunk) && k < |sent| && h != [] && Within(h, |sent|) && Increasing(h)
    requires sent[h[|h| - 1]].captureFrame + chunk + gap == sent[k].captureFrame
    requires from + |handed| == At(sent[h[|h| - 1]].captureFrame + chunk, bpf)
    requires Rebuilt(sent, h, captured, bpf, from, handed)
    ensures Rebuilt(sent, h + [k], captured, bpf, from, handed + FQ.Zeros(At(gap, bpf)) + sent[k].payload)
  {
    FQ.InBytesAdds(sent[h[|h| - 1]].captureFrame + chunk, gap, bpf);
    EarlierEnd(sent, h, captured, bpf, chunk);
    RebuiltGrows(sent, h, k, captured, bpf, chunk, from, handed, At(gap, bpf));
  }

  lemma {:induction false} TruncatedNext(sent: seq<Frame>, h: seq<nat>, k: nat, chunk: nat, cap: nat)
    requires h != [] && Within(h, |sent|) && k < |sent|
    ensures Within(h + [k], |sent|)
    ensures Truncated(sent, h + [k], chunk, cap)
            == Truncated(sent, h, chunk, cap) + MinusSat(Gap(sent, h[|h| - 1], k, chunk), cap)
  {
    assert (h + [k])[..|h|] == h;
  }

  /** The lengths add up: what the cap cut off is exactly what is missing. */
  lemma {:induction false} Lengths(sent: seq<Frame>, h: seq<nat>, k: nat, bpf: nat, chunk: nat, cap: nat,
                                   before: nat, after: nat)
    requires h != [] && Within(h, |sent|) && k < |sent|
    requires sent[h[|h| - 1]].captureFrame + chunk <= sent[k].captureFrame
    requires before + At(Truncated(sent, h, chunk, cap), bpf) + At(sent[h[0]].captureFrame, bpf)
             == At(sent[h[|h| - 1]].captureFrame + chunk, bpf)
    requires after == before + At(Min(Gap(sent, h[|h| - 1], k, chunk), cap), bpf) + At(chunk, bpf)
    ensures Within(h + [k], |sent|)
    ensures Truncated(sent, h, chunk, cap) <= Truncated(sent, h + [k], chunk, cap)
    ensures Truncated(sent, h + [k], chunk, cap) == 0 ==> Gap(sent, h[|h| - 1], k, chunk) <= cap
    ensures after + At(Truncated(sent, h + [k], chunk, cap), bpf) + At(sent[h[0]].captureFrame, bpf)
            == At(sent[k].captureFrame + chunk, bpf)
  {
    var gap := Gap(sent, h[|h| - 1], k, chunk);
    var over, filled := MinusSat(gap, cap), Min(gap, cap);
    TruncatedNext(sent, h, k, chunk, cap);
    FQ.InBytesAdds(Truncated(sent, h, chunk, cap), over, bpf);
    FQ.InBytesAdds(filled, over, bpf);
    FQ.InBytesAdds(sent[h[|h| - 1]].captureFrame + chunk, gap, bpf);
    FQ.InBytesAdds(sent[k].captureFrame, chunk, bpf);
  }

  /** What a newer frame does to a source that last heard frame `a`. */
  lemma {:induction false} NewerIsHandled(s: Source, sent: seq<Frame>, captured: seq<Byte>, a: nat, k: nat, bpf: nat, chunk: nat)
    requires bpf > 0 && chunk > 0 && Honest(sent, captured, bpf, chunk) && Fits(sent, chunk) && a < k < |sent|
    requires s.tracker.seen && s.tracker.expectedSeq == a + 1
    requires s.tracker.expectedCaptureFrame == sent[a].captureFrame + chunk
    ensures var s' := GapTracker.Handle(s, sent[k], bpf);
            var filled := Min(Gap(sent, a, k, chunk), s.tracker.Cap());
            && s'.handed == s.handed + FQ.Zeros(At(filled, bpf)) + sent[k].payload
            && s'.staleFrames == s.staleFrames && s'.gaps == s.gaps + (k - a - 1)
            && s'.tracker == s.tracker.(expectedSeq := k + 1, expectedCaptureFrame := sent[k].captureFrame + chunk)
    ensures |sent[k].payload| == At(chunk, bpf) && sent[a].captureFrame + chunk <= sent[k].captureFrame
  {
    PayloadFrames(sent, captured, k, bpf, chunk);
    JudgedByTheClock(s.tracker, sent, captured, a, k, bpf, chunk);
    assert Cut(sent[k], captured, bpf, chunk) && sent[k].seqNo == k;
  }

  lemma {:induction false} NewerIsRebuilt(s: Source, max: GapTracker.GoInt, sent: seq<Frame>, captured: seq<Byte>, h: seq<nat>,
                                          k: nat, bpf: nat, chunk: nat)
    requires bpf > 0 && chunk > 0 && Honest(sent, captured, bpf, chunk) && Fits(sent, chunk) && k < |sent|
    requires Tracks(s, max, sent, captured, h, bpf, chunk) && k > h[|h| - 1]
    requires Truncated(sent, h, chunk, s.tracker.Cap()) == 0 && Gap(sent, h[|h| - 1], k, chunk) <= s.tracker.Cap()
    ensures Rebuilt(sent, h + [k], captured, bpf, At(sent[h[0]].captureFrame, bpf), GapTracker.Handle(s, sent[k], bpf).handed)
  {
    NewerIsHandled(s, sent, captured, h[|h| - 1], k, bpf, chunk);
    HeardInFull(sent, captured, h, k, bpf, chunk, At(sent[h[0]].captureFrame, bpf), s.handed, Gap(sent, h[|h| - 1], k, chunk));
  }

  lemma {:induction false} NewerFrame(s: Source, max: GapTracker.GoInt, sent: seq<Frame>, captured: seq<Byte>, h: seq<nat>, k: nat,
                   bpf: nat, chunk: nat)
    requires bpf > 0 && chunk > 0 && Honest(sent, captured, bpf, chunk) && Fits(sent, chunk) && k < |sent|
    requires Tracks(s, max, sent, captured, h, bpf, chunk) && k > h[|h| - 1]
    ensures Tracks(GapTracker.Handle(s, sent[k], bpf), max, sent, captured, h + [k], bpf, chunk)
    ensures GapTracker.Handle(s, sent[k], bpf).staleFrames == s.staleFrames
  {
    NewerIsHandled(s, sent, captured, h[|h| - 1], k, bpf, chunk);
    var cap := s.tracker.Cap();
    Lengths(sent, h, k, bpf, chunk, cap, |s.handed|, |GapTracker.Handle(s, sent[k], bpf).handed|);
    if Truncated(sent, h + [k], chunk, cap) == 0 {
      NewerIsRebuilt(s, max, sent, captured, h, k, bpf, chunk);
    }
  }

  lemma {:induction false} NextFrame(s: Source, max: GapTracker.GoInt, sent: seq<Frame>, captured: seq<Byte>, h: seq<nat>,
                                     k: nat, bpf: nat, chunk: nat)
    requires bpf > 0 && chunk > 0 && Honest(sent, captured, bpf, chunk) && Fits(sent, chunk) && k < |sent|
    requires Tracks(s, max, sent, captured, h, bpf, chunk)
    ensures Tracks(GapTracker.Handle(s, sent[k], bpf), max, sent, captured, WithNext(h, k), bpf, chunk)
    ensures GapTracker.Handle(s, sent[k], bpf).staleFrames + |WithNext(h, k)| == s.staleFrames + |h| + 1
  {
    if k <= h[|h| - 1] {
      StaleFrame(s, max, sent, captured, h, k, bpf, chunk);
      assert WithNext(h, k) == h;
    } else {
      assert WithNext(h, k) == h + [k];
      NewerFrame(s, max, sent, captured, h, k, bpf, chunk);
    }
  }

  /** Whatever the network drops, repeats or reorders, the source tracks the frames that were newest on arrival. */
  lemma {:induction false} SourceTracks(max: GapTracker.GoInt, sent: seq<Frame>, captured: seq<Byte>,
                                        arrivals: seq<nat>, bpf: nat, chunk: nat)
    requires bpf > 0 && chunk > 0 && Honest(sent, captured, bpf, chunk) && Fits(sent, chunk)
    requires arrivals != [] && Within(arrivals, |sent|)
    ensures Tracks(Delivered(max, sent, arrivals, bpf), max, sent, captured, Newest(arrivals), bpf, chunk)
    ensures Delivered(max, sent, arrivals, bpf).staleFrames + |Newest(arrivals)| == |arrivals|
  {
    var before, k := arrivals[..|arrivals| - 1], arrivals[|arrivals| - 1];
    if before == [] {
      assert arrivals == [k] && Newest(before) == [];
      FirstFrame(max, sent, captured, k, bpf, chunk);
    } else {
      SourceTracks(max, sent, captured, before, bpf, chunk);
      NextFrame(Delivered(max, sent, before, bpf), max, sent, captured, Newest(before), k, bpf, chunk);
    }
  }

  lemma {:induction false} Span(bytes: nat, cut: nat, first: nat, end: nat, bpf: nat)
    requires bytes + At(cut, bpf) + At(first, bpf) == At(end, bpf)
    ensures bytes == (end - first - cut) * bpf
  {
    FQ.InBytesIsProduct(cut, bpf);
    FQ.InBytesIsProduct(first, bpf);
    FQ.InBytesIsProduct(end, bpf);
  }

  lemma {:induction false} TrackedSpan(s: Source, max: GapTracker.GoInt, sent: seq<Frame>, captured: seq<Byte>, h: seq<nat>,
                                       bpf: nat, chunk: nat)
    requires Tracks(s, max, sent, captured, h, bpf, chunk)
    ensures var cut := Truncated(sent, h, chunk, s.tracker.Cap());
            && s.tracker.expectedCaptureFrame == sent[h[|h| - 1]].captureFrame + chunk
            && |s.handed| == (s.tracker.expectedCaptureFrame - sent[h[0]].captureFrame - cut) * bpf
  {
    Span(|s.handed|, Truncated(sent, h, chunk, s.tracker.Cap()), sent[h[0]].captureFrame, s.tracker.expectedCaptureFrame, bpf);
  }

  /** `Newest`, knowing that it names frames that were sent. */
  function NewestWithin(arrivals: seq<nat>, n: nat): (h: seq<nat>)
    requires Within(arrivals, n)
    ensures Within(h, n)
  {
    NewestIncreases(arrivals, n);
    Newest(arrivals)
  }

  lemma {:induction false} NewestSpan(s: Source, max: GapTracker.GoInt, sent: seq<Frame>, captured: seq<Byte>, arrivals: seq<nat>,
                                      bpf: nat, chunk: nat)
    requires arrivals != [] && Within(arrivals, |sent|) && Tracks(s, max, sent, captured, Newest(arrivals), bpf, chunk)
    ensures var cut := Truncated(sent, NewestWithin(arrivals, |sent|), chunk, s.tracker.Cap());
            && s.tracker.expectedCaptureFrame == sent[MaxOf(arrivals)].captureFrame + chunk
            && |s.handed| == (s.tracker.expectedCaptureFrame - sent[arrivals[0]].captureFrame - cut) * bpf
  {
    NewestIncreases(arrivals, |sent|);
    TrackedSpan(s, max, sent, captured, Newest(arrivals), bpf, chunk);
  }

  /** The frames handed to the stream, audio and inserted silence, and what the cap cut off, span the capture clock
      from the first arrival to where the newest one ends. */
  lemma {:induction false} HandedSpansTheClock(max: GapTracker.GoInt, sent: seq<Frame>, captured: seq<Byte>, arrivals: seq<nat>,
                            bpf: nat, chunk: nat)
    requires bpf > 0 && chunk > 0 && Honest(sent, captured, bpf, chunk) && Fits(sent, chunk)
    requires arrivals != [] && Within(arrivals, |sent|)
    ensures var s := Delivered(max, sent, arrivals, bpf);
            var cut := Truncated(sent, NewestWithin(arrivals, |sent|), chunk, s.tracker.Cap());
            && s.tracker.expectedCaptureFrame == sent[MaxOf(arrivals)].captureFrame + chunk
            && |s.handed| == (s.tracker.expectedCaptureFrame - sent[arrivals[0]].captureFrame - cut) * bpf
  {
    SourceTracks(max, sent, captured, arrivals, bpf, chunk);
    NewestSpan(Delivered(max, sent, arrivals, bpf), max, sent, captured, arrivals, bpf, chunk);
  }

  /** Nothing is cut off exactly when every gap is within the cap. */
  lemma {:induction false} NothingTruncated(sent: seq<Frame>, h: seq<nat>, chunk: nat, cap: nat)
    requires Within(h, |sent|)
    ensures Truncated(sent, h, chunk, cap) == 0
            <==> forall i | 0 <= i < |h| - 1 :: Gap(sent, h[i], h[i + 1], chunk) <= cap
  {
    if |h| >= 2 {
      var g := h[..|h| - 1];
      NothingTruncated(sent, g, chunk, cap);
      assert forall i | 0 <= i < |g| - 1 :: Gap(sent, g[i], g[i + 1], chunk) == Gap(sent, h[i], h[i + 1], chunk);
      assert Gap(sent, h[|h| - 2], h[|h| - 2 + 1], chunk) == Gap(sent, h[|h| - 2], h[|h| - 1], chunk);
    }
  }

  /** As long as no gap between heard frames exceeds the cap, the stream gets the capture itself, with silence exactly
      where no heard frame covers it. */
  lemma TimelineIsRebuilt(max: GapTracker.GoInt, sent: seq<Frame>, captured: seq<Byte>, arrivals: seq<nat>,
                          bpf: nat, chunk: nat)
    requires bpf > 0 && chunk > 0 && Honest(sent, captured, bpf, chunk) && Fits(sent, chunk)
    requires arrivals != [] && Within(arrivals, |sent|)
    requires var s, h := Delivered(max, sent, arrivals, bpf), NewestWithin(arrivals, |sent|);
             forall i | 0 <= i < |h| - 1 :: Gap(sent, h[i], h[i + 1], chunk) <= s.tracker.Cap()
    ensures Rebuilt(sent, Newest(arrivals), captured, bpf, At(sent[arrivals[0]].captureFrame, bpf),
                    Delivered(max, sent, arrivals, bpf).handed)
  {
    NewestIncreases(arrivals, |sent|);
    SourceTracks(max, sent, captured, arrivals, bpf, chunk);
    NothingTruncated(sent, NewestWithin(arrivals, |sent|), chunk, Delivered(max, sent, arrivals, bpf).tracker.Cap());
  }
}
