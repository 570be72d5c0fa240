/** The packet codecs: PCM16, 48 kHz stereo ADPCM and 24 kHz mono ADPCM, each local to one packet. */
module Codec {
  import opened Bytes
  import opened Adpcm

  const CODEC_PCM: Byte := 0
  const CODEC_ADPCM48: Byte := 1
  const CODEC_ADPCM24: Byte := 2

  const WIRE_FRAME_SAMPLES := 240
  const MAX_PCM_CHUNK := 960
  const ADPCM48_BYTES := 246
  const ADPCM24_BYTES := 64
  const MONO_24K_SAMPLES := 120

  /** Interleaved S16LE stereo. */
  function SampleAt(pcm: seq<Byte>, frame: nat, channel: nat): Sample
    requires channel < 2 && 4 * frame + 4 <= |pcm|
  {
    var i := (frame * 2 + channel) * 2;
    SampleOf(pcm[i], pcm[i + 1])
  }

  function ChannelOf(pcm: seq<Byte>, channel: nat): (xs: seq<Sample>)
    requires channel < 2
    ensures |xs| == |pcm| / 4
  {
    seq(|pcm| / 4, frame requires 0 <= frame < |pcm| / 4 => SampleAt(pcm, frame, channel))
  }

  function LittleEndian(x: Sample): (s: seq<Byte>)
    ensures |s| == 2
  {
    [SampleLow(x), SampleHigh(x)]
  }

  function Interleave(l: seq<Sample>, r: seq<Sample>): (pcm: seq<Byte>)
    requires |l| == |r|
    ensures |pcm| == 4 * |l|
  {
    if l == [] then [] else
      var n := |l| - 1;
      Interleave(l[..n], r[..n]) + LittleEndian(l[n]) + LittleEndian(r[n])
  }

  lemma {:induction false} InterleavedSampleAt(l: seq<Sample>, r: seq<Sample>, k: nat)
    requires |l| == |r| && k < |l|
    ensures SampleAt(Interleave(l, r), k, 0) == l[k]
    ensures SampleAt(Interleave(l, r), k, 1) == r[k]
  {
    var n := |l| - 1;
    if k < n {
      InterleavedSampleAt(l[..n], r[..n], k);
    } else {
      SampleRoundTrip(l[n]);
      SampleRoundTrip(r[n]);
    }
  }

  lemma ChannelsOfInterleaved(l: seq<Sample>, r: seq<Sample>)
    requires |l| == |r|
    ensures ChannelOf(Interleave(l, r), 0) == l
    ensures ChannelOf(Interleave(l, r), 1) == r
  {
    forall k: nat | k < |l|
      ensures ChannelOf(Interleave(l, r), 0)[k] == l[k] && ChannelOf(Interleave(l, r), 1)[k] == r[k]
    {
      InterleavedSampleAt(l, r, k);
    }
  }

  function PackByte(lo: Nibble, hi: Nibble): (b: Byte)
    ensures b % 16 == lo && b / 16 == hi
  {
    var b: int := hi * 16 + lo;
    b
  }

  function Pack(lo: seq<Nibble>, hi: seq<Nibble>): (bytes: seq<Byte>)
    requires |lo| == |hi|
    ensures |bytes| == |lo|
  {
    seq(|lo|, i requires 0 <= i < |lo| => PackByte(lo[i], hi[i]))
  }

  function LowNibbles(bytes: seq<Byte>): (ns: seq<Nibble>)
    ensures |ns| == |bytes|
  {
    seq(|bytes|, i requires 0 <= i < |bytes| => bytes[i] % 16)
  }

  function HighNibbles(bytes: seq<Byte>): (ns: seq<Nibble>)
    ensures |ns| == |bytes|
  {
    seq(|bytes|, i requires 0 <= i < |bytes| => bytes[i] / 16)
  }

  lemma UnpackPacked(lo: seq<Nibble>, hi: seq<Nibble>)
    requires |lo| == |hi|
    ensures LowNibbles(Pack(lo, hi)) == lo && HighNibbles(Pack(lo, hi)) == hi
  {
  }

  /** A channel's three header bytes: its first sample and the initial index, which is always 0. */
  function Header(x: Sample): (h: seq<Byte>)
    ensures |h| == 3
  {
    LittleEndian(x) + [0]
  }

  function StartOf(lo: Byte, hi: Byte, index: Byte): Channel
  {
    Channel(SampleOf(lo, hi), Clamp(index, 0, 88))
  }

  /** The 246-byte payload of a stereo packet. */
  ghost function StereoPayload(pcm: seq<Byte>): (payload: seq<Byte>)
    requires |pcm| == MAX_PCM_CHUNK
    ensures |payload| == ADPCM48_BYTES
  {
    var l, r := ChannelOf(pcm, 0), ChannelOf(pcm, 1);
    Header(l[0]) + Header(r[0]) + Pack(EncodeAll(Channel(l[0], 0), l), EncodeAll(Channel(r[0], 0), r))
  }

  function StereoPcm(payload: seq<Byte>): (pcm: seq<Byte>)
    requires |payload| == ADPCM48_BYTES
    ensures |pcm| == MAX_PCM_CHUNK
  {
    var body := payload[6..];
    Interleave(
      DecodeAll(StartOf(payload[0], payload[1], payload[2]), LowNibbles(body)),
      DecodeAll(StartOf(payload[3], payload[4], payload[5]), HighNibbles(body)))
  }

  /** A sample's two bytes, the low one first. */
  lemma LittleEndianIs(x: Sample)
    ensures var lo: int, hi: int := LittleEndian(x)[0], LittleEndian(x)[1];
            lo + 256 * hi == if x < 0 then x + U16_SPAN else x
  {
    SampleRoundTrip(x);
  }

  lemma Behind(head: seq<Byte>, body: seq<Byte>, i: nat)
    requires i < |body|
    ensures (head + body)[|head| + i] == body[i] && (head + body)[..|head|] == head
  {
  }

  /** Where everything is in a stereo payload: left first sample and index, the same for the right, and one byte a frame with
      the left nibble low. */
  lemma StereoLayout(l: seq<Sample>, r: seq<Sample>, f: nat)
    requires |l| == |r| == WIRE_FRAME_SAMPLES && f < WIRE_FRAME_SAMPLES
    ensures var p := StereoPayload(Interleave(l, r));
            && SampleOf(p[0], p[1]) == l[0] && p[2] == 0 && SampleOf(p[3], p[4]) == r[0] && p[5] == 0
            && p[6 + f] % 16 == EncodeAll(Channel(l[0], 0), l)[f] && p[6 + f] / 16 == EncodeAll(Channel(r[0], 0), r)[f]
  {
    ChannelsOfInterleaved(l, r);
    SampleRoundTrip(l[0]);
    SampleRoundTrip(r[0]);
    Behind(Header(l[0]) + Header(r[0]), Pack(EncodeAll(Channel(l[0], 0), l), EncodeAll(Channel(r[0], 0), r)), f);
  }

  /** The encoder's first sample is its prediction, so it is decoded without error. */
  lemma {:induction false} FirstSampleIsExact(xs: seq<Sample>)
    requires xs != []
    ensures DecodeAll(Channel(xs[0], 0), EncodeAll(Channel(xs[0], 0), xs))[0] == xs[0]
  {
    var c := Channel(xs[0], 0);
    var n := |xs| - 1;
    if n == 0 {
      ConstantIsExact(xs[0], xs);
    } else {
      FirstSampleIsExact(xs[..n]);
      assert EncodeAll(c, xs)[..n] == EncodeAll(c, xs[..n]);
    }
  }

  /** What the decoder makes of one channel of an encoder's packet. */
  ghost function ThroughPredictor(xs: seq<Sample>): (ys: seq<Sample>)
    requires xs != []
    ensures |ys| == |xs|
  {
    DecodeAll(Channel(xs[0], 0), EncodeAll(Channel(xs[0], 0), xs))
  }

  lemma ThroughPredictorIsAFixpoint(xs: seq<Sample>)
    requires xs != []
    ensures ThroughPredictor(xs)[0] == xs[0]
    ensures EncodeAll(Channel(ThroughPredictor(xs)[0], 0), ThroughPredictor(xs)) == EncodeAll(Channel(xs[0], 0), xs)
  {
    FirstSampleIsExact(xs);
    EncodeDecodeEncode(Channel(xs[0], 0), xs);
  }

  /** Decoding an encoded stereo packet gives, channel by channel, what the predictors heard. */
  lemma StereoDecodesInLockstep(pcm: seq<Byte>)
    requires |pcm| == MAX_PCM_CHUNK
    ensures StereoPcm(StereoPayload(pcm)) == Interleave(ThroughPredictor(ChannelOf(pcm, 0)), ThroughPredictor(ChannelOf(pcm, 1)))
  {
    var l, r := ChannelOf(pcm, 0), ChannelOf(pcm, 1);
    var nl, nr := EncodeAll(Channel(l[0], 0), l), EncodeAll(Channel(r[0], 0), r);
    var p := StereoPayload(pcm);
    assert p[6..] == Pack(nl, nr);
    UnpackPacked(nl, nr);
    SampleRoundTrip(l[0]);
    SampleRoundTrip(r[0]);
    assert StartOf(p[0], p[1], p[2]) == Channel(l[0], 0);
    assert StartOf(p[3], p[4], p[5]) == Channel(r[0], 0);
  }

  /** Stereo ADPCM is a projection: encoding what was decoded gives the same payload. */
  lemma StereoIsAProjection(pcm: seq<Byte>)
    requires |pcm| == MAX_PCM_CHUNK
    ensures StereoPayload(StereoPcm(StereoPayload(pcm))) == StereoPayload(pcm)
  {
    var l, r := ChannelOf(pcm, 0), ChannelOf(pcm, 1);
    StereoDecodesInLockstep(pcm);
    ChannelsOfInterleaved(ThroughPredictor(l), ThroughPredictor(r));
    ThroughPredictorIsAFixpoint(l);
    ThroughPredictorIsAFixpoint(r);
  }

  /** Rust's `/` on signed integers. */
  function TruncDiv(a: int, b: int): int
    requires b > 0
  {
    if a >= 0 then a / b else -(-a / b)
  }

  function Mean(a: Sample, b: Sample, c: Sample, d: Sample): (m: Sample)
    ensures a == b == c == d ==> m == a
  {
    TruncDiv(a + b + c + d, 4)
  }

  /** A quarter of the sum of four, without its fraction. */
  predicate IsMeanOf(x: int, a: int, b: int, c: int, d: int)
  {
    var sum := a + b + c + d;
    -3 <= sum - 4 * x <= 3 && (sum >= 0 ==> 0 <= 4 * x <= sum) && (sum <= 0 ==> sum <= 4 * x <= 0)
  }

  lemma MeanIsTruncated(a: Sample, b: Sample, c: Sample, d: Sample)
    ensures IsMeanOf(Mean(a, b, c, d), a, b, c, d)
  {
  }

  function Average(pcm: seq<Byte>, i: nat): Sample
    requires 8 * i + 8 <= |pcm|
  {
    Mean(SampleAt(pcm, 2 * i, 0), SampleAt(pcm, 2 * i, 1), SampleAt(pcm, 2 * i + 1, 0), SampleAt(pcm, 2 * i + 1, 1))
  }

  /** Two stereo frames become one mono sample. */
  function Downsampled(pcm: seq<Byte>): (mono: seq<Sample>)
    requires |pcm| % 8 == 0
    ensures |mono| == |pcm| / 8
  {
    seq(|pcm| / 8, i requires 0 <= i < |pcm| / 8 => Average(pcm, i))
  }

  /** Each mono sample is the mean of two samples of the left channel and two of the right. */
  lemma DownsampledIsTheMean(l: seq<Sample>, r: seq<Sample>, i: nat)
    requires |l| == |r| && |l| % 2 == 0 && 2 * i + 1 < |l|
    ensures IsMeanOf(Downsampled(Interleave(l, r))[i], l[2 * i], r[2 * i], l[2 * i + 1], r[2 * i + 1])
  {
    InterleavedSampleAt(l, r, 2 * i);
    InterleavedSampleAt(l, r, 2 * i + 1);
    MeanIsTruncated(l[2 * i], r[2 * i], l[2 * i + 1], r[2 * i + 1]);
  }

  function Doubled(mono: seq<Sample>): (xs: seq<Sample>)
    ensures |xs| == 2 * |mono|
  {
    seq(2 * |mono|, i requires 0 <= i < 2 * |mono| => mono[i / 2])
  }

  /** Each mono sample becomes two stereo frames, equal on both channels. */
  function Upsampled(mono: seq<Sample>): (pcm: seq<Byte>)
    ensures |pcm| == 8 * |mono|
  {
    Interleave(Doubled(mono), Doubled(mono))
  }

  lemma UpsampledAverage(mono: seq<Sample>, i: nat)
    requires i < |mono|
    ensures Average(Upsampled(mono), i) == mono[i]
  {
    var xs := Doubled(mono);
    assert xs[2 * i] == mono[i] && xs[2 * i + 1] == mono[i];
    InterleavedSampleAt(xs, xs, 2 * i);
    InterleavedSampleAt(xs, xs, 2 * i + 1);
  }

  lemma DownsampleUndoesUpsample(mono: seq<Sample>)
    ensures Downsampled(Upsampled(mono)) == mono
  {
    var down := Downsampled(Upsampled(mono));
    forall i: nat | i < |mono|
      ensures down[i] == mono[i]
    {
      UpsampledAverage(mono, i);
    }
  }

  /** Nibbles two to a byte, the earlier one low. */
  function PackPairs(ns: seq<Nibble>): (bytes: seq<Byte>)
    requires |ns| % 2 == 0
    ensures |bytes| == |ns| / 2
  {
    if ns == [] then [] else
      PackPairs(ns[..|ns| - 2]) + [PackByte(ns[|ns| - 2], ns[|ns| - 1])]
  }

  function UnpackPairs(bytes: seq<Byte>): (ns: seq<Nibble>)
    ensures |ns| == 2 * |bytes|
  {
    if bytes == [] then [] else
      UnpackPairs(bytes[..|bytes| - 1]) + [bytes[|bytes| - 1] % 16, bytes[|bytes| - 1] / 16]
  }

  lemma {:induction false} UnpackPackedPairs(ns: seq<Nibble>)
    requires |ns| % 2 == 0
    ensures UnpackPairs(PackPairs(ns)) == ns
  {
    if ns != [] {
      var n := |ns| - 2;
      var bytes := PackPairs(ns);
      UnpackPackedPairs(ns[..n]);
      assert bytes[..|bytes| - 1] == PackPairs(ns[..n]);
      assert ns == ns[..n] + [ns[n], ns[n + 1]];
    }
  }

  /** The 64-byte payload of a mono packet. */
  ghost function MonoPayload(pcm: seq<Byte>): (payload: seq<Byte>)
    requires |pcm| == MAX_PCM_CHUNK
    ensures |payload| == ADPCM24_BYTES
  {
    var mono := Downsampled(pcm);
    Header(mono[0]) + [0] + PackPairs(EncodeAll(Channel(mono[0], 0), mono))
  }

  function MonoPcm(payload: seq<Byte>): (pcm: seq<Byte>)
    requires |payload| == ADPCM24_BYTES
    ensures |pcm| == MAX_PCM_CHUNK
  {
    Upsampled(DecodeAll(StartOf(payload[0], payload[1], payload[2]), UnpackPairs(payload[4..])))
  }

  lemma {:induction false} PairsAt(ns: seq<Nibble>, i: nat)
    requires |ns| % 2 == 0 && i < |ns| / 2
    ensures PackPairs(ns)[i] % 16 == ns[2 * i] && PackPairs(ns)[i] / 16 == ns[2 * i + 1]
  {
    if i < |ns| / 2 - 1 {
      PairsAt(ns[..|ns| - 2], i);
    }
  }

  /** Where everything is in a mono payload: first sample, index, a byte that is 0, and two nibbles a byte, the earlier one
      low. */
  lemma MonoLayout(pcm: seq<Byte>, i: nat)
    requires |pcm| == MAX_PCM_CHUNK && i < MONO_24K_SAMPLES / 2
    ensures var p, mono := MonoPayload(pcm), Downsampled(pcm);
            var ns := EncodeAll(Channel(mono[0], 0), mono);
            && SampleOf(p[0], p[1]) == mono[0] && p[2] == 0 && p[3] == 0
            && p[4 + i] % 16 == ns[2 * i] && p[4 + i] / 16 == ns[2 * i + 1]
  {
    var mono := Downsampled(pcm);
    var ns := EncodeAll(Channel(mono[0], 0), mono);
    SampleRoundTrip(mono[0]);
    PairsAt(ns, i);
    Behind(Header(mono[0]) + [0], PackPairs(ns), i);
  }

  lemma MonoDecodesInLockstep(pcm: seq<Byte>)
    requires |pcm| == MAX_PCM_CHUNK
    ensures MonoPcm(MonoPayload(pcm)) == Upsampled(ThroughPredictor(Downsampled(pcm)))
  {
    var mono := Downsampled(pcm);
    var ns := EncodeAll(Channel(mono[0], 0), mono);
    var p := MonoPayload(pcm);
    assert p[4..] == PackPairs(ns);
    UnpackPackedPairs(ns);
    SampleRoundTrip(mono[0]);
    assert StartOf(p[0], p[1], p[2]) == Channel(mono[0], 0);
  }

  /** Mono ADPCM is a projection too, because downsampling undoes upsampling. */
  lemma MonoIsAProjection(pcm: seq<Byte>)
    requires |pcm| == MAX_PCM_CHUNK
    ensures MonoPayload(MonoPcm(MonoPayload(pcm))) == MonoPayload(pcm)
  {
    var mono := Downsampled(pcm);
    MonoDecodesInLockstep(pcm);
    DownsampleUndoesUpsample(ThroughPredictor(mono));
    ThroughPredictorIsAFixpoint(mono);
  }

  /** The payload sent for a packet of captured PCM, if the codec and the length are known. */
  ghost function Payload(codec: Byte, pcm: seq<Byte>): Option<seq<Byte>>
  {
    if |pcm| != MAX_PCM_CHUNK then None
    else if codec == CODEC_PCM then Some(pcm)
    else if codec == CODEC_ADPCM48 then Some(StereoPayload(pcm))
    else if codec == CODEC_ADPCM24 then Some(MonoPayload(pcm))
    else None
  }

  /** The PCM played for a received payload. */
  function Pcm(codec: Byte, payload: seq<Byte>): (pcm: Option<seq<Byte>>)
    ensures pcm.Some? ==> |pcm.value| == MAX_PCM_CHUNK
  {
    if codec == CODEC_PCM && |payload| == MAX_PCM_CHUNK then Some(payload)
    else if codec == CODEC_ADPCM48 && |payload| == ADPCM48_BYTES then Some(StereoPcm(payload))
    else if codec == CODEC_ADPCM24 && |payload| == ADPCM24_BYTES then Some(MonoPcm(payload))
    else None
  }

  /** The three codecs take 960 bytes and make 960, 246 or 64 of them; PCM leaves them as they are. */
  lemma PayloadIff(codec: Byte, pcm: seq<Byte>)
    ensures Payload(codec, pcm).Some? <==> |pcm| == 960 && codec <= 2
    ensures Payload(codec, pcm).Some? ==> |Payload(codec, pcm).value| == (match codec case 0 => 960 case 1 => 246 case _ => 64)
    ensures |pcm| == 960 ==> Payload(CODEC_PCM, pcm) == Some(pcm)
  {
  }

  lemma PcmIff(codec: Byte, payload: seq<Byte>)
    ensures Pcm(codec, payload).Some?
            <==> (codec == 0 && |payload| == 960) || (codec == 1 && |payload| == 246) || (codec == 2 && |payload| == 64)
    ensures Pcm(codec, payload).Some? ==> |Pcm(codec, payload).value| == 960
    ensures |payload| == 960 ==> Pcm(CODEC_PCM, payload) == Some(payload)
  {
  }

  lemma StartIs(lo: Byte, hi: Byte, index: Byte)
    ensures StartOf(lo, hi, index) == Channel(SampleOf(lo, hi), Min(index, 88))
  {
  }

  /** What the decoders make of any payload, frame by frame: each channel starts from its header, an index past the end of the
      table taken as its end, and follows its own nibbles. */
  lemma StereoDecodes(p: seq<Byte>, f: nat)
    requires |p| == ADPCM48_BYTES && f < WIRE_FRAME_SAMPLES
    ensures var l, r := Channel(SampleOf(p[0], p[1]), Min(p[2], 88)), Channel(SampleOf(p[3], p[4]), Min(p[5], 88));
            && SampleAt(StereoPcm(p), f, 0) == DecodeAll(l, LowNibbles(p[6..]))[f]
            && SampleAt(StereoPcm(p), f, 1) == DecodeAll(r, HighNibbles(p[6..]))[f]
  {
    var l, r := StartOf(p[0], p[1], p[2]), StartOf(p[3], p[4], p[5]);
    StartIs(p[0], p[1], p[2]);
    StartIs(p[3], p[4], p[5]);
    InterleavedSampleAt(DecodeAll(l, LowNibbles(p[6..])), DecodeAll(r, HighNibbles(p[6..])), f);
  }

  lemma MonoDecodes(p: seq<Byte>, f: nat)
    requires |p| == ADPCM24_BYTES && f < WIRE_FRAME_SAMPLES
    ensures var c := Channel(SampleOf(p[0], p[1]), Min(p[2], 88));
            var x := DecodeAll(c, UnpackPairs(p[4..]))[f / 2];
            SampleAt(MonoPcm(p), f, 0) == x == SampleAt(MonoPcm(p), f, 1)
  {
    var mono := DecodeAll(Channel(SampleOf(p[0], p[1]), Min(p[2], 88)), UnpackPairs(p[4..]));
    InterleavedSampleAt(Doubled(mono), Doubled(mono), f);
  }

  /** Whatever the encoder produces is decoded, and re-encodes to itself, byte for byte. */
  lemma EveryCodecIsAProjection(codec: Byte, pcm: seq<Byte>)
    requires Payload(codec, pcm).Some?
    ensures Pcm(codec, Payload(codec, pcm).value).Some?
    ensures Payload(codec, Pcm(codec, Payload(codec, pcm).value).value) == Payload(codec, pcm)
  {
    StereoIsAProjection(pcm);
    MonoIsAProjection(pcm);
  }

  /** Stereo packets that are constant on each channel survive ADPCM exactly. */
  lemma ConstantStereoIsExact(l: Sample, r: Sample)
    ensures var pcm := Interleave(seq(240, _ => l), seq(240, _ => r));
            StereoPcm(StereoPayload(pcm)) == pcm
  {
    var ls, rs := seq(240, _ => l), seq(240, _ => r);
    ChannelsOfInterleaved(ls, rs);
    ConstantIsExact(l, ls);
    ConstantIsExact(r, rs);
    StereoDecodesInLockstep(Interleave(ls, rs));
  }

  /** Packets that are constant and equal on both channels survive the mono codec exactly. */
  lemma ConstantMonoIsExact(x: Sample)
    ensures var pcm := Interleave(seq(240, _ => x), seq(240, _ => x));
            MonoPcm(MonoPayload(pcm)) == pcm
  {
    var mono: seq<Sample> := seq(120, _ => x);
    assert Doubled(mono) == seq(240, _ => x);
    DownsampleUndoesUpsample(mono);
    ConstantIsExact(x, mono);
    MonoDecodesInLockstep(Upsampled(mono));
  }

  method ReadI16(pcm: seq<Byte>, frame: nat, channel: nat) returns (x: Sample)
    requires channel < 2 && 4 * frame + 4 <= |pcm|
    ensures x == SampleAt(pcm, frame, channel)
  {
    var i := (frame * 2 + channel) * 2;
    x := SampleOf(pcm[i], pcm[i + 1]);
  }

  method WriteI16(pcm: array<Byte>, frame: nat, channel: nat, x: Sample)
    requires channel < 2 && 4 * frame + 4 <= pcm.Length
    modifies pcm
    ensures var i := (frame * 2 + channel) * 2;
            pcm[..] == old(pcm[..i]) + LittleEndian(x) + old(pcm[i + 2..])
  {
    var i := (frame * 2 + channel) * 2;
    pcm[i] := SampleLow(x);
    pcm[i + 1] := SampleHigh(x);
  }

  /** The nibbles of the first k samples of one channel. */
  ghost function CodedTo(xs: seq<Sample>, k: nat): (ns: seq<Nibble>)
    requires xs != [] && k <= |xs|
    ensures |ns| == k
  {
    EncodeAll(Channel(xs[0], 0), xs[..k])
  }

  /** The encoder of one channel after k samples. */
  ghost function CoderAt(xs: seq<Sample>, k: nat): Channel
    requires xs != [] && k <= |xs|
  {
    After(Channel(xs[0], 0), CodedTo(xs, k))
  }

  lemma CodedNext(xs: seq<Sample>, k: nat)
    requires k < |xs|
    ensures var n := Quantise(CoderAt(xs, k), xs[k]);
            CodedTo(xs, k + 1) == CodedTo(xs, k) + [n] && CoderAt(xs, k + 1) == Advance(CoderAt(xs, k), n)
  {
    assert xs[..k + 1][..k] == xs[..k];
    var n := Quantise(CoderAt(xs, k), xs[k]);
    assert (CodedTo(xs, k) + [n])[..k] == CodedTo(xs, k);
  }

  lemma PackSnoc(lo: seq<Nibble>, hi: seq<Nibble>, l: Nibble, h: Nibble)
    requires |lo| == |hi|
    ensures Pack(lo + [l], hi + [h]) == Pack(lo, hi) + [PackByte(l, h)]
  {
  }

  /** One sample of one channel. */
  method EncodeNext(ghost xs: seq<Sample>, k: nat, c: Channel, x: Sample) returns (code: Nibble, next: Channel)
    requires k < |xs| && xs[k] == x && c == CoderAt(xs, k)
    ensures CodedTo(xs, k + 1) == CodedTo(xs, k) + [code] && next == CoderAt(xs, k + 1)
  {
    var pred, index;
    code, pred, index := EncodeNibble(x, c.pred, c.index);
    next := Channel(pred, index);
    CodedNext(xs, k);
  }

  /** One frame: a nibble of either channel in one byte, the left one low. */
  method EncodeFrame(pcm: seq<Byte>, frame: nat, left: Channel, right: Channel)
    returns (byte: Byte, left': Channel, right': Channel)
    requires |pcm| == MAX_PCM_CHUNK && frame < WIRE_FRAME_SAMPLES
    requires left == CoderAt(ChannelOf(pcm, 0), frame) && right == CoderAt(ChannelOf(pcm, 1), frame)
    ensures left' == CoderAt(ChannelOf(pcm, 0), frame + 1) && right' == CoderAt(ChannelOf(pcm, 1), frame + 1)
    ensures Pack(CodedTo(ChannelOf(pcm, 0), frame + 1), CodedTo(ChannelOf(pcm, 1), frame + 1))
            == Pack(CodedTo(ChannelOf(pcm, 0), frame), CodedTo(ChannelOf(pcm, 1), frame)) + [byte]
  {
    var xl := ReadI16(pcm, frame, 0);
    var xr := ReadI16(pcm, frame, 1);
    var codeL, codeR;
    codeL, left' := EncodeNext(ChannelOf(pcm, 0), frame, left, xl);
    codeR, right' := EncodeNext(ChannelOf(pcm, 1), frame, right, xr);
    PackSnoc(CodedTo(ChannelOf(pcm, 0), frame), CodedTo(ChannelOf(pcm, 1), frame), codeL, codeR);
    byte := PackByte(codeL, codeR);
  }

  /** The encoding loop. */
  method EncodeFrames(pcm: seq<Byte>, head: seq<Byte>, predL: Sample, predR: Sample) returns (out: seq<Byte>)
    requires |pcm| == MAX_PCM_CHUNK && predL == ChannelOf(pcm, 0)[0] && predR == ChannelOf(pcm, 1)[0]
    ensures out == head + Pack(EncodeAll(Channel(predL, 0), ChannelOf(pcm, 0)), EncodeAll(Channel(predR, 0), ChannelOf(pcm, 1)))
  {
    var left, right := Channel(predL, 0), Channel(predR, 0);
    ghost var l, r := ChannelOf(pcm, 0), ChannelOf(pcm, 1);
    out := head;
    assert out == head + Pack(CodedTo(l, 0), CodedTo(r, 0));
    for frame := 0 to WIRE_FRAME_SAMPLES
      invariant left == CoderAt(l, frame) && right == CoderAt(r, frame)
      invariant out == head + Pack(CodedTo(l, frame), CodedTo(r, frame))
    {
      var byte;
      byte, left, right := EncodeFrame(pcm, frame, left, right);
      out := out + [byte];
    }
    assert l[..WIRE_FRAME_SAMPLES] == l && r[..WIRE_FRAME_SAMPLES] == r;
  }

  method EncodeStereo(pcm: seq<Byte>) returns (out: seq<Byte>)
    requires |pcm| == MAX_PCM_CHUNK
    ensures out == StereoPayload(pcm)
  {
    var predL := ReadI16(pcm, 0, 0);
    var predR := ReadI16(pcm, 0, 1);
    var head := LittleEndian(predL) + [0] + LittleEndian(predR) + [0];
    assert head == Header(predL) + Header(predR);
    out := EncodeFrames(pcm, head, predL, predR);
  }

  /** The decoder of one channel after k nibbles, and the samples it has produced. */
  predicate Decoded(c: Channel, ns: seq<Nibble>, k: nat, now: Channel, xs: seq<Sample>)
    requires k <= |ns|
  {
    now == After(c, ns[..k]) && xs == DecodeAll(c, ns[..k])
  }

  lemma DecodedStep(c: Channel, ns: seq<Nibble>, k: nat, now: Channel, xs: seq<Sample>)
    requires k < |ns| && Decoded(c, ns, k, now, xs)
    ensures Decoded(c, ns, k + 1, Advance(now, ns[k]), xs + [Advance(now, ns[k]).pred])
  {
    assert ns[..k + 1][..k] == ns[..k];
  }

  lemma NibblesAreUnmasked(n: Nibble)
    ensures n % 16 == n
  {
  }

  method DecodeLow(byte: Byte, c: Channel) returns (next: Channel)
    ensures next == Advance(c, byte % 16)
  {
    NibblesAreUnmasked(byte % 16);
    var x, pred, index := DecodeNibble(byte % 16, c.pred, c.index);
    next := Channel(pred, index);
  }

  method DecodeHigh(byte: Byte, c: Channel) returns (next: Channel)
    ensures next == Advance(c, byte / 16)
  {
    NibblesAreUnmasked(byte / 16);
    var x, pred, index := DecodeNibble(byte / 16, c.pred, c.index);
    next := Channel(pred, index);
  }

  lemma InterleaveSnoc(l: seq<Sample>, r: seq<Sample>, x: Sample, y: Sample)
    requires |l| == |r|
    ensures Interleave(l + [x], r + [y]) == Interleave(l, r) + LittleEndian(x) + LittleEndian(y)
  {
    assert (l + [x])[..|l|] == l && (r + [y])[..|r|] == r;
  }

  method WriteFrame(pcm: array<Byte>, frame: nat, x: Sample, y: Sample)
    requires 4 * frame + 4 <= pcm.Length
    modifies pcm
    ensures pcm[..4 * frame + 4] == old(pcm[..4 * frame]) + LittleEndian(x) + LittleEndian(y)
  {
    WriteI16(pcm, frame, 0, x);
    WriteI16(pcm, frame, 1, y);
  }

  /** Writes the next frame behind the ones already interleaved. */
  method PutFrame(pcm: array<Byte>, frame: nat, x: Sample, y: Sample, ghost l: seq<Sample>, ghost r: seq<Sample>)
    requires 4 * frame + 4 <= pcm.Length && |l| == |r| == frame && pcm[..4 * frame] == Interleave(l, r)
    modifies pcm
    ensures pcm[..4 * (frame + 1)] == Interleave(l + [x], r + [y])
  {
    InterleaveSnoc(l, r, x, y);
    WriteFrame(pcm, frame, x, y);
  }

  /** The decoding loop: low nibbles are the left channel, high nibbles the right one. */
  method DecodeFrames(body: seq<Byte>, cl: Channel, cr: Channel) returns (out: array<Byte>)
    ensures fresh(out) && out.Length == 4 * |body|
    ensures out[..] == Interleave(DecodeAll(cl, LowNibbles(body)), DecodeAll(cr, HighNibbles(body)))
  {
    var left, right := cl, cr;
    ghost var nl, nr := LowNibbles(body), HighNibbles(body);
    ghost var l, r: seq<Sample> := [], [];
    out := new Byte[4 * |body|](_ => 0);
    for frame := 0 to |body|
      invariant Decoded(cl, nl, frame, left, l)
      invariant Decoded(cr, nr, frame, right, r)
      invariant |l| == |r| == frame && out[..4 * frame] == Interleave(l, r)
    {
      DecodedStep(cl, nl, frame, left, l);
      DecodedStep(cr, nr, frame, right, r);
      left := DecodeLow(body[frame], left);
      right := DecodeHigh(body[frame], right);
      PutFrame(out, frame, left.pred, right.pred, l, r);
      l, r := l + [left.pred], r + [right.pred];
    }
    assert nl[..|body|] == nl && nr[..|body|] == nr;
    assert out[..] == out[..4 * |body|];
  }

  method DecodeStereo(payload: seq<Byte>) returns (pcm: Option<seq<Byte>>)
    ensures pcm == if |payload| == ADPCM48_BYTES then Some(StereoPcm(payload)) else None
  {
    if |payload| != ADPCM48_BYTES {
      return None;
    }
    var left := StartOf(payload[0], payload[1], payload[2]);
    var right := StartOf(payload[3], payload[4], payload[5]);
    var out := DecodeFrames(payload[6..], left, right);
    pcm := Some(out[..]);
  }

  /** A sample of the mono signal against the four that it comes from. */
  predicate MixedAt(pcm: seq<Byte>, i: nat, x: Sample)
    requires 8 * i + 8 <= |pcm|
  {
    IsMeanOf(x, SampleAt(pcm, 2 * i, 0), SampleAt(pcm, 2 * i, 1), SampleAt(pcm, 2 * i + 1, 0), SampleAt(pcm, 2 * i + 1, 1))
  }

  lemma AverageIsMixed(pcm: seq<Byte>, i: nat)
    requires 8 * i + 8 <= |pcm|
    ensures MixedAt(pcm, i, Average(pcm, i))
  {
    MeanIsTruncated(SampleAt(pcm, 2 * i, 0), SampleAt(pcm, 2 * i, 1), SampleAt(pcm, 2 * i + 1, 0), SampleAt(pcm, 2 * i + 1, 1));
  }

  method MeanAt(pcm: seq<Byte>, i: nat) returns (x: Sample)
    requires |pcm| == MAX_PCM_CHUNK && i < MONO_24K_SAMPLES
    ensures x == Average(pcm, i)
  {
    var l0 := ReadI16(pcm, i * 2, 0);
    var r0 := ReadI16(pcm, i * 2, 1);
    var l1 := ReadI16(pcm, i * 2 + 1, 0);
    var r1 := ReadI16(pcm, i * 2 + 1, 1);
    x := Mean(l0, r0, l1, r1);
  }

  method Downsample24kMono(pcm: seq<Byte>) returns (mono: array<Sample>)
    requires |pcm| == MAX_PCM_CHUNK
    ensures fresh(mono) && mono[..] == Downsampled(pcm)
    ensures forall i | 0 <= i < mono.Length :: MixedAt(pcm, i, mono[i])
  {
    mono := new Sample[MONO_24K_SAMPLES](_ => 0);
    for i := 0 to MONO_24K_SAMPLES
      invariant forall k | 0 <= k < i :: mono[k] == Average(pcm, k)
    {
      mono[i] := MeanAt(pcm, i);
    }
    forall i | 0 <= i < mono.Length
      ensures MixedAt(pcm, i, mono[i])
    {
      AverageIsMixed(pcm, i);
    }
  }

  lemma UpsampledSnoc(mono: seq<Sample>, x: Sample)
    ensures Upsampled(mono + [x])
         == Upsampled(mono) + LittleEndian(x) + LittleEndian(x) + LittleEndian(x) + LittleEndian(x)
  {
    var d := Doubled(mono);
    assert Doubled(mono + [x]) == (d + [x]) + [x];
    InterleaveSnoc(d + [x], d + [x], x, x);
    InterleaveSnoc(d, d, x, x);
  }

  method Upsample24kMono(mono: seq<Sample>, pcm: array<Byte>)
    requires pcm.Length == 8 * |mono|
    modifies pcm
    ensures pcm[..] == Upsampled(mono)
  {
    for i := 0 to |mono|
      invariant pcm[..8 * i] == Upsampled(mono[..i])
    {
      assert mono[..i + 1] == mono[..i] + [mono[i]];
      UpsampledSnoc(mono[..i], mono[i]);
      WriteFrame(pcm, i * 2, mono[i], mono[i]);
      WriteFrame(pcm, i * 2 + 1, mono[i], mono[i]);
    }
    assert mono[..|mono|] == mono && pcm[..] == pcm[..8 * |mono|];
  }

  /** The mono encoder's output: whole bytes, and the low nibble waiting for its partner. */
  predicate PackedSoFar(ns: seq<Nibble>, which: int, low: Nibble, bytes: seq<Byte>)
  {
    if which == 0 then |ns| % 2 == 0 && bytes == PackPairs(ns)
    else which == 1 && |ns| % 2 == 1 && bytes == PackPairs(ns[..|ns| - 1]) && low == ns[|ns| - 1]
  }

  lemma PackedStep(ns: seq<Nibble>, which: int, low: Nibble, bytes: seq<Byte>, n: Nibble)
    requires PackedSoFar(ns, which, low, bytes)
    ensures which == 0 ==> PackedSoFar(ns + [n], 1, n, bytes)
    ensures which == 1 ==> PackedSoFar(ns + [n], 0, low, bytes + [PackByte(low, n)])
  {
    var more := ns + [n];
    assert more[..|ns|] == ns;
    if which == 1 {
      assert more[..|more| - 2] == ns[..|ns| - 1];
    }
  }

  /** The packing loop of `EncodeMono24`. */
  method EncodePairs(mono: array<Sample>, start: Sample) returns (bytes: seq<Byte>)
    requires mono.Length == MONO_24K_SAMPLES && mono[0] == start
    ensures bytes == PackPairs(EncodeAll(Channel(start, 0), mono[..]))
  {
    ghost var xs := mono[..];
    var pred := start;
    var index: Index := 0;
    bytes := [];
    var low: Nibble := 0;
    var which := 0;
    for i := 0 to MONO_24K_SAMPLES
      invariant Channel(pred, index) == CoderAt(xs, i) && PackedSoFar(CodedTo(xs, i), which, low, bytes)
    {
      var n;
      n, pred, index := EncodeNibble(mono[i], pred, index);
      CodedNext(xs, i);
      PackedStep(CodedTo(xs, i), which, low, bytes, n);
      if which == 0 {
        low := n;
        which := 1;
      } else {
        bytes := bytes + [PackByte(low, n)];
        which := 0;
      }
    }
    assert xs[..120] == xs;
  }

  method EncodeMono24(pcm: seq<Byte>) returns (out: seq<Byte>)
    requires |pcm| == MAX_PCM_CHUNK
    ensures out == MonoPayload(pcm)
  {
    var mono := Downsample24kMono(pcm);
    var bytes := EncodePairs(mono, mono[0]);
    out := LittleEndian(mono[0]) + [0] + [0] + bytes;
  }

  lemma UnpackPrefix(bytes: seq<Byte>, k: nat)
    requires k < |bytes|
    ensures UnpackPairs(bytes)[2 * k] == bytes[k] % 16
    ensures UnpackPairs(bytes)[2 * k + 1] == bytes[k] / 16
  {
    if k < |bytes| - 1 {
      UnpackPrefix(bytes[..|bytes| - 1], k);
    }
  }

  /** The unpacking loop of `DecodeMono24`. */
  method DecodePairs(body: seq<Byte>, start: Channel) returns (mono: array<Sample>)
    requires |body| == ADPCM24_BYTES - 4
    ensures fresh(mono) && mono[..] == DecodeAll(start, UnpackPairs(body))
  {
    ghost var ns := UnpackPairs(body);
    ghost var xs: seq<Sample> := [];
    var now := start;
    mono := new Sample[MONO_24K_SAMPLES](_ => 0);
    for i := 0 to |body|
      invariant Decoded(start, ns, 2 * i, now, xs)
      invariant |xs| == 2 * i && mono[..2 * i] == xs
    {
      UnpackPrefix(body, i);
      DecodedStep(start, ns, 2 * i, now, xs);
      now := DecodeLow(body[i], now);
      mono[2 * i] := now.pred;
      xs := xs + [now.pred];
      DecodedStep(start, ns, 2 * i + 1, now, xs);
      now := DecodeHigh(body[i], now);
      mono[2 * i + 1] := now.pred;
      xs := xs + [now.pred];
    }
    assert ns[..120] == ns && mono[..] == mono[..120];
  }

  method DecodeMono24(payload: seq<Byte>) returns (pcm: Option<seq<Byte>>)
    ensures pcm == if |payload| == ADPCM24_BYTES then Some(MonoPcm(payload)) else None
  {
    if |payload| != ADPCM24_BYTES {
      return None;
    }
    var mono := DecodePairs(payload[4..], StartOf(payload[0], payload[1], payload[2]));
    var out := new Byte[MAX_PCM_CHUNK](_ => 0);
    Upsample24kMono(mono[..], out);
    pcm := Some(out[..]);
  }

  method EncodeCanonical(codec: Byte, pcm960: seq<Byte>) returns (payload: Option<seq<Byte>>)
    ensures payload == Payload(codec, pcm960)
  {
    if |pcm960| != MAX_PCM_CHUNK {
      return None;
    }
    if codec == CODEC_PCM {
      payload := Some(pcm960);
    } else if codec == CODEC_ADPCM48 {
      var out := EncodeStereo(pcm960);
      payload := Some(out);
    } else if codec == CODEC_ADPCM24 {
      var out := EncodeMono24(pcm960);
      payload := Some(out);
    } else {
      payload := None;
    }
  }

  method DecodeCanonical(codec: Byte, payload: seq<Byte>) returns (pcm: Option<seq<Byte>>)
    ensures pcm == Pcm(codec, payload)
  {
    if codec == CODEC_PCM && |payload| == MAX_PCM_CHUNK {
      pcm := Some(payload);
    } else if codec == CODEC_ADPCM48 && |payload| == ADPCM48_BYTES {
      pcm := DecodeStereo(payload);
    } else if codec == CODEC_ADPCM24 && |payload| == ADPCM24_BYTES {
      pcm := DecodeMono24(payload);
    } else {
      pcm := None;
    }
  }
}
