/** The datagram header, the bodies, and sealing: what is sent parses back. */
module Wire {
  import opened Bytes
  import opened Utf8

  const MAGIC: seq<Byte> := [0x52, 0x41, 0x55, 0x32]
  const VERSION: Byte := 2
  const HEADER_LEN := 46
  const TAG_LEN := 16
  const MAX_DATAGRAM := 1200
  const AUDIO_PREFIX := 19
  const FEEDBACK_BODY_LEN := 82
  const PROBE_PREFIX := 13
  const MAX_PROBE_PAYLOAD := 1000
  const MAX_NAME_BYTES := 64

  const KIND_HELLO: Byte := 1
  const KIND_AUDIO: Byte := 2
  const KIND_FEEDBACK: Byte := 3
  const KIND_PROBE: Byte := 4

  type Id = s: seq<Byte> | |s| == 16 witness seq(16, _ => 0)

  datatype View = View(kind: Byte, epoch: Id, session: Id, counter: UInt64, aad: seq<Byte>, ciphertext: seq<Byte>)

  function Header(kind: Byte, epoch: Id, session: Id, counter: UInt64): (h: seq<Byte>)
    ensures |h| == HEADER_LEN
  {
    MAGIC + [VERSION, kind] + epoch + session + ToBigEndian(counter, 8)
  }

  function Assemble(kind: Byte, epoch: Id, session: Id, counter: UInt64, ct: seq<Byte>): Option<seq<Byte>>
  {
    if counter == 0 || HEADER_LEN + |ct| > MAX_DATAGRAM then None
    else Some(Header(kind, epoch, session, counter) + ct)
  }

  lemma Spans()
    ensures Span(1) == 256 && Span(2) == U16_SPAN && Span(4) == U32_SPAN && Span(8) == U64_SPAN
  {
    assert Span(2) == 256 * Span(1) && Span(1) == 256 * Span(0);
    assert Span(4) == 256 * Span(3) && Span(3) == 256 * Span(2);
    assert Span(6) == 256 * Span(5) && Span(5) == 256 * Span(4);
    assert Span(8) == 256 * Span(7) && Span(7) == 256 * Span(6);
  }

  function ParsePacket(pkt: seq<Byte>): Option<View>
  {
    if |pkt| < HEADER_LEN + TAG_LEN || |pkt| > MAX_DATAGRAM then None
    else if pkt[..4] != MAGIC || pkt[4] != VERSION || !(KIND_HELLO <= pkt[5] <= KIND_PROBE) then None
    else
      FromThenToBigEndian(pkt[38..46]);
      Spans();
      var counter := FromBigEndian(pkt[38..46]);
      if counter == 0 then None
      else Some(View(pkt[5], pkt[6..22], pkt[22..38], counter, pkt[..HEADER_LEN], pkt[HEADER_LEN..]))
  }

  /** A view that some datagram can have: what the parser accepts, piece by piece. */
  predicate Parseable(v: View)
  {
    && KIND_HELLO <= v.kind <= KIND_PROBE && v.counter >= 1
    && TAG_LEN <= |v.ciphertext| <= MAX_DATAGRAM - HEADER_LEN
    && v.aad == Header(v.kind, v.epoch, v.session, v.counter)
  }

  /** Every datagram assembled from a parseable view parses to that view, and its first 46 bytes are the
      authenticated header. */
  lemma AssembledParses(v: View)
    requires Parseable(v)
    ensures var pkt := Assemble(v.kind, v.epoch, v.session, v.counter, v.ciphertext);
            pkt.Some? && ParsePacket(pkt.value) == Some(v)
  {
    var pkt := v.aad + v.ciphertext;
    Spans();
    ToThenFromBigEndian(v.counter, 8);
    assert pkt[..4] == MAGIC && pkt[4] == VERSION && pkt[5] == v.kind;
    assert pkt[6..22] == v.epoch;
    assert pkt[22..38] == v.session;
    assert pkt[38..46] == ToBigEndian(v.counter, 8);
    assert pkt[..HEADER_LEN] == v.aad && pkt[HEADER_LEN..] == v.ciphertext;
  }

  /** And nothing else is accepted: a parsed datagram is the assembly of its view. */
  lemma ParsedIsAssembled(pkt: seq<Byte>)
    requires ParsePacket(pkt).Some?
    ensures var v := ParsePacket(pkt).value;
            Parseable(v) && Assemble(v.kind, v.epoch, v.session, v.counter, v.ciphertext) == Some(pkt)
  {
    FromThenToBigEndian(pkt[38..46]);
    assert pkt[..HEADER_LEN] == pkt[..4] + [pkt[4], pkt[5]] + pkt[6..22] + pkt[22..38] + pkt[38..46];
    assert pkt == pkt[..HEADER_LEN] + pkt[HEADER_LEN..];
  }

  /** Where everything is in a packet: the magic, version and kind, epoch, session, counter, and the ciphertext behind them. */
  lemma PacketLayout(kind: Byte, epoch: Id, session: Id, counter: UInt64, ct: seq<Byte>)
    requires Assemble(kind, epoch, session, counter, ct).Some?
    ensures var pkt := Assemble(kind, epoch, session, counter, ct).value;
            && |pkt| == 46 + |ct| && pkt[..4] == [0x52, 0x41, 0x55, 0x32] && pkt[4] == 2 && pkt[5] == kind && pkt[6..22] == epoch
            && pkt[22..38] == session && FromBigEndian(pkt[38..46]) == counter && pkt[46..] == ct
  {
    Spans();
    ToThenFromBigEndian(counter, 8);
    var pkt := Header(kind, epoch, session, counter) + ct;
    assert pkt[38..46] == ToBigEndian(counter, 8);
  }

  datatype AudioBody = AudioBody(seqNo: UInt64, sendTsUs: UInt64, codec: Byte, bufferMs: UInt16, payload: seq<Byte>)

  function EncodeAudio(b: AudioBody): Option<seq<Byte>>
  {
    if |b.payload| > MAX_DATAGRAM then None
    else Some(ToBigEndian(b.seqNo, 8) + ToBigEndian(b.sendTsUs, 8) + [b.codec] + ToBigEndian(b.bufferMs, 2) + b.payload)
  }

  lemma AudioEncodesIff(b: AudioBody)
    ensures EncodeAudio(b).Some? <==> |b.payload| <= 1200
  {
  }

  /** The number in a field of the body. */
  function Field(body: seq<Byte>, lo: nat, hi: nat): (v: nat)
    requires lo <= hi <= |body|
    ensures v < Span(hi - lo)
  {
    FromThenToBigEndian(body[lo..hi]);
    FromBigEndian(body[lo..hi])
  }

  function DecodeAudio(body: seq<Byte>): Option<AudioBody>
  {
    if |body| < AUDIO_PREFIX || |body| > MAX_DATAGRAM then None
    else
      Spans();
      Some(AudioBody(Field(body, 0, 8), Field(body, 8, 16), body[16], Field(body, 17, 19), body[AUDIO_PREFIX..]))
  }

  lemma LastField(before: seq<Byte>, v: nat, n: nat)
    requires v < Span(n)
    ensures Field(before + ToBigEndian(v, n), |before|, |before| + n) == v
  {
    var body := before + ToBigEndian(v, n);
    assert body[|before|..|before| + n] == ToBigEndian(v, n);
    ToThenFromBigEndian(v, n);
  }

  /** What follows a field does not matter to it. */
  lemma FieldStays(body: seq<Byte>, rest: seq<Byte>, lo: nat, hi: nat)
    requires lo <= hi <= |body|
    ensures Field(body + rest, lo, hi) == Field(body, lo, hi)
  {
    assert (body + rest)[lo..hi] == body[lo..hi];
  }

  /** An encoded audio body decodes to itself exactly if it fits a datagram; the encoder alone allows 19 bytes more. */
  lemma AudioRoundTrip(b: AudioBody)
    requires EncodeAudio(b).Some?
    ensures DecodeAudio(EncodeAudio(b).value) == if AUDIO_PREFIX + |b.payload| <= MAX_DATAGRAM then Some(b) else None
  {
    Spans();
    var b1 := [] + ToBigEndian(b.seqNo, 8);
    var b2 := b1 + ToBigEndian(b.sendTsUs, 8);
    var b3 := b2 + [b.codec];
    var b4 := b3 + ToBigEndian(b.bufferMs, 2);
    assert b1 == ToBigEndian(b.seqNo, 8);
    LastField([], b.seqNo, 8);
    FieldStays(b1, ToBigEndian(b.sendTsUs, 8), 0, 8);
    FieldStays(b2, [b.codec], 0, 8);
    FieldStays(b3, ToBigEndian(b.bufferMs, 2), 0, 8);
    FieldStays(b4, b.payload, 0, 8);
    LastField(b1, b.sendTsUs, 8);
    FieldStays(b2, [b.codec], 8, 16);
    FieldStays(b3, ToBigEndian(b.bufferMs, 2), 8, 16);
    FieldStays(b4, b.payload, 8, 16);
    LastField(b3, b.bufferMs, 2);
    FieldStays(b4, b.payload, 17, 19);
    assert (b4 + b.payload)[16] == b.codec && (b4 + b.payload)[AUDIO_PREFIX..] == b.payload;
  }

  /** The shortest payload that the encoder takes and the decoder does not. */
  lemma LongPayloadIsLost()
    ensures var b := AudioBody(0, 0, 0, 0, seq(1182, _ => 0));
            EncodeAudio(b).Some? && DecodeAudio(EncodeAudio(b).value).None?
  {
    AudioRoundTrip(AudioBody(0, 0, 0, 0, seq(1182, _ => 0)));
  }

  /** Where everything is in an audio body, numbers with their most significant byte first. */
  lemma AudioLayout(b: AudioBody)
    requires EncodeAudio(b).Some? && AUDIO_PREFIX + |b.payload| <= MAX_DATAGRAM
    ensures var body := EncodeAudio(b).value;
            && |body| == 19 + |b.payload|
            && Field(body, 0, 8) == b.seqNo && Field(body, 8, 16) == b.sendTsUs && body[16] == b.codec
            && Field(body, 17, 19) == b.bufferMs && body[19..] == b.payload
  {
    AudioRoundTrip(b);
  }

  lemma AudioDecodedEncodes(body: seq<Byte>)
    requires DecodeAudio(body).Some?
    ensures EncodeAudio(DecodeAudio(body).value) == Some(body)
  {
    FromThenToBigEndian(body[0..8]);
    FromThenToBigEndian(body[8..16]);
    FromThenToBigEndian(body[17..19]);
    assert body == body[0..8] + body[8..16] + [body[16]] + body[17..19] + body[19..];
  }

  datatype ProbeBody = ProbeBody(gen: UInt32, step: Byte, sendTsUs: UInt64, payload: seq<Byte>)

  function EncodeProbe(b: ProbeBody): Option<seq<Byte>>
  {
    if |b.payload| > MAX_PROBE_PAYLOAD || b.step > 4 then None
    else Some(ToBigEndian(b.gen, 4) + [b.step] + ToBigEndian(b.sendTsUs, 8) + b.payload)
  }

  function DecodeProbe(body: seq<Byte>): Option<ProbeBody>
  {
    if |body| < PROBE_PREFIX || |body| > PROBE_PREFIX + MAX_PROBE_PAYLOAD || body[4] > 4 then None
    else
      Spans();
      Some(ProbeBody(Field(body, 0, 4), body[4], Field(body, 5, 13), body[PROBE_PREFIX..]))
  }

  /** Probe bodies: encoder and decoder accept the same bodies and are inverse to each other. */
  lemma ProbeRoundTrip(b: ProbeBody)
    requires EncodeProbe(b).Some?
    ensures DecodeProbe(EncodeProbe(b).value) == Some(b)
  {
    Spans();
    var b1 := [] + ToBigEndian(b.gen, 4);
    var b2 := b1 + [b.step];
    var b3 := b2 + ToBigEndian(b.sendTsUs, 8);
    assert b1 == ToBigEndian(b.gen, 4);
    LastField([], b.gen, 4);
    FieldStays(b1, [b.step], 0, 4);
    FieldStays(b2, ToBigEndian(b.sendTsUs, 8), 0, 4);
    FieldStays(b3, b.payload, 0, 4);
    LastField(b2, b.sendTsUs, 8);
    FieldStays(b3, b.payload, 5, 13);
    assert (b3 + b.payload)[4] == b.step && (b3 + b.payload)[PROBE_PREFIX..] == b.payload;
  }

  lemma ProbeLayout(b: ProbeBody)
    requires EncodeProbe(b).Some?
    ensures var body := EncodeProbe(b).value;
            && |body| == 13 + |b.payload|
            && Field(body, 0, 4) == b.gen && body[4] == b.step && Field(body, 5, 13) == b.sendTsUs && body[13..] == b.payload
  {
    ProbeRoundTrip(b);
  }

  lemma ProbeDecodedEncodes(body: seq<Byte>)
    requires DecodeProbe(body).Some?
    ensures EncodeProbe(DecodeProbe(body).value) == Some(body)
  {
    FromThenToBigEndian(body[0..4]);
    FromThenToBigEndian(body[5..13]);
    assert body == body[0..4] + [body[4]] + body[5..13] + body[13..];
  }

  type Five = s: seq<UInt32> | |s| == 5 witness [0, 0, 0, 0, 0]

  datatype FeedbackBody = FeedbackBody(
    echoSendTsUs: UInt64, delayUs: UInt32, echoSeq: UInt64,
    received: UInt32, lost: UInt32, jitterUs: UInt32, underruns: UInt32,
    bufferMs: UInt16, probeGen: UInt32, probeBytes: Five, probeRecvSpanUs: Five)

  function Words(ws: seq<UInt32>): (s: seq<Byte>)
    ensures |s| == 4 * |ws|
  {
    if ws == [] then [] else Words(ws[..|ws| - 1]) + ToBigEndian(ws[|ws| - 1], 4)
  }

  /** n consecutive 32-bit fields. */
  function WordsAt(body: seq<Byte>, lo: nat, n: nat): (ws: seq<UInt32>)
    requires lo + 4 * n <= |body|
    ensures |ws| == n
  {
    if n == 0 then [] else
      Spans();
      WordsAt(body, lo, n - 1) + [Field(body, lo + 4 * n - 4, lo + 4 * n)]
  }

  lemma {:induction false} WordsStay(body: seq<Byte>, rest: seq<Byte>, lo: nat, n: nat)
    requires lo + 4 * n <= |body|
    ensures WordsAt(body + rest, lo, n) == WordsAt(body, lo, n)
  {
    if n > 0 {
      WordsStay(body, rest, lo, n - 1);
      FieldStays(body, rest, lo + 4 * n - 4, lo + 4 * n);
    }
  }

  lemma {:induction false} LastWords(before: seq<Byte>, ws: seq<UInt32>)
    ensures WordsAt(before + Words(ws), |before|, |ws|) == ws
  {
    if ws != [] {
      var n := |ws| - 1;
      var last := ToBigEndian(ws[n], 4);
      Spans();
      LastWords(before, ws[..n]);
      assert before + Words(ws) == (before + Words(ws[..n])) + last;
      WordsStay(before + Words(ws[..n]), last, |before|, n);
      LastField(before + Words(ws[..n]), ws[n], 4);
      assert ws[..n] + [ws[n]] == ws;
    }
  }

  lemma {:induction false} WordsAtEncode(body: seq<Byte>, lo: nat, n: nat)
    requires lo + 4 * n <= |body|
    ensures Words(WordsAt(body, lo, n)) == body[lo..lo + 4 * n]
  {
    if n > 0 {
      WordsAtEncode(body, lo, n - 1);
      var ws := WordsAt(body, lo, n);
      assert ws[..n - 1] == WordsAt(body, lo, n - 1);
      FromThenToBigEndian(body[lo + 4 * n - 4..lo + 4 * n]);
      assert body[lo..lo + 4 * n] == body[lo..lo + 4 * (n - 1)] + body[lo + 4 * n - 4..lo + 4 * n];
    }
  }

  function Counters(f: FeedbackBody): (ws: seq<UInt32>)
    ensures |ws| == 4
  {
    [f.received, f.lost, f.jitterUs, f.underruns]
  }

  function DecodeFeedback(body: seq<Byte>): Option<FeedbackBody>
  {
    if |body| != FEEDBACK_BODY_LEN then None
    else
      Spans();
      Some(FeedbackBody(
             Field(body, 0, 8), Field(body, 8, 12), Field(body, 12, 20),
             Field(body, 20, 24), Field(body, 24, 28), Field(body, 28, 32), Field(body, 32, 36),
             Field(body, 36, 38), Field(body, 38, 42), WordsAt(body, 42, 5), WordsAt(body, 62, 5)))
  }

  lemma FourWords(body: seq<Byte>)
    requires |body| >= 36
    ensures Field(body, 20, 24) < U32_SPAN && Field(body, 24, 28) < U32_SPAN
    ensures Field(body, 28, 32) < U32_SPAN && Field(body, 32, 36) < U32_SPAN
    ensures WordsAt(body, 20, 4) == [Field(body, 20, 24), Field(body, 24, 28), Field(body, 28, 32), Field(body, 32, 36)]
  {
    Spans();
    assert WordsAt(body, 20, 2) == WordsAt(body, 20, 1) + [Field(body, 24, 28)];
    assert WordsAt(body, 20, 1) == [Field(body, 20, 24)];
  }

  /** The feedback body after its first k items. */
  function FeedbackUpTo(f: FeedbackBody, k: nat): (body: seq<Byte>)
    requires k <= 8
    ensures |body| == [0, 8, 12, 20, 36, 38, 42, 62, 82][k]
  {
    match k
    case 0 => []
    case 1 => ToBigEndian(f.echoSendTsUs, 8)
    case 2 => FeedbackUpTo(f, 1) + ToBigEndian(f.delayUs, 4)
    case 3 => FeedbackUpTo(f, 2) + ToBigEndian(f.echoSeq, 8)
    case 4 => FeedbackUpTo(f, 3) + Words(Counters(f))
    case 5 => FeedbackUpTo(f, 4) + ToBigEndian(f.bufferMs, 2)
    case 6 => FeedbackUpTo(f, 5) + ToBigEndian(f.probeGen, 4)
    case 7 => FeedbackUpTo(f, 6) + Words(f.probeBytes)
    case 8 => FeedbackUpTo(f, 7) + Words(f.probeRecvSpanUs)
  }

  function EncodeFeedback(f: FeedbackBody): (body: seq<Byte>)
    ensures |body| == FEEDBACK_BODY_LEN
  {
    FeedbackUpTo(f, 8)
  }

  lemma {:induction false} UpToIsPrefix(f: FeedbackBody, j: nat, k: nat)
    requires j <= k <= 8
    ensures FeedbackUpTo(f, j) <= FeedbackUpTo(f, k)
    decreases k
  {
    if j < k {
      UpToIsPrefix(f, j, k - 1);
    }
  }

  lemma FieldOfPrefix(part: seq<Byte>, body: seq<Byte>, lo: nat, hi: nat)
    requires part <= body && lo <= hi <= |part|
    ensures Field(body, lo, hi) == Field(part, lo, hi)
  {
    assert body == part + body[|part|..];
    FieldStays(part, body[|part|..], lo, hi);
  }

  lemma WordsOfPrefix(part: seq<Byte>, body: seq<Byte>, lo: nat, n: nat)
    requires part <= body && lo + 4 * n <= |part|
    ensures WordsAt(body, lo, n) == WordsAt(part, lo, n)
  {
    assert body == part + body[|part|..];
    WordsStay(part, body[|part|..], lo, n);
  }

  lemma FeedbackHead(f: FeedbackBody)
    ensures var body := FeedbackUpTo(f, 8);
            Field(body, 0, 8) == f.echoSendTsUs && Field(body, 8, 12) == f.delayUs && Field(body, 12, 20) == f.echoSeq
  {
    Spans();
    var body := FeedbackUpTo(f, 8);
    UpToIsPrefix(f, 1, 8);
    UpToIsPrefix(f, 2, 8);
    UpToIsPrefix(f, 3, 8);
    LastField([], f.echoSendTsUs, 8);
    assert [] + ToBigEndian(f.echoSendTsUs, 8) == FeedbackUpTo(f, 1);
    FieldOfPrefix(FeedbackUpTo(f, 1), body, 0, 8);
    LastField(FeedbackUpTo(f, 1), f.delayUs, 4);
    FieldOfPrefix(FeedbackUpTo(f, 2), body, 8, 12);
    LastField(FeedbackUpTo(f, 2), f.echoSeq, 8);
    FieldOfPrefix(FeedbackUpTo(f, 3), body, 12, 20);
  }

  lemma FeedbackMiddle(f: FeedbackBody)
    ensures var body := FeedbackUpTo(f, 8);
            WordsAt(body, 20, 4) == Counters(f) && Field(body, 36, 38) == f.bufferMs && Field(body, 38, 42) == f.probeGen
  {
    Spans();
    var body := FeedbackUpTo(f, 8);
    UpToIsPrefix(f, 4, 8);
    UpToIsPrefix(f, 5, 8);
    UpToIsPrefix(f, 6, 8);
    LastWords(FeedbackUpTo(f, 3), Counters(f));
    WordsOfPrefix(FeedbackUpTo(f, 4), body, 20, 4);
    LastField(FeedbackUpTo(f, 4), f.bufferMs, 2);
    FieldOfPrefix(FeedbackUpTo(f, 5), body, 36, 38);
    LastField(FeedbackUpTo(f, 5), f.probeGen, 4);
    FieldOfPrefix(FeedbackUpTo(f, 6), body, 38, 42);
  }

  lemma FeedbackTail(f: FeedbackBody)
    ensures var body := FeedbackUpTo(f, 8);
            WordsAt(body, 42, 5) == f.probeBytes && WordsAt(body, 62, 5) == f.probeRecvSpanUs
  {
    UpToIsPrefix(f, 7, 8);
    LastWords(FeedbackUpTo(f, 6), f.probeBytes);
    WordsOfPrefix(FeedbackUpTo(f, 7), FeedbackUpTo(f, 8), 42, 5);
    LastWords(FeedbackUpTo(f, 7), f.probeRecvSpanUs);
  }

  /** The feedback codec is a bijection between feedback bodies and 82-byte strings. */
  lemma FeedbackRoundTrip(f: FeedbackBody)
    ensures DecodeFeedback(EncodeFeedback(f)) == Some(f)
  {
    FeedbackHead(f);
    FeedbackMiddle(f);
    FeedbackTail(f);
    FourWords(EncodeFeedback(f));
  }

  lemma FeedbackLayout(f: FeedbackBody)
    ensures var body := EncodeFeedback(f);
            && Field(body, 0, 8) == f.echoSendTsUs && Field(body, 8, 12) == f.delayUs && Field(body, 12, 20) == f.echoSeq
            && Field(body, 20, 24) == f.received && Field(body, 24, 28) == f.lost && Field(body, 28, 32) == f.jitterUs
            && Field(body, 32, 36) == f.underruns && Field(body, 36, 38) == f.bufferMs && Field(body, 38, 42) == f.probeGen
            && WordsAt(body, 42, 5) == f.probeBytes && WordsAt(body, 62, 5) == f.probeRecvSpanUs
  {
    FeedbackHead(f);
    FeedbackMiddle(f);
    FeedbackTail(f);
    FourWords(EncodeFeedback(f));
  }

  lemma FieldEncodes(body: seq<Byte>, lo: nat, hi: nat)
    requires lo <= hi <= |body|
    ensures body[..lo] + ToBigEndian(Field(body, lo, hi), hi - lo) == body[..hi]
  {
    FromThenToBigEndian(body[lo..hi]);
  }

  lemma WordsEncode(body: seq<Byte>, lo: nat, n: nat)
    requires lo + 4 * n <= |body|
    ensures body[..lo] + Words(WordsAt(body, lo, n)) == body[..lo + 4 * n]
  {
    WordsAtEncode(body, lo, n);
  }

  lemma DecodedHead(body: seq<Byte>, f: FeedbackBody)
    requires DecodeFeedback(body) == Some(f)
    ensures FeedbackUpTo(f, 3) == body[..20]
  {
    FieldEncodes(body, 0, 8);
    assert FeedbackUpTo(f, 1) == body[..0] + ToBigEndian(Field(body, 0, 8), 8);
    FieldEncodes(body, 8, 12);
    assert FeedbackUpTo(f, 2) == body[..12];
    FieldEncodes(body, 12, 20);
  }

  lemma DecodedMiddle(body: seq<Byte>, f: FeedbackBody)
    requires DecodeFeedback(body) == Some(f) && FeedbackUpTo(f, 3) == body[..20]
    ensures FeedbackUpTo(f, 6) == body[..42]
  {
    FourWords(body);
    WordsEncode(body, 20, 4);
    assert FeedbackUpTo(f, 4) == body[..36];
    FieldEncodes(body, 36, 38);
    assert FeedbackUpTo(f, 5) == body[..38];
    FieldEncodes(body, 38, 42);
  }

  lemma DecodedTail(body: seq<Byte>, f: FeedbackBody)
    requires DecodeFeedback(body) == Some(f) && FeedbackUpTo(f, 6) == body[..42]
    ensures FeedbackUpTo(f, 8) == body
  {
    WordsEncode(body, 42, 5);
    assert FeedbackUpTo(f, 7) == body[..62];
    WordsEncode(body, 62, 5);
    assert body[..82] == body;
  }

  lemma FeedbackDecodedEncodes(body: seq<Byte>)
    requires |body| == FEEDBACK_BODY_LEN
    ensures DecodeFeedback(body).Some? && EncodeFeedback(DecodeFeedback(body).value) == body
  {
    var f := DecodeFeedback(body).value;
    DecodedHead(body, f);
    DecodedMiddle(body, f);
    DecodedTail(body, f);
  }

  function ClipFrom(name: seq<Scalar>, k: nat): seq<Scalar>
    requires k <= |name|
    decreases |name| - k
  {
    if k < |name| && |Encode(name[..k + 1])| <= MAX_NAME_BYTES then ClipFrom(name, k + 1) else name[..k]
  }

  /** The name in a hello: as many whole characters as fit 64 bytes. */
  function ClipName(name: seq<Scalar>): seq<Scalar>
  {
    ClipFrom(name, 0)
  }

  lemma {:induction false} ClipIsLongest(name: seq<Scalar>, k: nat)
    requires k <= |name| && |Encode(name[..k])| <= MAX_NAME_BYTES
    ensures var c := ClipFrom(name, k);
            && k <= |c| <= |name| && c == name[..|c|] && |Encode(c)| <= MAX_NAME_BYTES
            && (|c| < |name| ==> |Encode(name[..|c| + 1])| > MAX_NAME_BYTES)
    decreases |name| - k
  {
    if k < |name| && |Encode(name[..k + 1])| <= MAX_NAME_BYTES {
      ClipIsLongest(name, k + 1);
    }
  }

  function EncodeHello(name: seq<Scalar>): (body: seq<Byte>)
  {
    ClipIsLongest(name, 0);
    [|Encode(ClipName(name))|] + Encode(ClipName(name))
  }

  function DecodeHello(body: seq<Byte>): Option<seq<Scalar>>
  {
    if body == [] || |body| - 1 != body[0] || body[0] > MAX_NAME_BYTES then None
    else Decode(body[1..])
  }

  lemma {:induction false} EncodeGrows(name: seq<Scalar>, i: nat, j: nat)
    requires i <= j <= |name|
    ensures |Encode(name[..i])| <= |Encode(name[..j])|
    decreases j
  {
    if i < j {
      EncodeGrows(name, i, j - 1);
      EncodeSnoc(name[..j - 1], name[j - 1]);
      assert name[..j] == name[..j - 1] + [name[j - 1]];
    }
  }

  /** A hello carries the longest prefix of the name whose UTF-8 form fits 64 bytes. */
  lemma HelloRoundTrip(name: seq<Scalar>)
    ensures DecodeHello(EncodeHello(name)) == Some(ClipName(name))
    ensures ClipName(name) <= name && |Encode(ClipName(name))| <= MAX_NAME_BYTES
    ensures forall longer | ClipName(name) < longer <= name :: |Encode(longer)| > MAX_NAME_BYTES
  {
    ClipIsLongest(name, 0);
    DecodeEncoded(ClipName(name));
    var c := ClipName(name);
    assert EncodeHello(name)[1..] == Encode(c);
    forall longer | c < longer <= name
      ensures |Encode(longer)| > MAX_NAME_BYTES
    {
      assert longer == name[..|longer|];
      EncodeGrows(name, |c| + 1, |longer|);
    }
  }

  lemma HelloLayout(name: seq<Scalar>)
    ensures var body := EncodeHello(name); body[0] as int == |body| - 1 && body[1..] == Encode(ClipName(name))
  {
    HelloRoundTrip(name);
  }

  /** An authenticated cipher for one direction, keyed: how it seals and opens under a counter and a header. */
  datatype Aead = Aead(seal: (nat, seq<Byte>, seq<Byte>) -> seq<Byte>,
                       open: (nat, seq<Byte>, seq<Byte>) -> Option<seq<Byte>>)

  /** What is asked of the cipher here: a 16-byte tag, and opening undoes sealing. */
  ghost predicate Correct(c: Aead)
  {
    && (forall n: nat, a, b :: |c.seal(n, a, b)| == |b| + TAG_LEN)
    && (forall n: nat, a, b :: c.open(n, a, c.seal(n, a, b)) == Some(b))
  }

  /** And nothing else opens: the ciphertext is a function of the nonce, the header and the body. */
  ghost predicate Exact(c: Aead)
  {
    forall n: nat, a, ct :: c.open(n, a, ct).Some? ==> ct == c.seal(n, a, c.open(n, a, ct).value)
  }

  datatype Opened = Opened(kind: Byte, epoch: Id, session: Id, counter: UInt64, body: seq<Byte>)

  function SealPacket(c: Aead, epoch: Id, session: Id, counter: UInt64, kind: Byte, body: seq<Byte>): Option<seq<Byte>>
  {
    if counter == 0 || HEADER_LEN + |body| + TAG_LEN > MAX_DATAGRAM then None
    else Assemble(kind, epoch, session, counter, c.seal(counter, Header(kind, epoch, session, counter), body))
  }

  function OpenPacket(c: Aead, packet: seq<Byte>): Option<Opened>
  {
    match ParsePacket(packet)
    case None => None
    case Some(v) =>
      match c.open(v.counter, v.aad, v.ciphertext)
      case None => None
      case Some(body) => Some(Opened(v.kind, v.epoch, v.session, v.counter, body))
  }

  /** A sealed packet opens to what was sealed, for every kind the parser knows; the header it authenticates is the
      header it carries. */
  lemma SealedOpens(c: Aead, epoch: Id, session: Id, counter: UInt64, kind: Byte, body: seq<Byte>)
    requires Correct(c)
    ensures var sealed := SealPacket(c, epoch, session, counter, kind, body);
            && (sealed.Some? <==> counter >= 1 && |body| <= MAX_DATAGRAM - HEADER_LEN - TAG_LEN)
            && (sealed.Some? ==>
                  OpenPacket(c, sealed.value)
                  == if KIND_HELLO <= kind <= KIND_PROBE then Some(Opened(kind, epoch, session, counter, body)) else None)
  {
    if counter >= 1 && |body| <= MAX_DATAGRAM - HEADER_LEN - TAG_LEN {
      var header := Header(kind, epoch, session, counter);
      var ct := c.seal(counter, header, body);
      if KIND_HELLO <= kind <= KIND_PROBE {
        AssembledParses(View(kind, epoch, session, counter, header, ct));
      } else {
        assert (header + ct)[5] == kind;
      }
    }
  }

  /** A byte string opens to something exactly if it is the packet that sealing makes of that, under a kind the parser
      knows. */
  lemma OpensIffSealed(c: Aead, pkt: seq<Byte>, o: Opened)
    requires Correct(c) && Exact(c)
    ensures OpenPacket(c, pkt) == Some(o)
            <==> SealPacket(c, o.epoch, o.session, o.counter, o.kind, o.body) == Some(pkt) && KIND_HELLO <= o.kind <= KIND_PROBE
  {
    if OpenPacket(c, pkt) == Some(o) {
      ParsedIsAssembled(pkt);
      var v := ParsePacket(pkt).value;
      assert v.ciphertext == c.seal(v.counter, v.aad, o.body);
    } else if SealPacket(c, o.epoch, o.session, o.counter, o.kind, o.body) == Some(pkt) {
      SealedOpens(c, o.epoch, o.session, o.counter, o.kind, o.body);
    }
  }

  method WriteStart(buf: array<Byte>, kind: Byte)
    requires buf.Length >= 6
    modifies buf
    ensures buf[..6] == MAGIC + [VERSION, kind] && buf[6..] == old(buf[6..])
  {
    CopyInto(buf, 0, MAGIC);
    buf[4] := VERSION;
    buf[5] := kind;
  }

  /** Writes one more field behind `done`; the rest is still as in `before`. */
  method WriteNext(buf: array<Byte>, ghost before: seq<Byte>, ghost done: seq<Byte>, field: seq<Byte>, at: nat)
    requires |before| == buf.Length && |done| == at && at + |field| <= buf.Length
    requires buf[..] == done + before[at..]
    modifies buf
    ensures buf[..] == done + field + before[at + |field|..]
  {
    CopyInto(buf, at, field);
    assert buf[at + |field|..] == before[at + |field|..];
  }

  /** Writes the 46 header bytes at the start of a buffer. */
  method WriteHeader(buf: array<Byte>, kind: Byte, epoch: Id, session: Id, counter: UInt64)
    requires buf.Length >= HEADER_LEN
    modifies buf
    ensures buf[..] == Header(kind, epoch, session, counter) + old(buf[HEADER_LEN..])
  {
    ghost var before := buf[..];
    WriteStart(buf, kind);
    ghost var start := MAGIC + [VERSION, kind];
    assert buf[..] == start + before[6..];
    WriteNext(buf, before, start, epoch, 6);
    WriteNext(buf, before, start + epoch, session, 22);
    WriteNext(buf, before, start + epoch + session, ToBigEndian(counter, 8), 38);
  }

  method AssembleInto(kind: Byte, epoch: Id, session: Id, counter: UInt64, ct: seq<Byte>) returns (pkt: Option<seq<Byte>>)
    ensures pkt == Assemble(kind, epoch, session, counter, ct)
  {
    if counter == 0 || HEADER_LEN + |ct| > MAX_DATAGRAM {
      return None;
    }
    var out := new Byte[HEADER_LEN + |ct|](_ => 0);
    WriteHeader(out, kind, epoch, session, counter);
    ghost var header := Header(kind, epoch, session, counter);
    assert out[..HEADER_LEN] == header;
    CopyInto(out, HEADER_LEN, ct);
    assert out[..] == header + ct;
    pkt := Some(out[..]);
  }

  method Seal(c: Aead, epoch: Id, session: Id, counter: UInt64, kind: Byte, body: seq<Byte>) returns (pkt: Option<seq<Byte>>)
    ensures pkt == SealPacket(c, epoch, session, counter, kind, body)
  {
    if counter == 0 || HEADER_LEN + |body| + TAG_LEN > MAX_DATAGRAM {
      return None;
    }
    var header := new Byte[HEADER_LEN](_ => 0);
    WriteHeader(header, kind, epoch, session, counter);
    assert header[..] == Header(kind, epoch, session, counter);
    pkt := AssembleInto(kind, epoch, session, counter, c.seal(counter, header[..], body));
  }

  method Clip(name: seq<Scalar>) returns (out: seq<Scalar>)
    ensures out == ClipName(name)
  {
    out := [];
    var bytes := 0;
    for i := 0 to |name|
      invariant out == name[..i] && bytes == |Encode(out)|
      invariant ClipFrom(name, 0) == ClipFrom(name, i)
    {
      EncodeSnoc(name[..i], name[i]);
      assert name[..i + 1] == name[..i] + [name[i]];
      if bytes + Width(name[i]) > MAX_NAME_BYTES {
        return;
      }
      out := out + [name[i]];
      bytes := bytes + Width(name[i]);
    }
  }
}
