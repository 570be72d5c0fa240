/** Datagrams as bytes against datagrams as boxes: they open alike, so what holds of the world holds of the bytes. */
module WorldBytes {
  import opened Bytes
  import opened Wire
  import opened Secure
  import opened World

  /** One cipher for each key. */
  type Ciphers = (Direction, Id, Id) -> Aead

  ghost predicate AllExact(f: Ciphers)
  {
    forall direction, epoch, session :: Correct(f(direction, epoch, session)) && Exact(f(direction, epoch, session))
  }

  function HeaderOf(p: Packet): seq<Byte> { Header(p.kind, p.epoch, p.session, p.counter) }

  function CiphertextOf(f: Ciphers, p: Packet): seq<Byte>
  {
    f(p.direction, p.epoch, p.session).seal(p.counter, HeaderOf(p), p.body)
  }

  /** No two of the packets have the same ciphertext. */
  ghost predicate Distinguished(f: Ciphers, boxes: seq<Packet>)
  {
    forall p, q | p in boxes && q in boxes :: CiphertextOf(f, p) == CiphertextOf(f, q) ==> p == q
  }

  /** If the datagram opens under a key, then one of the packets was sealed under that key, its counter and its header. */
  ghost predicate Unforged(f: Ciphers, boxes: seq<Packet>, direction: Direction, epoch: Id, session: Id, v: View)
  {
    var body := f(direction, epoch, session).open(v.counter, v.aad, v.ciphertext);
    body.Some? ==>
      exists p :: p in boxes && p.direction == direction && p.epoch == epoch && p.session == session
                  && p.counter == v.counter && HeaderOf(p) == v.aad && p.body == body.value
  }

  ghost function CiphertextIn(f: Ciphers, boxes: seq<Packet>, ct: seq<Byte>): (c: Ciphertext)
    ensures c.Box? ==> c.packet in boxes && CiphertextOf(f, c.packet) == ct
  {
    if exists p :: p in boxes && CiphertextOf(f, p) == ct then
      var p :| p in boxes && CiphertextOf(f, p) == ct;
      Box(p)
    else Forged
  }

  /** The datagram that bytes stand for, given what has been sealed. */
  ghost function DatagramOf(f: Ciphers, boxes: seq<Packet>, pkt: seq<Byte>): Datagram
  {
    match ParsePacket(pkt)
    case None => Unparsable
    case Some(v) => Datagram(v.kind, v.epoch, v.session, v.counter, CiphertextIn(f, boxes, v.ciphertext))
  }

  lemma CiphertextIsIn(f: Ciphers, boxes: seq<Packet>, p: Packet)
    requires Distinguished(f, boxes) && p in boxes
    ensures CiphertextIn(f, boxes, CiphertextOf(f, p)) == Box(p)
  {
  }

  lemma HeaderParts(kind: Byte, epoch: Id, session: Id, counter: UInt64)
    ensures var h := Header(kind, epoch, session, counter);
            h[5] == kind && h[6..22] == epoch && h[22..38] == session && FromBigEndian(h[38..46]) == counter
  {
    Spans();
    ToThenFromBigEndian(counter, 8);
    var h := Header(kind, epoch, session, counter);
    assert h[38..46] == ToBigEndian(counter, 8);
  }

  /** A header is the header of one kind, epoch, session and counter. */
  lemma HeaderDecides(kind: Byte, epoch: Id, session: Id, counter: UInt64, kind': Byte, epoch': Id, session': Id, counter': UInt64)
    requires Header(kind, epoch, session, counter) == Header(kind', epoch', session', counter')
    ensures kind == kind' && epoch == epoch' && session == session' && counter == counter'
  {
    HeaderParts(kind, epoch, session, counter);
    HeaderParts(kind', epoch', session', counter');
  }

  /** What bytes open to, read off the box they stand for. */
  ghost function OpenedBox(direction: Direction, epoch: Id, session: Id, d: Datagram): Option<Opened>
  {
    match OpenBox(direction, epoch, session, d)
    case None => None
    case Some(body) => Some(Opened(d.kind, d.epoch, d.session, d.counter, body))
  }

  lemma BytesOpenTheBox(f: Ciphers, boxes: seq<Packet>, direction: Direction, epoch: Id, session: Id, pkt: seq<Byte>)
    requires AllExact(f) && Distinguished(f, boxes) && OpenPacket(f(direction, epoch, session), pkt).Some?
    requires Unforged(f, boxes, direction, epoch, session, ParsePacket(pkt).value)
    ensures OpenedBox(direction, epoch, session, DatagramOf(f, boxes, pkt)) == OpenPacket(f(direction, epoch, session), pkt)
  {
    var v := ParsePacket(pkt).value;
    ParsedIsAssembled(pkt);
    var c := f(direction, epoch, session);
    var body := c.open(v.counter, v.aad, v.ciphertext).value;
    var p :| p in boxes && p.direction == direction && p.epoch == epoch && p.session == session
             && p.counter == v.counter && HeaderOf(p) == v.aad && p.body == body;
    assert v.ciphertext == c.seal(v.counter, v.aad, body) == CiphertextOf(f, p);
    CiphertextIsIn(f, boxes, p);
    HeaderDecides(p.kind, p.epoch, p.session, p.counter, v.kind, v.epoch, v.session, v.counter);
  }

  lemma BoxOpensTheBytes(f: Ciphers, boxes: seq<Packet>, direction: Direction, epoch: Id, session: Id, pkt: seq<Byte>)
    requires AllExact(f) && OpenBox(direction, epoch, session, DatagramOf(f, boxes, pkt)).Some?
    ensures OpenPacket(f(direction, epoch, session), pkt).Some?
  {
    var v := ParsePacket(pkt).value;
    ParsedIsAssembled(pkt);
    var p := CiphertextIn(f, boxes, v.ciphertext).packet;
    assert HeaderOf(p) == v.aad && v.ciphertext == CiphertextOf(f, p);
  }

  /** Bytes open to exactly what the box that they stand for holds, under any key: unless somebody has forged a ciphertext
      for that key. */
  lemma OpensAlike(f: Ciphers, boxes: seq<Packet>, direction: Direction, epoch: Id, session: Id, pkt: seq<Byte>)
    requires AllExact(f) && Distinguished(f, boxes)
    requires ParsePacket(pkt).Some? ==> Unforged(f, boxes, direction, epoch, session, ParsePacket(pkt).value)
    ensures OpenPacket(f(direction, epoch, session), pkt)
            == OpenedBox(direction, epoch, session, DatagramOf(f, boxes, pkt))
  {
    if OpenPacket(f(direction, epoch, session), pkt).Some? {
      BytesOpenTheBox(f, boxes, direction, epoch, session, pkt);
    } else if OpenBox(direction, epoch, session, DatagramOf(f, boxes, pkt)).Some? {
      BoxOpensTheBytes(f, boxes, direction, epoch, session, pkt);
    }
  }

  /** Sealing makes bytes exactly when it makes a box, and the bytes stand for the datagram that carries the box. */
  lemma SealsAlike(f: Ciphers, boxes: seq<Packet>, direction: Direction, epoch: Id, session: Id, counter: UInt64, kind: Byte,
                   body: seq<Byte>)
    requires AllExact(f) && Distinguished(f, boxes) && KIND_HELLO <= kind <= KIND_PROBE
    ensures var pkt, box := SealPacket(f(direction, epoch, session), epoch, session, counter, kind, body),
                            SealBox(direction, epoch, session, counter, kind, body);
            && (pkt.Some? <==> box.Some?)
            && (box.Some? && box.value in boxes ==> DatagramOf(f, boxes, pkt.value) == Carrying(box.value))
  {
    var c, box := f(direction, epoch, session), SealBox(direction, epoch, session, counter, kind, body);
    assert Correct(c);
    SealedOpens(c, epoch, session, counter, kind, body);
    if box.Some? && box.value in boxes {
      var header := Header(kind, epoch, session, counter);
      AssembledParses(View(kind, epoch, session, counter, header, c.seal(counter, header, body)));
      CiphertextIsIn(f, boxes, box.value);
    }
  }

  /** Whatever bytes the network makes up, they are a datagram that can arrive. */
  lemma BytesCanArrive(f: Ciphers, w: World, pkt: seq<Byte>, src: nat, now: nat, nextEpoch: Id)
    requires nextEpoch !in w.used
    ensures Enabled(w, Arrive(DatagramOf(f, w.boxes, pkt), src, now, nextEpoch))
  {
  }
}
