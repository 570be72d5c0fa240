/** Sealed packets under an ideal cipher: a box opens only under the key, counter and header it was sealed with. */
module Secure {
  import opened Bytes
  import opened Wire

  /** Each session has one key per direction and epoch. */
  datatype Direction = ToReceiver | ToSender

  /** One use of a key: the key is (direction, epoch, session), the nonce is the counter, the header is bound to it. */
  datatype Packet = Packet(direction: Direction, epoch: Id, session: Id, counter: UInt64, kind: Byte, body: seq<Byte>)

  datatype Ciphertext = Forged | Box(packet: Packet)

  /** What arrives: bytes that do not parse, or a header, possibly altered, with some ciphertext. */
  datatype Datagram = Unparsable | Datagram(kind: Byte, epoch: Id, session: Id, counter: UInt64, ct: Ciphertext)

  function SealBox(direction: Direction, epoch: Id, session: Id, counter: UInt64, kind: Byte, body: seq<Byte>): Option<Packet>
  {
    if counter == 0 || HEADER_LEN + |body| + TAG_LEN > MAX_DATAGRAM then None
    else Some(Packet(direction, epoch, session, counter, kind, body))
  }

  /** Opens a datagram with the key of a direction, an epoch and a session. */
  function OpenBox(direction: Direction, epoch: Id, session: Id, d: Datagram): Option<seq<Byte>>
  {
    if d.Datagram? && d.ct.Box? && d.ct.packet.direction == direction
       && d.ct.packet.epoch == epoch == d.epoch && d.ct.packet.session == session == d.session
       && d.ct.packet.counter == d.counter && d.ct.packet.kind == d.kind
    then Some(d.ct.packet.body)
    else None
  }

  /** The datagram that carries a packet unaltered. */
  function Carrying(p: Packet): Datagram { Datagram(p.kind, p.epoch, p.session, p.counter, Box(p)) }

  /** The audio sequence number inside a body, 0 for what is not an audio body. */
  function SeqOf(body: seq<Byte>): nat
  {
    match DecodeAudio(body)
    case None => 0
    case Some(audio) => audio.seqNo
  }
}
