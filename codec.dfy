/** The RUDP frame codec: a 7-byte header (type, 32-bit sequence, 16-bit
    payload length, all big-endian) followed by the payload bytes.
    Client and server carry identical copies of pack_msg / unpack_msg;
    this module is that one codec. */
module Codec {

  type byte = x: int | 0 <= x < 256

  datatype Option<T> = None | Some(value: T)

  // Protocol type codes (one byte on the wire).
  const SYN: byte := 1
  const SYN_ACK: byte := 2
  const ACK: byte := 3
  const DATA: byte := 4
  const DATA_ACK: byte := 5
  const FIN: byte := 6
  const FIN_ACK: byte := 7

  /** Size of the fixed header: type(1) | seq(4) | len(2). */
  const HeaderSize: nat := 7
  /** One more than the largest sequence number a header can carry. */
  const SeqLimit: nat := 0x1_0000_0000
  /** One more than the largest payload length a header can carry. */
  const LenLimit: nat := 0x1_0000
  /** Both sockets receive with recvfrom(2048): longer datagrams are cut. */
  const MaxDatagram: nat := 2048

  /** A decoded frame. */
  datatype Frame = Frame(tp: byte, sq: nat, payload: seq<byte>)

  function Min(a: int, b: int): int { if a <= b then a else b }

  /** Concatenation regroups freely; stated once, away from any particular
      sequence, so that proofs need not rediscover it. */
  lemma AppendAssoc<T>(a: seq<T>, b: seq<T>, c: seq<T>)
    ensures a + (b + c) == (a + b) + c
  {
  }

  /** A 32-bit unsigned field, most significant byte first. */
  function U32(n: nat): (r: seq<byte>)
    requires n < SeqLimit
    ensures |r| == 4
  {
    [n / 0x100_0000, n / 0x1_0000 % 0x100, n / 0x100 % 0x100, n % 0x100]
  }

  /** A 16-bit unsigned field, most significant byte first. */
  function U16(n: nat): (r: seq<byte>)
    requires n < LenLimit
    ensures |r| == 2
  {
    [n / 0x100, n % 0x100]
  }

  /** The number a 4-byte big-endian field holds. */
  function ReadU32(s: seq<byte>): (r: nat)
    requires |s| == 4
    ensures r < SeqLimit
  {
    (s[0] as int) * 0x100_0000 + (s[1] as int) * 0x1_0000 + (s[2] as int) * 0x100 + s[3]
  }

  /** The number a 2-byte big-endian field holds. */
  function ReadU16(s: seq<byte>): (r: nat)
    requires |s| == 2
    ensures r < LenLimit
  {
    (s[0] as int) * 0x100 + s[1]
  }

  /** Reading a written 32-bit field gives the number back. */
  lemma U32RoundTrip(n: nat)
    requires n < SeqLimit
    ensures ReadU32(U32(n)) == n
  {
    var hi := n / 0x1_0000;
    var mid := n / 0x100;
    assert hi == n / 0x100_0000 * 0x100 + hi % 0x100;
    assert mid == hi * 0x100 + mid % 0x100;
    assert n == mid * 0x100 + n % 0x100;
  }

  /** Reading a written 16-bit field gives the number back. */
  lemma U16RoundTrip(n: nat)
    requires n < LenLimit
    ensures ReadU16(U16(n)) == n
  {
  }

  /** What struct.pack accepts for the '!B I H' header: the type is a byte
      by construction; the sequence and the length must fit their fields. */
  predicate Packable(sq: nat, payload: seq<byte>)
  {
    sq < SeqLimit && |payload| < LenLimit
  }

  /** pack_msg: header followed by the payload. */
  function Pack(tp: byte, sq: nat, payload: seq<byte>): (r: seq<byte>)
    requires Packable(sq, payload)
    ensures |r| == HeaderSize + |payload|
    ensures r[0] == tp && r[HeaderSize..] == payload
  {
    [tp] + U32(sq) + U16(|payload|) + payload
  }

  /** The header pack_msg writes: byte 0 is the type, bytes 1-4 the
      sequence and bytes 5-6 the payload length, both big-endian. */
  lemma PackHeader(tp: byte, sq: nat, payload: seq<byte>)
    requires Packable(sq, payload)
    ensures var r := Pack(tp, sq, payload);
      ReadU32(r[1..5]) == sq && ReadU16(r[5..7]) == |payload|
  {
    var r := Pack(tp, sq, payload);
    assert r[1..5] == U32(sq) && r[5..7] == U16(|payload|);
    U32RoundTrip(sq);
    U16RoundTrip(|payload|);
  }

  /** unpack_msg: None (the Python triple (None, None, b'')) for a buffer
      shorter than the header; otherwise the header fields and the payload
      slice pkt[7 : 7+ln], which Python clamps to the buffer's end. */
  function Unpack(pkt: seq<byte>): (r: Option<Frame>)
    ensures r.None? <==> |pkt| < HeaderSize
    ensures r.Some? ==> Packable(r.value.sq, r.value.payload)
    ensures r.Some? ==> r.value.tp == pkt[0] && r.value.payload <= pkt[HeaderSize..]
  {
    if |pkt| < HeaderSize then None
    else
      var ln := ReadU16(pkt[5..7]);
      Some(Frame(pkt[0], ReadU32(pkt[1..5]), pkt[HeaderSize..Min(HeaderSize + ln, |pkt|)]))
  }

  /** What recvfrom(2048) hands the program for a datagram. */
  function Received(datagram: seq<byte>): (r: seq<byte>)
    ensures |r| == Min(|datagram|, MaxDatagram) && r <= datagram
    ensures |datagram| <= MaxDatagram ==> r == datagram
  {
    datagram[..Min(|datagram|, MaxDatagram)]
  }

  /** The frame a datagram read with recvfrom(2048) decodes to, if any. */
  function FrameOf(datagram: seq<byte>): Option<Frame>
  {
    Unpack(Received(datagram))
  }

  // ---------------------------------------------------------------------
  // Properties of the codec

  /** Decoding any buffer shorter than the header fails. */
  lemma ShortBufferFails(pkt: seq<byte>)
    requires |pkt| < HeaderSize
    ensures Unpack(pkt) == None
  {
  }

  /** On a buffer holding a whole header, the fields are read big-endian
      from their fixed offsets and the payload is the prefix of the rest
      that the declared length asks for, cut short when the buffer ends. */
  lemma UnpackFields(pkt: seq<byte>)
    requires |pkt| >= HeaderSize
    ensures Unpack(pkt).Some?
    ensures Unpack(pkt).value.tp == pkt[0]
    ensures Unpack(pkt).value.sq == (pkt[1] as int) * 0x100_0000 + (pkt[2] as int) * 0x1_0000 + (pkt[3] as int) * 0x100 + pkt[4]
    ensures |Unpack(pkt).value.payload| == Min((pkt[5] as int) * 0x100 + pkt[6], |pkt| - HeaderSize)
    ensures Unpack(pkt).value.payload == pkt[HeaderSize..HeaderSize + |Unpack(pkt).value.payload|]
  {
  }

  /** Round trip: decoding an encoded frame gives the frame back, and
      anything after the declared payload (a longer datagram) is ignored. */
  lemma RoundTrip(tp: byte, sq: nat, payload: seq<byte>, trailing: seq<byte>)
    requires Packable(sq, payload)
    ensures Unpack(Pack(tp, sq, payload) + trailing) == Some(Frame(tp, sq, payload))
  {
    var pkt := Pack(tp, sq, payload) + trailing;
    PackHeader(tp, sq, payload);
    UnpackFields(pkt);
    assert pkt[HeaderSize..HeaderSize + |payload|] == payload;
  }

  /** Equal encodings come from equal frames. */
  lemma PackInjective(tp1: byte, sq1: nat, p1: seq<byte>, tp2: byte, sq2: nat, p2: seq<byte>)
    requires Packable(sq1, p1) && Packable(sq2, p2)
    requires Pack(tp1, sq1, p1) == Pack(tp2, sq2, p2)
    ensures tp1 == tp2 && sq1 == sq2 && p1 == p2
  {
    RoundTrip(tp1, sq1, p1, []);
    RoundTrip(tp2, sq2, p2, []);
    assert Pack(tp1, sq1, p1) + [] == Pack(tp2, sq2, p2) + [];
  }
}
