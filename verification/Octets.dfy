/** The octets, sequence numbers and packets that every layer of the link shares. */
module Octets {

  type Octet = bv8

  const FLAG: Octet := 0x7e
  const ESC: Octet := 0x7d
  const ESC_FLIP_BIT: Octet := 0x20

  const MAX_PACKET_SIZE := 256
  const HISTORY_CAPACITY := 8
  const WRITEBUF_SIZE := 512
  const CRC_SIZE := 2
  const SEQ_RANGE := 64

  /** A six-bit wrapping sequence number. */
  type Seq = n: int | 0 <= n < SEQ_RANGE

  /** What fits in an SFPpacket. */
  type Packet = p: seq<Octet> | |p| <= MAX_PACKET_SIZE

  predicate IsReserved(o: Octet) {
    o == ESC || o == FLAG
  }

  function NextSeq(s: Seq): Seq {
    (s + 1) % SEQ_RANGE
  }

  lemma OctetSuccessor(o: Octet, n: nat)
    requires o as int == n && n < 255
    ensures (o + 1) as int == n + 1
  {
  }

  lemma {:induction false} SomeOctet(n: nat) returns (o: Octet)
    requires n < 256
    ensures o as int == n
  {
    if n == 0 {
      o := 0;
    } else {
      var p := SomeOctet(n - 1);
      OctetSuccessor(p, n - 1);
      o := p + 1;
    }
  }

  lemma OctetAgain(o: Octet)
    ensures (o as int) as bv8 == o
  {
  }

  /** A number below 256 is the value of the octet it is cast to. */
  lemma OctetOf(n: nat)
    requires n < 256
    ensures (n as bv8) as int == n
  {
    var o := SomeOctet(n);
    OctetAgain(o);
  }
}
