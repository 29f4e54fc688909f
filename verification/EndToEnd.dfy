/** From a message handed to the transmitter to the message the receiver's user reads. */
module EndToEnd {
  import opened Octets
  import opened Frames
  import opened Protocol
  import opened Framing
  import opened Messages

  /** What the wire carries when peer p writes the message m as a packet. */
  function Wire(p: Peer, m: Message): seq<Octet>
    requires |Serialized(m)| <= MAX_PACKET_SIZE
  {
    EncodeAll(WritePacket(p, Serialized(m)).sent)
  }

  /** A message of at most 254 octets, serialised, written as a packet, sent octet by octet to a
      connected receiver that expects the sender's number, and deserialised again, arrives as
      itself, and the two ends agree on the next number. */
  lemma MessageArrives(p: Peer, e: Endpoint, m: Message)
    requires WellFormed(m) && !m.fields.Unknown?
    requires GetSizeof(m.fields) <= MAX_PACKET_SIZE - CRC_SIZE
    requires IsIdle(e.rx) && e.peer.conn == Connected && e.peer.rxSeq == p.txSeq
    ensures RxValid(e.rx)
    ensures var t := DeliverAll(e, Wire(p, m));
            && |t.delivered| == 1
            && var r := Parse(t.delivered[0]);
            && r.Accepted? && r.at + ValueLength(r.fields) <= |t.delivered[0]|
            && Denoted(t.delivered[0], r) == m
            && t.end.peer.rxSeq == WritePacket(p, Serialized(m)).peer.txSeq
            && t.sent == []
  {
    hide Parse, Head, DeliverAll, EncodeAll, Handle, Denoted;
    var packet := Serialized(m);
    var f := Frame(Usr, p.txSeq, packet);
    FramesThroughOctets(e, [f]);
    assert ArriveAll(e.peer, [f]) == Handle(e.peer, f) by {
      assert [f][..0] == [];
    }
    ExpectedUsr(e.peer, f);
    SerializedParses(m, []);
    assert packet + [] == packet;
  }
}
