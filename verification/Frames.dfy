/** Frame headers: two control bits above six sequence bits. */
module Frames {
  import opened Octets

  datatype FrameKind = Usr | Rtx | Nak | Syn

  const SEQ_SYN0: Seq := 0
  const SEQ_SYN1: Seq := 1
  const SEQ_SYN2: Seq := 2
  const SEQ_SYN_DIS: Seq := 3

  /** A frame with its stuffing and check sequence removed. */
  datatype Frame = Frame(kind: FrameKind, seqno: Seq, payload: Packet)

  function KindBits(k: FrameKind): Octet {
    match k
    case Usr => 0
    case Rtx => 1
    case Nak => 2
    case Syn => 3
  }

  function MakeHeader(k: FrameKind, s: Seq): Octet {
    (s as bv8) | (KindBits(k) << 6)
  }

  function GetFrameKind(header: Octet): FrameKind {
    var c := (header >> 6) & 0x3;
    if c == 0 then Usr else if c == 1 then Rtx else if c == 2 then Nak else Syn
  }

  function GetFrameSeq(header: Octet): Seq {
    (header & 0x3f) as int
  }

  /** Every header octet is read back as the kind and sequence it was made from, and every
      octet is the header of some kind and sequence. */
  lemma HeaderRoundTrip(k: FrameKind, s: Seq, h: Octet)
    ensures GetFrameKind(MakeHeader(k, s)) == k && GetFrameSeq(MakeHeader(k, s)) == s
    ensures MakeHeader(GetFrameKind(h), GetFrameSeq(h)) == h
  {
    OctetOf(s);
    HeaderBits(s as bv8, KindBits(k), h);
    SeqFits(s as bv8, s);
  }

  lemma SeqFits(x: Octet, s: Seq)
    requires x as int == s
    ensures x < 64
  {
  }

  lemma HeaderBits(x: Octet, c: Octet, h: Octet)
    ensures x < 64 && c < 4 ==> (x | (c << 6)) & 0x3f == x && ((x | (c << 6)) >> 6) & 0x3 == c
    ensures (h & 0x3f) | (((h >> 6) & 0x3) << 6) == h
  {
  }
}
