/** One end of the link, frame by frame: what sfpWritePacket, sfpConnect and sfpHandleFrame do
    to the connection state, the sequence numbers and the retransmission history. */
module Protocol {
  import opened Octets
  import opened Frames

  datatype ConnectState = Disconnected | SentSyn0 | SentSyn1 | Connected

  datatype Peer = Peer(conn: ConnectState, txSeq: Seq, history: seq<Packet>, rxSeq: Seq)

  /** A step's result: the new state, the frames transmitted and the packets delivered. */
  datatype Outcome = Outcome(peer: Peer, sent: seq<Frame>, delivered: seq<Packet>)

  const INITIAL := Peer(Disconnected, 0, [], 0)

  // ---------- frames ----------

  function Control(k: FrameKind, s: Seq): Frame {
    Frame(k, s, [])
  }

  function Reply(p: Peer, k: FrameKind, s: Seq): Outcome {
    Outcome(p, [Control(k, s)], [])
  }

  // ---------- transmitter ----------

  /** Appending to a full history drops its oldest packet. */
  function PushHistory(h: seq<Packet>, packet: Packet): (r: seq<Packet>)
    ensures |h| <= HISTORY_CAPACITY ==> |r| <= HISTORY_CAPACITY
  {
    (if |h| == HISTORY_CAPACITY then h[1..] else h) + [packet]
  }

  function WritePacket(p: Peer, packet: Packet): Outcome {
    Outcome(p.(txSeq := NextSeq(p.txSeq), history := PushHistory(p.history, packet)),
            [Frame(Usr, p.txSeq, packet)], [])
  }

  /** The packets h retransmitted from sequence number s on. */
  function RtxFrames(h: seq<Packet>, s: Seq): (fs: seq<Frame>)
    ensures |fs| == |h|
  {
    seq(|h|, i requires 0 <= i < |h| => Frame(Rtx, (s + i) % SEQ_RANGE, h[i]))
  }

  /** How many history entries lie before sequence number s, modulo the sequence range. */
  function FastForward(p: Peer, s: Seq): nat {
    (s - (p.txSeq - |p.history|)) % SEQ_RANGE
  }

  function TransmitHistoryFromSeq(p: Peer, s: Seq): Outcome {
    var ff := FastForward(p, s);
    var h := if ff < |p.history| then p.history[ff..] else p.history;
    Outcome(p.(txSeq := (s + |h|) % SEQ_RANGE, history := h), RtxFrames(h, s), [])
  }

  // ---------- connection ----------

  function Reset(p: Peer, c: ConnectState): Peer {
    Peer(c, 0, [], 0)
  }

  function Connect(p: Peer): Outcome {
    Reply(Reset(p, SentSyn0), Syn, SEQ_SYN0)
  }

  /** On becoming connected, whatever was written since the last reset is sent again. */
  function Establish(p: Peer): Outcome {
    var o := if p.txSeq != 0 then TransmitHistoryFromSeq(p, 0) else Outcome(p, [], []);
    o.(peer := o.peer.(conn := Connected))
  }

  function HandleSyn0(p: Peer): Outcome {
    Reply(Reset(p, SentSyn1), Syn, SEQ_SYN1)
  }

  function HandleSyn1(p: Peer): Outcome {
    if p.conn == Disconnected then
      Reply(p, Syn, SEQ_SYN_DIS)
    else
      var o := Establish(p);
      o.(sent := [Control(Syn, SEQ_SYN2)] + o.sent)
  }

  function HandleSyn2(p: Peer): Outcome {
    if p.conn == Disconnected then
      Reply(p, Syn, SEQ_SYN_DIS)
    else if p.conn == SentSyn0 then
      Reply(p, Syn, SEQ_SYN0)
    else
      Establish(p)
  }

  function HandleSyn(p: Peer, s: Seq): Outcome {
    if s == SEQ_SYN0 then HandleSyn0(p)
    else if s == SEQ_SYN1 then HandleSyn1(p)
    else if s == SEQ_SYN2 then HandleSyn2(p)
    else if s == SEQ_SYN_DIS then Outcome(p.(conn := Disconnected), [], [])
    else Outcome(p, [], [])
  }

  // ---------- receiver ----------

  /** The answer of a peer that is not connected to a user or NAK frame. */
  function NotConnected(p: Peer): (o: Outcome)
    requires p.conn != Connected
    ensures o.peer == p && |o.sent| == 1 && o.sent[0].kind == Syn && o.delivered == []
  {
    match p.conn
    case Disconnected => Reply(p, Syn, SEQ_SYN_DIS)
    case SentSyn0 => Reply(p, Syn, SEQ_SYN0)
    case SentSyn1 => Reply(p, Syn, SEQ_SYN1)
  }

  function HandleUsr(p: Peer, f: Frame): Outcome
  {
    if p.conn != Connected then NotConnected(p)
    else if f.seqno == p.rxSeq then Outcome(p.(rxSeq := NextSeq(p.rxSeq)), [], [f.payload])
    else if f.kind == Usr then Reply(p, Nak, p.rxSeq)
    else Outcome(p, [], [])
  }

  function HandleNak(p: Peer, s: Seq): Outcome {
    if p.conn != Connected then NotConnected(p)
    else if s != p.txSeq then TransmitHistoryFromSeq(p, s)
    else Outcome(p, [], [])
  }

  /** A frame whose length and check sequence are good. */
  function Handle(p: Peer, f: Frame): Outcome
  {
    match f.kind
    case Usr => HandleUsr(p, f)
    case Rtx => HandleUsr(p, f)
    case Nak => HandleNak(p, f.seqno)
    case Syn => HandleSyn(p, f.seqno)
  }

  /** A frame that is too short or fails the check, in any connection state. */
  function HandleDamaged(p: Peer): Outcome {
    Reply(p, Nak, p.rxSeq)
  }

  /** The receiver keeps the check sequence in the packet's buffer, so this is what it can take. */
  predicate Fits(packet: Packet) {
    |packet| <= MAX_PACKET_SIZE - CRC_SIZE
  }

  /** A transmitted frame reaching a receiver at rest. With one octet too many it overflows the
      buffer and is forgotten; with two, the last octet is taken for the start of another frame,
      which is too short. */
  function Arrive(p: Peer, f: Frame): Outcome
  {
    if Fits(f.payload) then Handle(p, f)
    else if |f.payload| < MAX_PACKET_SIZE then Outcome(p, [], [])
    else HandleDamaged(p)
  }

  /** Frames one after another. */
  function ArriveAll(p: Peer, fs: seq<Frame>): Outcome
  {
    if fs == [] then Outcome(p, [], [])
    else
      var before := ArriveAll(p, fs[..|fs| - 1]);
      var last := Arrive(before.peer, fs[|fs| - 1]);
      Outcome(last.peer, before.sent + last.sent, before.delivered + last.delivered)
  }
}
