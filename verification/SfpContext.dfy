/** The link layer as the program runs it: one SFPcontext whose methods update its fields in
    place. Every method is tied to the frame-level functions of Protocol and the octet-level
    functions of Framing; the two callbacks are ghost logs of what they were handed. */
module SfpLink {
  import opened Octets
  import opened Crc
  import opened Frames
  import opened Protocol
  import opened Framing
  import opened RingBuffer
  import opened Answers

  class SfpContext {
    var connectState: ConnectState

    // transmitter
    var txSeq: Seq
    var txCrc: Fcs
    const history: PotRingbuffer<Packet>
    const writebuf: array<Octet>
    var writebufn: nat

    // receiver
    var rxSeq: Seq
    var rxCrc: Fcs
    var escaping: bool
    var receiving: bool
    var header: Octet
    const packetBuf: array<Octet>
    var packetLen: nat
    var hasDeliver: bool

    // what the write and deliver callbacks were handed
    ghost var wire: seq<Octet>
    ghost var delivered: seq<Packet>

    /** The buffers have their sizes and do not overlap, the ring is sound, no output waits. */
    ghost predicate Valid()
      reads this, history
    {
      && writebuf.Length == WRITEBUF_SIZE
      && packetBuf.Length == MAX_PACKET_SIZE
      && writebuf != packetBuf
      && history.Valid()
      && history.capacity == HISTORY_CAPACITY
      && writebufn == 0
      && packetLen <= MAX_PACKET_SIZE
    }

    ghost function PeerState(): (p: Peer)
      reads this, history, history.mData
      requires history.Valid()
    {
      Peer(connectState, txSeq, history.Contents(), rxSeq)
    }

    ghost function RxState(): Rx
      reads this, packetBuf
      requires packetLen <= packetBuf.Length
    {
      Rx(rxCrc, escaping, receiving, header, packetBuf[..packetLen])
    }

    ghost function State(): Endpoint
      reads this, history, history.mData, packetBuf
      requires Valid()
    {
      Endpoint(RxState(), PeerState())
    }

    /** The frames sent are on the wire after wire0, the packets delivered after delivered0. */
    ghost predicate Logged(sent: seq<Frame>, packets: seq<Packet>, wire0: seq<Octet>, delivered0: seq<Packet>)
      reads this
    {
      && wire == wire0 + EncodeAll(sent)
      && delivered == delivered0 + (if hasDeliver then packets else [])
    }

    ghost predicate Did(o: Outcome, wire0: seq<Octet>, delivered0: seq<Packet>)
      reads this, history, history.mData
    {
      && Valid()
      && PeerState() == o.peer
      && Logged(o.sent, o.delivered, wire0, delivered0)
    }

    /** sfpInit */
    constructor Init(history: PotRingbuffer<Packet>, writebuf: array<Octet>, packetBuf: array<Octet>)
      requires history.Valid() && history.capacity == HISTORY_CAPACITY && history.Contents() == []
      requires writebuf.Length == WRITEBUF_SIZE && packetBuf.Length == MAX_PACKET_SIZE && writebuf != packetBuf
      ensures Valid() && PeerState() == INITIAL && IsIdle(RxState())
      ensures wire == [] && delivered == [] && !hasDeliver
      ensures this.history == history && this.writebuf == writebuf && this.packetBuf == packetBuf
    {
      this.history, this.writebuf, this.packetBuf := history, writebuf, packetBuf;
      connectState := Disconnected;
      rxSeq, rxCrc, escaping, receiving, header, packetLen := 0, PRESET, false, false, 0, 0;
      txSeq, txCrc, writebufn := 0, PRESET, 0;
      hasDeliver, wire, delivered := false, [], [];
    }

    /** sfpSetDeliverCallback */
    method SetDeliverCallback(callback: bool)
      requires Valid()
      modifies this`hasDeliver
      ensures Valid() && State() == old(State()) && hasDeliver == callback
    {
      hasDeliver := callback;
    }

    // ---------- buffered output ----------

    ghost predicate WriteReady()
      reads this
    {
      writebuf.Length == WRITEBUF_SIZE && writebufn <= WRITEBUF_SIZE
    }

    /** Everything written so far, flushed or not. */
    ghost function Written(): seq<Octet>
      reads this, writebuf
      requires WriteReady()
    {
      wire + writebuf[..writebufn]
    }

    method FlushWriteBuffer()
      requires WriteReady()
      modifies this`writebufn, this`wire
      ensures WriteReady() && writebufn == 0
      ensures wire == Written() == old(Written())
    {
      wire := wire + writebuf[..writebufn];
      writebufn := 0;
    }

    method BufferedWrite(octet: Octet) returns (outlen: nat)
      requires WriteReady()
      modifies this`writebufn, this`wire, writebuf
      ensures WriteReady() && Written() == old(Written()) + [octet]
      ensures outlen == 1
    {
      if writebufn >= WRITEBUF_SIZE {
        FlushWriteBuffer();
      }
      writebuf[writebufn] := octet;
      writebufn := writebufn + 1;
      outlen := 1;
      assert writebuf[..writebufn] == writebuf[..writebufn - 1] + [octet];
    }

    method WriteNoCrc(octet: Octet) returns (outlen: nat)
      requires WriteReady()
      modifies this`writebufn, this`wire, writebuf
      ensures WriteReady() && Written() == old(Written()) + Escape(octet)
      ensures outlen == |Escape(octet)|
    {
      outlen := 0;
      var o := octet;
      if IsReserved(octet) {
        o := octet ^ ESC_FLIP_BIT;
        var n := BufferedWrite(ESC);
        outlen := outlen + n;
      }
      var n := BufferedWrite(o);
      outlen := outlen + n;
    }

    method Write(octet: Octet) returns (outlen: nat)
      requires WriteReady()
      modifies this`writebufn, this`wire, this`txCrc, writebuf
      ensures WriteReady() && Written() == old(Written()) + Escape(octet)
      ensures outlen == |Escape(octet)|
      ensures txCrc == Update(old(txCrc), octet)
    {
      hide Escape, Update;
      txCrc := Update(txCrc, octet);
      outlen := WriteNoCrc(octet);
    }

    /** The payload loop of a frame. */
    method WritePayload(payload: seq<Octet>) returns (outlen: nat)
      requires WriteReady()
      modifies this`writebufn, this`wire, this`txCrc, writebuf
      ensures WriteReady()
      ensures txCrc == Fold(old(txCrc), payload)
      ensures Written() == old(Written()) + Stuff(payload)
      ensures outlen == |Stuff(payload)|
    {
      hide Update, Escape;
      outlen := 0;
      var i := 0;
      while i < |payload|
        invariant 0 <= i <= |payload| && WriteReady()
        invariant txCrc == Fold(old(txCrc), payload[..i])
        invariant Written() == old(Written()) + Stuff(payload[..i])
        invariant outlen == |Stuff(payload[..i])|
      {
        assert payload[..i + 1][..i] == payload[..i];
        var n := Write(payload[i]);
        outlen := outlen + n;
        i := i + 1;
      }
      assert payload[..i] == payload;
    }

    /** The complement of the check sequence, least significant octet first. */
    method WriteTrailer() returns (outlen: nat)
      requires WriteReady()
      modifies this`writebufn, this`wire, writebuf
      ensures WriteReady()
      ensures Written() == old(Written()) + Stuff(Trailer(txCrc))
      ensures outlen == |Stuff(Trailer(txCrc))|
    {
      hide Escape, Low, High, Stuff;
      var crc := !txCrc;
      var low, high := Low(crc), High(crc);
      assert Trailer(txCrc) == [low, high];
      hide Trailer;
      StuffPair(low, high);
      outlen := WriteNoCrc(low);
      var n := WriteNoCrc(high);
      outlen := outlen + n;
    }

    method WriteOpening(header: Octet) returns (outlen: nat)
      requires WriteReady()
      modifies this`writebufn, this`wire, this`txCrc, writebuf
      ensures WriteReady() && Written() == old(Written()) + ([FLAG] + Escape(header))
      ensures txCrc == Update(PRESET, header)
      ensures outlen == |[FLAG] + Escape(header)|
    {
      hide Escape, Update;
      txCrc := PRESET;
      outlen := BufferedWrite(FLAG);
      var n := Write(header);
      outlen := outlen + n;
    }

    method WriteClosing() returns (outlen: nat)
      requires WriteReady()
      modifies this`writebufn, this`wire, writebuf
      ensures WriteReady() && writebufn == 0
      ensures wire == old(Written()) + (Stuff(Trailer(txCrc)) + [FLAG])
      ensures outlen == |Stuff(Trailer(txCrc)) + [FLAG]|
    {
      hide Stuff, Trailer;
      outlen := WriteTrailer();
      var n := BufferedWrite(FLAG);
      outlen := outlen + n;
      FlushWriteBuffer();
    }

    /** FLAG, stuffed header, payload and complemented check sequence, FLAG. */
    method TransmitFrameWithHeader(header: Octet, payload: seq<Octet>) returns (outlen: nat)
      requires WriteReady() && writebufn == 0
      modifies this`writebufn, this`wire, this`txCrc, writebuf
      ensures WriteReady() && writebufn == 0
      ensures wire == old(wire) + EncodeRaw(header, payload)
      ensures outlen == |EncodeRaw(header, payload)|
    {
      EncodedParts(header, payload);
      assert Written() == wire;
      hide Update, Fold, Escape, Stuff, Trailer, EncodeRaw, Written;
      outlen := WriteOpening(header);
      var n := WritePayload(payload);
      outlen := outlen + n;
      n := WriteClosing();
      outlen := outlen + n;
    }

    // ---------- transmitter ----------

    /** A NAK or SYN frame; the source has one function for each sequence number. */
    method TransmitControl(kind: FrameKind, s: Seq)
      requires Valid()
      modifies this`writebufn, this`wire, this`txCrc, writebuf
      ensures Did(Outcome(PeerState(), [Control(kind, s)], []), old(wire), old(delivered))
      ensures PeerState() == old(PeerState())
    {
      hide EncodeRaw, MakeHeader;
      var _ := TransmitFrameWithHeader(MakeHeader(kind, s), []);
      EncodeAllOne(Control(kind, s));
    }

    /** The part that user frames and retransmissions share. */
    method TransmitData(kind: FrameKind, packet: Packet) returns (outlen: nat)
      requires Valid()
      modifies this`txSeq, this`writebufn, this`wire, this`txCrc, writebuf
      ensures Valid() && txSeq == NextSeq(old(txSeq))
      ensures wire == old(wire) + Encode(Frame(kind, old(txSeq), packet))
      ensures outlen == |Encode(Frame(kind, old(txSeq), packet))|
    {
      hide EncodeRaw, MakeHeader;
      outlen := TransmitFrameWithHeader(MakeHeader(kind, txSeq), packet);
      txSeq := NextSeq(txSeq);
    }

    /** sfpWritePacket */
    method WritePacket(packet: Packet) returns (outlen: nat)
      requires Valid()
      modifies this`txSeq, this`writebufn, this`wire, this`txCrc, writebuf, history, history.mData
      ensures Did(Protocol.WritePacket(old(PeerState()), packet), old(wire), old(delivered))
      ensures outlen == |wire| - |old(wire)|
      ensures RxState() == old(RxState())
    {
      hide Encode;
      history.PushBack(packet);
      outlen := TransmitData(Usr, packet);
      EncodeAllOne(Frame(Usr, old(txSeq), packet));
    }

    method TransmitHistory()
      requires Valid()
      modifies this`txSeq, this`writebufn, this`wire, this`txCrc, writebuf
      ensures Valid()
      ensures wire == old(wire) + EncodeAll(RtxFrames(history.Contents(), old(txSeq)))
      ensures txSeq == (old(txSeq) + |history.Contents()|) % SEQ_RANGE
    {
      hide Encode, EncodeAll, RtxFrames, View, Gap;
      var count := history.Size();
      ghost var h := history.Contents();
      RtxNone(old(txSeq));
      var i := 0;
      while i < count
        invariant 0 <= i <= count && Valid()
        invariant wire == old(wire) + EncodeAll(RtxFrames(h[..i], old(txSeq)))
        invariant txSeq == (old(txSeq) + i) % SEQ_RANGE
      {
        assert history.At(i) == h[i];
        hide NextSeq;
        var _ := TransmitData(Rtx, history.At(i));
        RtxSnoc(h, i, old(txSeq));
        SeqAfter(old(txSeq), i);
        i := i + 1;
      }
      assert h[..i] == h;
    }

    /** Drop what comes before sequence number s, or nothing if s is not in the history. */
    method DropHistoryBefore(fastforward: nat)
      requires Valid()
      modifies history`mBegin
      ensures Valid()
      ensures var h := old(history.Contents());
              history.Contents() == if fastforward < |h| then h[fastforward..] else h
    {
      ghost var h := history.Contents();
      if history.Size() > fastforward {
        var i := 0;
        while i < fastforward
          invariant 0 <= i <= fastforward && Valid()
          invariant history.Contents() == h[i..]
        {
          history.PopFront();
          i := i + 1;
        }
      }
    }

    method TransmitHistoryFromSeq(s: Seq)
      requires Valid()
      modifies this`txSeq, this`writebufn, this`wire, this`txCrc, writebuf, history`mBegin
      ensures Did(Protocol.TransmitHistoryFromSeq(old(PeerState()), s), old(wire), old(delivered))
      ensures var fs := RtxFrames(history.Contents(), s);
              wire == old(wire) + EncodeAll(fs) && SendsAgain(old(PeerState()), s, PeerState(), fs)
    {
      hide Encode, EncodeAll, RtxFrames, SendsAgain;
      ghost var p := PeerState();
      var fastforward := (s - (txSeq - history.Size())) % SEQ_RANGE;
      assert fastforward == FastForward(p, s);
      hide FastForward;
      DropHistoryBefore(fastforward);
      ghost var h := history.Contents();
      hide View, Gap;
      txSeq := s;
      TransmitHistory();
      assert history.Contents() == h;
      assert PeerState() == Protocol.TransmitHistoryFromSeq(p, s).peer;
      SentAgain(p, s);
    }

    method ClearHistory()
      requires Valid()
      modifies history`mBegin
      ensures Valid() && history.Contents() == []
    {
      history.Clear();
    }

    // ---------- receiver ----------

    method ResetReceiver()
      requires Valid()
      modifies this`rxCrc, this`escaping, this`receiving, this`packetLen
      ensures Valid() && RxState() == ResetRx(old(RxState()))
    {
      rxCrc := PRESET;
      escaping := false;
      receiving := false;
      packetLen := 0;
    }

    /** sfpConnect, and the common part of sfpHandleSYN0: forget everything and say so. */
    method Restart(syn: Seq, state: ConnectState)
      requires Valid()
      modifies this`rxCrc, this`escaping, this`receiving, this`packetLen, this`rxSeq, this`connectState,
               this`txSeq, this`writebufn, this`wire, this`txCrc, writebuf, history`mBegin
      ensures Did(Reply(Reset(old(PeerState()), state), Syn, syn), old(wire), old(delivered))
      ensures RxState() == ResetRx(old(RxState()))
    {
      hide Encode, EncodeAll, View, Gap;
      ResetReceiver();
      rxSeq := 0;
      txSeq := 0;
      ClearHistory();
      assert history.Contents() == [] && RxState() == ResetRx(old(RxState()));
      hide RxValid, Logged;
      TransmitControl(Syn, syn);
      connectState := state;
      assert Logged([Control(Syn, syn)], [], old(wire), old(delivered));
    }

    method Connect()
      requires Valid()
      modifies this`rxCrc, this`escaping, this`receiving, this`packetLen, this`rxSeq, this`connectState,
               this`txSeq, this`writebufn, this`wire, this`txCrc, writebuf, history`mBegin
      ensures Did(Protocol.Connect(old(PeerState())), old(wire), old(delivered))
      ensures RxState() == ResetRx(old(RxState()))
    {
      Restart(SEQ_SYN0, SentSyn0);
    }

    /** Becoming connected. */
    method Establish()
      requires Valid()
      modifies this`connectState,
               this`txSeq, this`writebufn, this`wire, this`txCrc, writebuf, history`mBegin
      ensures Did(Protocol.Establish(old(PeerState())), old(wire), old(delivered))
    {
      hide Encode, EncodeAll, View, Gap, Protocol.TransmitHistoryFromSeq;
      EncodeAllNone();
      if txSeq != 0 {
        TransmitHistoryFromSeq(0);
      }
      connectState := Connected;
    }

    method HandleSyn1()
      requires Valid()
      modifies this`connectState,
               this`txSeq, this`writebufn, this`wire, this`txCrc, writebuf, history`mBegin
      ensures Did(Protocol.HandleSyn1(old(PeerState())), old(wire), old(delivered))
    {
      hide Encode, EncodeAll, View, Gap, Protocol.Establish;
      if connectState == Disconnected {
        TransmitControl(Syn, SEQ_SYN_DIS);
      } else {
        ghost var p := PeerState();
        EncodeAllConcat([Control(Syn, SEQ_SYN2)], Protocol.Establish(p).sent);
        TransmitControl(Syn, SEQ_SYN2);
        Establish();
      }
    }

    method HandleSyn2()
      requires Valid()
      modifies this`connectState,
               this`txSeq, this`writebufn, this`wire, this`txCrc, writebuf, history`mBegin
      ensures Did(Protocol.HandleSyn2(old(PeerState())), old(wire), old(delivered))
    {
      hide Encode, EncodeAll, View, Gap, Protocol.Establish;
      if connectState == Disconnected {
        TransmitControl(Syn, SEQ_SYN_DIS);
      } else if connectState == SentSyn0 {
        TransmitControl(Syn, SEQ_SYN0);
      } else {
        Establish();
      }
    }

    method HandleSyn(s: Seq)
      requires Valid()
      modifies this`rxCrc, this`escaping, this`receiving, this`packetLen, this`rxSeq, this`connectState,
               this`txSeq, this`writebufn, this`wire, this`txCrc, writebuf, history`mBegin
      ensures Did(Protocol.HandleSyn(old(PeerState()), s), old(wire), old(delivered))
    {
      hide Encode, EncodeAll, View, Gap, Protocol.HandleSyn1, Protocol.HandleSyn2;
      EncodeAllNone();
      if s == SEQ_SYN0 {
        Restart(SEQ_SYN1, SentSyn1);
      } else if s == SEQ_SYN1 {
        HandleSyn1();
      } else if s == SEQ_SYN2 {
        HandleSyn2();
      } else if s == SEQ_SYN_DIS {
        connectState := Disconnected;
      }
    }

    /** The answer to a user or NAK frame outside a connection. */
    method RefuseUnlessConnected() returns (refused: bool)
      requires Valid()
      modifies this`writebufn, this`wire, this`txCrc, writebuf
      ensures refused <==> old(connectState) != Connected
      ensures refused ==> Did(NotConnected(old(PeerState())), old(wire), old(delivered))
      ensures !refused ==> Valid() && wire == old(wire) && PeerState() == old(PeerState())
    {
      hide Encode, EncodeAll, View, Gap;
      refused := true;
      match connectState
      case Disconnected => TransmitControl(Syn, SEQ_SYN_DIS);
      case SentSyn0 => TransmitControl(Syn, SEQ_SYN0);
      case SentSyn1 => TransmitControl(Syn, SEQ_SYN1);
      case Connected => refused := false;
    }

    method HandleUsr() returns (ret: int)
      requires Valid()
      modifies this`rxSeq, this`delivered, this`writebufn, this`wire, this`txCrc, writebuf
      ensures var f := Frame(GetFrameKind(header), GetFrameSeq(header), packetBuf[..packetLen]);
              var o := Protocol.HandleUsr(old(PeerState()), f);
              Did(o, old(wire), old(delivered)) && ret == |o.delivered|
    {
      hide Encode, EncodeAll, View, Gap, NotConnected, GetFrameKind, GetFrameSeq;
      EncodeAllNone();
      ret := 0;
      var refused := RefuseUnlessConnected();
      if refused {
        return;
      }
      if GetFrameSeq(header) != rxSeq {
        if GetFrameKind(header) == Usr {
          TransmitControl(Nak, rxSeq);
        }
      } else {
        if hasDeliver {
          delivered := delivered + [packetBuf[..packetLen]];
        }
        rxSeq := NextSeq(rxSeq);
        ret := 1;
      }
    }

    method HandleNak()
      requires Valid()
      modifies this`txSeq, this`writebufn, this`wire, this`txCrc, writebuf, history`mBegin
      ensures Did(Protocol.HandleNak(old(PeerState()), GetFrameSeq(header)), old(wire), old(delivered))
    {
      hide Encode, EncodeAll, View, Gap, NotConnected, GetFrameSeq, Protocol.TransmitHistoryFromSeq;
      EncodeAllNone();
      var refused := RefuseUnlessConnected();
      if refused {
        return;
      }
      if GetFrameSeq(header) != txSeq {
        TransmitHistoryFromSeq(GetFrameSeq(header));
      }
    }

    method HandleFrame() returns (ret: int)
      requires Valid() && RxValid(RxState())
      modifies this`rxCrc, this`escaping, this`receiving, this`packetLen, this`rxSeq, this`connectState,
               this`delivered,
               this`txSeq, this`writebufn, this`wire, this`txCrc, writebuf, history`mBegin
      ensures var o := Framing.HandleFrame(old(RxState()), old(PeerState()));
              Did(o, old(wire), old(delivered)) && ret == |o.delivered|
      ensures ret == 1 ==> packetLen == old(packetLen) - CRC_SIZE
    {
      hide Encode, EncodeAll, View, Gap, Fold, GetFrameKind, GetFrameSeq,
           Protocol.HandleUsr, Protocol.HandleNak, Protocol.HandleSyn;
      ret := 0;
      ghost var buf, p := packetBuf[..packetLen], PeerState();
      if CRC_SIZE > packetLen {
        TransmitControl(Nak, rxSeq);
        return;
      }
      packetLen := packetLen - CRC_SIZE;
      if rxCrc != GOOD {
        TransmitControl(Nak, rxSeq);
        return;
      }
      assert packetBuf[..packetLen] == buf[..|buf| - CRC_SIZE];
      match GetFrameKind(header)
      case Usr => ret := HandleUsr();
      case Rtx => ret := HandleUsr();
      case Nak => HandleNak(); HandleNakDelivers(p, GetFrameSeq(header));
      case Syn => HandleSyn(GetFrameSeq(header)); HandleSynDelivers(p, GetFrameSeq(header));
    }

    method BufferOctet(octet: Octet)
      requires Valid()
      modifies this`rxCrc, this`escaping, this`receiving, this`packetLen, packetBuf
      ensures Valid()
      ensures RxState() == if |old(RxState()).buf| < MAX_PACKET_SIZE
                           then old(RxState()).(buf := old(RxState()).buf + [octet])
                           else ResetRx(old(RxState()))
    {
      if MAX_PACKET_SIZE <= packetLen {
        ResetReceiver();
      } else {
        packetBuf[packetLen] := octet;
        packetLen := packetLen + 1;
        assert packetBuf[..packetLen] == old(packetBuf[..packetLen]) + [octet];
      }
    }

    /** The caller's buffer overlaps none of the context's own. */
    ghost predicate Apart(buf: array<Octet>)
      reads history
    {
      buf != packetBuf && buf != writebuf && buf as object != history.mData
    }

    /** -1 if the packet does not fit, 1 if it was copied. */
    method CopyOutPacket(buf: array<Octet>, len: nat) returns (ret: int, outlen: nat)
      requires Valid() && len <= buf.Length && Apart(buf)
      modifies buf
      ensures if len < packetLen then ret == -1 && buf[..] == old(buf[..])
              else ret == 1 && outlen == packetLen && buf[..outlen] == packetBuf[..packetLen]
    {
      if len < packetLen {
        return -1, 0;
      }
      forall i | 0 <= i < packetLen {
        buf[i] := packetBuf[i];
      }
      return 1, packetLen;
    }

    /** What sfpDeliverOctet returns: whether an octet completed a packet and, with a buffer
        given, whether the packet was copied to it. */
    ghost predicate Returned(packets: seq<Packet>, buf: array?<Octet>, len: nat, ret: int, outlen: nat)
      reads buf
      requires buf != null ==> len <= buf.Length
    {
      if packets == [] then ret == 0
      else if buf == null then ret == 1
      else if len < |packets[0]| then ret == -1
      else ret == 1 && outlen == |packets[0]| && buf[..outlen] == packets[0]
    }

    /** A FLAG: hand over the frame received so far, if any, and start afresh. */
    method DeliverFlag(buf: array?<Octet>, len: nat) returns (ret: int, outlen: nat)
      requires Valid() && RxValid(RxState())
      requires buf != null ==> len <= buf.Length && Apart(buf)
      modifies this`rxCrc, this`escaping, this`receiving, this`packetLen, this`rxSeq, this`connectState,
               this`delivered, buf,
               this`txSeq, this`writebufn, this`wire, this`txCrc, writebuf, history`mBegin
      ensures Valid()
      ensures var t := Deliver(old(State()), FLAG);
              && State() == t.end && Logged(t.sent, t.delivered, old(wire), old(delivered))
              && Returned(t.delivered, buf, len, ret, outlen)
    {
      hide Encode, EncodeAll, View, Gap, Fold, Handle, Intact;
      EncodeAllNone();
      ret, outlen := 0, 0;
      if receiving {
        ghost var s, p := RxState(), PeerState();
        ret := HandleFrame();
        HandleFrameDelivers(s, p);
        assert ret == 1 ==> packetBuf[..packetLen] == s.buf[..|s.buf| - CRC_SIZE];
        if ret == 1 && buf != null {
          ret, outlen := CopyOutPacket(buf, len);
        }
      }
      ResetReceiver();
    }

    /** sfpDeliverOctet */
    method DeliverOctet(octet: Octet, buf: array?<Octet>, len: nat) returns (ret: int, outlen: nat)
      requires Valid() && RxValid(RxState())
      requires buf != null ==> len <= buf.Length && Apart(buf)
      modifies this`rxCrc, this`escaping, this`receiving, this`packetLen, this`rxSeq, this`connectState,
               this`delivered, this`header, packetBuf, buf,
               this`txSeq, this`writebufn, this`wire, this`txCrc, writebuf, history`mBegin
      ensures Valid() && RxValid(RxState())
      ensures var t := Deliver(old(State()), octet);
              && State() == t.end && Logged(t.sent, t.delivered, old(wire), old(delivered))
              && Returned(t.delivered, buf, len, ret, outlen)
    {
      hide Encode, EncodeAll, View, Gap, Fold, Absorb, Framing.HandleFrame;
      RxStepKeepsValid(RxState(), octet);
      EncodeAllNone();
      ret, outlen := 0, 0;
      if octet == FLAG {
        ret, outlen := DeliverFlag(buf, len);
      } else if octet == ESC {
        escaping := true;
      } else {
        DeliverPlain(octet);
      }
    }

    /** Any octet but FLAG and ESC. */
    method DeliverPlain(octet: Octet)
      requires Valid() && octet != FLAG && octet != ESC
      modifies this`rxCrc, this`escaping, this`receiving, this`packetLen, this`header, packetBuf
      ensures Valid() && RxState() == RxStep(old(RxState()), octet)
    {
      hide Update;
      var o := octet;
      if escaping {
        o := octet ^ ESC_FLIP_BIT;
        escaping := false;
      }
      rxCrc := Update(rxCrc, o);
      if !receiving {
        header := o;
        receiving := true;
      } else {
        BufferOctet(o);
      }
    }

    /** The server's reading loop: every octet read from the line goes to sfpDeliverOctet. */
    method DeliverAllOctets(octets: seq<Octet>)
      requires Valid() && RxValid(RxState())
      modifies this`rxCrc, this`escaping, this`receiving, this`packetLen, this`rxSeq, this`connectState,
               this`delivered, this`header, packetBuf,
               this`txSeq, this`writebufn, this`wire, this`txCrc, writebuf, history`mBegin
      ensures Valid() && RxValid(RxState())
      ensures var t := DeliverAll(old(State()), octets);
              State() == t.end && Logged(t.sent, t.delivered, old(wire), old(delivered))
    {
      hide Encode, EncodeAll, View, Gap, RxValid, Deliver;
      EncodeAllNone();
      assert octets[..0] == [];
      ghost var e := State();
      assert DeliverAll(e, []) == Trace(e, [], []);
      hide DeliverAll;
      var i := 0;
      while i < |octets|
        invariant 0 <= i <= |octets|
        invariant Valid() && RxValid(RxState()) && State() == DeliverAll(e, octets[..i]).end
        invariant var t := DeliverAll(e, octets[..i]); Logged(t.sent, t.delivered, old(wire), old(delivered))
      {
        ghost var t := DeliverAll(e, octets[..i]);
        ghost var u := Deliver(t.end, octets[i]);
        DeliverAllNext(e, octets, i);
        var _, _ := DeliverOctet(octets[i], null, 0);
        LogsJoin(old(wire), old(delivered), t, u, hasDeliver);
        i := i + 1;
      }
      assert octets[..i] == octets;
    }
  }

  lemma DeliverAllNext(e: Endpoint, os: seq<Octet>, i: nat)
    requires RxValid(e.rx) && i < |os|
    ensures DeliverAll(e, os[..i + 1])
         == Then(DeliverAll(e, os[..i]), Deliver(DeliverAll(e, os[..i]).end, os[i]))
  {
    hide Deliver, RxValid;
    assert os[..i + 1][..i] == os[..i];
  }

  lemma LogsJoin(wire: seq<Octet>, delivered: seq<Packet>, t: Trace, u: Trace, has: bool)
    ensures wire + EncodeAll(t.sent + u.sent) == wire + EncodeAll(t.sent) + EncodeAll(u.sent)
    ensures delivered + (if has then t.delivered + u.delivered else [])
         == delivered + (if has then t.delivered else []) + (if has then u.delivered else [])
  {
    hide EncodeAll;
    EncodeAllConcat(t.sent, u.sent);
  }

  /** At most one packet comes out of a frame, and it is the frame's payload. */
  lemma HandleFrameDelivers(s: Rx, p: Peer)
    requires RxValid(s)
    ensures var d := Framing.HandleFrame(s, p).delivered;
            d == [] || (CRC_SIZE <= |s.buf| && d == [s.buf[..|s.buf| - CRC_SIZE]])
  {
  }

  lemma HandleNakDelivers(p: Peer, s: Seq)
    ensures Protocol.HandleNak(p, s).delivered == []
  {
  }

  lemma HandleSynDelivers(p: Peer, s: Seq)
    ensures Protocol.HandleSyn(p, s).delivered == []
  {
  }

  lemma EncodeAllNone()
    ensures EncodeAll([]) == []
  {
  }

  lemma RtxNone(s: Seq)
    ensures EncodeAll(RtxFrames([], s)) == []
  {
  }

  lemma SeqAfter(s: Seq, i: nat)
    ensures NextSeq((s + i) % SEQ_RANGE) == (s + (i + 1)) % SEQ_RANGE
  {
  }

  lemma RtxSnoc(h: seq<Packet>, i: nat, s: Seq)
    requires i < |h|
    ensures EncodeAll(RtxFrames(h[..i + 1], s))
         == EncodeAll(RtxFrames(h[..i], s)) + Encode(Frame(Rtx, (s + i) % SEQ_RANGE, h[i]))
  {
    hide Encode;
    var fs := RtxFrames(h[..i + 1], s);
    assert fs[..|fs| - 1] == RtxFrames(h[..i], s);
  }

  lemma StuffOne(o: Octet)
    ensures Stuff([o]) == Escape(o)
  {
  }

  lemma {:induction false} StuffConcat(s: seq<Octet>, t: seq<Octet>)
    ensures Stuff(s + t) == Stuff(s) + Stuff(t)
  {
    hide Escape;
    if t == [] {
      assert s + t == s;
    } else {
      assert (s + t)[..|s + t| - 1] == s + t[..|t| - 1];
      StuffConcat(s, t[..|t| - 1]);
    }
  }

  /** A frame in the order in which the transmitter writes it. */
  lemma EncodedParts(header: Octet, payload: seq<Octet>)
    ensures var crc := Fold(Update(PRESET, header), payload);
            EncodeRaw(header, payload)
            == ([FLAG] + Escape(header)) + Stuff(payload) + (Stuff(Trailer(crc)) + [FLAG])
  {
    hide Update, Fold, Escape, Stuff, Trailer;
    var s := [header] + payload;
    StuffConcat([header], payload);
    StuffConcat(s, Trailer(Fold(PRESET, s)));
    StuffOne(header);
    FoldOne(PRESET, header);
    FoldConcat(PRESET, [header], payload);
  }

  lemma StuffPair(a: Octet, b: Octet)
    ensures Stuff([a, b]) == Escape(a) + Escape(b)
  {
    hide Escape;
    StuffOne(a);
    StuffOne(b);
    StuffConcat([a], [b]);
    assert [a] + [b] == [a, b];
  }
}
