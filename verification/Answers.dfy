/** What a peer answers, in the numbers and packets of the frames themselves. */
module Answers {
  import opened Octets
  import opened Frames
  import opened Protocol

  /** The frames fs carry the packets h in order, as retransmissions numbered from s on. */
  predicate Carries(fs: seq<Frame>, h: seq<Packet>, s: Seq) {
    && |fs| == |h|
    && forall i | 0 <= i < |h| :: fs[i] == Frame(Rtx, (s + i) % 64, h[i])
  }

  /** Counting back from the next number, entry k of the history bears s. */
  predicate Bears(p: Peer, k: nat, s: Seq)
    requires k < |p.history|
  {
    s == (p.txSeq - |p.history| + k) % 64
  }

  /** From p to q only the transmitter has changed: to send again from number s on. If an entry of
      the history bears that number, what comes before it is forgotten and the numbering goes on as
      before. If none does, all that is there is sent under the numbers from s on, and the
      numbering goes on from there. */
  predicate SendsAgain(p: Peer, s: Seq, q: Peer, fs: seq<Frame>) {
    && Carries(fs, q.history, s)
    && (forall k | 0 <= k < |p.history| && Bears(p, k, s) :: q == p.(history := p.history[k..]))
    && ((forall k | 0 <= k < |p.history| :: !Bears(p, k, s)) ==>
          q == p.(txSeq := (s + |p.history|) % 64))
  }

  lemma ForwardIsIndex(p: Peer, k: nat, s: Seq)
    requires |p.history| <= HISTORY_CAPACITY && k < |p.history|
    ensures Bears(p, k, s) <==> FastForward(p, s) == k
  {
  }

  lemma NotAnIndex(p: Peer, s: Seq)
    requires |p.history| <= HISTORY_CAPACITY && forall k | 0 <= k < |p.history| :: !Bears(p, k, s)
    ensures |p.history| <= FastForward(p, s)
  {
    if FastForward(p, s) < |p.history| {
      ForwardIsIndex(p, FastForward(p, s), s);
    }
  }

  lemma NumberStays(p: Peer, k: nat, s: Seq)
    requires k < |p.history| <= HISTORY_CAPACITY && Bears(p, k, s)
    ensures (s + (|p.history| - k)) % 64 == p.txSeq
  {
  }

  lemma RtxCarries(h: seq<Packet>, s: Seq)
    ensures Carries(RtxFrames(h, s), h, s)
  {
  }

  lemma SentAgain(p: Peer, s: Seq)
    requires |p.history| <= HISTORY_CAPACITY
    ensures var o := TransmitHistoryFromSeq(p, s);
            o.delivered == [] && o.sent == RtxFrames(o.peer.history, s) && SendsAgain(p, s, o.peer, o.sent)
  {
    var o := TransmitHistoryFromSeq(p, s);
    RtxCarries(o.peer.history, s);
    hide Bears, RtxFrames, Carries;
    forall k | 0 <= k < |p.history| && Bears(p, k, s) ensures o.peer == p.(history := p.history[k..]) {
      ForwardIsIndex(p, k, s);
      NumberStays(p, k, s);
    }
    if forall k | 0 <= k < |p.history| :: !Bears(p, k, s) {
      var ff := FastForward(p, s);
      assert |p.history| <= ff by { NotAnIndex(p, s); }
    }
  }

  /** A NAK for any number but the next makes a connected peer send again from that number on; one
      for the next number changes nothing. */
  lemma NakAnswered(p: Peer, s: Seq)
    requires p.conn == Connected && |p.history| <= HISTORY_CAPACITY
    ensures var o := Arrive(p, Frame(Nak, s, []));
            && o.delivered == []
            && (s != p.txSeq ==> SendsAgain(p, s, o.peer, o.sent))
            && (s == p.txSeq ==> o.peer == p && o.sent == [])
  {
    SentAgain(p, s);
    hide TransmitHistoryFromSeq, SendsAgain;
  }

  /** Outside a connection any frame but a SYN draws DIS, SYN0 or SYN1, and changes nothing. */
  lemma RefusalAnswered(p: Peer, f: Frame)
    requires p.conn != Connected && f.kind != Syn && |f.payload| <= 254
    ensures var n := if p.conn == Disconnected then 3 else if p.conn == SentSyn0 then 0 else 1;
            Arrive(p, f) == Outcome(p, [Frame(Syn, n, [])], [])
  {
  }

  /** In a connection the packet with the expected number is delivered; for any other a user frame
      draws a NAK for the expected one, and a retransmission nothing. */
  lemma DataAnswered(p: Peer, f: Frame)
    requires p.conn == Connected && (f.kind == Usr || f.kind == Rtx) && |f.payload| <= 254
    ensures Arrive(p, f)
         == if f.seqno == p.rxSeq then Outcome(p.(rxSeq := (p.rxSeq + 1) % 64), [], [f.payload])
            else Outcome(p, if f.kind == Usr then [Frame(Nak, p.rxSeq, [])] else [], [])
  {
  }

  /** SYN0 makes a peer forget everything; SYN1 and SYN2 make one that is not disconnected send
      again what it wrote since, from zero on, with SYN2 before it in answer to SYN1; DIS ends the
      connection, and any other number is ignored. */
  lemma SynAnswered(p: Peer, s: Seq)
    requires |p.history| <= HISTORY_CAPACITY
    ensures var o := Arrive(p, Frame(Syn, s, []));
            var again := if s == 1 then [Frame(Syn, 2, [])] else [];
            && o.delivered == []
            && (s == 0 ==> o.peer == Peer(SentSyn1, 0, [], 0) && o.sent == [Frame(Syn, 1, [])])
            && ((s == 1 || s == 2) && p.conn == Disconnected ==> o.peer == p && o.sent == [Frame(Syn, 3, [])])
            && (s == 2 && p.conn == SentSyn0 ==> o.peer == p && o.sent == [Frame(Syn, 0, [])])
            && ((s == 1 && p.conn != Disconnected) || (s == 2 && (p.conn == SentSyn1 || p.conn == Connected)) ==>
                  && o.peer.conn == Connected
                  && again <= o.sent
                  && (if p.txSeq == 0 then o.sent == again && o.peer == p.(conn := Connected)
                      else SendsAgain(p, 0, o.peer.(conn := p.conn), o.sent[|again|..])))
            && (s == 3 ==> o.peer == p.(conn := Disconnected) && o.sent == [])
            && (s > 3 ==> o.peer == p && o.sent == [])
  {
    SentAgain(p, 0);
    hide TransmitHistoryFromSeq, SendsAgain;
    assert [] + Establish(p).sent == Establish(p).sent;
    assert ([Frame(Syn, 2, [])] + Establish(p).sent)[1..] == Establish(p).sent;
  }

  /** A frame too short or with a bad check sequence draws a NAK for the expected packet. */
  lemma DamageAnswered(p: Peer)
    ensures HandleDamaged(p) == Outcome(p, [Frame(Nak, p.rxSeq, [])], [])
  {
  }

  /** A packet written goes out under the next number, and its place in a full history is that of
      the oldest one. */
  lemma WriteAnswered(p: Peer, packet: Packet)
    requires |p.history| <= 8
    ensures var o := WritePacket(p, packet);
            && o.sent == [Frame(Usr, p.txSeq, packet)] && o.delivered == []
            && o.peer == p.(txSeq := (p.txSeq + 1) % 64, history := o.peer.history)
            && o.peer.history == (if |p.history| < 8 then p.history else p.history[1..]) + [packet]
  {
  }

  /** sfpConnect in any state. */
  lemma ConnectAnswered(p: Peer)
    ensures Connect(p) == Outcome(Peer(SentSyn0, 0, [], 0), [Frame(Syn, 0, [])], [])
  {
  }
}
