/** What the retransmission history stands for, over every run of one peer. */
module History {
  import opened Octets
  import opened Frames
  import opened Protocol
  import opened Answers

  /** Everything that can happen to a peer. */
  datatype Event = Written(packet: Packet) | Received(frame: Frame) | ReceivedDamaged | Connecting

  function Happen(p: Peer, e: Event): Outcome {
    match e
    case Written(packet) => WritePacket(p, packet)
    case Received(f) => Handle(p, f)
    case ReceivedDamaged => HandleDamaged(p)
    case Connecting => Connect(p)
  }

  /** The retransmissions among fs, in order. */
  function Resent(fs: seq<Frame>): seq<Frame> {
    if fs == [] then []
    else Resent(fs[..|fs| - 1]) + (if fs[|fs| - 1].kind == Rtx then [fs[|fs| - 1]] else [])
  }

  /** The frame each history entry last went out in, told by the frames sent: a user frame is the
      newest entry, retransmissions renew every entry that is kept. */
  function Relabel(labels: seq<Frame>, o: Outcome, e: Event): seq<Frame> {
    if e.Written? && o.sent != [] then
      (if |labels| == HISTORY_CAPACITY then labels[1..] else labels) + [o.sent[|o.sent| - 1]]
    else if Resent(o.sent) != [] then Resent(o.sent)
    else if o.peer.history == [] then []
    else labels
  }

  predicate LabelsOk(p: Peer, labels: seq<Frame>) {
    && |labels| == |p.history| <= HISTORY_CAPACITY
    && forall i | 0 <= i < |labels| :: LabelAt(p, labels[i], i)
  }

  /** The frame carries entry i of the history, under the number got by counting back. */
  predicate LabelAt(p: Peer, f: Frame, i: nat)
    requires i < |p.history|
  {
    f.seqno == (p.txSeq - |p.history| + i) % SEQ_RANGE && f.payload == p.history[i]
  }

  lemma {:induction false} ResentOfRtx(h: seq<Packet>, s: Seq, prefix: seq<Frame>)
    requires forall f <- prefix :: f.kind != Rtx
    ensures Resent(prefix + RtxFrames(h, s)) == RtxFrames(h, s)
    decreases |h|, |prefix|
  {
    var fs := prefix + RtxFrames(h, s);
    if h != [] {
      var n := |h| - 1;
      assert fs[..|fs| - 1] == prefix + RtxFrames(h[..n], s);
      ResentOfRtx(h[..n], s, prefix);
    } else if prefix != [] {
      var m := |prefix| - 1;
      assert fs == prefix && fs[..m] == prefix[..m] + RtxFrames(h, s);
      ResentOfRtx(h, s, prefix[..m]);
    }
  }

  /** Apart from a write, an event leaves the transmitter as it was, resets it, or retransmits
      from some sequence number on, after at most one control frame. */
  datatype Effect = Untouched | Cleared | Again(from: Seq, first: seq<Frame>)

  predicate HasEffect(p: Peer, o: Outcome, x: Effect) {
    match x
    case Untouched =>
      o.peer.txSeq == p.txSeq && o.peer.history == p.history && Resent(o.sent) == []
    case Cleared =>
      o.peer.txSeq == 0 && o.peer.history == [] && Resent(o.sent) == []
    case Again(s, first) =>
      var r := TransmitHistoryFromSeq(p, s).peer;
      && o.peer.txSeq == r.txSeq && o.peer.history == r.history
      && o.sent == first + RtxFrames(r.history, s)
      && (forall f <- first :: f.kind != Rtx)
  }

  lemma ControlIsNotResent(k: FrameKind, s: Seq)
    requires k != Rtx
    ensures Resent([Control(k, s)]) == []
  {
  }

  lemma EstablishEffect(p: Peer, first: seq<Frame>) returns (x: Effect)
    requires first == [] || first == [Control(Syn, SEQ_SYN2)]
    ensures HasEffect(p, Establish(p).(sent := first + Establish(p).sent), x)
  {
    hide TransmitHistoryFromSeq, RtxFrames;
    if p.txSeq == 0 {
      x := Untouched;
      ControlIsNotResent(Syn, SEQ_SYN2);
      assert first + [] == first;
    } else {
      x := Again(0, first);
      ResentFrames(p, 0);
    }
  }

  lemma ResentFrames(p: Peer, s: Seq)
    ensures TransmitHistoryFromSeq(p, s).sent == RtxFrames(TransmitHistoryFromSeq(p, s).peer.history, s)
  {
  }

  lemma HandleEffect(p: Peer, f: Frame) returns (x: Effect)
    ensures HasEffect(p, Handle(p, f), x)
  {
    hide TransmitHistoryFromSeq, RtxFrames, Establish;
    x := Untouched;
    ControlIsNotResent(Nak, p.rxSeq);
    ControlIsNotResent(Syn, SEQ_SYN0);
    ControlIsNotResent(Syn, SEQ_SYN1);
    ControlIsNotResent(Syn, SEQ_SYN_DIS);
    if f.kind == Nak && p.conn == Connected && f.seqno != p.txSeq {
      x := Again(f.seqno, []);
      ResentFrames(p, f.seqno);
    } else if f.kind == Syn && f.seqno == SEQ_SYN0 {
      x := Cleared;
    } else if f.kind == Syn && f.seqno == SEQ_SYN1 && p.conn != Disconnected {
      x := EstablishEffect(p, [Control(Syn, SEQ_SYN2)]);
    } else if f.kind == Syn && f.seqno == SEQ_SYN2 && (p.conn == SentSyn1 || p.conn == Connected) {
      x := EstablishEffect(p, []);
      assert [] + Establish(p).sent == Establish(p).sent;
    }
  }

  lemma EffectKeepsLabels(p: Peer, o: Outcome, x: Effect, labels: seq<Frame>, e: Event)
    requires LabelsOk(p, labels) && HasEffect(p, o, x) && !e.Written?
    ensures LabelsOk(o.peer, Relabel(labels, o, e))
  {
    match x
    case Untouched =>
    case Cleared =>
    case Again(s, first) =>
      ResentFits(p, s);
      hide RtxFrames, TransmitHistoryFromSeq;
      ResentOfRtx(o.peer.history, s, first);
      hide Resent;
      LabelsOfRtx(o.peer, s);
  }

  lemma ResentFits(p: Peer, s: Seq)
    requires |p.history| <= HISTORY_CAPACITY
    ensures var r := TransmitHistoryFromSeq(p, s).peer;
            |r.history| <= HISTORY_CAPACITY && r.txSeq == (s + |r.history|) % SEQ_RANGE
  {
  }

  lemma LabelsOfRtx(p: Peer, s: Seq)
    requires |p.history| <= HISTORY_CAPACITY && p.txSeq == (s + |p.history|) % SEQ_RANGE
    ensures LabelsOk(p, RtxFrames(p.history, s))
  {
    var n := |p.history|;
    var labels := RtxFrames(p.history, s);
    forall i | 0 <= i < n ensures LabelAt(p, labels[i], i) {
      CountBack(s, n, i);
    }
    hide LabelAt;
  }

  lemma CountBack(s: Seq, n: nat, i: nat)
    requires i < n <= HISTORY_CAPACITY
    ensures ((s + n) % SEQ_RANGE - n + i) % SEQ_RANGE == (s + i) % SEQ_RANGE
  {
    assert (s + n) % SEQ_RANGE == if s + n < SEQ_RANGE then s + n else s + n - SEQ_RANGE;
  }

  lemma EventKeepsLabels(p: Peer, e: Event, labels: seq<Frame>)
    requires LabelsOk(p, labels)
    ensures LabelsOk(Happen(p, e).peer, Relabel(labels, Happen(p, e), e))
  {
    match e
    case Written(packet) => hide Resent;
    case Received(f) =>
      hide Handle, Resent, LabelsOk, Relabel, HasEffect;
      var x := HandleEffect(p, f);
      EffectKeepsLabels(p, Handle(p, f), x, labels, e);
    case ReceivedDamaged =>
      ControlIsNotResent(Nak, p.rxSeq);
      EffectKeepsLabels(p, HandleDamaged(p), Untouched, labels, e);
    case Connecting =>
      ControlIsNotResent(Syn, SEQ_SYN0);
      EffectKeepsLabels(p, Connect(p), Cleared, labels, e);
  }

  datatype Labelled = Labelled(peer: Peer, labels: seq<Frame>)

  function After(events: seq<Event>): Labelled {
    if events == [] then Labelled(INITIAL, [])
    else
      var before, e := After(events[..|events| - 1]), events[|events| - 1];
      var o := Happen(before.peer, e);
      Labelled(o.peer, Relabel(before.labels, o, e))
  }

  /** At every moment of every run, also after resynchronising and after wrapping, the frame that
      entry i of the history last went out in carried that packet, under the sequence number that
      counting back from the next one gives. That is the number a NAK names it by. */
  lemma {:induction false} HistoryIsNumbered(events: seq<Event>)
    ensures LabelsOk(After(events).peer, After(events).labels)
  {
    hide Happen, Relabel, LabelsOk;
    if events == [] {
      NothingLabelled();
    } else {
      var before := After(events[..|events| - 1]);
      HistoryIsNumbered(events[..|events| - 1]);
      EventKeepsLabels(before.peer, events[|events| - 1], before.labels);
    }
  }

  lemma NothingLabelled()
    ensures LabelsOk(INITIAL, [])
  {
  }

  // ---------- packets written before the connection stands ----------

  /** What may happen before the connection stands: packets written, and anything received but a
      SYN frame; with the connection standing, only packets written. */
  predicate Early(p: Peer, e: Event) {
    e.Written? || (p.conn != Connected && (e.ReceivedDamaged? || (e.Received? && e.frame.kind != Syn)))
  }

  function AfterAll(p: Peer, events: seq<Event>): Peer {
    if events == [] then p else Happen(AfterAll(p, events[..|events| - 1]), events[|events| - 1]).peer
  }

  /** The packets written among the events, in order. */
  function Packets(events: seq<Event>): seq<Packet> {
    if events == [] then []
    else
      var e := events[|events| - 1];
      Packets(events[..|events| - 1]) + if e.Written? then [e.packet] else []
  }

  /** A transmitter that has written exactly ps, of which the history holds the last. */
  predicate HasWritten(p: Peer, ps: seq<Packet>) {
    && p.txSeq == |ps| % SEQ_RANGE
    && p.history == if |ps| <= HISTORY_CAPACITY then ps else ps[|ps| - HISTORY_CAPACITY..]
  }

  lemma WriteAppends(p: Peer, ps: seq<Packet>, packet: Packet)
    requires HasWritten(p, ps)
    ensures HasWritten(WritePacket(p, packet).peer, ps + [packet])
  {
  }

  /** An early event writes its packet or leaves the peer as it was. */
  lemma EarlyEffect(p: Peer, e: Event)
    requires Early(p, e)
    ensures var q := Happen(p, e).peer;
            q == (if e.Written? then WritePacket(p, e.packet).peer else p) && q.conn == p.conn
  {
  }

  lemma {:induction false} EarlyEventsKeepLast(p: Peer, events: seq<Event>)
    requires p.txSeq == 0 && p.history == [] && forall e <- events :: Early(p, e)
    ensures HasWritten(AfterAll(p, events), Packets(events))
    ensures AfterAll(p, events).conn == p.conn
  {
    hide HasWritten, WritePacket, Happen;
    if events == [] {
      NothingWritten(p);
    } else {
      var n := |events| - 1;
      var e, ps := events[n], Packets(events[..n]);
      EarlyEventsKeepLast(p, events[..n]);
      var q := AfterAll(p, events[..n]);
      assert Early(p, e) && q.conn == p.conn;
      EarlyEffect(q, e);
      if e.Written? {
        WriteAppends(q, ps, e.packet);
      } else {
        assert ps + [] == ps;
      }
    }
  }

  lemma NothingWritten(p: Peer)
    requires p.txSeq == 0 && p.history == []
    ensures HasWritten(p, [])
  {
  }

  lemma EstablishResends(p: Peer, ps: seq<Packet>)
    requires HasWritten(p, ps)
    ensures Establish(p).peer.conn == Connected
    ensures Establish(p).sent == RtxFrames(ps, 0) <==> |ps| <= HISTORY_CAPACITY
    ensures |ps| <= HISTORY_CAPACITY ==> HasWritten(Establish(p).peer, ps)
  {
  }

  /** How many packets go out again after n were written: all of up to eight, and after that the
      last eight, or as few as the next number counts beyond a multiple of 64. */
  function StillKept(n: nat): nat {
    if n % SEQ_RANGE < HISTORY_CAPACITY then n % SEQ_RANGE else HISTORY_CAPACITY
  }

  lemma EstablishSendsLast(p: Peer, ps: seq<Packet>)
    requires HasWritten(p, ps)
    ensures StillKept(|ps|) <= |ps|
    ensures var o, last := Establish(p), ps[|ps| - StillKept(|ps|)..];
            && o.sent == RtxFrames(last, 0)
            && (|ps| % SEQ_RANGE != 0 ==> o.peer.txSeq == |last| && o.peer.history == last)
            && (|ps| % SEQ_RANGE == 0 ==> o.peer == p.(conn := Connected))
  {
    var n, t := |ps|, |ps| % SEQ_RANGE;
    if t == 0 {
      assert ps[n..] == [];
    } else {
      var h := p.history;
      var ff := FastForward(p, 0);
      EarlyForward(p, ps);
      assert (if ff < |h| then h[ff..] else h) == ps[n - StillKept(n)..];
      assert TransmitHistoryFromSeq(p, 0).peer.conn == p.conn;
      hide RtxFrames, FastForward;
    }
  }

  lemma EarlyForward(p: Peer, ps: seq<Packet>)
    requires HasWritten(p, ps) && |ps| % SEQ_RANGE != 0
    ensures var t := |ps| % SEQ_RANGE;
            FastForward(p, 0) == if |ps| <= 8 then 0 else if t <= 8 then 8 - t else 72 - t
  {
    ForwardPastEarly(|ps| % SEQ_RANGE);
  }

  lemma ForwardPastEarly(t: nat)
    requires 0 < t < SEQ_RANGE
    ensures (HISTORY_CAPACITY - t) % SEQ_RANGE == if t <= 8 then 8 - t else 72 - t
  {
  }

  /** When a SYN1 or SYN2 completes the handshake, what was written since the last reset goes out
      again, all of it, in order and numbered from zero, if and only if it was at most as many
      packets as the history holds; user frames, NAKs and damaged frames received meanwhile make
      no difference. In any case StillKept says how many of the last packets go out. */
  lemma EarlyWritesResent(p: Peer, events: seq<Event>, syn: Seq)
    requires p.txSeq == 0 && p.history == [] && forall e <- events :: Early(p, e)
    requires syn == SEQ_SYN1 || syn == SEQ_SYN2
    requires p.conn == SentSyn1 || p.conn == Connected || (p.conn == SentSyn0 && syn == SEQ_SYN1)
    ensures var ps := Packets(events);
            var o := Handle(AfterAll(p, events), Control(Syn, syn));
            && o.peer.conn == Connected
            && (o.sent == (if syn == SEQ_SYN1 then [Control(Syn, SEQ_SYN2)] else []) + RtxFrames(ps, 0)
                <==> |ps| <= HISTORY_CAPACITY)
            && (|ps| <= HISTORY_CAPACITY ==> HasWritten(o.peer, ps))
            && StillKept(|ps|) <= |ps|
            && var first, last := if syn == SEQ_SYN1 then 1 else 0, ps[|ps| - StillKept(|ps|)..];
               && |o.sent| == first + |last| && Carries(o.sent[first..], last, 0)
               && (|ps| % SEQ_RANGE != 0 ==> o.peer.txSeq == |last| && o.peer.history == last)
  {
    EarlyEventsKeepLast(p, events);
    var q, ps := AfterAll(p, events), Packets(events);
    EstablishResends(q, ps);
    EstablishSendsLast(q, ps);
    RtxCarries(ps[|ps| - StillKept(|ps|)..], 0);
    hide Establish, RtxFrames, AfterAll, Packets, HasWritten;
    var first := if syn == SEQ_SYN1 then [Control(Syn, SEQ_SYN2)] else [];
    assert Handle(q, Control(Syn, syn)).sent == first + Establish(q).sent;
    assert (first + Establish(q).sent)[|first|..] == Establish(q).sent;
    assert (first + RtxFrames(ps, 0))[|first|..] == RtxFrames(ps, 0);
  }
}
