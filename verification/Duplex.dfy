/** Two peers joined by two first-in first-out channels that may lose or damage frames. */
module Duplex {
  import opened Octets
  import opened Frames
  import opened Protocol

  /** A frame under way. The index is bookkeeping that no step reads: which packet a data frame
      carries, counted from the first ever written, or the packet a NAK asks for. */
  datatype Signal = Intact(frame: Frame, index: int) | Damaged

  /** A peer with everything its user ever wrote to it and got delivered from it. */
  datatype End = End(peer: Peer, written: seq<Packet>, delivered: seq<Packet>)

  datatype Link = Link(a: End, b: End, ab: seq<Signal>, ba: seq<Signal>)

  function Swap(l: Link): Link {
    Link(l.b, l.a, l.ba, l.ab)
  }

  predicate IsData(s: Signal) {
    s.Intact? && (s.frame.kind == Usr || s.frame.kind == Rtx)
  }

  predicate IsNak(s: Signal) {
    s.Intact? && s.frame.kind == Nak
  }

  /** The frames an end has just sent: a NAK asks for the next packet to be delivered; data
      frames carry the last packets written, in order. */
  function Tag(e: End, fs: seq<Frame>): (q: seq<Signal>)
    ensures |q| == |fs|
  {
    seq(|fs|, i requires 0 <= i < |fs| =>
      Intact(fs[i], if fs[i].kind == Nak then |e.delivered| else |e.written| - |fs| + i))
  }

  /** Steps of end a. Loss, damage and noise strike the line from a: noise puts in what the
      receiver takes for one more frame, as when a bit error splits a frame in two. */
  datatype Step = Write(packet: Packet) | Receive | Lose(at: nat) | Damage(at: nat) | Noise(at: nat)

  predicate Enabled(l: Link, step: Step) {
    match step
    case Write(_) => true
    case Receive => l.ba != []
    case Lose(i) => i < |l.ab|
    case Damage(i) => i < |l.ab|
    case Noise(i) => i <= |l.ab|
  }

  function Take(p: Peer, s: Signal): Outcome {
    if s.Intact? then Arrive(p, s.frame) else HandleDamaged(p)
  }

  function Next(l: Link, step: Step): Link
    requires Enabled(l, step)
  {
    match step
    case Write(packet) =>
      var o := WritePacket(l.a.peer, packet);
      var a := End(o.peer, l.a.written + [packet], l.a.delivered);
      l.(a := a, ab := l.ab + Tag(a, o.sent))
    case Receive =>
      var o := Take(l.a.peer, l.ba[0]);
      var a := End(o.peer, l.a.written, l.a.delivered + o.delivered);
      Link(a, l.b, l.ab + Tag(a, o.sent), l.ba[1..])
    case Lose(i) => l.(ab := l.ab[..i] + l.ab[i + 1..])
    case Damage(i) => l.(ab := l.ab[i := Damaged])
    case Noise(i) => l.(ab := l.ab[..i] + [Damaged] + l.ab[i..])
  }

  function WithoutIndex(s: Signal): Signal {
    if s.Intact? then Intact(s.frame, 0) else s
  }

  function Bare(q: seq<Signal>): (r: seq<Signal>)
    ensures |r| == |q|
  {
    seq(|q|, i requires 0 <= i < |q| => WithoutIndex(q[i]))
  }

  lemma BareParts(q: seq<Signal>, t: seq<Signal>, i: nat)
    requires Bare(q) == Bare(t)
    ensures |q| == |t|
    ensures i < |q| ==> WithoutIndex(q[i]) == WithoutIndex(t[i])
    ensures i <= |q| ==> Bare(q[..i]) == Bare(t[..i]) && Bare(q[i..]) == Bare(t[i..])
  {
    assert |q| == |Bare(q)| && |t| == |Bare(t)|;
    forall j | 0 <= j < |q| ensures WithoutIndex(q[j]) == WithoutIndex(t[j]) {
      assert Bare(q)[j] == Bare(t)[j];
    }
  }

  lemma BareConcat(q: seq<Signal>, t: seq<Signal>)
    ensures Bare(q + t) == Bare(q) + Bare(t)
  {
  }

  lemma BareStruck(q: seq<Signal>, i: nat)
    ensures i < |q| ==> Bare(q[..i] + q[i + 1..]) == Bare(q)[..i] + Bare(q)[i + 1..]
    ensures i < |q| ==> Bare(q[i := Damaged]) == Bare(q)[i := Damaged]
    ensures i <= |q| ==> Bare(q[..i] + [Damaged] + q[i..]) == Bare(q)[..i] + [Damaged] + Bare(q)[i..]
  {
  }

  /** The indices are bookkeeping: links that differ in them only take the same steps, to links
      that differ in them only. */
  lemma StepsIgnoreIndices(l: Link, m: Link, step: Step)
    requires l.a == m.a && l.b == m.b && Bare(l.ab) == Bare(m.ab) && Bare(l.ba) == Bare(m.ba)
    ensures Enabled(l, step) == Enabled(m, step)
    ensures Enabled(l, step) ==>
              var x, y := Next(l, step), Next(m, step);
              x.a == y.a && x.b == y.b && Bare(x.ab) == Bare(y.ab) && Bare(x.ba) == Bare(y.ba)
  {
    hide Arrive, WritePacket, HandleDamaged, Bare, Tag;
    BareParts(l.ab, m.ab, 0);
    BareParts(l.ba, m.ba, 0);
    match step
    case Write(packet) =>
      BareConcat(l.ab, Next(l, step).ab[|l.ab|..]);
      BareConcat(m.ab, Next(m, step).ab[|m.ab|..]);
    case Receive =>
      if l.ba != [] {
        BareParts(l.ba, m.ba, 1);
        assert Take(l.a.peer, l.ba[0]) == Take(m.a.peer, m.ba[0]);
        var sent := Tag(Next(l, Receive).a, Take(l.a.peer, l.ba[0]).sent);
        BareConcat(l.ab, sent);
        BareConcat(m.ab, sent);
      }
    case _ =>
      if Enabled(l, step) {
        BareStruck(l.ab, step.at);
        BareStruck(m.ab, step.at);
      }
  }

  // ---------- what can be delivered ----------

  predicate AllFit(ps: seq<Packet>) {
    forall i | 0 <= i < |ps| :: Fits(ps[i])
  }

  /** What a receiver can get of the packets ps in order: those before the first that is too long. */
  function Deliverable(ps: seq<Packet>): (r: seq<Packet>)
    ensures r <= ps && AllFit(r)
    ensures |r| < |ps| ==> !Fits(ps[|r|])
  {
    if ps == [] || !Fits(ps[0]) then [] else [ps[0]] + Deliverable(ps[1..])
  }

  /** That is the longest such part, and it only grows when more packets are written. */
  lemma DeliverableIsLongest(ps: seq<Packet>, qs: seq<Packet>)
    requires ps <= qs
    ensures AllFit(ps) ==> ps <= Deliverable(qs)
    ensures Deliverable(ps) <= Deliverable(qs)
    ensures Deliverable(ps) == ps <==> AllFit(ps)
  {
    var d, e := Deliverable(ps), Deliverable(qs);
    assert forall i | 0 <= i < |d| :: d[i] == qs[i] && Fits(qs[i]);
    assert AllFit(ps) ==> forall i | 0 <= i < |ps| :: ps[i] == qs[i] && Fits(qs[i]);
  }

  // ---------- the invariant ----------

  /** What is known of a data frame under way to an end that has delivered r packets. */
  predicate DataAt(s: Signal, written: seq<Packet>, r: int)
    requires IsData(s)
  {
    && 0 <= s.index < |written|
    && s.frame.seqno == s.index % SEQ_RANGE
    && s.frame.payload == written[s.index]
    && r <= s.index + HISTORY_CAPACITY
  }

  predicate DataOk(q: seq<Signal>, written: seq<Packet>, r: int) {
    && (forall i | 0 <= i < |q| && IsData(q[i]) :: DataAt(q[i], written, r))
    && (forall i, j | 0 <= i < j < |q| && IsData(q[i]) && IsData(q[j]) ::
          q[i].index < q[j].index + HISTORY_CAPACITY)
  }

  predicate NakAt(s: Signal, lo: int, hi: int)
    requires IsNak(s)
  {
    lo <= s.index <= hi && s.frame == Control(Nak, s.index % SEQ_RANGE)
  }

  predicate NaksOk(q: seq<Signal>, lo: int, hi: int) {
    && (forall i | 0 <= i < |q| && IsNak(q[i]) :: NakAt(q[i], lo, hi))
    && (forall i, j | 0 <= i < j < |q| && IsNak(q[i]) && IsNak(q[j]) :: q[i].index <= q[j].index)
  }

  /** The index of the oldest packet in an end's history. */
  function Base(e: End): int {
    |e.written| - |e.peer.history|
  }

  predicate SenderOk(e: End) {
    && |e.peer.history| <= HISTORY_CAPACITY
    && 0 <= Base(e)
    && e.peer.history == e.written[Base(e)..]
    && e.peer.txSeq == |e.written| % SEQ_RANGE
  }

  /** The receiver has the first packets written, in order, and none missing or too long. */
  predicate ReceiverOk(e: End, written: seq<Packet>) {
    && e.delivered <= written && AllFit(e.delivered)
    && e.peer.rxSeq == |e.delivered| % SEQ_RANGE
  }

  /** The flow of packets from a to b. */
  predicate FlowOk(l: Link) {
    && SenderOk(l.a)
    && ReceiverOk(l.b, l.a.written)
    && Base(l.a) <= |l.b.delivered|
    && DataOk(l.ab, l.a.written, |l.b.delivered|)
    && NaksOk(l.ba, Base(l.a), |l.b.delivered|)
  }

  predicate NoSyn(q: seq<Signal>) {
    forall i | 0 <= i < |q| && q[i].Intact? :: q[i].frame.kind != Syn
  }

  predicate Good(l: Link) {
    && l.a.peer.conn == Connected && l.b.peer.conn == Connected
    && NoSyn(l.ab) && NoSyn(l.ba)
    && FlowOk(l) && FlowOk(Swap(l))
  }

  /** End a may write: the packet its history would give up has been delivered, and no NAK on
      the way asks for it. */
  predicate MayWrite(l: Link) {
    || |l.a.peer.history| < HISTORY_CAPACITY
    || (&& Base(l.a) < |l.b.delivered|
        && (forall i | 0 <= i < |l.ba| && IsNak(l.ba[i]) :: Base(l.a) < l.ba[i].index))
  }

  predicate Allowed(l: Link, step: Step) {
    Enabled(l, step) && (step.Write? ==> MayWrite(l))
  }

  // ---------- channels ----------

  lemma DataAppendOthers(q: seq<Signal>, t: seq<Signal>, written: seq<Packet>, r: int)
    requires DataOk(q, written, r)
    requires forall i | 0 <= i < |t| :: !IsData(t[i])
    ensures DataOk(q + t, written, r)
  {
  }

  lemma NaksAppendOthers(q: seq<Signal>, t: seq<Signal>, lo: int, hi: int)
    requires NaksOk(q, lo, hi)
    requires forall i | 0 <= i < |t| :: !IsNak(t[i])
    ensures NaksOk(q + t, lo, hi)
  {
  }

  /** New data frames carry packets the history holds, so they fit the window. */
  lemma DataAppend(q: seq<Signal>, t: seq<Signal>, written: seq<Packet>, more: seq<Packet>, r: int, base: int)
    requires DataOk(q, written, r) && written <= more
    requires r <= |more| <= base + HISTORY_CAPACITY
    requires forall i | 0 <= i < |t| :: IsData(t[i]) && base <= t[i].index && DataAt(t[i], more, r)
    requires forall i, j | 0 <= i < j < |t| && IsData(t[i]) && IsData(t[j]) :: t[i].index < t[j].index
    ensures DataOk(q + t, more, r)
  {
  }

  lemma NaksAppend(q: seq<Signal>, s: Signal, lo: int, hi: int)
    requires NaksOk(q, lo, hi) && lo <= hi
    requires IsNak(s) && s.index == hi && s.frame == Control(Nak, hi % SEQ_RANGE)
    ensures NaksOk(q + [s], lo, hi)
  {
  }

  lemma DataRest(q: seq<Signal>, written: seq<Packet>, r: int)
    requires q != [] && DataOk(q, written, r)
    ensures DataOk(q[1..], written, r)
    ensures IsData(q[0]) ==> DataOk(q[1..], written, q[0].index + 1)
  {
  }

  lemma NaksRest(q: seq<Signal>, lo: int, hi: int)
    requires q != [] && NaksOk(q, lo, hi)
    ensures NaksOk(q[1..], if IsNak(q[0]) then q[0].index else lo, hi)
  {
  }

  lemma DataLost(q: seq<Signal>, i: nat, written: seq<Packet>, r: int)
    requires i < |q| && DataOk(q, written, r)
    ensures DataOk(q[..i] + q[i + 1..], written, r)
    ensures DataOk(q[i := Damaged], written, r)
  {
  }

  lemma DataNoise(q: seq<Signal>, i: nat, written: seq<Packet>, r: int)
    requires i <= |q| && DataOk(q, written, r)
    ensures DataOk(q[..i] + [Damaged] + q[i..], written, r)
  {
  }

  lemma NaksNoise(q: seq<Signal>, i: nat, lo: int, hi: int)
    requires i <= |q| && NaksOk(q, lo, hi)
    ensures NaksOk(q[..i] + [Damaged] + q[i..], lo, hi)
  {
  }

  lemma NaksLost(q: seq<Signal>, i: nat, lo: int, hi: int)
    requires i < |q| && NaksOk(q, lo, hi)
    ensures NaksOk(q[..i] + q[i + 1..], lo, hi)
    ensures NaksOk(q[i := Damaged], lo, hi)
  {
  }

  // ---------- steps of end a ----------

  /** What a write does to its end, and the one frame it sends. */
  lemma WriteSends(l: Link, packet: Packet)
    requires SenderOk(l.a)
    ensures var m := Next(l, Write(packet));
            var n := |l.a.written|;
            && SenderOk(m.a) && m.b == l.b && m.ba == l.ba
            && m.a.written == l.a.written + [packet] && m.a.delivered == l.a.delivered
            && m.a.peer.conn == l.a.peer.conn && m.a.peer.rxSeq == l.a.peer.rxSeq
            && Base(m.a) == (if |l.a.peer.history| == HISTORY_CAPACITY then Base(l.a) + 1 else Base(l.a))
            && m.ab == l.ab + [Intact(Frame(Usr, n % SEQ_RANGE, packet), n)]
  {
    SenderWrites(l.a, packet);
    hide SenderOk, Base;
  }

  lemma SenderWrites(e: End, packet: Packet)
    requires SenderOk(e)
    ensures var a := End(WritePacket(e.peer, packet).peer, e.written + [packet], e.delivered);
            && SenderOk(a)
            && Base(a) == (if |e.peer.history| == HISTORY_CAPACITY then Base(e) + 1 else Base(e))
            && WritePacket(e.peer, packet).sent == [Frame(Usr, |e.written| % SEQ_RANGE, packet)]
  {
    var h, n := e.peer.history, |e.written|;
    assert (n % SEQ_RANGE + 1) % SEQ_RANGE == (n + 1) % SEQ_RANGE;
    assert PushHistory(h, packet)
        == (e.written + [packet])[(if |h| == HISTORY_CAPACITY then Base(e) + 1 else Base(e))..];
  }

  lemma WriteKeepsGood(l: Link, packet: Packet)
    requires Good(l) && MayWrite(l)
    ensures Good(Next(l, Write(packet)))
  {
    WriteSends(l, packet);
    hide Next, SenderOk;
    var m := Next(l, Write(packet));
    var n := |l.a.written|;
    var t := [Intact(Frame(Usr, n % SEQ_RANGE, packet), n)];
    assert Base(m.a) + |m.a.peer.history| == n + 1;
    assert |m.a.peer.history| <= HISTORY_CAPACITY by { assert SenderOk(m.a); SenderFits(m.a); }
    DataAppend(l.ab, t, l.a.written, m.a.written, |l.b.delivered|, Base(m.a));
    NaksAfterWrite(l, Base(m.a));
    NaksAppendOthers(l.ab, t, Base(l.b), |l.a.delivered|);
  }

  lemma SenderFits(e: End)
    requires SenderOk(e)
    ensures |e.peer.history| <= HISTORY_CAPACITY
  {
  }

  /** Inside the window a write leaves every packet asked for in the history. */
  lemma NaksAfterWrite(l: Link, base: int)
    requires NaksOk(l.ba, Base(l.a), |l.b.delivered|) && MayWrite(l)
    requires base == if |l.a.peer.history| == HISTORY_CAPACITY then Base(l.a) + 1 else Base(l.a)
    requires |l.a.peer.history| <= HISTORY_CAPACITY
    ensures NaksOk(l.ba, base, |l.b.delivered|)
  {
  }

  /** In a good link a frame's sequence number, though it wraps, tells whether its packet is the
      next one to deliver. */
  lemma SeqUnambiguous(n: int, r: int)
    requires -HISTORY_CAPACITY <= n - r <= HISTORY_CAPACITY
    ensures n % SEQ_RANGE == r % SEQ_RANGE <==> n == r
  {
  }

  /** A data frame that draws a NAK if it is not delivered. */
  predicate DrawsNak(s: Signal)
    requires IsData(s)
  {
    if Fits(s.frame.payload) then s.frame.kind == Usr else |s.frame.payload| == MAX_PACKET_SIZE
  }

  function Asking(r: nat): Signal {
    Intact(Control(Nak, r % SEQ_RANGE), r)
  }

  /** A data frame is delivered exactly when it carries the next packet and the receiver can take
      it. A NAK for that packet answers a user frame with another one, and any frame two octets
      too long. */
  lemma TakeData(l: Link)
    requires FlowOk(Swap(l)) && l.a.peer.conn == Connected && l.ba != [] && IsData(l.ba[0])
    ensures var m := Next(l, Receive);
            var s, r := l.ba[0], |l.a.delivered|;
            && m.ba == l.ba[1..] && m.b == l.b && m.a.written == l.a.written
            && m.a.peer == l.a.peer.(rxSeq := |m.a.delivered| % SEQ_RANGE)
            && if s.index == r && Fits(s.frame.payload) then
                 m.a.delivered == l.a.delivered + [l.b.written[r]] && m.ab == l.ab
               else
                 m.a.delivered == l.a.delivered && m.ab == l.ab + if DrawsNak(s) then [Asking(r)] else []
  {
    var s, r := l.ba[0], |l.a.delivered|;
    assert DataAt(s, l.b.written, r) by { FirstData(l.ba, l.b.written, r); }
    SeqUnambiguous(s.index, r);
    assert l.a.peer.rxSeq == r % SEQ_RANGE;
    DataTaken(l.a.peer, s, r);
    hide FlowOk, DataAt, Take;
  }

  lemma DataTaken(p: Peer, s: Signal, r: nat)
    requires p.conn == Connected && IsData(s) && p.rxSeq == r % SEQ_RANGE
    ensures Take(p, s)
         == if s.frame.seqno == r % SEQ_RANGE && Fits(s.frame.payload) then
              Outcome(p.(rxSeq := (r + 1) % SEQ_RANGE), [], [s.frame.payload])
            else if DrawsNak(s) then Reply(p, Nak, r % SEQ_RANGE)
            else Outcome(p, [], [])
  {
  }

  lemma FirstData(q: seq<Signal>, written: seq<Packet>, r: int)
    requires DataOk(q, written, r) && q != [] && IsData(q[0])
    ensures DataAt(q[0], written, r)
  {
  }

  lemma ReceiveDataKeepsOut(l: Link)
    requires Good(l) && l.ba != [] && IsData(l.ba[0])
    ensures FlowOk(Next(l, Receive))
  {
    TakeData(l);
    hide Next;
    var m := Next(l, Receive);
    NaksRest(l.ba, Base(l.a), |l.b.delivered|);
    var t := m.ab[|l.ab|..];
    assert m.ab == l.ab + t;
    DataAppendOthers(l.ab, t, l.a.written, |l.b.delivered|);
    assert SenderOk(m.a);
  }

  lemma ReceiveDataKeepsIn(l: Link)
    requires Good(l) && l.ba != [] && IsData(l.ba[0])
    ensures FlowOk(Swap(Next(l, Receive)))
  {
    TakeData(l);
    var s, r := l.ba[0], |l.a.delivered|;
    assert DataAt(s, l.b.written, r);
    hide Next;
    var m := Next(l, Receive);
    DataRest(l.ba, l.b.written, r);
    if s.index == r && Fits(s.frame.payload) {
      NaksWiden(l.ab, Base(l.b), r);
    } else if DrawsNak(s) {
      NaksAppend(l.ab, Asking(r), Base(l.b), r);
    }
  }

  lemma NaksWiden(q: seq<Signal>, lo: int, hi: int)
    requires NaksOk(q, lo, hi)
    ensures NaksOk(q, lo, hi + 1)
  {
  }

  lemma ReceiveDamagedKeepsGood(l: Link)
    requires Good(l) && l.ba != [] && l.ba[0] == Damaged
    ensures Good(Next(l, Receive))
  {
    var m := Next(l, Receive);
    var r := |l.a.delivered|;
    var nak := Asking(r);
    assert m.ab == l.ab + [nak];
    assert m.a == l.a;
    hide Next;
    NaksRest(l.ba, Base(l.a), |l.b.delivered|);
    DataAppendOthers(l.ab, [nak], l.a.written, |l.b.delivered|);
    DataRest(l.ba, l.b.written, r);
    NaksAppend(l.ab, nak, Base(l.b), r);
  }

  /** The arithmetic of going back to packet k of n, with base the oldest one kept. */
  lemma NakFastForward(k: int, n: int, base: int)
    requires 0 <= base <= k < n <= base + HISTORY_CAPACITY
    ensures (k % SEQ_RANGE - (n % SEQ_RANGE - (n - base))) % SEQ_RANGE == k - base
    ensures (k % SEQ_RANGE + (n - k)) % SEQ_RANGE == n % SEQ_RANGE
  {
  }

  /** Going back to packet k of a sound sender. */
  lemma GoBack(e: End, k: int)
    requires SenderOk(e) && Base(e) <= k < |e.written|
    ensures TransmitHistoryFromSeq(e.peer, k % SEQ_RANGE)
         == Outcome(e.peer.(history := e.written[k..]), RtxFrames(e.written[k..], k % SEQ_RANGE), [])
  {
    var n, h := |e.written|, e.peer.history;
    NakFastForward(k, n, Base(e));
    assert FastForward(e.peer, k % SEQ_RANGE) == k - Base(e);
    assert h[k - Base(e)..] == e.written[k..];
    GoBackTo(e.peer, k % SEQ_RANGE, k - Base(e), n % SEQ_RANGE);
  }

  lemma GoBackTo(p: Peer, s: Seq, ff: nat, t: Seq)
    requires FastForward(p, s) == ff < |p.history| && t == (s + (|p.history| - ff)) % SEQ_RANGE
    ensures TransmitHistoryFromSeq(p, s)
         == Outcome(p.(txSeq := t, history := p.history[ff..]), RtxFrames(p.history[ff..], s), [])
  {
  }

  lemma TagResent(e: End, written: seq<Packet>, k: nat)
    requires k <= |written| == |e.written|
    ensures Tag(e, RtxFrames(written[k..], k % SEQ_RANGE)) == Resent(written, k)
  {
  }

  /** A NAK for packet k: nothing to do if there is no such packet yet; otherwise the history
      shrinks to the packets from k on and all of them go out again, numbered as before. */
  lemma TakeNak(l: Link)
    requires FlowOk(l) && l.a.peer.conn == Connected && l.ba != [] && IsNak(l.ba[0])
    ensures var m := Next(l, Receive);
            var k, n := l.ba[0].index, |l.a.written|;
            && Base(l.a) <= k <= n && m.ba == l.ba[1..] && m.b == l.b
            && m.a == (if k == n then l.a else l.a.(peer := l.a.peer.(history := l.a.written[k..])))
            && m.ab == l.ab + Resent(l.a.written, k)
  {
    var s := l.ba[0];
    var k, n := s.index, |l.a.written|;
    assert NakAt(s, Base(l.a), |l.b.delivered|);
    SeqUnambiguous(k, n);
    var o := HandleNak(l.a.peer, s.frame.seqno);
    var a := End(o.peer, l.a.written, l.a.delivered + o.delivered);
    assert Take(l.a.peer, s) == o;
    if k == n {
      assert o == Outcome(l.a.peer, [], []);
    } else {
      GoBack(l.a, k);
      hide TransmitHistoryFromSeq, RtxFrames, Resent, Tag;
      TagResent(a, l.a.written, k);
    }
  }

  /** The packets from index k on as retransmissions. */
  function Resent(written: seq<Packet>, k: nat): (q: seq<Signal>)
    requires k <= |written|
    ensures |q| == |written| - k
  {
    seq(|written| - k, i requires 0 <= i < |written| - k =>
      Intact(Frame(Rtx, (k + i) % SEQ_RANGE, written[k + i]), k + i))
  }

  lemma ResentIsData(written: seq<Packet>, k: nat, r: int)
    requires k <= |written| <= k + HISTORY_CAPACITY && r <= |written|
    ensures var t := Resent(written, k);
            && (forall i | 0 <= i < |t| :: IsData(t[i]) && k <= t[i].index && DataAt(t[i], written, r))
            && (forall i, j | 0 <= i < j < |t| && IsData(t[i]) && IsData(t[j]) :: t[i].index < t[j].index)
  {
  }

  lemma ReceiveNakKeepsOut(l: Link)
    requires Good(l) && l.ba != [] && IsNak(l.ba[0])
    ensures FlowOk(Next(l, Receive))
  {
    TakeNak(l);
    hide Next, Resent, DataOk, NaksOk;
    var m := Next(l, Receive);
    var k, n, r := l.ba[0].index, |l.a.written|, |l.b.delivered|;
    assert NakAt(l.ba[0], Base(l.a), r) by { FirstNak(l.ba, Base(l.a), r); }
    NaksRest(l.ba, Base(l.a), r);
    ResentIsData(l.a.written, k, r);
    DataAppend(l.ab, Resent(l.a.written, k), l.a.written, l.a.written, r, k);
    if k == n {
      NaksNarrow(m.ba, k, Base(l.a), r);
    } else {
      assert Base(m.a) == k;
    }
  }

  lemma FirstNak(q: seq<Signal>, lo: int, hi: int)
    requires NaksOk(q, lo, hi) && q != [] && IsNak(q[0])
    ensures NakAt(q[0], lo, hi)
  {
  }

  lemma NaksNarrow(q: seq<Signal>, k: int, lo: int, hi: int)
    requires NaksOk(q, k, hi) && lo <= k
    ensures NaksOk(q, lo, hi)
  {
  }

  lemma ReceiveNakKeepsIn(l: Link)
    requires Good(l) && l.ba != [] && IsNak(l.ba[0])
    ensures FlowOk(Swap(Next(l, Receive)))
  {
    TakeNak(l);
    hide Next;
    var m := Next(l, Receive);
    NaksAppendOthers(l.ab, Resent(l.a.written, l.ba[0].index), Base(l.b), |l.a.delivered|);
    DataRest(l.ba, l.b.written, |l.a.delivered|);
  }

  lemma ReceiveKeepsConnected(l: Link)
    requires Good(l) && l.ba != [] && l.ba[0].Intact?
    ensures var m := Next(l, Receive);
            m.a.peer.conn == Connected && m.b == l.b && NoSyn(m.ab) && NoSyn(m.ba)
  {
  }

  lemma ReceiveKeepsGood(l: Link)
    requires Good(l) && l.ba != []
    ensures Good(Next(l, Receive))
  {
    hide Next, FlowOk, DataOk, NaksOk;
    if l.ba[0] == Damaged {
      ReceiveDamagedKeepsGood(l);
    } else {
      ReceiveKeepsConnected(l);
      if IsData(l.ba[0]) {
        ReceiveDataKeepsOut(l);
        ReceiveDataKeepsIn(l);
      } else {
        ReceiveNakKeepsOut(l);
        ReceiveNakKeepsIn(l);
      }
    }
  }

  lemma StepKeepsGood(l: Link, step: Step)
    requires Good(l) && Allowed(l, step)
    ensures Good(Next(l, step))
  {
    match step
    case Write(packet) => WriteKeepsGood(l, packet);
    case Receive => ReceiveKeepsGood(l);
    case Lose(i) =>
      DataLost(l.ab, i, l.a.written, |l.b.delivered|);
      NaksLost(l.ab, i, Base(l.b), |l.a.delivered|);
      hide DataOk, NaksOk;
    case Damage(i) =>
      DataLost(l.ab, i, l.a.written, |l.b.delivered|);
      NaksLost(l.ab, i, Base(l.b), |l.a.delivered|);
      hide DataOk, NaksOk;
    case Noise(i) =>
      DataNoise(l.ab, i, l.a.written, |l.b.delivered|);
      NaksNoise(l.ab, i, Base(l.b), |l.a.delivered|);
      hide DataOk, NaksOk;
  }

  // ---------- runs ----------

  /** A step of either end. */
  datatype Move = ByA(step: Step) | ByB(step: Step)

  function View(l: Link, m: Move): Link {
    if m.ByA? then l else Swap(l)
  }

  function Apply(l: Link, m: Move): Link
    requires Enabled(View(l, m), m.step)
  {
    if m.ByA? then Next(l, m.step) else Swap(Next(Swap(l), m.step))
  }

  /** Every step can be taken, and every write is one the window allows. */
  predicate IsRun(l: Link, moves: seq<Move>)
    decreases |moves|
  {
    moves == [] || (Allowed(View(l, moves[0]), moves[0].step) && IsRun(Apply(l, moves[0]), moves[1..]))
  }

  function Run(l: Link, moves: seq<Move>): Link
    requires IsRun(l, moves)
    decreases |moves|
  {
    if moves == [] then l else Run(Apply(l, moves[0]), moves[1..])
  }

  lemma {:induction false} RunConcat(l: Link, xs: seq<Move>, ys: seq<Move>)
    requires IsRun(l, xs) && IsRun(Run(l, xs), ys)
    ensures IsRun(l, xs + ys) && Run(l, xs + ys) == Run(Run(l, xs), ys)
    decreases |xs|
  {
    hide Next, MayWrite;
    if xs == [] {
      assert xs + ys == ys;
    } else {
      RunConcat(Apply(l, xs[0]), xs[1..], ys);
      assert (xs + ys)[1..] == xs[1..] + ys;
    }
  }

  lemma {:induction false} RunKeepsGood(l: Link, moves: seq<Move>)
    requires Good(l) && IsRun(l, moves)
    ensures Good(Run(l, moves))
    decreases |moves|
  {
    hide Next, Good;
    if moves == [] {
    } else {
      assert Good(View(l, moves[0])) by { GoodSwap(l); }
      StepKeepsGood(View(l, moves[0]), moves[0].step);
      GoodSwap(Next(View(l, moves[0]), moves[0].step));
      RunKeepsGood(Apply(l, moves[0]), moves[1..]);
    }
  }

  lemma GoodSwap(l: Link)
    requires Good(l)
    ensures Good(Swap(l))
  {
  }

  /** Two peers that have just connected. */
  predicate Fresh(l: Link) {
    && l.a == End(INITIAL.(conn := Connected), [], []) == l.b
    && l.ab == [] == l.ba
  }

  /** Reliable in-order delivery: in every run, whatever is lost, damaged or made up on the way,
      each end has been delivered exactly the first packets written at the other, each once, and
      none from the first on that is too long. */
  lemma InOrderDelivery(l: Link, moves: seq<Move>)
    requires Fresh(l) && IsRun(l, moves)
    ensures var m := Run(l, moves);
            && m.b.delivered <= Deliverable(m.a.written) <= m.a.written
            && m.a.delivered <= Deliverable(m.b.written) <= m.b.written
            && |m.a.written| <= |m.b.delivered| + HISTORY_CAPACITY
            && |m.b.written| <= |m.a.delivered| + HISTORY_CAPACITY
  {
    FreshIsGood(l);
    hide Good, Fresh;
    RunKeepsGood(l, moves);
    GoodDelivers(Run(l, moves));
  }

  lemma FreshIsGood(l: Link)
    requires Fresh(l)
    ensures Good(l)
  {
    assert DataOk([], [], 0) && NaksOk([], 0, 0);
    hide Next, DataOk, NaksOk;
  }

  lemma GoodDelivers(l: Link)
    requires Good(l)
    ensures l.b.delivered <= Deliverable(l.a.written) && |l.a.written| <= |l.b.delivered| + HISTORY_CAPACITY
    ensures l.a.delivered <= Deliverable(l.b.written) && |l.b.written| <= |l.a.delivered| + HISTORY_CAPACITY
  {
    hide DataOk, NaksOk, Next;
    DeliverableIsLongest(l.b.delivered, l.a.written);
    DeliverableIsLongest(l.a.delivered, l.b.written);
  }
}
