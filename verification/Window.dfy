/** The write window is exact: one write outside it can make the receiver accept wrong packets. */
module Window {
  import opened Octets
  import opened Frames
  import opened Protocol
  import opened Duplex
  import opened Recovery

  /** No run from l ever delivers anything at b but the first packets written at a. */
  ghost predicate SafeForever(l: Link) {
    forall moves | IsRun(l, moves) :: Run(l, moves).b.delivered <= Run(l, moves).a.written
  }

  ghost predicate Reaches(l: Link, m: Link) {
    exists moves :: IsRun(l, moves) && Run(l, moves) == m
  }

  lemma ReachesNow(l: Link)
    ensures Reaches(l, l)
  {
    assert IsRun(l, []) && Run(l, []) == l;
  }

  lemma ReachesAfter(l: Link, move: Move, m: Link)
    requires Allowed(View(l, move), move.step) && Reaches(Apply(l, move), m)
    ensures Reaches(l, m)
  {
    hide Next, MayWrite;
    var rest :| IsRun(Apply(l, move), rest) && Run(Apply(l, move), rest) == m;
    var moves := [move] + rest;
    assert moves[1..] == rest;
    assert IsRun(l, moves) && Run(l, moves) == m;
  }

  lemma ReachesTransitive(l: Link, m: Link, n: Link)
    requires Reaches(l, m) && Reaches(m, n)
    ensures Reaches(l, n)
  {
    var xs :| IsRun(l, xs) && Run(l, xs) == m;
    var ys :| IsRun(m, ys) && Run(m, ys) == n;
    RunConcat(l, xs, ys);
  }

  lemma ReachesDrained(l: Link)
    ensures Reaches(l, Drain(l))
  {
    var moves := DrainIsRun(l);
  }

  // ---------- clearing a channel ----------

  /** All but one frame from a can be lost. */
  lemma {:induction false} LoseOthers(l: Link, i: nat)
    requires i < |l.ab|
    ensures Reaches(l, l.(ab := [l.ab[i]]))
    decreases |l.ab|
  {
    if |l.ab| == 1 {
      assert l.ab == [l.ab[i]];
      ReachesNow(l);
    } else {
      var at := if i == 0 then 1 else 0;
      var m := Apply(l, ByA(Lose(at)));
      LoseOthers(m, if i == 0 then 0 else i - 1);
      ReachesAfter(l, ByA(Lose(at)), l.(ab := [l.ab[i]]));
    }
  }

  lemma LoseAll(l: Link)
    ensures Reaches(l, l.(ab := []))
  {
    if l.ab == [] {
      ReachesNow(l);
    } else {
      var m := l.(ab := [l.ab[0]]);
      LoseOthers(l, 0);
      assert Apply(m, ByA(Lose(0))) == l.(ab := []);
      ReachesNow(l.(ab := []));
      ReachesAfter(m, ByA(Lose(0)), l.(ab := []));
      ReachesTransitive(l, m, l.(ab := []));
    }
  }

  function SwapMove(move: Move): Move {
    if move.ByA? then ByB(move.step) else ByA(move.step)
  }

  lemma {:induction false} SwapRun(l: Link, moves: seq<Move>) returns (swapped: seq<Move>)
    requires IsRun(l, moves)
    ensures IsRun(Swap(l), swapped) && Run(Swap(l), swapped) == Swap(Run(l, moves))
    decreases |moves|
  {
    hide Next, MayWrite;
    if moves == [] {
      swapped := [];
    } else {
      var rest := SwapRun(Apply(l, moves[0]), moves[1..]);
      swapped := [SwapMove(moves[0])] + rest;
      assert swapped[1..] == rest;
    }
  }

  lemma ReachesSwapped(l: Link, m: Link)
    requires Reaches(l, m)
    ensures Reaches(Swap(l), Swap(m))
  {
    var moves :| IsRun(l, moves) && Run(l, moves) == m;
    var swapped := SwapRun(l, moves);
  }

  // ---------- the run that goes wrong ----------

  /** Nothing is on the way but the signal s, to end a. */
  function Only(l: Link, s: Signal): Link {
    l.(ab := [], ba := [s])
  }

  lemma ReachesOnly(l: Link, j: nat)
    requires j < |l.ba|
    ensures Reaches(l, Only(l, l.ba[j]))
  {
    var m := l.(ab := []);
    LoseAll(l);
    LoseOthers(Swap(m), j);
    ReachesSwapped(Swap(m), Swap(Only(l, l.ba[j])));
    ReachesTransitive(l, m, Only(l, l.ba[j]));
  }

  /** A receiver that still waits for the oldest packet in a full history can be made to ask for
      it: lose everything on the way but the new frame, and damage that. */
  lemma DamageDrawsNak(l: Link, packet: Packet)
    requires Good(l)
    ensures var r := |l.b.delivered|;
            var m := Next(l, Write(packet));
            Reaches(m, m.(ab := [], ba := l.ba + [Intact(Control(Nak, r % SEQ_RANGE), r)]))
  {
    var r := |l.b.delivered|;
    var m := Next(l, Write(packet));
    var last := |m.ab| - 1;
    var one := m.(ab := [m.ab[last]]);
    var hit := m.(ab := [Damaged]);
    var asked := m.(ab := [], ba := l.ba + [Intact(Control(Nak, r % SEQ_RANGE), r)]);
    LoseOthers(m, last);
    assert Apply(one, ByA(Damage(0))) == hit;
    assert Apply(hit, ByB(Receive)) == asked;
    ReachesNow(asked);
    ReachesAfter(hit, ByB(Receive), asked);
    ReachesAfter(one, ByA(Damage(0)), asked);
    ReachesTransitive(m, one, asked);
  }

  /** Outside the window, the packet that the write pushes out of the history can still be asked
      for. */
  lemma StaleNakArises(l: Link, packet: Packet) returns (s: Signal)
    requires Good(l) && !MayWrite(l)
    ensures 0 <= Base(l.a) && IsNak(s) && s.frame == Control(Nak, Base(l.a) % SEQ_RANGE)
    ensures var m := Next(l, Write(packet)); Reaches(m, Only(m, s))
  {
    var m := Next(l, Write(packet));
    var base := Base(l.a);
    if i :| 0 <= i < |l.ba| && IsNak(l.ba[i]) && l.ba[i].index <= base {
      s := l.ba[i];
      assert NakAt(s, base, |l.b.delivered|);
      ReachesOnly(m, i);
    } else {
      assert |l.b.delivered| == base;
      s := Intact(Control(Nak, base % SEQ_RANGE), base);
      DamageDrawsNak(l, packet);
      var asked := m.(ab := [], ba := l.ba + [s]);
      ReachesOnly(asked, |l.ba|);
      assert Only(asked, s) == Only(m, s);
      ReachesTransitive(m, asked, Only(m, s));
    }
  }

  /** Retransmissions numbered from x on, none of them too long. */
  predicate Renumbered(q: seq<Signal>, x: nat) {
    forall i | 0 <= i < |q| :: RenumberedAt(q[i], x + i)
  }

  predicate RenumberedAt(s: Signal, n: nat) {
    IsData(s) && s.frame.kind == Rtx && s.frame.seqno == n % SEQ_RANGE && Fits(s.frame.payload)
  }

  /** The first of them is taken if it bears the expected number, and is ignored otherwise. */
  lemma ReceiveRenumbered(l: Link, x: nat)
    requires l.b.peer.conn == Connected && l.b.peer.rxSeq == |l.b.delivered| % SEQ_RANGE
    requires l.ab != [] && Renumbered(l.ab, x)
    requires x <= |l.b.delivered| <= x + HISTORY_CAPACITY
    ensures var m, r := ReceiveB(l), |l.b.delivered|;
            && m.a == l.a && m.ba == l.ba && m.b.written == l.b.written
            && m.b.peer == l.b.peer.(rxSeq := |m.b.delivered| % SEQ_RANGE)
            && |m.b.delivered| == if x == r then r + 1 else r
  {
    SeqUnambiguous(x, |l.b.delivered|);
    assert RenumberedAt(l.ab[0], x);
  }

  lemma RenumberedRest(q: seq<Signal>, x: nat)
    requires q != [] && Renumbered(q, x)
    ensures Renumbered(q[1..], x + 1)
  {
    hide RenumberedAt;
    forall i | 0 <= i < |q| - 1 ensures RenumberedAt(q[1..][i], x + 1 + i) {
      assert RenumberedAt(q[i + 1], x + (i + 1));
    }
  }

  /** Retransmissions numbered from x on take the receiver to the end of their numbers,
      whatever packets they carry. */
  lemma {:induction false} DrainRenumbered(l: Link, x: nat)
    requires l.b.peer.conn == Connected && l.b.peer.rxSeq == |l.b.delivered| % SEQ_RANGE
    requires Renumbered(l.ab, x) && x <= |l.b.delivered| <= x + |l.ab| <= x + HISTORY_CAPACITY
    ensures var m := Drain(l);
            && m.a == l.a && m.ab == [] && m.ba == l.ba
            && m.b.peer == l.b.peer.(rxSeq := (x + |l.ab|) % SEQ_RANGE)
            && m.b.written == l.b.written && |m.b.delivered| == x + |l.ab|
    decreases |l.ab|
  {
    if l.ab == [] {
    } else {
      ReceiveRenumbered(l, x);
      RenumberedRest(l.ab, x);
      hide ReceiveB, Renumbered;
      DrainRenumbered(ReceiveB(l), x + 1);
    }
  }

  /** A NAK for the packet just pushed out of a full history takes the branch that renumbers. */
  lemma StaleNakHandled(p: Peer, base: nat)
    requires p.conn == Connected && |p.history| == HISTORY_CAPACITY
    requires p.txSeq == (base + HISTORY_CAPACITY + 1) % SEQ_RANGE
    ensures HandleNak(p, base % SEQ_RANGE)
         == Outcome(p.(txSeq := (base + HISTORY_CAPACITY) % SEQ_RANGE), RtxFrames(p.history, base % SEQ_RANGE), [])
  {
    hide RtxFrames;
    StaleFastForward(base);
    assert FastForward(p, base % SEQ_RANGE) == SEQ_RANGE - 1;
  }

  /** The packets after the one asked for go out under the numbers of that one and its
      successors. */
  lemma StaleNakRenumbers(m: Link, base: nat, s: Signal)
    requires m.a.peer.conn == Connected && |m.a.peer.history| == HISTORY_CAPACITY
    requires m.a.peer.txSeq == (base + HISTORY_CAPACITY + 1) % SEQ_RANGE
    requires IsNak(s) && s.frame == Control(Nak, base % SEQ_RANGE) && AllFit(m.a.peer.history)
    ensures var x := Apply(Only(m, s), ByA(Receive));
            && x.b == m.b && x.ba == []
            && x.a == m.a.(peer := m.a.peer.(txSeq := (base + HISTORY_CAPACITY) % SEQ_RANGE))
            && Renumbered(x.ab, base) && |x.ab| == HISTORY_CAPACITY
  {
    StaleNakHandled(m.a.peer, base);
    NakTaken(m.a.peer, s);
    hide HandleNak, Take, Tag, RtxFrames, Renumbered, AllFit;
    var o := HandleNak(m.a.peer, s.frame.seqno);
    var x := Apply(Only(m, s), ByA(Receive));
    assert [] + Tag(x.a, o.sent) == Tag(x.a, o.sent);
    TagRenumbered(x.a, m.a.peer.history, base);
  }

  lemma NakTaken(p: Peer, s: Signal)
    requires IsNak(s) && s.frame.payload == []
    ensures Take(p, s) == HandleNak(p, s.frame.seqno)
  {
  }

  lemma TagRenumbered(e: End, h: seq<Packet>, base: nat)
    requires AllFit(h)
    ensures Renumbered(Tag(e, RtxFrames(h, base % SEQ_RANGE)), base)
  {
    var q := Tag(e, RtxFrames(h, base % SEQ_RANGE));
    forall i | 0 <= i < |q| ensures RenumberedAt(q[i], base + i) {
      assert q[i].frame == Frame(Rtx, (base % SEQ_RANGE + i) % SEQ_RANGE, h[i]);
      SeqAdds(base, i);
    }
  }

  lemma SeqAdds(base: nat, i: nat)
    ensures (base % SEQ_RANGE + i) % SEQ_RANGE == (base + i) % SEQ_RANGE
  {
  }

  lemma FullWrite(l: Link, packet: Packet)
    requires Good(l) && !MayWrite(l)
    ensures var m := Next(l, Write(packet));
            && m.b == l.b && m.a.peer.conn == Connected && |m.a.peer.history| == HISTORY_CAPACITY
            && m.a.peer.txSeq == (Base(l.a) + HISTORY_CAPACITY + 1) % SEQ_RANGE
            && m.a.written == l.a.written + [packet]
            && |l.a.written| == Base(l.a) + HISTORY_CAPACITY
            && m.a.peer.history == m.a.written[Base(l.a) + 1..]
  {
    WriteSends(l, packet);
    hide Next, FlowOk;
  }

  lemma StaleFastForward(base: nat)
    ensures (base + 9) % SEQ_RANGE != base % SEQ_RANGE
    ensures (base % SEQ_RANGE - ((base + 9) % SEQ_RANGE - 8)) % SEQ_RANGE == SEQ_RANGE - 1
    ensures (base % SEQ_RANGE + 8) % SEQ_RANGE == (base + 8) % SEQ_RANGE
  {
  }

  /** From any good link whose packets all fit, a write outside the window can end with the
      receiver taking the packet after the written one in its place, however the rest of the run
      keeps to the window. */
  lemma OutsideWindowFails(l: Link, packet: Packet, other: Packet)
    requires Good(l) && !MayWrite(l) && packet != other && Fits(other)
    requires AllFit(l.a.written) && Fits(packet)
    ensures !SafeForever(Next(l, Write(packet)))
  {
    var n := |l.a.written|;
    var m := Next(l, Write(packet));
    var s := StaleNakArises(l, packet);
    var o := Only(m, s);
    var x := Apply(o, ByA(Receive));
    FullWrite(l, packet);
    assert AllFit(m.a.peer.history);
    StaleNakRenumbers(m, Base(l.a), s);
    DrainRenumbered(x, Base(l.a));
    var d := Drain(x);
    ReachesDrained(x);
    ReachesAfter(o, ByA(Receive), d);
    ReachesTransitive(m, o, d);
    var bad := WrongDelivery(d, packet, other);
    ReachesTransitive(m, d, bad);
    var moves :| IsRun(m, moves) && Run(m, moves) == bad;
  }

  /** A sender that numbers its next packet as the one before it. */
  lemma WrongDelivery(d: Link, packet: Packet, other: Packet) returns (bad: Link)
    requires d.ab == [] == d.ba && packet != other && Fits(other)
    requires d.b.peer.conn == Connected && d.b.peer.rxSeq == d.a.peer.txSeq
    requires |d.a.written| == |d.b.delivered| + 1 && d.a.written[|d.b.delivered|] == packet
    requires |d.a.peer.history| == HISTORY_CAPACITY && HISTORY_CAPACITY <= |d.b.delivered|
    ensures Reaches(d, bad) && !(bad.b.delivered <= bad.a.written)
  {
    var sent := Apply(d, ByA(Write(other)));
    bad := ReceiveB(sent);
    assert MayWrite(d);
    assert sent.ab[0].frame == Frame(Usr, d.b.peer.rxSeq, other);
    assert bad.b.delivered == d.b.delivered + [other];
    assert bad.a.written == d.a.written + [other];
    ReachesNow(bad);
    ReachesAfter(sent, ByB(Receive), bad);
    ReachesAfter(d, ByA(Write(other)), bad);
    assert bad.b.delivered[|d.b.delivered|] == other;
    assert bad.a.written[|d.b.delivered|] == packet;
  }

  /** In a good link whose packets all fit, a write keeps delivery in order for ever after, over
      every run that stays in the window, if and only if it is itself in the window. A write in
      the window does so whatever the packets. */
  lemma WindowExact(l: Link, packet: Packet)
    requires Good(l)
    ensures MayWrite(l) ==> SafeForever(Next(l, Write(packet)))
    ensures AllFit(l.a.written) && Fits(packet) && SafeForever(Next(l, Write(packet))) ==> MayWrite(l)
  {
    var m := Next(l, Write(packet));
    if MayWrite(l) {
      StepKeepsGood(l, Write(packet));
      forall moves | IsRun(m, moves) ensures Run(m, moves).b.delivered <= Run(m, moves).a.written {
        RunKeepsGood(m, moves);
      }
    } else if AllFit(l.a.written) && Fits(packet) {
      var other: Packet := if packet == [] then [0] else [];
      OutsideWindowFails(l, packet, other);
    }
  }

  // ---------- packets too long ----------

  /** An end that has been delivered d and no more for ever: whatever bears the next number is too
      long, and the other end, its window shut, has nothing else to send under that number. */
  predicate Shut(l: Link, d: seq<Packet>) {
    && l.b.delivered == d
    && l.b.peer.conn == l.a.peer.conn == Connected && NoSyn(l.ab) && NoSyn(l.ba)
    && ShutChannels(l.ab, l.ba, |d| % SEQ_RANGE)
    && l.b.peer.rxSeq == |d| % SEQ_RANGE
    && Base(l.a) == |d| + 1
    && ShutPeer(l.a.peer, |d|)
  }

  predicate ShutChannels(ab: seq<Signal>, ba: seq<Signal>, x: Seq) {
    && (forall i | 0 <= i < |ab| && IsData(ab[i]) :: ab[i].frame.seqno == x ==> !Fits(ab[i].frame.payload))
    && (forall i | 0 <= i < |ba| && IsNak(ba[i]) :: ba[i].frame == Control(Nak, x))
  }

  predicate ShutPeer(p: Peer, r: nat) {
    && |p.history| == HISTORY_CAPACITY && !Fits(p.history[0])
    && (p.txSeq == (r + 8) % SEQ_RANGE || p.txSeq == (r + 9) % SEQ_RANGE)
  }

  lemma ShutMayNotWrite(l: Link, d: seq<Packet>)
    requires Shut(l, d)
    ensures !MayWrite(l)
  {
  }

  /** Asked for the packet given up, such a transmitter sends the one after it instead. */
  lemma ShutAnswers(p: Peer, r: nat)
    requires p.conn == Connected && ShutPeer(p, r)
    ensures HandleNak(p, r % SEQ_RANGE)
         == Outcome(p.(txSeq := (r + 8) % SEQ_RANGE), RtxFrames(p.history, r % SEQ_RANGE), [])
  {
    hide RtxFrames;
    if p.txSeq == (r + 9) % SEQ_RANGE {
      StaleNakHandled(p, r);
    } else {
      ShutFastForward(r);
      assert FastForward(p, r % SEQ_RANGE) == 0;
      assert p.history[0..] == p.history;
    }
  }

  lemma ShutFastForward(r: nat)
    ensures (r % SEQ_RANGE - ((r + 8) % SEQ_RANGE - 8)) % SEQ_RANGE == 0
    ensures (r % SEQ_RANGE + 8) % SEQ_RANGE == (r + 8) % SEQ_RANGE != r % SEQ_RANGE
  {
  }

  lemma OnlyFirstBearsNumber(h: seq<Packet>, r: nat)
    requires |h| == HISTORY_CAPACITY && !Fits(h[0])
    ensures forall f <- RtxFrames(h, r % SEQ_RANGE) :: f.kind == Rtx && (f.seqno == r % SEQ_RANGE ==> !Fits(f.payload))
  {
  }

  /** What the transmitter side receives leaves everything shut. */
  lemma SenderReceives(l: Link, d: seq<Packet>)
    requires Shut(l, d) && l.ba != []
    ensures Shut(Next(l, Receive), d)
  {
    var s, m, r := l.ba[0], Next(l, Receive), |d|;
    assert s.Intact? ==> s.frame.kind != Syn;
    if IsNak(s) {
      NakTaken(l.a.peer, s);
      ShutAnswers(l.a.peer, r);
      OnlyFirstBearsNumber(l.a.peer.history, r);
      hide RtxFrames, HandleNak, Take, Handle;
    }
  }

  /** What the receiver side receives is not delivered: its answers ask again. */
  lemma ReceiverReceives(l: Link, d: seq<Packet>)
    requires Shut(l, d) && l.ab != []
    ensures Shut(Swap(Next(Swap(l), Receive)), d)
  {
    var s, r := l.ab[0], |d|;
    assert s.Intact? ==> s.frame.kind != Syn;
    if IsData(s) {
      DataTaken(l.b.peer, s, r);
      hide Take;
    } else if IsNak(s) {
      NakEffect(l.b.peer, s);
      hide Take;
    }
  }

  /** A connected peer answers a NAK, if at all, with retransmissions. */
  lemma NakEffect(p: Peer, s: Signal)
    requires p.conn == Connected && IsNak(s)
    ensures var o := Take(p, s);
            && o.peer.conn == Connected && o.peer.rxSeq == p.rxSeq && o.delivered == []
            && forall f <- o.sent :: f.kind == Rtx || f == Control(Nak, p.rxSeq)
  {
    hide RtxFrames;
    RtxKinds(TransmitHistoryFromSeq(p, s.frame.seqno).peer.history, s.frame.seqno);
  }

  lemma RtxKinds(h: seq<Packet>, s: Seq)
    ensures forall f <- RtxFrames(h, s) :: f.kind == Rtx
  {
  }

  lemma StruckStaysShut(l: Link, move: Move, d: seq<Packet>)
    requires Shut(l, d) && Enabled(View(l, move), move.step) && !move.step.Receive? && !move.step.Write?
    ensures Shut(Apply(l, move), d)
  {
  }

  lemma {:induction false} ShutForGood(l: Link, moves: seq<Move>, d: seq<Packet>)
    requires Shut(l, d) && IsRun(l, moves)
    ensures Run(l, moves).b.delivered == d
    decreases |moves|
  {
    hide Next, MayWrite, Shut;
    if moves == [] {
      assert l.b.delivered == d by { assert Shut(l, d); ShutDelivered(l, d); }
    } else {
      var m := moves[0];
      ShutMayNotWrite(l, d);
      if m.step.Write? {
        ReceiverWrites(l, m.step.packet, d);
      } else if m.step.Receive? {
        if m.ByA? { SenderReceives(l, d); } else { ReceiverReceives(l, d); }
      } else {
        StruckStaysShut(l, m, d);
      }
      ShutForGood(Apply(l, m), moves[1..], d);
    }
  }

  lemma ShutDelivered(l: Link, d: seq<Packet>)
    requires Shut(l, d)
    ensures l.b.delivered == d
  {
  }

  lemma ReceiverWrites(l: Link, packet: Packet, d: seq<Packet>)
    requires Shut(l, d)
    ensures Shut(Swap(Next(Swap(l), Write(packet))), d)
  {
  }

  /** Why the exact window needs packets that fit: when the receiver waits for the packet about to
      be given up, no data is under way, and the packet after it is too long, then writing outside
      the window does no harm, as nothing is ever delivered again. */
  lemma LongPacketShields(l: Link, packet: Packet)
    requires Good(l) && !MayWrite(l) && Base(l.a) == |l.b.delivered|
    requires forall i | 0 <= i < |l.ab| :: !IsData(l.ab[i])
    requires !Fits(l.a.written[|l.b.delivered| + 1])
    ensures SafeForever(Next(l, Write(packet)))
  {
    var m, d := Next(l, Write(packet)), l.b.delivered;
    FullWrite(l, packet);
    WriteSends(l, packet);
    SeqUnambiguous(|l.a.written|, |d|);
    assert Shut(m, d) by { hide Next; }
    forall moves | IsRun(m, moves) ensures Run(m, moves).b.delivered <= Run(m, moves).a.written {
      ShutForGood(m, moves, d);
      RunGrows(m, moves);
    }
  }
}
