/** Two ends that disagree about their connection: what the next packet written does about it. */
module HalfOpen {
  import opened Octets
  import opened Frames
  import opened Protocol
  import D = Duplex

  /** Two ends after an exchange: what each was delivered during it, and what is still on the way. */
  datatype Settled = Settled(p: Peer, q: Peer, toP: seq<Packet>, toQ: seq<Packet>, pending: seq<Frame>)

  /** End p has sent fs to q, with nothing on the way back; the ends take turns, each receiving
      everything sent to it. */
  function Exchange(p: Peer, q: Peer, fs: seq<Frame>, turns: nat): Settled
    decreases turns
  {
    if turns == 0 then Settled(p, q, [], [], fs)
    else
      var o := ArriveAll(q, fs);
      var r := Exchange(o.peer, p, o.sent, turns - 1);
      Settled(r.q, r.p, r.toQ, o.delivered + r.toP, r.pending)
  }

  /** End p writes a packet over a quiet line; six turns are enough for the line to fall quiet. */
  function AfterWrite(p: Peer, q: Peer, packet: Packet): Settled {
    var o := WritePacket(p, packet);
    Exchange(o.peer, q, o.sent, 6)
  }

  predicate Sound(p: Peer) {
    |p.history| <= HISTORY_CAPACITY && D.AllFit(p.history)
  }

  // ---------- receiving several frames ----------

  lemma {:induction false} ArriveAllConcat(p: Peer, fs: seq<Frame>, gs: seq<Frame>)
    ensures var o := ArriveAll(p, fs);
            var r := ArriveAll(o.peer, gs);
            ArriveAll(p, fs + gs) == Outcome(r.peer, o.sent + r.sent, o.delivered + r.delivered)
  {
    hide Arrive;
    if gs == [] {
      assert fs + gs == fs;
    } else {
      var n := |gs| - 1;
      assert (fs + gs)[..|fs + gs| - 1] == fs + gs[..n];
      ArriveAllConcat(p, fs, gs[..n]);
    }
  }

  lemma ArriveOne(p: Peer, f: Frame)
    ensures ArriveAll(p, [f]) == Arrive(p, f)
  {
    hide Arrive;
    assert [f][..0] == [];
  }

  lemma ArriveNone(p: Peer)
    ensures ArriveAll(p, []) == Outcome(p, [], [])
  {
  }

  /** Of packets numbered from zero, those a receiver does not have yet. */
  function Missing(h: seq<Packet>, r: Seq): seq<Packet> {
    if r <= |h| then h[r..] else []
  }

  /** The number expected next, once packets numbered from zero to n have come. */
  function Later(r: Seq, n: nat): Seq
    requires n <= HISTORY_CAPACITY
  {
    if r <= n then n else r
  }

  /** Retransmissions from zero on deliver exactly what is missing, and draw no answer. */
  lemma {:induction false} ArriveResent(p: Peer, h: seq<Packet>)
    requires p.conn == Connected && |h| <= HISTORY_CAPACITY && D.AllFit(h)
    ensures ArriveAll(p, RtxFrames(h, 0)) == Outcome(p.(rxSeq := Later(p.rxSeq, |h|)), [], Missing(h, p.rxSeq))
    decreases |h|
  {
    if h == [] {
      assert RtxFrames(h, 0) == [];
      hide *;
      ArriveNone(p);
      NothingMissing(p.rxSeq);
    } else {
      hide RtxFrames, Arrive, ArriveAll, D.AllFit, Fits, Missing;
      var n := |h| - 1;
      var f, x := Frame(Rtx, n, h[n]), p.(rxSeq := Later(p.rxSeq, n));
      LastResent(h);
      ArriveResent(p, h[..n]);
      ArriveOne(x, f);
      ArriveAllConcat(p, RtxFrames(h[..n], 0), [f]);
      OneResent(x, f);
      MissingLast(h, p.rxSeq);
      assert Missing(h[..n], p.rxSeq) + [] == Missing(h[..n], p.rxSeq);
    }
  }

  lemma NothingMissing(r: Seq)
    ensures Missing([], r) == [] && Later(r, 0) == r
  {
  }

  lemma MissingLast(h: seq<Packet>, r: Seq)
    requires h != []
    ensures Missing(h, r) == Missing(h[..|h| - 1], r) + if r < |h| then [h[|h| - 1]] else []
  {
    if r < |h| {
      assert h[r..] == h[..|h| - 1][r..] + [h[|h| - 1]];
    } else {
      assert Missing(h, r) == [];
    }
  }

  lemma LastResent(h: seq<Packet>)
    requires h != [] && |h| <= HISTORY_CAPACITY && D.AllFit(h)
    ensures var n := |h| - 1;
            && RtxFrames(h, 0) == RtxFrames(h[..n], 0) + [Frame(Rtx, n, h[n])]
            && RtxFrames(h, 0)[..n] == RtxFrames(h[..n], 0)
            && D.AllFit(h[..n]) && Fits(h[n])
  {
  }

  lemma OneResent(p: Peer, f: Frame)
    requires p.conn == Connected && f.kind == Rtx && Fits(f.payload) && f.seqno < HISTORY_CAPACITY
    ensures f.seqno == p.rxSeq ==> Arrive(p, f) == Outcome(p.(rxSeq := f.seqno + 1), [], [f.payload])
    ensures f.seqno != p.rxSeq ==> Arrive(p, f) == Outcome(p, [], [])
  {
  }

  // ---------- what is sent again when the connection stands ----------

  /** What an end sends again on becoming connected. */
  function Resend(p: Peer): (h: seq<Packet>)
    ensures |p.history| <= HISTORY_CAPACITY ==> |h| <= HISTORY_CAPACITY
  {
    if p.txSeq == 0 then [] else Establish(p).peer.history
  }

  /** Both ends connected, each having received what it missed of what the other sent again. */
  function Joined(p: Peer, q: Peer): Settled
    requires Sound(p) && Sound(q)
  {
    Settled(Establish(p).peer.(rxSeq := Later(p.rxSeq, |Resend(q)|)),
            Establish(q).peer.(rxSeq := Later(q.rxSeq, |Resend(p)|)),
            Missing(Resend(q), p.rxSeq), Missing(Resend(p), q.rxSeq), [])
  }

  lemma Established(p: Peer)
    requires Sound(p)
    ensures var o := Establish(p);
            && o == Outcome(o.peer, RtxFrames(Resend(p), 0), [])
            && o.peer.conn == Connected && o.peer.rxSeq == p.rxSeq
            && Sound(o.peer) && |Resend(p)| <= HISTORY_CAPACITY && D.AllFit(Resend(p))
  {
  }

  lemma Wrote(p: Peer, packet: Packet)
    requires Sound(p) && Fits(packet)
    ensures var o := WritePacket(p, packet);
            Sound(o.peer) && o.peer.conn == p.conn && o.peer.rxSeq == p.rxSeq
            && o.sent == [Frame(Usr, p.txSeq, packet)]
  {
  }

  // ---------- one turn after another ----------

  function Turned(r: Settled, delivered: seq<Packet>): Settled {
    Settled(r.q, r.p, r.toQ, delivered + r.toP, r.pending)
  }

  lemma OneTurn(p: Peer, q: Peer, f: Frame, turns: nat)
    requires 0 < turns
    ensures var o := Arrive(q, f);
            Exchange(p, q, [f], turns) == Turned(Exchange(o.peer, p, o.sent, turns - 1), o.delivered)
  {
    ArriveOne(q, f);
    hide Arrive, ArriveAll;
  }

  lemma {:induction false} Rest(p: Peer, q: Peer, turns: nat)
    ensures Exchange(p, q, [], turns) == Settled(p, q, [], [], [])
    decreases turns
  {
    if turns == 0 {
    } else {
      ArriveNone(q);
      Rest(q, p, turns - 1);
    }
  }

  /** Only retransmissions are on the way: they are received, and that is all. */
  lemma ResentSettles(p: Peer, q: Peer, h: seq<Packet>, turns: nat)
    requires 0 < turns && q.conn == Connected && |h| <= HISTORY_CAPACITY && D.AllFit(h)
    ensures Exchange(p, q, RtxFrames(h, 0), turns)
         == Settled(p, q.(rxSeq := Later(q.rxSeq, |h|)), [], Missing(h, q.rxSeq), [])
  {
    ArriveResent(q, h);
    hide RtxFrames, ArriveAll;
    Rest(q.(rxSeq := Later(q.rxSeq, |h|)), p, turns - 1);
    assert Missing(h, q.rxSeq) + [] == Missing(h, q.rxSeq);
  }

  /** An end that is not disconnected receives SYN2 and retransmissions: it is connected, what it
      had sent goes out again, and both ends get what they miss. */
  lemma Syn2Settles(p: Peer, q: Peer, h: seq<Packet>, turns: nat)
    requires 2 <= turns && p.conn == Connected && (q.conn == SentSyn1 || q.conn == Connected)
    requires Sound(q) && |h| <= HISTORY_CAPACITY && D.AllFit(h)
    ensures Exchange(p, q, [Control(Syn, SEQ_SYN2)] + RtxFrames(h, 0), turns)
         == Settled(p.(rxSeq := Later(p.rxSeq, |Resend(q)|)),
                    Establish(q).peer.(rxSeq := Later(q.rxSeq, |h|)),
                    Missing(Resend(q), p.rxSeq), Missing(h, q.rxSeq), [])
  {
    Established(q);
    Syn2Arrives(q, h);
    hide ArriveAll, RtxFrames, Establish, Resend, Missing, Later;
    var y := Establish(q).peer.(rxSeq := Later(q.rxSeq, |h|));
    ResentSettles(y, p, Resend(q), turns - 1);
    assert Missing(h, q.rxSeq) + [] == Missing(h, q.rxSeq);
  }

  lemma Syn2Arrives(q: Peer, h: seq<Packet>)
    requires q.conn == SentSyn1 || q.conn == Connected
    requires Sound(q) && |h| <= HISTORY_CAPACITY && D.AllFit(h)
    ensures ArriveAll(q, [Control(Syn, SEQ_SYN2)] + RtxFrames(h, 0))
         == Outcome(Establish(q).peer.(rxSeq := Later(q.rxSeq, |h|)), RtxFrames(Resend(q), 0), Missing(h, q.rxSeq))
  {
    hide *;
    Established(q);
    Syn2Alone(q);
    ArriveResent(Establish(q).peer, h);
    ArriveAllConcat(q, [Control(Syn, SEQ_SYN2)], RtxFrames(h, 0));
    var sent := RtxFrames(Resend(q), 0);
    assert sent + [] == sent;
    assert [] + Missing(h, q.rxSeq) == Missing(h, q.rxSeq);
  }

  lemma Syn2Alone(q: Peer)
    requires (q.conn == SentSyn1 || q.conn == Connected) && Sound(q)
    ensures ArriveAll(q, [Control(Syn, SEQ_SYN2)]) == Outcome(Establish(q).peer, RtxFrames(Resend(q), 0), [])
  {
    Established(q);
    ArriveOne(q, Control(Syn, SEQ_SYN2));
    hide ArriveAll, RtxFrames, Establish, Resend;
  }

  lemma Syn1Arrives(q: Peer)
    requires q.conn != Disconnected && Sound(q)
    ensures var o := Arrive(q, Control(Syn, SEQ_SYN1));
            o == Outcome(Establish(q).peer, [Control(Syn, SEQ_SYN2)] + RtxFrames(Resend(q), 0), [])
  {
    Established(q);
    hide Establish, Resend, RtxFrames;
  }

  /** An end that is not disconnected receives SYN1. */
  lemma Syn1Settles(p: Peer, q: Peer, turns: nat)
    requires 3 <= turns && (p.conn == SentSyn1 || p.conn == Connected) && q.conn != Disconnected
    requires Sound(p) && Sound(q)
    ensures Exchange(p, q, [Control(Syn, SEQ_SYN1)], turns) == Joined(p, q)
  {
    Established(p);
    Established(q);
    hide Exchange, Arrive, Establish, Resend, RtxFrames, Missing, Later, Sound;
    OneTurn(p, q, Control(Syn, SEQ_SYN1), turns);
    Syn1Arrives(q);
    Syn2Settles(Establish(q).peer, p, Resend(q), turns - 1);
    assert [] + Missing(Resend(p), q.rxSeq) == Missing(Resend(p), q.rxSeq);
  }

  // ---------- what the next packet written does ----------

  lemma FirstTurn(p: Peer, q: Peer, packet: Packet)
    requires Fits(packet)
    ensures var o, w := HandleUsr(q, Frame(Usr, p.txSeq, packet)), WritePacket(p, packet).peer;
            AfterWrite(p, q, packet) == Turned(Exchange(o.peer, w, o.sent, 5), o.delivered)
  {
    OneTurn(WritePacket(p, packet).peer, q, Frame(Usr, p.txSeq, packet), 6);
    hide Exchange;
  }

  /** SYN0 from a waiting end p: the other end forgets everything and the handshake completes. */
  lemma Syn0Settles(p: Peer, q: Peer, turns: nat)
    requires 4 <= turns && Sound(p) && p.conn == SentSyn0
    ensures Exchange(p, q, [Control(Syn, SEQ_SYN0)], turns)
         == Settled(Establish(p).peer, Peer(Connected, 0, [], |Resend(p)|), [], Resend(p), [])
  {
    var blank := Reset(q, SentSyn1);
    var syn0 := Control(Syn, SEQ_SYN0);
    OneTurn(p, q, syn0, turns);
    assert Arrive(q, syn0) == Reply(blank, Syn, SEQ_SYN1);
    hide Exchange, Arrive, Establish, Resend, Joined;
    BlankJoined(q, p);
    Syn1Settles(blank, p, turns - 1);
    assert [] + Resend(p) == Resend(p);
  }

  /** A blank end has nothing to send again and misses everything. */
  lemma BlankJoined(q: Peer, p: Peer)
    requires Sound(p)
    ensures var blank := Reset(q, SentSyn1);
            && Sound(blank)
            && Joined(blank, p) == Settled(Peer(Connected, 0, [], |Resend(p)|), Establish(p).peer, Resend(p), [], [])
  {
    var blank := Reset(q, SentSyn1);
    Established(p);
    assert Resend(blank) == [] && Establish(blank).peer == blank.(conn := Connected);
    hide Establish, Resend;
    assert Missing(Resend(p), 0) == Resend(p) && Missing([], p.rxSeq) == [];
  }

  lemma DisSettles(p: Peer, q: Peer, turns: nat)
    requires 2 <= turns
    ensures Exchange(p, q, [Control(Syn, SEQ_SYN_DIS)], turns) == Settled(p, q.(conn := Disconnected), [], [], [])
  {
    var dis := Control(Syn, SEQ_SYN_DIS);
    OneTurn(p, q, dis, turns);
    assert Arrive(q, dis) == Outcome(q.(conn := Disconnected), [], []);
    Rest(q.(conn := Disconnected), p, turns - 1);
    hide Exchange;
  }

  /** A disconnected peer answers a packet by ending the connection at the writer too. */
  lemma ForgottenIsEnded(p: Peer, q: Peer, packet: Packet)
    requires Fits(packet) && q.conn == Disconnected
    ensures AfterWrite(p, q, packet)
         == Settled(WritePacket(p, packet).peer.(conn := Disconnected), q, [], [], [])
  {
    FirstTurn(p, q, packet);
    DisSettles(q, WritePacket(p, packet).peer, 5);
    hide Exchange;
  }

  /** A peer waiting after SYN0, whose SYN0 may have been lost, sends another one: whatever state
      the writer is in, it starts from zero and both get connected. The packet is lost, with all
      that the writer's history held; what the waiting peer had written arrives. */
  lemma LostSyn0Heals(p: Peer, q: Peer, packet: Packet)
    requires Fits(packet) && Sound(q) && q.conn == SentSyn0
    ensures AfterWrite(p, q, packet)
         == Settled(Peer(Connected, 0, [], |Resend(q)|), Establish(q).peer, Resend(q), [], [])
  {
    FirstTurn(p, q, packet);
    Syn0Settles(q, WritePacket(p, packet).peer, 5);
    Established(q);
    hide Exchange, Establish, Resend;
    assert [] + Resend(q) == Resend(q);
  }

  /** A peer waiting after SYN1, whose SYN1 or the answer to it may have been lost, sends it again.
      A disconnected writer ends the connection; from any other, both get connected, and what each
      had in its history, the packet included, arrives as far as it is missing. */
  lemma LostSyn2Heals(p: Peer, q: Peer, packet: Packet)
    requires Fits(packet) && Sound(p) && Sound(q) && q.conn == SentSyn1
    ensures var w := WritePacket(p, packet).peer;
            && Sound(w)
            && AfterWrite(p, q, packet)
            == if p.conn == Disconnected then Settled(w, q.(conn := Disconnected), [], [], [])
               else Joined(w, q)
  {
    var w := WritePacket(p, packet).peer;
    FirstTurn(p, q, packet);
    Wrote(p, packet);
    hide Exchange, Establish, Resend, AfterWrite;
    if p.conn == Disconnected {
      Syn1Refused(q, w, 5);
    } else {
      Syn1Settles(q, w, 5);
      JoinedTurned(q, w);
    }
  }

  lemma Syn1Refused(p: Peer, q: Peer, turns: nat)
    requires 3 <= turns && q.conn == Disconnected
    ensures Exchange(p, q, [Control(Syn, SEQ_SYN1)], turns) == Settled(p.(conn := Disconnected), q, [], [], [])
  {
    OneTurn(p, q, Control(Syn, SEQ_SYN1), turns);
    DisSettles(q, p, turns - 1);
    hide Exchange;
  }

  lemma JoinedTurned(p: Peer, q: Peer)
    requires Sound(p) && Sound(q)
    ensures Turned(Joined(p, q), []) == Joined(q, p)
  {
    hide Establish, Resend, Missing, Later;
    assert [] + Missing(Resend(q), p.rxSeq) == Missing(Resend(q), p.rxSeq);
  }

  /** A connected peer takes a packet that bears the number it expects, whether or not the writer
      is connected, and neither end learns of a difference. */
  lemma ExpectedPacketTaken(p: Peer, q: Peer, packet: Packet)
    requires Fits(packet) && q.conn == Connected && p.txSeq == q.rxSeq
    ensures AfterWrite(p, q, packet)
         == Settled(WritePacket(p, packet).peer, q.(rxSeq := NextSeq(q.rxSeq)), [], [packet], [])
  {
    FirstTurn(p, q, packet);
    Rest(q.(rxSeq := NextSeq(q.rxSeq)), WritePacket(p, packet).peer, 5);
    hide Exchange;
  }

  /** Otherwise it asks for another one, and a writer that is not connected answers as it would a
      packet: by ending the connection, or with its SYN0 or SYN1. */
  lemma UnexpectedPacketHeals(p: Peer, q: Peer, packet: Packet)
    requires Fits(packet) && Sound(p) && Sound(q)
    requires q.conn == Connected && p.txSeq != q.rxSeq && p.conn != Connected
    ensures var w := WritePacket(p, packet).peer;
            && Sound(w)
            && AfterWrite(p, q, packet)
            == if p.conn == Disconnected then Settled(w, q.(conn := Disconnected), [], [], [])
               else if p.conn == SentSyn0 then
                 Settled(Establish(w).peer, Peer(Connected, 0, [], |Resend(w)|), [], Resend(w), [])
               else Joined(w, q)
  {
    var w := WritePacket(p, packet).peer;
    Wrote(p, packet);
    UnexpectedIsRefused(p, q, packet);
    hide AfterWrite, Exchange, Establish, Resend, Joined;
    if p.conn == Disconnected {
      DisSettles(w, q, 4);
    } else if p.conn == SentSyn0 {
      Syn0Settles(w, q, 4);
    } else {
      Syn1Settles(w, q, 4);
    }
  }

  lemma UnexpectedIsRefused(p: Peer, q: Peer, packet: Packet)
    requires Fits(packet) && q.conn == Connected && p.txSeq != q.rxSeq && p.conn != Connected
    ensures var w := WritePacket(p, packet).peer;
            AfterWrite(p, q, packet) == Exchange(w, q, NotConnected(w).sent, 4)
  {
    var w := WritePacket(p, packet).peer;
    FirstTurn(p, q, packet);
    assert HandleUsr(q, Frame(Usr, p.txSeq, packet)) == Reply(q, Nak, q.rxSeq);
    NakRefused(q, w, q.rxSeq, 5);
    hide Exchange, AfterWrite;
    TurnedTwice(Exchange(w, q, NotConnected(w).sent, 4));
  }

  lemma TurnedTwice(r: Settled)
    ensures Turned(Turned(r, []), []) == r
  {
    assert [] + r.toP == r.toP && [] + r.toQ == r.toQ;
  }

  lemma NakRefused(p: Peer, q: Peer, s: Seq, turns: nat)
    requires 0 < turns && q.conn != Connected
    ensures Exchange(p, q, [Control(Nak, s)], turns)
         == Turned(Exchange(q, p, NotConnected(q).sent, turns - 1), [])
  {
    OneTurn(p, q, Control(Nak, s), turns);
    hide Exchange;
  }

  predicate Reaches(p: Peer, q: Peer) {
    q.conn == SentSyn0 || (p.conn != Disconnected && q.conn != Disconnected)
  }

  /** So one packet written over a quiet line brings two ends in different states, or both waiting,
      into the same state, unless it happens to bear the expected number: connected, if the end it
      reaches waits after SYN0 or neither was disconnected, and disconnected otherwise. */
  lemma OneWriteHeals(p: Peer, q: Peer, packet: Packet)
    requires Fits(packet) && Sound(p) && Sound(q) && !(p.conn == q.conn == Connected)
    ensures var r := AfterWrite(p, q, packet);
            && r.pending == []
            && (r.p.conn == r.q.conn <==> !(q.conn == Connected && p.txSeq == q.rxSeq))
            && (r.p.conn == r.q.conn && Reaches(p, q) ==> r.p.conn == Connected)
            && (r.p.conn == r.q.conn && !Reaches(p, q) ==> r.p.conn == Disconnected)
  {
    var w := WritePacket(p, packet).peer;
    Wrote(p, packet);
    Established(w);
    Established(q);
    match q.conn
    case Disconnected => ForgottenIsEnded(p, q, packet); hide AfterWrite;
    case SentSyn0 => LostSyn0Heals(p, q, packet); hide AfterWrite;
    case SentSyn1 => LostSyn2Heals(p, q, packet); hide AfterWrite, Establish, Resend;
    case Connected =>
      if p.txSeq == q.rxSeq {
        ExpectedPacketTaken(p, q, packet);
        hide AfterWrite;
      } else {
        UnexpectedPacketHeals(p, q, packet);
        hide AfterWrite, Establish, Resend;
      }
  }

  // ---------- the connection afterwards ----------

  /** Everything written since the numbers started from zero is in the history. */
  predicate Early(p: Peer) {
    p.txSeq == |p.history| <= HISTORY_CAPACITY && D.AllFit(p.history)
  }

  lemma EarlyResends(p: Peer)
    requires Early(p)
    ensures Resend(p) == p.history && Establish(p).peer == p.(conn := Connected)
  {
    if p.txSeq != 0 {
      assert FastForward(p, 0) == 0;
      assert p.history[0..] == p.history;
    }
  }

  lemma BothDeliveredIsGood(h: seq<Packet>, k: seq<Packet>)
    requires |h| <= HISTORY_CAPACITY && D.AllFit(h) && |k| <= HISTORY_CAPACITY && D.AllFit(k)
    ensures D.Good(D.Link(D.End(Peer(Connected, |h|, h, |k|), h, k), D.End(Peer(Connected, |k|, k, |h|), k, h), [], []))
  {
    assert D.DataOk([], h, |h|) && D.DataOk([], k, |k|) && D.NaksOk([], 0, |h|) && D.NaksOk([], 0, |k|);
    assert h[0..] == h && k[0..] == k;
    hide D.DataOk, D.NaksOk, D.Next;
  }

  /** The packets h written at r.p and k at r.q have all arrived, and the link is good: delivery in
      order goes on from there. */
  predicate AllThere(r: Settled, h: seq<Packet>, k: seq<Packet>) {
    && r.pending == [] && r.toQ == h && r.toP == k
    && D.Good(D.Link(D.End(r.p, h, k), D.End(r.q, k, h), [], []))
  }

  lemma SettledIsThere(r: Settled, h: seq<Packet>, k: seq<Packet>)
    requires |h| <= HISTORY_CAPACITY && D.AllFit(h) && |k| <= HISTORY_CAPACITY && D.AllFit(k)
    requires r == Settled(Peer(Connected, |h|, h, |k|), Peer(Connected, |k|, k, |h|), k, h, [])
    ensures AllThere(r, h, k)
  {
    hide D.Good;
    BothDeliveredIsGood(h, k);
  }

  /** When a lost SYN1 or SYN2 heals early on, both ends have all the other had written. */
  lemma Syn2HealedIsGood(p: Peer, q: Peer, packet: Packet)
    requires Fits(packet) && Early(p) && Early(q) && p.rxSeq == 0 == q.rxSeq
    requires q.conn == SentSyn1 && p.conn != Disconnected && |p.history| < HISTORY_CAPACITY
    ensures AllThere(AfterWrite(p, q, packet), p.history + [packet], q.history)
  {
    var w := WritePacket(p, packet).peer;
    LostSyn2Heals(p, q, packet);
    EarlyWrite(p, packet);
    hide AfterWrite, AllThere, Joined;
    EarlyJoined(w, q);
    assert |w.history| <= HISTORY_CAPACITY && D.AllFit(w.history) && D.AllFit(q.history);
    SettledIsThere(Joined(w, q), w.history, q.history);
  }

  /** When a lost SYN0 does, the waiting end's packets are there and the writer's are gone. */
  lemma Syn0HealedIsGood(p: Peer, q: Peer, packet: Packet)
    requires Fits(packet) && Early(q) && q.rxSeq == 0 && q.conn == SentSyn0
    ensures AllThere(AfterWrite(p, q, packet), [], q.history)
  {
    LostSyn0Heals(p, q, packet);
    EarlyResends(q);
    hide AfterWrite, AllThere, Establish, Resend;
    SettledIsThere(AfterWrite(p, q, packet), [], q.history);
  }

  lemma EarlyWrite(p: Peer, packet: Packet)
    requires Early(p) && Fits(packet) && |p.history| < HISTORY_CAPACITY
    ensures var w := WritePacket(p, packet).peer;
            w == p.(txSeq := |p.history| + 1, history := p.history + [packet]) && Early(w)
  {
  }

  lemma EarlyJoined(p: Peer, q: Peer)
    requires Early(p) && Early(q) && p.rxSeq == 0 == q.rxSeq
    ensures Sound(p) && Sound(q)
    ensures Joined(p, q) == Settled(p.(conn := Connected, rxSeq := |q.history|),
                                    q.(conn := Connected, rxSeq := |p.history|), q.history, p.history, [])
  {
    EarlyResends(p);
    EarlyResends(q);
    hide Establish, Resend;
    assert p.history[0..] == p.history && q.history[0..] == q.history;
  }

  // ---------- packets too long ----------

  /** A packet of 255 octets does nothing at the other end, whatever state that is in. */
  lemma LostInTheBuffer(p: Peer, q: Peer, packet: Packet)
    requires |packet| == 255
    ensures AfterWrite(p, q, packet) == Settled(WritePacket(p, packet).peer, q, [], [], [])
  {
    OneTurn(WritePacket(p, packet).peer, q, Frame(Usr, p.txSeq, packet), 6);
    Rest(q, WritePacket(p, packet).peer, 5);
    hide Exchange;
  }
}
