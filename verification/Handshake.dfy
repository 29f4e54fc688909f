/** Connecting two peers: any calls to sfpConnect, by either side, crossing, repeated, or in the
    middle of a frame being received, over a line that loses nothing. */
module Handshake {
  import opened Octets
  import opened Frames
  import opened Protocol
  import D = Duplex
  import F = Framing

  /** A frame on the way, or the rest of one whose receiver was reset while taking it in. */
  datatype Signal = Whole(frame: Frame) | Cut

  datatype Pair = Pair(a: Peer, b: Peer, ab: seq<Signal>, ba: seq<Signal>)

  function Swap(l: Pair): Pair {
    Pair(l.b, l.a, l.ba, l.ab)
  }

  function Wholes(fs: seq<Frame>): (q: seq<Signal>)
    ensures |q| == |fs|
  {
    seq(|fs|, i requires 0 <= i < |fs| => Whole(fs[i]))
  }

  /** What calling sfpConnect does to the frame being received: nothing if there is none, or only
      its opening FLAG has come; else its rest draws a NAK, or goes unnoticed if that is only the
      closing FLAG. */
  datatype Amid = Between | Within | AtEnd

  predicate Possible(q: seq<Signal>, amid: Amid) {
    amid.Between? || q != []
  }

  function CutShort(q: seq<Signal>, amid: Amid): (r: seq<Signal>)
    requires Possible(q, amid)
    ensures |r| <= |q|
  {
    match amid
    case Between => q
    case Within => [Cut] + q[1..]
    case AtEnd => q[1..]
  }

  function TakeAll(p: Peer, q: seq<Signal>): Outcome
    requires |q| <= 1
  {
    if q == [] then Outcome(p, [], []) else Take(p, q[0])
  }

  /** The octets bear this out: when k octets of a control frame have passed, a receiver that is
      reset makes of the rest what the cut signal says. */
  lemma CutIsRest(d: F.Endpoint, f: Frame, k: nat)
    requires F.IsIdle(d.rx) && f == Control(f.kind, f.seqno) && (f.kind == Nak || f.kind == FrameKind.Syn)
    requires 1 <= k <= |F.Encode(f)|
    ensures F.RxValid(d.rx)
    ensures var t, n := F.DeliverAll(d, F.Encode(f)[k..]), |F.Encode(f)|;
            var amid := if k == 1 then Between else if k < n - 1 then Within else AtEnd;
            var o := TakeAll(d.peer, CutShort([Whole(f)], amid));
            t.end.peer == o.peer && t.sent == o.sent && t.delivered == o.delivered
  {
    hide F.DeliverAll, F.Encode, F.RxValid, F.IsIdle, Handle, HandleDamaged;
    F.RestOfFrame(d, f, k);
  }

  /** End a calls sfpConnect. */
  function ConnectA(l: Pair, amid: Amid): Pair
    requires Possible(l.ba, amid)
  {
    var o := Connect(l.a);
    Pair(o.peer, l.b, l.ab + Wholes(o.sent), CutShort(l.ba, amid))
  }

  function Take(p: Peer, s: Signal): Outcome {
    if s.Whole? then Handle(p, s.frame) else HandleDamaged(p)
  }

  /** End a receives a frame, or what is left of one. */
  function ReceiveA(l: Pair): Pair
    requires l.ba != []
  {
    var o := Take(l.a, l.ba[0]);
    Pair(o.peer, l.b, l.ab + Wholes(o.sent), l.ba[1..])
  }

  function ReceiveB(l: Pair): Pair
    requires l.ab != []
  {
    Swap(ReceiveA(Swap(l)))
  }

  datatype Move = ConnectByA(amid: Amid) | ConnectByB(amid: Amid) | ReceiveByA | ReceiveByB

  predicate Enabled(l: Pair, m: Move) {
    match m
    case ConnectByA(amid) => Possible(l.ba, amid)
    case ConnectByB(amid) => Possible(l.ab, amid)
    case ReceiveByA => l.ba != []
    case ReceiveByB => l.ab != []
  }

  function Apply(l: Pair, m: Move): Pair
    requires Enabled(l, m)
  {
    match m
    case ConnectByA(amid) => ConnectA(l, amid)
    case ConnectByB(amid) => Swap(ConnectA(Swap(l), amid))
    case ReceiveByA => ReceiveA(l)
    case ReceiveByB => ReceiveB(l)
  }

  // ---------- the invariant ----------

  predicate Blank(p: Peer) {
    p.txSeq == 0 && p.history == [] && p.rxSeq == 0
  }

  function Syn(s: Seq): Signal {
    Whole(Control(FrameKind.Syn, s))
  }

  const NAK0 := Whole(Control(Nak, 0))

  predicate Has(q: seq<Signal>, s: Signal) {
    exists i | 0 <= i < |q| :: q[i] == s
  }

  predicate IsFrame(s: Signal) {
    s == Syn(SEQ_SYN0) || s == Syn(SEQ_SYN1) || s == Syn(SEQ_SYN2) || s == NAK0
  }

  /** Only SYN0, SYN1, SYN2 and NAKs for zero are ever sent: nobody is told to disconnect. Only the
      next frame to receive can be cut, by an end that has just sent SYN0. */
  predicate ChannelOk(q: seq<Signal>, receiver: Peer) {
    forall i | 0 <= i < |q| :: IsFrame(q[i]) || (q[i] == Cut && i == 0 && receiver.conn == SentSyn0)
  }

  /** An end that waits for something has it coming, or an answer to it. */
  predicate EndOk(l: Pair) {
    && Blank(l.a) && ChannelOk(l.ba, l.a)
    && (l.a.conn == Disconnected ==>
          && l.ab == []
          && (forall i | 0 <= i < |l.ba| :: l.ba[i] == Syn(SEQ_SYN0))
          && (l.b.conn == Disconnected || l.b.conn == SentSyn0))
    && (l.a.conn == SentSyn0 ==> Has(l.ab, Syn(SEQ_SYN0)) || Has(l.ba, Syn(SEQ_SYN0)) || Has(l.ba, Syn(SEQ_SYN1)))
    && (l.a.conn == SentSyn1 ==> Has(l.ab, Syn(SEQ_SYN1)) || l.ba != [])
  }

  predicate Ok(l: Pair) {
    EndOk(l) && EndOk(Swap(l))
  }

  /** Some end has left the disconnected state. */
  predicate Started(l: Pair) {
    l.a.conn != Disconnected || l.b.conn != Disconnected
  }

  lemma HasAppend(q: seq<Signal>, t: seq<Signal>, s: Signal)
    ensures Has(q, s) || Has(t, s) ==> Has(q + t, s)
  {
    if Has(q, s) {
      var i :| 0 <= i < |q| && q[i] == s;
      assert (q + t)[i] == s;
    } else if Has(t, s) {
      var i :| 0 <= i < |t| && t[i] == s;
      assert (q + t)[|q| + i] == s;
    }
  }

  lemma HasRest(q: seq<Signal>, s: Signal)
    requires q != [] && Has(q, s) && q[0] != s
    ensures Has(q[1..], s)
  {
  }

  lemma HasOne(s: Signal)
    ensures Has([s], s)
  {
    assert [s][0] == s;
  }

  lemma SentOne(f: Frame)
    ensures Wholes([f]) == [Whole(f)] && Wholes([]) == []
  {
  }

  lemma ConnectKeepsOk(l: Pair, amid: Amid)
    requires Ok(l) && Possible(l.ba, amid)
    ensures Ok(ConnectA(l, amid)) && Started(ConnectA(l, amid))
  {
    var m := ConnectA(l, amid);
    SentOne(Control(FrameKind.Syn, SEQ_SYN0));
    HasOne(Syn(SEQ_SYN0));
    HasAppend(l.ab, [Syn(SEQ_SYN0)], Syn(SEQ_SYN0));
    assert m.ab == l.ab + [Syn(SEQ_SYN0)] && m.ab != [];
    hide Has;
    assert l.b.conn == Disconnected ==> m.ba == [];
  }

  /** What a signal does to an end with nothing written and nothing delivered: the state it leaves
      and the answer it draws. */
  function Reaction(c: ConnectState, s: Signal): (ConnectState, seq<Signal>) {
    if s == Syn(SEQ_SYN0) then (SentSyn1, [Syn(SEQ_SYN1)])
    else if s == Syn(SEQ_SYN1) then (Connected, [Syn(SEQ_SYN2)])
    else if s == Syn(SEQ_SYN2) then if c == SentSyn0 then (c, [Syn(SEQ_SYN0)]) else (Connected, [])
    else if s == NAK0 then
      if c == SentSyn0 then (c, [Syn(SEQ_SYN0)]) else if c == SentSyn1 then (c, [Syn(SEQ_SYN1)]) else (c, [])
    else (c, [NAK0])
  }

  lemma ReceiveTable(l: Pair)
    requires Ok(l) && l.ba != []
    ensures var r := Reaction(l.a.conn, l.ba[0]);
            && ReceiveA(l) == Pair(l.a.(conn := r.0), l.b, l.ab + r.1, l.ba[1..])
            && (l.a.conn == Disconnected ==> l.ba[0] == Syn(SEQ_SYN0))
            && (l.ba[0] == Cut ==> l.a.conn == SentSyn0)
            && (IsFrame(l.ba[0]) || l.ba[0] == Cut)
  {
    var s, p := l.ba[0], l.a;
    assert IsFrame(s) || s == Cut;
    assert ReceiveA(l) == Pair(Take(p, s).peer, l.b, l.ab + Wholes(Take(p, s).sent), l.ba[1..]);
    TakeTable(p, s);
    hide Take, Wholes;
  }

  lemma TakeTable(p: Peer, s: Signal)
    requires Blank(p) && (IsFrame(s) || s == Cut) && (p.conn == Disconnected ==> s == Syn(SEQ_SYN0))
    ensures var r := Reaction(p.conn, s);
            Take(p, s).peer == p.(conn := r.0) && Wholes(Take(p, s).sent) == r.1
  {
  }

  lemma ReceiveKeepsOwn(l: Pair)
    requires Ok(l) && l.ba != []
    ensures EndOk(ReceiveA(l)) && ReceiveA(l).a.conn != Disconnected
  {
    ReceiveTable(l);
    hide ReceiveA, Has;
    var r := Reaction(l.a.conn, l.ba[0]);
    HasOne(Syn(SEQ_SYN0));
    HasOne(Syn(SEQ_SYN1));
    HasAppend(l.ab, r.1, Syn(SEQ_SYN0));
    HasAppend(l.ab, r.1, Syn(SEQ_SYN1));
    if Has(l.ba, Syn(SEQ_SYN0)) && l.ba[0] != Syn(SEQ_SYN0) {
      HasRest(l.ba, Syn(SEQ_SYN0));
    }
    if Has(l.ba, Syn(SEQ_SYN1)) && l.ba[0] != Syn(SEQ_SYN1) {
      HasRest(l.ba, Syn(SEQ_SYN1));
    }
  }

  lemma ReceiveKeepsOther(l: Pair)
    requires Ok(l) && l.ba != []
    ensures EndOk(Swap(ReceiveA(l)))
  {
    ReceiveTable(l);
    hide ReceiveA, Has;
    var s := l.ba[0];
    var r := Reaction(l.a.conn, s);
    HasAppend(l.ab, r.1, Syn(SEQ_SYN0));
    HasAppend(l.ab, r.1, Syn(SEQ_SYN1));
    HasOne(Syn(SEQ_SYN1));
    if Has(l.ba, Syn(SEQ_SYN0)) && s != Syn(SEQ_SYN0) {
      HasRest(l.ba, Syn(SEQ_SYN0));
    }
    if Has(l.ba, Syn(SEQ_SYN1)) && s != Syn(SEQ_SYN1) {
      HasRest(l.ba, Syn(SEQ_SYN1));
    }
  }

  // ---------- termination ----------

  function Waiting(p: Peer): nat {
    if p.conn == SentSyn0 then 1 else 0
  }

  function Unanswered(l: Pair): nat {
    Waiting(l.a) + Waiting(l.b)
  }

  /** What leaves an end waiting that waits after SYN0. */
  predicate Stays(s: Signal) {
    s == Syn(SEQ_SYN2) || s == NAK0 || s == Cut
  }

  predicate AllStay(q: seq<Signal>) {
    forall i | 0 <= i < |q| :: Stays(q[i])
  }

  predicate NoSyn0(q: seq<Signal>) {
    forall i | 0 <= i < |q| :: q[i] != Syn(SEQ_SYN0)
  }

  /** How much further receiving one signal can cause. A SYN2 or NAK weighs more while it can still
      reach an end that waits after SYN0 and will answer with another SYN0; a SYN1 weighs more
      while the SYN2 it causes can. */
  function One(s: Signal, toWaiting: bool, hot: bool): nat {
    if s == Syn(SEQ_SYN0) then 4
    else if s == Syn(SEQ_SYN1) then if hot then 6 else 3
    else if s == Syn(SEQ_SYN2) then if toWaiting then 5 else 2
    else if s == NAK0 then if toWaiting then 5 else 4
    else 6
  }

  function Weight(q: seq<Signal>, toWaiting: bool, hot: bool): nat {
    if q == [] then 0 else
      var rest := Weight(q[1..], toWaiting && Stays(q[0]), hot && q[0] != Syn(SEQ_SYN0));
      One(q[0], toWaiting, hot) + rest
  }

  function WeightTo(l: Pair): nat {
    Weight(l.ba, l.a.conn == SentSyn0, l.b.conn == SentSyn0 && AllStay(l.ab))
  }

  function Total(l: Pair): nat {
    WeightTo(l) + WeightTo(Swap(l))
  }

  lemma {:induction false} WeightAppend(q: seq<Signal>, s: Signal, toWaiting: bool, hot: bool)
    ensures Weight(q + [s], toWaiting, hot)
         == Weight(q, toWaiting, hot) + One(s, toWaiting && AllStay(q), hot && NoSyn0(q))
  {
    hide One, Stays;
    if q == [] {
      assert q + [s] == [s];
    } else {
      var t := q[1..];
      assert (q + [s])[1..] == t + [s];
      WeightAppend(t, s, toWaiting && Stays(q[0]), hot && q[0] != Syn(SEQ_SYN0));
      AllStayRest(q);
      assert NoSyn0(q) <==> q[0] != Syn(SEQ_SYN0) && NoSyn0(t) by {
        assert forall i | 0 < i < |q| :: q[i] == t[i - 1];
      }
    }
  }

  lemma {:induction false} WeightMonotone(q: seq<Signal>, w: bool, hot: bool, w': bool, hot': bool)
    requires (w ==> w') && (hot ==> hot')
    ensures Weight(q, w, hot) <= Weight(q, w', hot')
  {
    if q == [] {
    } else {
      WeightMonotone(q[1..], w && Stays(q[0]), hot && q[0] != Syn(SEQ_SYN0),
                     w' && Stays(q[0]), hot' && q[0] != Syn(SEQ_SYN0));
    }
  }

  lemma {:induction false} WeightBound(q: seq<Signal>, w: bool, hot: bool)
    ensures Weight(q, w, hot) <= 6 * |q|
  {
    if q == [] {
    } else {
      WeightBound(q[1..], w && Stays(q[0]), hot && q[0] != Syn(SEQ_SYN0));
    }
  }

  lemma AllStayRest(q: seq<Signal>)
    requires q != []
    ensures AllStay(q) <==> Stays(q[0]) && AllStay(q[1..])
  {
    hide Stays;
    assert forall i | 0 < i < |q| :: q[i] == q[1..][i - 1];
  }

  lemma AllStayAppended(q: seq<Signal>, s: Signal)
    ensures AllStay(q + [s]) <==> AllStay(q) && Stays(s)
  {
    hide Stays;
    assert forall i | 0 <= i < |q| :: q[i] == (q + [s])[i];
    assert (q + [s])[|q|] == s;
  }

  /** Receiving a signal answers an end that was waiting, or leaves less to happen. */
  lemma ReceiveDecreases(l: Pair)
    requires Ok(l) && l.ba != []
    ensures var m := ReceiveA(l);
            Unanswered(m) < Unanswered(l) || (Unanswered(m) == Unanswered(l) && Total(m) < Total(l))
  {
    ReceiveTable(l);
    hide ReceiveA;
    if l.a.conn != SentSyn0 || Stays(l.ba[0]) {
      ReceiveDecreasesTotal(l);
    }
  }

  /** What is still on its way to a weighs at least a signal less. */
  lemma IncomingLighter(l: Pair)
    requires Ok(l) && l.ba != [] && (l.a.conn != SentSyn0 || Stays(l.ba[0]))
    ensures var w, hot := l.a.conn == SentSyn0, l.b.conn == SentSyn0 && AllStay(l.ab);
            WeightTo(ReceiveA(l)) + One(l.ba[0], w, hot) <= WeightTo(l)
  {
    ReceiveTable(l);
    hide ReceiveA, Ok, AllStay, IsFrame;
    var m := ReceiveA(l);
    var s := l.ba[0];
    var w, hot := l.a.conn == SentSyn0, l.b.conn == SentSyn0 && AllStay(l.ab);
    var w', hot' := m.a.conn == SentSyn0, m.b.conn == SentSyn0 && AllStay(m.ab);
    var r := Reaction(l.a.conn, s);
    if r.1 == [] {
      assert m.ab == l.ab;
    } else {
      assert m.ab == l.ab + [r.1[0]];
      AllStayAppended(l.ab, r.1[0]);
    }
    WeightMonotone(m.ba, w', hot', w && Stays(s), hot && s != Syn(SEQ_SYN0));
  }

  /** What is on its way from a weighs at most an answer more. */
  lemma OutgoingHeavier(l: Pair)
    requires Ok(l) && l.ba != [] && (l.a.conn != SentSyn0 || Stays(l.ba[0]))
    ensures var m, r := ReceiveA(l), Reaction(l.a.conn, l.ba[0]);
            var v, cold := l.b.conn == SentSyn0, l.a.conn == SentSyn0 && AllStay(l.ba);
            WeightTo(Swap(m)) <= WeightTo(Swap(l))
              + if r.1 == [] then 0 else One(r.1[0], v && AllStay(l.ab), cold && NoSyn0(l.ab))
  {
    ReceiveTable(l);
    hide ReceiveA, Ok, AllStay, NoSyn0, IsFrame;
    var m, r := ReceiveA(l), Reaction(l.a.conn, l.ba[0]);
    var v, cold := l.b.conn == SentSyn0, l.a.conn == SentSyn0 && AllStay(l.ba);
    AllStayRest(l.ba);
    WeightMonotone(m.ab, v, m.a.conn == SentSyn0 && AllStay(m.ba), v, cold);
    if r.1 == [] {
      assert m.ab == l.ab;
    } else {
      assert m.ab == l.ab + [r.1[0]];
      WeightAppend(l.ab, r.1[0], v, cold);
    }
  }

  lemma ReceiveDecreasesTotal(l: Pair)
    requires Ok(l) && l.ba != [] && (l.a.conn != SentSyn0 || Stays(l.ba[0]))
    ensures Total(ReceiveA(l)) < Total(l)
  {
    IncomingLighter(l);
    OutgoingHeavier(l);
    ReceiveTable(l);
    hide ReceiveA, Ok, AllStay, NoSyn0, WeightTo;
  }

  // ---------- convergence ----------

  predicate Quiet(l: Pair) {
    l.ab == [] == l.ba
  }

  /** Both ends connected, with nothing written, delivered or on the way. */
  predicate Joined(l: Pair) {
    l.a == l.b == INITIAL.(conn := Connected) && Quiet(l)
  }

  lemma QuietIsJoined(l: Pair)
    requires Ok(l) && Started(l) && Quiet(l)
    ensures Joined(l)
  {
  }

  lemma MoveKeepsOk(l: Pair, m: Move)
    requires Ok(l) && Enabled(l, m)
    ensures Ok(Apply(l, m)) && Started(Apply(l, m))
  {
    hide Ok;
    assert Ok(Swap(l)) by { OkSwap(l); }
    match m
    case ConnectByA(amid) => ConnectKeepsOk(l, amid);
    case ConnectByB(amid) => ConnectKeepsOk(Swap(l), amid); OkSwap(ConnectA(Swap(l), amid));
    case ReceiveByA => ReceiveKeepsOwn(l); ReceiveKeepsOther(l); OkParts(ReceiveA(l));
    case ReceiveByB =>
      ReceiveKeepsOwn(Swap(l)); ReceiveKeepsOther(Swap(l)); OkParts(ReceiveA(Swap(l)));
      OkSwap(ReceiveA(Swap(l)));
  }

  lemma OkParts(l: Pair)
    requires EndOk(l) && EndOk(Swap(l))
    ensures Ok(l)
  {
  }

  lemma OkSwap(l: Pair)
    requires Ok(l)
    ensures Ok(Swap(l))
  {
  }

  /** Whatever end receives next, again and again, the line falls quiet after finitely many
      frames, and then both ends are connected. */
  ghost predicate Converges(l: Pair)
    requires Ok(l)
    decreases Unanswered(l), Total(l)
  {
    MoveLemmas(l);
    && (Quiet(l) ==> Joined(l))
    && (l.ba != [] ==> Converges(ReceiveA(l)))
    && (l.ab != [] ==> Converges(ReceiveB(l)))
  }

  /** The receptions possible in a pair keep the invariant and lower the measure. */
  lemma MoveLemmas(l: Pair)
    requires Ok(l)
    ensures l.ba != [] ==>
              && Ok(ReceiveA(l)) && Started(ReceiveA(l))
              && (|| Unanswered(ReceiveA(l)) < Unanswered(l)
                  || (Unanswered(ReceiveA(l)) == Unanswered(l) && Total(ReceiveA(l)) < Total(l)))
    ensures l.ab != [] ==>
              && Ok(ReceiveB(l)) && Started(ReceiveB(l))
              && (|| Unanswered(ReceiveB(l)) < Unanswered(l)
                  || (Unanswered(ReceiveB(l)) == Unanswered(l) && Total(ReceiveB(l)) < Total(l)))
  {
    hide Ok;
    if l.ba != [] {
      MoveKeepsOk(l, ReceiveByA);
      ReceiveDecreases(l);
    }
    if l.ab != [] {
      MoveKeepsOk(l, ReceiveByB);
      OkSwap(l);
      ReceiveDecreases(Swap(l));
      SwapMeasure(ReceiveA(Swap(l)));
      SwapMeasure(l);
    }
  }

  lemma SwapMeasure(l: Pair)
    ensures Unanswered(Swap(l)) == Unanswered(l) && Total(Swap(l)) == Total(l)
  {
  }

  lemma {:induction false} StartedConverges(l: Pair)
    requires Ok(l) && Started(l)
    ensures Converges(l)
    decreases Unanswered(l), Total(l)
  {
    hide Ok, ReceiveA, ReceiveB;
    MoveLemmas(l);
    if l.ba != [] {
      StartedConverges(ReceiveA(l));
    }
    if l.ab != [] {
      StartedConverges(ReceiveB(l));
    }
    if Quiet(l) {
      QuietIsJoined(l);
    }
  }

  predicate IsRun(l: Pair, moves: seq<Move>)
    decreases |moves|
  {
    moves == [] || (Enabled(l, moves[0]) && IsRun(Apply(l, moves[0]), moves[1..]))
  }

  function Run(l: Pair, moves: seq<Move>): Pair
    requires IsRun(l, moves)
    decreases |moves|
  {
    if moves == [] then l else Run(Apply(l, moves[0]), moves[1..])
  }

  lemma {:induction false} RunKeepsOk(l: Pair, moves: seq<Move>)
    requires Ok(l) && IsRun(l, moves)
    ensures Ok(Run(l, moves))
    ensures moves != [] || Started(l) ==> Started(Run(l, moves))
    decreases |moves|
  {
    hide Ok, Started;
    if moves == [] {
    } else {
      MoveKeepsOk(l, moves[0]);
      RunKeepsOk(Apply(l, moves[0]), moves[1..]);
    }
  }

  // ---------- how long that takes ----------

  function OnTheWay(l: Pair): nat {
    |l.ab| + |l.ba|
  }

  /** With at most n frames on the way, every reception lowers this. */
  function Rank(l: Pair, n: nat): nat {
    Unanswered(l) * (6 * n + 1) + Total(l)
  }

  lemma TotalBound(l: Pair)
    ensures Total(l) <= 6 * OnTheWay(l)
  {
    hide One;
    WeightBound(l.ba, l.a.conn == SentSyn0, l.b.conn == SentSyn0 && AllStay(l.ab));
    WeightBound(l.ab, l.b.conn == SentSyn0, l.a.conn == SentSyn0 && AllStay(l.ba));
  }

  /** A reception takes one frame off the line and puts at most one on it. */
  lemma ReceiveLowersRank(l: Pair, n: nat)
    requires Ok(l) && l.ba != [] && OnTheWay(l) <= n
    ensures OnTheWay(ReceiveA(l)) <= n && Rank(ReceiveA(l), n) < Rank(l, n)
  {
    ReceiveTable(l);
    ReceiveDecreases(l);
    TotalBound(ReceiveA(l));
    hide ReceiveA, Ok, Total;
    var m := ReceiveA(l);
    if Unanswered(m) < Unanswered(l) {
      assert Unanswered(m) * (6 * n + 1) + (6 * n + 1) <= Unanswered(l) * (6 * n + 1);
    }
  }

  predicate OnlyReceptions(moves: seq<Move>) {
    forall m <- moves :: m.ReceiveByA? || m.ReceiveByB?
  }

  lemma {:induction false} RankBoundsRun(l: Pair, moves: seq<Move>, n: nat)
    requires Ok(l) && IsRun(l, moves) && OnlyReceptions(moves) && OnTheWay(l) <= n
    ensures |moves| <= Rank(l, n)
    decreases |moves|
  {
    hide Ok, ReceiveA, Unanswered, Total;
    if moves == [] {
    } else {
      MoveKeepsOk(l, moves[0]);
      if moves[0].ReceiveByA? {
        ReceiveLowersRank(l, n);
      } else {
        OkSwap(l);
        ReceiveLowersRank(Swap(l), n);
        SwapMeasure(l);
        SwapMeasure(ReceiveA(Swap(l)));
      }
      RankBoundsRun(Apply(l, moves[0]), moves[1..], n);
    }
  }

  /** With n frames on the way, and nobody calling sfpConnect again, at most 18 n + 2 frames are
      received before the line is quiet; when it is, both ends are connected. */
  lemma QuietSoon(l: Pair, moves: seq<Move>)
    requires Ok(l) && Started(l) && IsRun(l, moves) && OnlyReceptions(moves)
    ensures |moves| <= 18 * OnTheWay(l) + 2
    ensures Quiet(Run(l, moves)) ==> Joined(Run(l, moves))
  {
    hide *;
    RankBoundsRun(l, moves, OnTheWay(l));
    RankBound(l);
    RunKeepsOk(l, moves);
    if Quiet(Run(l, moves)) {
      QuietIsJoined(Run(l, moves));
    }
  }

  lemma RankBound(l: Pair)
    ensures Rank(l, OnTheWay(l)) <= 18 * OnTheWay(l) + 2
  {
    TotalBound(l);
    hide Total, OnTheWay;
    assert Unanswered(l) <= 2;
    var k := 6 * OnTheWay(l) + 1;
    assert Unanswered(l) * k <= 2 * k;
  }

  /** Starting disconnected, however calls to sfpConnect and received frames have interleaved so
      far, the handshake converges: both ends get connected at sequence number zero. */
  lemma HandshakeConverges(moves: seq<Move>)
    requires moves != [] && IsRun(Pair(INITIAL, INITIAL, [], []), moves)
    ensures var l := Run(Pair(INITIAL, INITIAL, [], []), moves); Ok(l) && Converges(l)
  {
    var start := Pair(INITIAL, INITIAL, [], []);
    assert Ok(start);
    RunKeepsOk(start, moves);
    StartedConverges(Run(start, moves));
  }

  /** A completed handshake is where reliable delivery starts from. */
  lemma JoinedIsFresh(l: Pair)
    requires Joined(l)
    ensures D.Fresh(D.Link(D.End(l.a, [], []), D.End(l.b, [], []), [], []))
  {
  }
}
