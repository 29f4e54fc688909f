/** Frames on the wire: octet stuffing (RFC 1662, section 4.2) and the receiver that undoes it
    one octet at a time. */
module Framing {
  import opened Octets
  import opened Crc
  import opened CrcOrder
  import opened Frames
  import opened Protocol

  // ---------- transmitter side ----------

  function Escape(o: Octet): seq<Octet> {
    if IsReserved(o) then [ESC, o ^ ESC_FLIP_BIT] else [o]
  }

  function Stuff(s: seq<Octet>): seq<Octet> {
    if s == [] then [] else Stuff(s[..|s| - 1]) + Escape(s[|s| - 1])
  }

  /** A frame before stuffing: header, payload, complemented check sequence. */
  function Body(header: Octet, payload: seq<Octet>): (b: seq<Octet>)
    ensures |b| == |payload| + 3
  {
    [header] + payload + Trailer(Fold(PRESET, [header] + payload))
  }

  function EncodeRaw(header: Octet, payload: seq<Octet>): seq<Octet> {
    [FLAG] + Stuff(Body(header, payload)) + [FLAG]
  }

  function Encode(f: Frame): seq<Octet> {
    EncodeRaw(MakeHeader(f.kind, f.seqno), f.payload)
  }

  function EncodeAll(fs: seq<Frame>): seq<Octet> {
    if fs == [] then [] else EncodeAll(fs[..|fs| - 1]) + Encode(fs[|fs| - 1])
  }

  lemma {:induction false} EncodeAllConcat(fs: seq<Frame>, gs: seq<Frame>)
    ensures EncodeAll(fs + gs) == EncodeAll(fs) + EncodeAll(gs)
  {
    hide Encode;
    if gs == [] {
      assert fs + gs == fs;
    } else {
      assert (fs + gs)[..|fs + gs| - 1] == fs + gs[..|gs| - 1];
      EncodeAllConcat(fs, gs[..|gs| - 1]);
    }
  }

  lemma EncodeAllOne(f: Frame)
    ensures EncodeAll([f]) == Encode(f)
  {
  }

  // ---------- receiver side ----------

  /** The fields of SFPreceiver that assemble a frame; buf is packet.buf up to packet.len. */
  datatype Rx = Rx(crc: Fcs, escaping: bool, receiving: bool, header: Octet, buf: seq<Octet>)

  function ResetRx(s: Rx): Rx {
    s.(crc := PRESET, escaping := false, receiving := false, buf := [])
  }

  function Absorb(s: Rx, o: Octet): Rx {
    var crc := Update(s.crc, o);
    if !s.receiving then s.(crc := crc, escaping := false, receiving := true, header := o)
    else if MAX_PACKET_SIZE <= |s.buf| then ResetRx(s)
    else s.(crc := crc, escaping := false, buf := s.buf + [o])
  }

  /** One octet other than FLAG. */
  function RxStep(s: Rx, o: Octet): Rx {
    if o == ESC then s.(escaping := true)
    else Absorb(s, if s.escaping then o ^ ESC_FLIP_BIT else o)
  }

  /** What the receiver keeps true over every octet stream. */
  predicate RxValid(s: Rx) {
    && |s.buf| <= MAX_PACKET_SIZE
    && (!s.receiving ==> s.crc == PRESET && s.buf == [])
    && (s.receiving ==> s.crc == Fold(PRESET, [s.header] + s.buf))
  }

  datatype Endpoint = Endpoint(rx: Rx, peer: Peer)

  datatype Trace = Trace(end: Endpoint, sent: seq<Frame>, delivered: seq<Packet>)

  /** The frame a completed buffer holds, once its check sequence is taken off. */
  function ReceivedFrame(s: Rx): Frame
    requires CRC_SIZE <= |s.buf| <= MAX_PACKET_SIZE
  {
    Frame(GetFrameKind(s.header), GetFrameSeq(s.header), s.buf[..|s.buf| - CRC_SIZE])
  }

  /** The frame is long enough and its check sequence is good. */
  predicate Intact(s: Rx) {
    CRC_SIZE <= |s.buf| && s.crc == GOOD
  }

  function HandleFrame(s: Rx, p: Peer): Outcome
    requires |s.buf| <= MAX_PACKET_SIZE
  {
    if Intact(s) then Handle(p, ReceivedFrame(s)) else HandleDamaged(p)
  }

  function Deliver(e: Endpoint, o: Octet): Trace
    requires RxValid(e.rx)
  {
    if o == FLAG then
      var done := if e.rx.receiving then HandleFrame(e.rx, e.peer) else Outcome(e.peer, [], []);
      Trace(Endpoint(ResetRx(e.rx), done.peer), done.sent, done.delivered)
    else
      Trace(Endpoint(RxStep(e.rx, o), e.peer), [], [])
  }

  lemma RxStepKeepsValid(s: Rx, o: Octet)
    requires RxValid(s)
    ensures RxValid(RxStep(s, o))
  {
    hide Update;
    if o != ESC {
      var x := if s.escaping then o ^ ESC_FLIP_BIT else o;
      if s.receiving {
        assert [s.header] + (s.buf + [x]) == [s.header] + s.buf + [x];
        assert ([s.header] + s.buf + [x])[..|s.buf| + 1] == [s.header] + s.buf;
      } else {
        assert [x] + [] == [x];
        FoldOne(PRESET, x);
      }
    }
  }

  /** A whole stream of octets; the receiver invariant survives every one of them. */
  function DeliverAll(e: Endpoint, os: seq<Octet>): (t: Trace)
    requires RxValid(e.rx)
    ensures RxValid(t.end.rx)
  {
    if os == [] then Trace(e, [], [])
    else
      var before := DeliverAll(e, os[..|os| - 1]);
      var last := Deliver(before.end, os[|os| - 1]);
      RxStepKeepsValid(before.end.rx, os[|os| - 1]);
      Trace(last.end, before.sent + last.sent, before.delivered + last.delivered)
  }

  function Then(t: Trace, u: Trace): Trace {
    Trace(u.end, t.sent + u.sent, t.delivered + u.delivered)
  }

  lemma {:induction false} DeliverAllConcat(e: Endpoint, os: seq<Octet>, ps: seq<Octet>)
    requires RxValid(e.rx)
    ensures DeliverAll(e, os + ps) == Then(DeliverAll(e, os), DeliverAll(DeliverAll(e, os).end, ps))
  {
    hide Deliver, RxValid;
    if ps == [] {
      assert os + ps == os;
    } else {
      assert (os + ps)[..|os + ps| - 1] == os + ps[..|ps| - 1];
      DeliverAllConcat(e, os, ps[..|ps| - 1]);
    }
  }

  lemma DeliverAllOne(e: Endpoint, o: Octet)
    requires RxValid(e.rx)
    ensures DeliverAll(e, [o]) == Deliver(e, o)
  {
  }

  // ---------- stuffing ----------

  /** Every ESC is followed by an octet that is not reserved. */
  predicate EscapesPaired(s: seq<Octet>) {
    forall i | 0 <= i < |s| && s[i] == ESC :: i + 1 < |s| && !IsReserved(s[i + 1])
  }

  lemma EscapeUndone(o: Octet)
    ensures !IsReserved(o) ==> Escape(o) == [o] && o != ESC
    ensures IsReserved(o) ==> !IsReserved(o ^ ESC_FLIP_BIT) && (o ^ ESC_FLIP_BIT) ^ ESC_FLIP_BIT == o
  {
  }

  /** The stuffed body never looks like a FLAG, never ends in a dangling escape, and is at
      most twice as long. */
  lemma {:induction false} StuffSafe(s: seq<Octet>)
    ensures FLAG !in Stuff(s)
    ensures EscapesPaired(Stuff(s))
    ensures |s| <= |Stuff(s)| <= 2 * |s|
  {
    if s == [] {
    } else {
      StuffSafe(s[..|s| - 1]);
      EscapeUndone(s[|s| - 1]);
    }
  }

  // ---------- the receiver undoes the transmitter ----------

  /** The idle receiver after taking in the octets s, none of them stuffed. */
  function Filled(header: Octet, s: seq<Octet>): Rx {
    if s == [] then Rx(PRESET, false, false, header, [])
    else Rx(Fold(PRESET, s), false, true, s[0], s[1..])
  }

  /** An idle receiver takes a stuffed octet to mean the octet itself. */
  lemma AbsorbEscaped(e: Endpoint, o: Octet)
    requires RxValid(e.rx) && !e.rx.escaping
    ensures DeliverAll(e, Escape(o)) == Trace(Endpoint(Absorb(e.rx, o), e.peer), [], [])
  {
    hide Update;
    EscapeUndone(o);
    if IsReserved(o) {
      var x := o ^ ESC_FLIP_BIT;
      assert [ESC, x] == [ESC] + [x];
      DeliverAllConcat(e, [ESC], [x]);
      DeliverAllOne(e, ESC);
      DeliverAllOne(DeliverAll(e, [ESC]).end, x);
    } else {
      DeliverAllOne(e, o);
    }
  }

  lemma FilledAbsorbs(header: Octet, s: seq<Octet>)
    requires 1 <= |s| <= MAX_PACKET_SIZE + 1
    ensures Absorb(Filled(header, s[..|s| - 1]), s[|s| - 1]) == Filled(header, s)
  {
    hide Update;
    var n := |s| - 1;
    if n > 0 {
      assert s[..n][1..] + [s[n]] == s[1..];
    } else {
      assert s[..n] == [] && s == [s[0]];
      FoldOne(PRESET, s[0]);
    }
  }

  function Idle(header: Octet): Rx {
    Rx(PRESET, false, false, header, [])
  }

  predicate IsIdle(s: Rx) {
    s == Idle(s.header)
  }

  /** What a receiver at rest makes of FLAG, stuffed octets, FLAG. */
  function FrameOutcome(b: seq<Octet>, p: Peer): Outcome
    requires 1 <= |b| <= MAX_PACKET_SIZE + 1
  {
    HandleFrame(Filled(b[0], b), p)
  }

  // ---------- unstuffing ----------

  predicate EndsInEscape(w: seq<Octet>) {
    w != [] && w[|w| - 1] == ESC
  }

  /** The octet meant by o after the octets w. */
  function Plain(w: seq<Octet>, o: Octet): Octet {
    if EndsInEscape(w) then o ^ ESC_FLIP_BIT else o
  }

  /** The octets the receiver takes in from w, none of which is a FLAG. */
  function Unstuff(w: seq<Octet>): seq<Octet> {
    if w == [] then []
    else
      var n := |w| - 1;
      if w[n] == ESC then Unstuff(w[..n])
      else Unstuff(w[..n]) + [Plain(w[..n], w[n])]
  }

  lemma UnstuffOctet(w: seq<Octet>, o: Octet)
    ensures EndsInEscape(w + [o]) <==> o == ESC
    ensures Unstuff(w + [o]) == if o == ESC then Unstuff(w) else Unstuff(w) + [Plain(w, o)]
  {
    assert (w + [o])[..|w|] == w;
  }

  lemma {:induction false} UnstuffGrows(w: seq<Octet>, n: nat)
    requires n <= |w|
    ensures |Unstuff(w[..n])| <= |Unstuff(w)|
    decreases |w|
  {
    if n == |w| {
      assert w[..n] == w;
    } else {
      assert w[..|w| - 1][..n] == w[..n];
      UnstuffGrows(w[..|w| - 1], n);
    }
  }

  lemma UnstuffEscape(w: seq<Octet>, o: Octet)
    requires !EndsInEscape(w)
    ensures Unstuff(w + Escape(o)) == Unstuff(w) + [o] && !EndsInEscape(w + Escape(o))
  {
    EscapeUndone(o);
    var x := o ^ ESC_FLIP_BIT;
    if IsReserved(o) {
      hide Unstuff, EndsInEscape;
      UnstuffOctet(w, ESC);
      UnstuffOctet(w + [ESC], x);
      assert w + Escape(o) == w + [ESC] + [x];
    } else {
      UnstuffOctet(w, o);
    }
  }

  /** Unstuffing undoes stuffing. */
  lemma {:induction false} UnstuffStuff(s: seq<Octet>)
    ensures Unstuff(Stuff(s)) == s && !EndsInEscape(Stuff(s))
  {
    if s == [] {
      assert Unstuff([]) == [];
    } else {
      var n := |s| - 1;
      var w, init := Stuff(s[..n]), s[..n];
      assert Stuff(s) == w + Escape(s[n]);
      hide Unstuff, EndsInEscape, Escape, Stuff;
      UnstuffStuff(init);
      UnstuffEscape(w, s[n]);
      assert init + [s[n]] == s;
    }
  }

  /** The idle receiver after taking in the octets w, none of which is a FLAG. */
  function Holding(header: Octet, w: seq<Octet>): Rx {
    Filled(header, Unstuff(w)).(escaping := EndsInEscape(w))
  }

  lemma HoldsNextOctet(header: Octet, w: seq<Octet>, o: Octet)
    requires |Unstuff(w + [o])| <= MAX_PACKET_SIZE + 1
    ensures RxStep(Holding(header, w), o) == Holding(header, w + [o])
  {
    var s := Unstuff(w);
    var x := Plain(w, o);
    UnstuffOctet(w, o);
    hide Unstuff, EndsInEscape, Absorb;
    if o != ESC {
      assert (s + [x])[..|s|] == s;
      FilledAbsorbs(header, s + [x]);
      AbsorbIgnoresEscaping(Filled(header, s), x);
    }
    hide Filled;
  }

  lemma AbsorbIgnoresEscaping(s: Rx, o: Octet)
    ensures Absorb(s.(escaping := true), o) == Absorb(s.(escaping := false), o)
  {
    hide Update;
  }

  /** Between two FLAGs an idle receiver fills its buffer with the octets unstuffed, whatever they
      are, as long as header and buffer can hold them. */
  lemma {:induction false} ReceiverUnstuffs(e: Endpoint, w: seq<Octet>)
    requires IsIdle(e.rx) && FLAG !in w && |Unstuff(w)| <= MAX_PACKET_SIZE + 1
    ensures RxValid(e.rx)
    ensures DeliverAll(e, w) == Trace(Endpoint(Holding(e.rx.header, w), e.peer), [], [])
  {
    hide Unstuff, Fold, RxStep;
    if w == [] {
      assert Unstuff([]) == [] by { UnstuffStuff([]); }
    } else {
      hide Holding;
      var n := |w| - 1;
      UnstuffGrows(w, n);
      ReceiverUnstuffs(e, w[..n]);
      assert w[..n] + [w[n]] == w;
      HoldsNextOctet(e.rx.header, w[..n], w[n]);
    }
  }

  /** From an idle receiver, stuffed octets fill the buffer with exactly the octets stuffed,
      as long as header and buffer can hold them. */
  lemma StuffedFills(e: Endpoint, s: seq<Octet>)
    requires IsIdle(e.rx)
    requires |s| <= MAX_PACKET_SIZE + 1
    ensures RxValid(e.rx)
    ensures DeliverAll(e, Stuff(s)) == Trace(Endpoint(Filled(e.rx.header, s), e.peer), [], [])
  {
    hide Fold, DeliverAll, Unstuff;
    UnstuffStuff(s);
    StuffSafe(s);
    ReceiverUnstuffs(e, Stuff(s));
  }

  /** What a receiver at rest makes of octets other than FLAG, up to 257 of them once unstuffed,
      and a FLAG. */
  lemma OctetsAtRest(d: Endpoint, w: seq<Octet>)
    requires IsIdle(d.rx) && FLAG !in w && 1 <= |Unstuff(w)| <= MAX_PACKET_SIZE + 1
    ensures RxValid(d.rx)
    ensures var b := Unstuff(w);
            var o := FrameOutcome(b, d.peer);
            DeliverAll(d, w + [FLAG]) == Trace(Endpoint(Idle(b[0]), o.peer), o.sent, o.delivered)
  {
    hide *;
    ReceiverUnstuffs(d, w);
    ClosingFlag(w, d.rx.header, d.peer);
    var full := Endpoint(Holding(d.rx.header, w), d.peer);
    DeliverAllConcat(d, w, [FLAG]);
    DeliverAllOne(full, FLAG);
    NothingFirst(Deliver(full, FLAG), full);
  }

  lemma NothingFirst(t: Trace, e: Endpoint)
    ensures Then(Trace(e, [], []), t) == t
  {
    assert [] + t.sent == t.sent && [] + t.delivered == t.delivered;
  }

  /** The same after a FLAG, from any state. */
  lemma OctetsHandled(e: Endpoint, w: seq<Octet>)
    requires RxValid(e.rx) && FLAG !in w && 1 <= |Unstuff(w)| <= MAX_PACKET_SIZE + 1
    ensures var t, b := Deliver(e, FLAG), Unstuff(w);
            var o := FrameOutcome(b, t.end.peer);
            DeliverAll(e, [FLAG] + w + [FLAG])
            == Then(t, Trace(Endpoint(Idle(b[0]), o.peer), o.sent, o.delivered))
  {
    hide *;
    FlagBringsRest(e);
    OctetsAtRest(Deliver(e, FLAG).end, w);
    DeliverAllOne(e, FLAG);
    assert [FLAG] + w + [FLAG] == [FLAG] + (w + [FLAG]);
    DeliverAllConcat(e, [FLAG], w + [FLAG]);
  }

  lemma ClosingFlag(w: seq<Octet>, h: Octet, p: Peer)
    requires 1 <= |Unstuff(w)| <= MAX_PACKET_SIZE + 1
    ensures var b, s := Unstuff(w), Holding(h, w);
            var o := FrameOutcome(b, p);
            && RxValid(s)
            && Deliver(Endpoint(s, p), FLAG) == Trace(Endpoint(Idle(b[0]), o.peer), o.sent, o.delivered)
  {
    hide Fold, Handle, HandleDamaged, Unstuff, EndsInEscape;
    var b := Unstuff(w);
    assert [b[0]] + b[1..] == b;
  }

  /** From any state a FLAG brings the receiver to rest; a stuffed body of up to 257 octets and
      a second FLAG then hand exactly those octets to the frame handler. */
  lemma StuffedBodyHandled(e: Endpoint, b: seq<Octet>)
    requires RxValid(e.rx) && 1 <= |b| <= MAX_PACKET_SIZE + 1
    ensures var t := Deliver(e, FLAG);
            var o := FrameOutcome(b, t.end.peer);
            DeliverAll(e, [FLAG] + Stuff(b) + [FLAG])
            == Then(t, Trace(Endpoint(Idle(b[0]), o.peer), o.sent, o.delivered))
  {
    hide Unstuff, Stuff, Deliver, DeliverAll, FrameOutcome, RxValid;
    UnstuffStuff(b);
    StuffSafe(b);
    OctetsHandled(e, Stuff(b));
  }

  lemma BodyIsGood(header: Octet, payload: seq<Octet>)
    ensures Fold(PRESET, Body(header, payload)) == GOOD
  {
    hide Update, Trailer, Fold;
    var b := Body(header, payload);
    GoodExactly(b);
    assert b[..|b| - 2] == [header] + payload;
    assert b[|b| - 2..] == Trailer(Fold(PRESET, [header] + payload));
  }

  lemma WellFormedBodyAccepted(f: Frame, p: Peer)
    requires |f.payload| <= MAX_PACKET_SIZE - CRC_SIZE
    ensures FrameOutcome(Body(MakeHeader(f.kind, f.seqno), f.payload), p) == Handle(p, f)
  {
    hide Update, Trailer, Fold, MakeHeader, GetFrameKind, GetFrameSeq, Handle;
    var h := MakeHeader(f.kind, f.seqno);
    var b := Body(h, f.payload);
    BodyIsGood(h, f.payload);
    HeaderRoundTrip(f.kind, f.seqno, h);
    assert b[1..][..|b| - 3] == f.payload;
  }

  /** From any state a FLAG brings the receiver to rest. */
  lemma FlagBringsRest(e: Endpoint)
    requires RxValid(e.rx)
    ensures IsIdle(Deliver(e, FLAG).end.rx)
    ensures IsIdle(e.rx) ==> Deliver(e, FLAG) == Trace(e, [], [])
  {
    hide HandleFrame;
  }

  // ---------- bodies longer than the receiver holds ----------

  /** Absorbing one octet more than header and buffer hold throws the whole frame away. */
  lemma OverflowResets(e: Endpoint, s: seq<Octet>)
    requires IsIdle(e.rx) && |s| == MAX_PACKET_SIZE + 2
    ensures RxValid(e.rx)
    ensures DeliverAll(e, Stuff(s)) == Trace(Endpoint(Idle(s[0]), e.peer), [], [])
  {
    hide Update, Escape, Fold, RxStep, Deliver;
    var n := MAX_PACKET_SIZE + 1;
    StuffedFills(e, s[..n]);
    var full := DeliverAll(e, Stuff(s[..n])).end;
    DeliverAllConcat(e, Stuff(s[..n]), Escape(s[n]));
    AbsorbEscaped(full, s[n]);
  }

  /** The octet after that starts another frame. */
  lemma OverflowStartsAnew(e: Endpoint, s: seq<Octet>)
    requires IsIdle(e.rx) && |s| == MAX_PACKET_SIZE + 3
    ensures RxValid(e.rx)
    ensures var x := s[MAX_PACKET_SIZE + 2];
            DeliverAll(e, Stuff(s)) == Trace(Endpoint(Filled(x, [x]), e.peer), [], [])
  {
    hide Update, Escape, Fold, RxStep, Deliver;
    var n := MAX_PACKET_SIZE + 2;
    var x, init := s[n], s[..n];
    OverflowResets(e, init);
    var rest := DeliverAll(e, Stuff(init)).end;
    DeliverAllConcat(e, Stuff(init), Escape(x));
    AbsorbEscaped(rest, x);
    assert Absorb(Idle(s[0]), x) == Filled(x, [x]) by { FoldOne(PRESET, x); }
  }

  /** One octet too many: the closing FLAG finds nothing. */
  lemma OneTooMany(d: Endpoint, b: seq<Octet>)
    requires IsIdle(d.rx) && |b| == MAX_PACKET_SIZE + 2
    ensures RxValid(d.rx)
    ensures DeliverAll(d, Stuff(b) + [FLAG]) == Trace(Endpoint(Idle(b[0]), d.peer), [], [])
  {
    OverflowResets(d, b);
    hide Deliver, DeliverAll, Stuff;
    DeliverAllConcat(d, Stuff(b), [FLAG]);
    DeliverAllOne(Endpoint(Idle(b[0]), d.peer), FLAG);
    FlagBringsRest(Endpoint(Idle(b[0]), d.peer));
  }

  /** Two octets too many: the closing FLAG finds a frame of one octet. */
  lemma TwoTooMany(d: Endpoint, b: seq<Octet>)
    requires IsIdle(d.rx) && |b| == MAX_PACKET_SIZE + 3
    ensures RxValid(d.rx)
    ensures var o, x := HandleDamaged(d.peer), b[MAX_PACKET_SIZE + 2];
            DeliverAll(d, Stuff(b) + [FLAG]) == Trace(Endpoint(Idle(x), o.peer), o.sent, o.delivered)
  {
    var x := b[MAX_PACKET_SIZE + 2];
    OverflowStartsAnew(d, b);
    hide Deliver, DeliverAll, Stuff, Filled;
    DeliverAllConcat(d, Stuff(b), [FLAG]);
    DeliverAllOne(Endpoint(Filled(x, [x]), d.peer), FLAG);
    OneOctetIsDamaged(x, d.peer);
  }

  lemma OneOctetIsDamaged(x: Octet, p: Peer)
    ensures var s, o := Filled(x, [x]), HandleDamaged(p);
            && RxValid(s)
            && Deliver(Endpoint(s, p), FLAG) == Trace(Endpoint(Idle(x), o.peer), o.sent, o.delivered)
  {
    hide Fold;
    assert [x] + [] == [x];
  }

  // ---------- whole frames ----------

  /** A receiver at rest makes of a transmitted frame, whatever its size, what Arrive says. */
  lemma FrameAtRest(d: Endpoint, f: Frame)
    requires IsIdle(d.rx)
    ensures RxValid(d.rx)
    ensures var o, t := Arrive(d.peer, f), DeliverAll(d, Encode(f));
            IsIdle(t.end.rx) && t == Trace(Endpoint(t.end.rx, o.peer), o.sent, o.delivered)
  {
    hide Update, Fold, Stuff, Handle, HandleDamaged, MakeHeader, Trailer, Deliver, DeliverAll, FrameOutcome;
    var b := Body(MakeHeader(f.kind, f.seqno), f.payload);
    FlagBringsRest(d);
    if Fits(f.payload) {
      StuffedBodyHandled(d, b);
      WellFormedBodyAccepted(f, d.peer);
    } else {
      DeliverAllOne(d, FLAG);
      DeliverAllConcat(d, [FLAG], Stuff(b) + [FLAG]);
      assert Encode(f) == [FLAG] + (Stuff(b) + [FLAG]);
      if |b| == MAX_PACKET_SIZE + 2 {
        OneTooMany(d, b);
      } else {
        TwoTooMany(d, b);
      }
    }
  }

  /** The framing round trip, with self-synchronisation: whatever came before, a transmitted
      frame of at most 254 payload octets reaches the handler as exactly that frame. */
  lemma FrameRoundTrip(e: Endpoint, f: Frame)
    requires RxValid(e.rx) && Fits(f.payload)
    ensures var t := Deliver(e, FLAG);
            var o := Handle(t.end.peer, f);
            DeliverAll(e, Encode(f))
            == Then(t, Trace(Endpoint(Idle(MakeHeader(f.kind, f.seqno)), o.peer), o.sent, o.delivered))
  {
    hide Update, Fold, Stuff, Handle, MakeHeader, Trailer, Deliver, FrameOutcome;
    var b := Body(MakeHeader(f.kind, f.seqno), f.payload);
    StuffedBodyHandled(e, b);
    WellFormedBodyAccepted(f, Deliver(e, FLAG).end.peer);
    assert b[0] == MakeHeader(f.kind, f.seqno);
  }

  /** A receiver at rest handles a stream of encoded frames, of all sizes, exactly as the frames
      one by one. */
  lemma {:induction false} FramesThroughOctets(e: Endpoint, fs: seq<Frame>)
    requires IsIdle(e.rx)
    ensures RxValid(e.rx)
    ensures var t := DeliverAll(e, EncodeAll(fs));
            IsIdle(t.end.rx) && Outcome(t.end.peer, t.sent, t.delivered) == ArriveAll(e.peer, fs)
  {
    hide Arrive, Encode, Deliver, MakeHeader;
    if fs == [] {
    } else {
      hide DeliverAll, RxValid;
      var init, f := fs[..|fs| - 1], fs[|fs| - 1];
      FramesThroughOctets(e, init);
      DeliverAllConcat(e, EncodeAll(init), Encode(f));
      FrameAtRest(DeliverAll(e, EncodeAll(init)).end, f);
    }
  }

  /** sfpWritePacket accepts up to 256 octets, but the receiver keeps the check sequence in the
      same 256-octet buffer: an expected user packet is delivered if and only if it has at
      most 254 octets. A packet of 255 octets vanishes; one of 256 is asked for again. */
  lemma DeliveredIffFits(e: Endpoint, f: Frame)
    requires IsIdle(e.rx)
    requires f.kind == Usr && e.peer.conn == Connected && f.seqno == e.peer.rxSeq
    ensures RxValid(e.rx)
    ensures var t := DeliverAll(e, Encode(f));
            && (t.delivered == [f.payload] <==> |f.payload| <= 254)
            && (t.sent == [Control(Nak, f.seqno)] <==> |f.payload| == 256)
            && (|f.payload| > 254 ==> t.delivered == [] && t.end.peer == e.peer)
  {
    hide Encode, DeliverAll;
    FrameAtRest(e, f);
  }

  lemma ExpectedUsr(p: Peer, f: Frame)
    requires f.kind == Usr && p.conn == Connected && f.seqno == p.rxSeq
    ensures Handle(p, f) == Outcome(p.(rxSeq := NextSeq(p.rxSeq)), [], [f.payload])
  {
  }

  // ---------- damaged and oversized frames ----------

  /** A body that is no longer well formed is answered with a NAK and delivers nothing. */
  lemma BadBodyNaked(b: seq<Octet>, p: Peer)
    requires 1 <= |b| <= MAX_PACKET_SIZE + 1
    ensures FrameOutcome(b, p) == HandleDamaged(p)
       <== |b| < 3 || b[|b| - 2..] != Trailer(Fold(PRESET, b[..|b| - 2]))
  {
    hide Update, Trailer, Fold;
    GoodExactly(b);
  }

  /** What the check sequence of a frame catches for sure: up to three flipped bits, any odd number
      of them, and those within sixteen bits from bit k of octet i on. */
  predicate Caught(w: seq<Octet>, b: seq<Octet>, i: nat, k: Octet)
    requires |w| == |b|
  {
    var n := TotalOnes(Difference(w, b));
    || 1 <= n <= 3
    || n % 2 == 1
    || (&& b != w && i + 3 <= |w| && w[..i] == b[..i] && w[i + 3..] == b[i + 3..]
        && InWindow(Xor(w[i], b[i]), Xor(w[i + 2], b[i + 2]), k))
  }

  lemma CaughtIsBad(w: seq<Octet>, b: seq<Octet>, i: nat, k: Octet)
    requires |w| == |b| <= MAX_PACKET_SIZE + 1 && Caught(w, b, i, k) && Fold(PRESET, w) == GOOD
    ensures Fold(PRESET, b) != GOOD
  {
    hide Fold, InWindow, Xor, Difference, TotalOnes;
    var n := TotalOnes(Difference(w, b));
    if 1 <= n <= 3 {
      FewErrorsDetected(w, b);
    } else if n % 2 == 1 {
      OddErrorsDetected(w, b);
    } else if Fold(PRESET, b) == GOOD {
      BurstsDetected(w, b, i, k);
    }
  }

  /** A frame with such damage is answered with a NAK for the expected sequence number; nothing is
      delivered. */
  lemma DamageIsNaked(e: Endpoint, f: Frame, b: seq<Octet>, i: nat, k: Octet)
    requires IsIdle(e.rx) && Fits(f.payload)
    requires var w := Body(MakeHeader(f.kind, f.seqno), f.payload); |b| == |w| && Caught(w, b, i, k)
    ensures RxValid(e.rx)
    ensures DeliverAll(e, [FLAG] + Stuff(b) + [FLAG])
         == Trace(Endpoint(Idle(b[0]), e.peer), [Control(Nak, e.peer.rxSeq)], [])
  {
    hide Update, Fold, Stuff, Trailer, MakeHeader, Caught;
    var h := MakeHeader(f.kind, f.seqno);
    BodyIsGood(h, f.payload);
    CaughtIsBad(Body(h, f.payload), b, i, k);
    StuffedBodyHandled(e, b);
  }

  /** The same for damage to the octets on the line, as long as it neither makes nor destroys a
      FLAG or ESC: the receiver's octets differ from those stuffed in exactly the flipped bits. */
  lemma WireDamageIsNaked(e: Endpoint, f: Frame, v: seq<Octet>)
    requires IsIdle(e.rx) && Fits(f.payload)
    requires var w := Stuff(Body(MakeHeader(f.kind, f.seqno), f.payload));
             && |v| == |w| && FLAG !in v && (forall j | 0 <= j < |w| :: v[j] == ESC <==> w[j] == ESC)
             && var n := TotalOnes(Difference(w, v)); 1 <= n <= 3 || n % 2 == 1
    ensures RxValid(e.rx) && Unstuff(v) != []
    ensures DeliverAll(e, [FLAG] + v + [FLAG])
         == Trace(Endpoint(Idle(Unstuff(v)[0]), e.peer), [Control(Nak, e.peer.rxSeq)], [])
  {
    hide Update, Fold, Stuff, Trailer, MakeHeader, Unstuff, TotalOnes, Difference, Xor, InWindow;
    var h := MakeHeader(f.kind, f.seqno);
    var body := Body(h, f.payload);
    var w := Stuff(body);
    UnstuffStuff(body);
    UnstuffKeepsDamage(w, v);
    BodyIsGood(h, f.payload);
    CaughtIsBad(body, Unstuff(v), 0, 0);
    OctetsHandled(e, v);
  }

  lemma {:induction false} UnstuffKeepsDamage(w: seq<Octet>, v: seq<Octet>)
    requires |v| == |w| && forall j | 0 <= j < |w| :: v[j] == ESC <==> w[j] == ESC
    ensures |Unstuff(v)| == |Unstuff(w)| && EndsInEscape(v) == EndsInEscape(w)
    ensures TotalOnes(Difference(Unstuff(w), Unstuff(v))) == TotalOnes(Difference(w, v))
  {
    if w == [] {
    } else {
      hide *;
      var n := |w| - 1;
      assert w[..n] + [w[n]] == w && v[..n] + [v[n]] == v;
      UnstuffKeepsDamage(w[..n], v[..n]);
      DamageStep(w[..n], v[..n], w[n], v[n]);
    }
  }

  lemma DamageStep(y: seq<Octet>, x: seq<Octet>, a: Octet, b: Octet)
    requires |y| == |x| && (a == ESC <==> b == ESC)
    requires |Unstuff(x)| == |Unstuff(y)| && EndsInEscape(x) == EndsInEscape(y)
    requires TotalOnes(Difference(Unstuff(y), Unstuff(x))) == TotalOnes(Difference(y, x))
    ensures |Unstuff(x + [b])| == |Unstuff(y + [a])| && EndsInEscape(x + [b]) == EndsInEscape(y + [a])
    ensures TotalOnes(Difference(Unstuff(y + [a]), Unstuff(x + [b]))) == TotalOnes(Difference(y + [a], x + [b]))
  {
    hide *;
    UnstuffOctet(y, a);
    UnstuffOctet(x, b);
    OnesAppend(y, x, a, b);
    if a == ESC {
      NoFlips(ESC);
    } else {
      FlipsCancel(y, x, a, b);
      OnesAppend(Unstuff(y), Unstuff(x), Plain(y, a), Plain(x, b));
    }
  }

  lemma NoFlips(o: Octet)
    ensures Ones(Xor(o, o)) == 0
  {
  }

  lemma OnesAppend(s: seq<Octet>, t: seq<Octet>, a: Octet, b: Octet)
    requires |s| == |t|
    ensures TotalOnes(Difference(s + [a], t + [b])) == TotalOnes(Difference(s, t)) + Ones(Xor(a, b))
  {
    hide Ones, Xor;
    assert Difference(s + [a], t + [b])[..|s|] == Difference(s, t);
  }

  lemma FlipsCancel(y: seq<Octet>, x: seq<Octet>, a: Octet, b: Octet)
    requires EndsInEscape(y) == EndsInEscape(x)
    ensures Xor(Plain(y, a), Plain(x, b)) == Xor(a, b)
  {
  }

  // ---------- a receiver reset in the middle of a frame ----------

  lemma ControlHeader(k: FrameKind, s: Seq)
    requires k == Nak || k == Syn
    ensures !IsReserved(MakeHeader(k, s))
  {
    OctetOf(s);
    SeqFits(s as bv8, s);
    ControlBits(s as bv8);
  }

  lemma ControlBits(x: Octet)
    requires x < 64
    ensures !IsReserved(x | (2 << 6)) && !IsReserved(x | (3 << 6))
  {
  }

  lemma {:induction false} StuffConcat(s: seq<Octet>, t: seq<Octet>)
    ensures Stuff(s + t) == Stuff(s) + Stuff(t)
  {
    hide Escape;
    if t == [] {
      assert s + t == s;
    } else {
      assert (s + t)[..|s + t| - 1] == s + t[..|t| - 1];
      StuffConcat(s, t[..|t| - 1]);
    }
  }

  lemma StuffPlain(o: Octet)
    requires !IsReserved(o)
    ensures Stuff([o]) == [o]
  {
    assert [o][..0] == [];
  }

  lemma {:induction false} UnstuffTail(w: seq<Octet>, j: nat)
    requires j <= |w|
    ensures |Unstuff(w[j..])| <= |Unstuff(w)|
    ensures j < |w| && !EndsInEscape(w) ==> Unstuff(w[j..]) != []
  {
    if j == |w| {
      assert w[j..] == [];
    } else {
      hide Unstuff, Plain, EndsInEscape;
      var n := |w| - 1;
      var y, z := w[..n], w[j..n];
      assert y[j..] == z && w[j..] == z + [w[n]] && w == y + [w[n]];
      UnstuffTail(y, j);
      UnstuffOctet(z, w[n]);
      UnstuffOctet(y, w[n]);
    }
  }

  lemma WithoutFlag(d: Endpoint, v: seq<Octet>)
    requires IsIdle(d.rx)
    ensures RxValid(d.rx)
    ensures DeliverAll(d, v + [FLAG]) == DeliverAll(d, [FLAG] + v + [FLAG])
    ensures ([FLAG] + v + [FLAG])[1..] == v + [FLAG]
  {
    hide *;
    NothingDelivered(d);
    assert [FLAG] + v + [FLAG] == [FLAG] + (v + [FLAG]);
    DeliverAllConcat(d, [FLAG], v + [FLAG]);
    NothingFirst(DeliverAll(d, v + [FLAG]), d);
  }

  lemma ControlOctets(f: Frame) returns (x: seq<Octet>)
    requires f == Control(f.kind, f.seqno) && (f.kind == Nak || f.kind == Syn)
    ensures Encode(f) == [FLAG] + ([MakeHeader(f.kind, f.seqno)] + x) + [FLAG]
    ensures FLAG !in x && |Unstuff(x)| == 2 && !EndsInEscape(x)
  {
    var h := MakeHeader(f.kind, f.seqno);
    var t := Trailer(Fold(PRESET, [h] + f.payload));
    ControlHeader(f.kind, f.seqno);
    assert |t| == 2 && Body(h, f.payload) == [h] + t by { hide Fold; }
    hide MakeHeader, Trailer, Fold, Stuff, Unstuff, IsReserved, EndsInEscape, Body;
    StuffPlain(h);
    StuffConcat([h], t);
    StuffSafe(t);
    UnstuffStuff(t);
    x := Stuff(t);
  }

  /** What is left of a control frame once k octets have passed is, to a receiver at rest, the
      frame itself if only its opening FLAG has, too short a frame if more is left than the
      closing FLAG, and otherwise nothing. */
  lemma RestOfFrame(d: Endpoint, f: Frame, k: nat)
    requires IsIdle(d.rx) && f == Control(f.kind, f.seqno) && (f.kind == Nak || f.kind == Syn)
    requires 1 <= k <= |Encode(f)|
    ensures RxValid(d.rx)
    ensures var t, n := DeliverAll(d, Encode(f)[k..]), |Encode(f)|;
            var o := if k == 1 then Handle(d.peer, f) else if k < n - 1 then HandleDamaged(d.peer)
                     else Outcome(d.peer, [], []);
            IsIdle(t.end.rx) && t == Trace(Endpoint(t.end.rx, o.peer), o.sent, o.delivered)
  {
    var h := MakeHeader(f.kind, f.seqno);
    var x := ControlOctets(f);
    var os := Encode(f);
    hide Encode, MakeHeader, Handle, HandleDamaged, Unstuff, EndsInEscape, DeliverAll, RxValid;
    if k == 1 {
      FrameAtRest(d, f);
      WithoutFlag(d, [h] + x);
    } else if k < |os| - 1 {
      EndOfFrame(h, x, os, k);
      FewOctetsNaked(d, x[k - 2..]);
    } else {
      assert os[k..] == if k == |os| - 1 then [FLAG] else [];
      NothingDelivered(d);
    }
  }

  lemma EndOfFrame(h: Octet, x: seq<Octet>, os: seq<Octet>, k: nat)
    requires os == [FLAG] + ([h] + x) + [FLAG] && 2 <= k < |os| - 1
    requires FLAG !in x && |Unstuff(x)| == 2 && !EndsInEscape(x)
    ensures os[k..] == x[k - 2..] + [FLAG]
    ensures FLAG !in x[k - 2..] && 1 <= |Unstuff(x[k - 2..])| <= 2
  {
    hide Unstuff, EndsInEscape;
    UnstuffTail(x, k - 2);
  }

  lemma NothingDelivered(d: Endpoint)
    requires IsIdle(d.rx)
    ensures RxValid(d.rx)
    ensures DeliverAll(d, []) == DeliverAll(d, [FLAG]) == Trace(d, [], [])
  {
    FlagBringsRest(d);
    DeliverAllOne(d, FLAG);
  }

  lemma FewOctetsNaked(d: Endpoint, v: seq<Octet>)
    requires IsIdle(d.rx) && FLAG !in v && 1 <= |Unstuff(v)| <= 2
    ensures RxValid(d.rx)
    ensures var o := HandleDamaged(d.peer);
            DeliverAll(d, v + [FLAG]) == Trace(Endpoint(Idle(Unstuff(v)[0]), o.peer), o.sent, o.delivered)
  {
    hide Unstuff, DeliverAll, FrameOutcome, HandleDamaged, RxValid, Idle, Fold, Trailer;
    OctetsAtRest(d, v);
    BadBodyNaked(Unstuff(v), d.peer);
  }
}
