/** A rule each end can follow by itself that keeps every write in the window. */
module Pacing {
  import opened Octets
  import opened Frames
  import opened Protocol
  import opened Duplex

  /** Each end may be ahead of what it has been delivered by its credit. */
  datatype Credits = Credits(a: nat, b: nat)

  predicate InCredit(e: End, credit: nat) {
    |e.written| < |e.delivered| + credit
  }

  function CreditOf(c: Credits, m: Move): nat {
    if m.ByA? then c.a else c.b
  }

  /** Every step can be taken, and every write is in the writer's own credit. */
  predicate IsPaced(l: Link, moves: seq<Move>, c: Credits)
    decreases |moves|
  {
    moves == [] ||
    (&& Enabled(View(l, moves[0]), moves[0].step)
     && (moves[0].step.Write? ==> InCredit(View(l, moves[0]).a, CreditOf(c, moves[0])))
     && IsPaced(Apply(l, moves[0]), moves[1..], c))
  }

  // ---------- what the rule keeps ----------

  /** Every NAK came after whatever its sender had written in credit, so its number bounds what
      the other end has got by now, and what it is yet to get ahead of the NAK. */
  predicate NaksBound(q: seq<Signal>, delivered: int, credit: nat) {
    && (forall i | 0 <= i < |q| && IsNak(q[i]) :: delivered <= q[i].index + credit)
    && (forall i, j | 0 <= i < j < |q| && IsData(q[i]) && IsNak(q[j]) :: q[i].index < q[j].index + credit)
  }

  predicate HalfPaced(l: Link, own: nat, other: nat) {
    && |l.a.written| <= |l.a.delivered| + own
    && NaksBound(l.ba, |l.a.delivered|, other)
  }

  predicate Paced(l: Link, c: Credits) {
    HalfPaced(l, c.a, c.b) && HalfPaced(Swap(l), c.b, c.a)
  }

  lemma BoundAppendOthers(q: seq<Signal>, t: seq<Signal>, delivered: int, credit: nat)
    requires NaksBound(q, delivered, credit) && forall i | 0 <= i < |t| :: !IsNak(t[i])
    ensures NaksBound(q + t, delivered, credit)
  {
  }

  lemma BoundAppendNak(q: seq<Signal>, s: Signal, written: seq<Packet>, r: int, delivered: int, credit: nat)
    requires NaksBound(q, delivered, credit) && DataOk(q, written, r)
    requires IsNak(s) && delivered <= |written| <= s.index + credit
    ensures NaksBound(q + [s], delivered, credit)
  {
    forall i | 0 <= i < |q| && IsData(q[i]) ensures q[i].index < s.index + credit {
      assert DataAt(q[i], written, r);
    }
  }

  lemma BoundRest(q: seq<Signal>, delivered: int, credit: nat)
    requires q != [] && NaksBound(q, delivered, credit)
    ensures NaksBound(q[1..], delivered, credit)
    ensures IsData(q[0]) ==> NaksBound(q[1..], q[0].index + 1, credit)
  {
  }

  lemma BoundStruck(q: seq<Signal>, i: nat, delivered: int, credit: nat)
    requires NaksBound(q, delivered, credit)
    ensures i < |q| ==> NaksBound(q[..i] + q[i + 1..], delivered, credit)
    ensures i < |q| ==> NaksBound(q[i := Damaged], delivered, credit)
    ensures i <= |q| ==> NaksBound(q[..i] + [Damaged] + q[i..], delivered, credit)
  {
  }

  /** A write in credit is a write in the window. */
  lemma InCreditMayWrite(l: Link, own: nat, other: nat)
    requires Good(l) && HalfPaced(l, own, other) && HalfPaced(Swap(l), other, own)
    requires own + other <= HISTORY_CAPACITY && InCredit(l.a, own)
    ensures MayWrite(l)
  {
    hide Next, DataOk, NaksOk;
  }

  lemma WriteKeepsPaced(l: Link, packet: Packet, own: nat, other: nat)
    requires Good(l) && HalfPaced(l, own, other) && HalfPaced(Swap(l), other, own)
    requires InCredit(l.a, own)
    ensures var m := Next(l, Write(packet));
            HalfPaced(m, own, other) && HalfPaced(Swap(m), other, own)
  {
    WriteSends(l, packet);
    var m := Next(l, Write(packet));
    hide Next, Good, NaksBound;
    BoundAppendOthers(l.ab, m.ab[|l.ab|..], |l.b.delivered|, own);
  }

  lemma ReceiveKeepsPaced(l: Link, own: nat, other: nat)
    requires Good(l) && HalfPaced(l, own, other) && HalfPaced(Swap(l), other, own)
    requires l.ba != []
    ensures var m := Next(l, Receive);
            HalfPaced(m, own, other) && HalfPaced(Swap(m), other, own)
  {
    var m, s, r := Next(l, Receive), l.ba[0], |l.a.delivered|;
    BoundRest(l.ba, r, other);
    if IsData(s) {
      TakeData(l);
      hide Next, NaksBound;
      if m.ab != l.ab {
        BoundAppendNak(l.ab, Asking(r), l.a.written, |l.b.delivered|, |l.b.delivered|, own);
      }
    } else if IsNak(s) {
      TakeNak(l);
      hide Next, NaksBound;
      BoundAppendOthers(l.ab, Resent(l.a.written, s.index), |l.b.delivered|, own);
    } else {
      assert NoSyn(l.ba) && s == Damaged;
      assert m.ab == l.ab + [Asking(r)] && m.a == l.a;
      hide Next, NaksBound;
      BoundAppendNak(l.ab, Asking(r), l.a.written, |l.b.delivered|, |l.b.delivered|, own);
    }
  }

  lemma StepKeepsPaced(l: Link, step: Step, own: nat, other: nat)
    requires Good(l) && HalfPaced(l, own, other) && HalfPaced(Swap(l), other, own)
    requires Enabled(l, step) && (step.Write? ==> InCredit(l.a, own))
    ensures var m := Next(l, step);
            HalfPaced(m, own, other) && HalfPaced(Swap(m), other, own)
  {
    match step
    case Write(packet) => WriteKeepsPaced(l, packet, own, other);
    case Receive => ReceiveKeepsPaced(l, own, other);
    case _ =>
      BoundStruck(l.ab, step.at, |l.b.delivered|, own);
      hide Good, NaksBound;
  }

  // ---------- runs ----------

  lemma {:induction false} PacedIsRun(l: Link, moves: seq<Move>, c: Credits)
    requires Good(l) && Paced(l, c) && c.a + c.b <= HISTORY_CAPACITY
    requires IsPaced(l, moves, c)
    ensures IsRun(l, moves)
    decreases |moves|
  {
    hide Next, Good, HalfPaced, MayWrite;
    if moves == [] {
    } else {
      var m := moves[0];
      var v, own, other := View(l, m), CreditOf(c, m), if m.ByA? then c.b else c.a;
      GoodSwap(l);
      if m.step.Write? {
        InCreditMayWrite(v, own, other);
      }
      StepKeepsGood(v, m.step);
      GoodSwap(Next(v, m.step));
      StepKeepsPaced(v, m.step, own, other);
      PacedIsRun(Apply(l, m), moves[1..], c);
    }
  }

  /** If neither end ever gets further ahead of what it has been delivered than its credit, and
      the credits add up to eight at most, then all is delivered in order, with no other condition
      on writes. With credits of eight and none, one end answers packets and the other may have
      eight packets unanswered. */
  lemma PacedDelivery(l: Link, moves: seq<Move>, c: Credits)
    requires Fresh(l) && IsPaced(l, moves, c) && c.a + c.b <= HISTORY_CAPACITY
    ensures IsRun(l, moves)
    ensures var m := Run(l, moves);
            && m.b.delivered <= Deliverable(m.a.written) <= m.a.written
            && m.a.delivered <= Deliverable(m.b.written) <= m.b.written
  {
    FreshIsGood(l);
    PacedIsRun(l, moves, c);
    hide Good, Next;
    InOrderDelivery(l, moves);
  }

  // ---------- no more credit than that ----------

  /** One end, whose packets nobody received, writes until it has written nine. */
  lemma {:induction false} WritesTooMuch(l: Link, m: Move, c: Credits, n: nat) returns (moves: seq<Move>)
    requires m.step == Write([])
    requires var v := View(l, m);
             && SenderOk(v.a) && Base(v.a) == 0 && v.b.delivered == [] && |v.a.written| + n == HISTORY_CAPACITY
             && HISTORY_CAPACITY < |v.a.delivered| + CreditOf(c, m)
    ensures IsPaced(l, moves, c) && !IsRun(l, moves)
    decreases n
  {
    var v := View(l, m);
    WriteSends(v, []);
    if n == 0 {
      moves := [m];
      assert moves[1..] == [];
      assert !MayWrite(v);
    } else {
      hide Next, MayWrite;
      var rest := WritesTooMuch(Apply(l, m), m, c, n - 1);
      moves := [m] + rest;
      assert moves[1..] == rest;
    }
  }

  /** Both ends have received all k packets that b wrote, and a wrote none. */
  predicate OneSided(l: Link, k: nat) {
    && Good(l) && l.ab == [] == l.ba
    && |l.b.written| == |l.a.delivered| == k && l.a.written == [] == l.b.delivered
  }

  lemma OneMorePacket(l: Link, k: nat)
    requires OneSided(l, k)
    ensures var w := Apply(l, ByB(Write([])));
            w.ba != [] && OneSided(Apply(w, ByA(Receive)), k + 1)
  {
    var w := Apply(l, ByB(Write([])));
    assert MayWrite(Swap(l)) by { hide Next, DataOk, NaksOk; }
    StepKeepsGood(Swap(l), Write([]));
    GoodSwap(Next(Swap(l), Write([])));
    WriteSends(Swap(l), []);
    StepKeepsGood(w, Receive);
    TakeData(w);
    hide Next, Good;
  }

  lemma PacedPrepended(l: Link, m: Move, rest: seq<Move>, c: Credits) returns (moves: seq<Move>)
    requires Enabled(View(l, m), m.step) && (m.step.Write? ==> InCredit(View(l, m).a, CreditOf(c, m)))
    requires IsPaced(Apply(l, m), rest, c) && !IsRun(Apply(l, m), rest)
    ensures IsPaced(l, moves, c) && !IsRun(l, moves)
  {
    hide Next, MayWrite;
    moves := [m] + rest;
    assert moves[1..] == rest;
  }

  lemma {:induction false} CreditTooHigh(l: Link, c: Credits, k: nat) returns (moves: seq<Move>)
    requires OneSided(l, k) && k <= c.b && HISTORY_CAPACITY < c.a + c.b
    ensures IsPaced(l, moves, c) && !IsRun(l, moves)
    decreases c.b - k
  {
    if k == c.b {
      moves := WritesTooMuch(l, ByA(Write([])), c, HISTORY_CAPACITY);
    } else {
      OneMorePacket(l, k);
      var w := Apply(l, ByB(Write([])));
      assert InCredit(l.b, c.b);
      hide OneSided, MayWrite, Next;
      var rest := CreditTooHigh(Apply(w, ByA(Receive)), c, k + 1);
      var more := PacedPrepended(w, ByA(Receive), rest, c);
      moves := PacedPrepended(l, ByB(Write([])), more, c);
    }
  }

  /** The rule is as generous as it can be: all its runs keep to the window if and only if the
      credits add up to eight at most. */
  lemma CreditsExact(l: Link, c: Credits)
    requires Fresh(l)
    ensures c.a + c.b <= HISTORY_CAPACITY <==> forall moves | IsPaced(l, moves, c) :: IsRun(l, moves)
  {
    FreshIsGood(l);
    hide Good;
    if c.a + c.b <= HISTORY_CAPACITY {
      forall moves | IsPaced(l, moves, c) ensures IsRun(l, moves) {
        PacedIsRun(l, moves, c);
      }
    } else {
      var moves := CreditTooHigh(l, c, 0);
    }
  }
}
