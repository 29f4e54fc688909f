/** What brings a receiver that missed packets up to date again. */
module Recovery {
  import opened Octets
  import opened Frames
  import opened Protocol
  import opened Duplex

  /** End b receives one frame. */
  function ReceiveB(l: Link): (m: Link)
    requires l.ab != []
    ensures m.ab == l.ab[1..]
  {
    Apply(l, ByB(Receive))
  }

  /** End b receives everything that is on its way. */
  function Drain(l: Link): Link
    decreases |l.ab|
  {
    if l.ab == [] then l else Drain(ReceiveB(l))
  }

  lemma DrainIsRun(l: Link) returns (moves: seq<Move>)
    ensures IsRun(l, moves) && Run(l, moves) == Drain(l)
    ensures forall m <- moves :: m == ByB(Receive)
    decreases |l.ab|
  {
    hide Next;
    if l.ab == [] {
      moves := [];
    } else {
      var rest := DrainIsRun(ReceiveB(l));
      moves := [ByB(Receive)] + rest;
      assert moves[1..] == rest;
    }
  }

  lemma {:induction false} DrainTakesAll(l: Link)
    ensures Drain(l).a == l.a && Drain(l).ab == []
    decreases |l.ab|
  {
    if l.ab == [] {
    } else {
      assert ReceiveB(l).a == l.a;
      hide ReceiveB;
      DrainTakesAll(ReceiveB(l));
    }
  }

  /** The last frames on the way are undamaged and carry the packets from index k on. */
  predicate EndsWithAll(q: seq<Signal>, n: nat, k: nat)
  {
    && k <= n <= k + |q|
    && forall j | |q| - (n - k) <= j < |q| :: IsData(q[j]) && q[j].index == n - |q| + j
  }

  /** Receiving them takes the receiver to the first packet it cannot take. */
  lemma {:induction false} DrainDeliversAll(l: Link, k: nat)
    requires Good(l) && EndsWithAll(l.ab, |l.a.written|, k)
    requires k <= |l.b.delivered| || l.b.delivered == Deliverable(l.a.written)
    ensures Good(Drain(l)) && Drain(l).a == l.a && Drain(l).ab == []
    ensures Drain(l).b.delivered == Deliverable(l.a.written)
    decreases |l.ab|
  {
    var n := |l.a.written|;
    GoodDelivers(l);
    if l.ab == [] {
    } else {
      var m := ReceiveB(l);
      ReceiveBKeepsGood(l);
      var k' := if |l.ab| == n - k then k + 1 else k;
      GoodDelivers(m);
      ReceivedGrows(l);
      hide Good, Next, ReceiveB, FlowOk, Deliverable;
      assert EndsWithAll(m.ab, n, k') by {
        forall j | |m.ab| - (n - k') <= j < |m.ab|
          ensures IsData(m.ab[j]) && m.ab[j].index == n - |m.ab| + j
        {
          assert m.ab[j] == l.ab[j + 1];
        }
      }
      DrainDeliversAll(m, k');
    }
  }

  /** Receiving never takes packets back, and receiving the next packet delivers it if it can. */
  lemma ReceivedGrows(l: Link)
    requires Good(l) && l.ab != []
    ensures var m := ReceiveB(l);
            && |l.b.delivered| <= |m.b.delivered|
            && (l.b.delivered == Deliverable(l.a.written) ==> m.b.delivered == l.b.delivered)
            && (IsData(l.ab[0]) && l.ab[0].index <= |l.b.delivered| ==>
                  l.ab[0].index < |m.b.delivered| || m.b.delivered == Deliverable(l.a.written))
  {
    if IsData(l.ab[0]) {
      TakeData(Swap(l));
      GoodDelivers(l);
      assert DataAt(l.ab[0], l.a.written, |l.b.delivered|);
    }
  }

  /** Handling a NAK for a packet k that was written, and then receiving whatever is on the way,
      brings the receiver as far as it can get, whatever had been lost: fully up to date if and
      only if it can take every packet from k on. The sender's numbering does not move and its
      history shrinks to exactly the packets from k on. */
  lemma NakRecovers(l: Link)
    requires Good(l) && l.ba != [] && IsNak(l.ba[0]) && l.ba[0].index < |l.a.written|
    ensures var k, m := l.ba[0].index, Next(l, Receive);
            && 0 <= k
            && m.a.peer.txSeq == l.a.peer.txSeq
            && m.a.peer.history == l.a.written[k..]
            && Drain(m).b.delivered == Deliverable(l.a.written)
            && (Drain(m).b.delivered == l.a.written <==> AllFit(l.a.written[k..]))
  {
    var k, m := l.ba[0].index, Next(l, Receive);
    TakeNak(l);
    StepKeepsGood(l, Receive);
    assert NakAt(l.ba[0], Base(l.a), |l.b.delivered|);
    GoodDelivers(l);
    assert AllFit(l.b.delivered) && k <= |l.b.delivered|;
    hide Good, FlowOk, Deliverable, Drain, Next;
    DrainDeliversAll(m, k);
    TailFits(l.a.written, l.b.delivered, k);
  }

  lemma TailFits(written: seq<Packet>, delivered: seq<Packet>, k: nat)
    requires delivered <= written && AllFit(delivered) && k <= |delivered|
    ensures AllFit(written[k..]) <==> Deliverable(written) == written
  {
    DeliverableIsLongest(written, written);
    assert AllFit(written) <==> AllFit(written[k..]) by {
      forall i | 0 <= i < |written| && AllFit(written[k..]) ensures Fits(written[i]) {
        assert i < k ==> written[i] == delivered[i];
        assert i >= k ==> written[i] == written[k..][i - k];
      }
    }
  }

  /** After any losses, once the line is quiet, writing one more packet in the window makes up for
      all of them as far as packets can be taken, unless that packet has 255 octets: then nothing
      happens at all. So everything arrives if and only if no packet is too long. */
  lemma NextWriteRepairs(l: Link, packet: Packet)
    requires Good(l) && l.ab == [] == l.ba && MayWrite(l)
    ensures var all := l.a.written + [packet];
            var asked := Drain(Next(l, Write(packet)));
            var answered := Swap(Drain(Swap(asked)));
            && Drain(answered).b.delivered == (if |packet| == 255 then l.b.delivered else Deliverable(all))
            && (Drain(answered).b.delivered == all <==> AllFit(all))
  {
    var all := l.a.written + [packet];
    var m := Next(l, Write(packet));
    StepKeepsGood(l, Write(packet));
    WriteSends(l, packet);
    GoodDelivers(l);
    DeliverableIsLongest(all, all);
    FirstAnswer(m);
    var asked := ReceiveB(m);
    var answered := Swap(Drain(Swap(asked)));
    assert Drain(m) == asked by { assert Drain(asked) == asked; }
    assert !Fits(packet) ==> !AllFit(all) by { assert all[|all| - 1] == packet; }
    hide Good, Next, Deliverable, AllFit;
    if asked.ba == [] {
      assert answered == asked && Drain(answered) == answered;
    } else {
      NakDrained(asked);
      NakRecovers(asked);
    }
  }

  lemma RepairKeepsWritten(l: Link, packet: Packet)
    ensures var asked := Drain(Next(l, Write(packet)));
            var answered := Swap(Drain(Swap(asked)));
            Drain(answered).a.written == l.a.written + [packet]
  {
    var m := Next(l, Write(packet));
    assert m.a.written == l.a.written + [packet];
    hide Next;
    DrainTakesAll(m);
    DrainKeepsWritten(Swap(Drain(m)));
    DrainTakesAll(Swap(Drain(Swap(Drain(m)))));
  }

  lemma {:induction false} DrainKeepsWritten(l: Link)
    ensures Drain(l).b.written == l.b.written
    decreases |l.ab|
  {
    if l.ab == [] {
    } else {
      assert ReceiveB(l).b.written == l.b.written;
      hide ReceiveB;
      DrainKeepsWritten(ReceiveB(l));
    }
  }

  /** A lone user frame that carries the last packet completes the receiver's, or makes it ask for
      the first packet it misses, or is not noticed. */
  lemma FirstAnswer(m: Link)
    requires Good(m) && m.ba == [] && |m.ab| == 1 && IsData(m.ab[0]) && m.ab[0].frame.kind == Usr
    requires |m.b.delivered| <= m.ab[0].index == |m.a.written| - 1
    ensures var x, size := ReceiveB(m), |m.ab[0].frame.payload|;
            && Good(x) && x.a == m.a && x.ab == []
            && if x.ba == [] then
                 if size == 255 then x.b.delivered == m.b.delivered
                 else x.b.delivered == m.a.written == Deliverable(m.a.written)
               else
                 |x.ba| == 1 && IsNak(x.ba[0]) && x.ba[0].index < |m.a.written| && size != 255
  {
    hide Next, Good, FlowOk, Deliverable, ReceiveB;
    var x := ReceiveB(m);
    ReceiveBKeepsGood(m);
    DataReceived(m);
    if x.ba == [] && |m.ab[0].frame.payload| != 255 {
      LastTaken(x);
    }
  }

  /** What receiving a data frame does, seen from the end that sent it. */
  lemma DataReceived(m: Link)
    requires Good(m) && m.ab != [] && IsData(m.ab[0])
    ensures var x, s, r := ReceiveB(m), m.ab[0], |m.b.delivered|;
            && x.a == m.a && x.ab == m.ab[1..] && x.b.written == m.b.written
            && s.index < |m.a.written| && s.frame.payload == m.a.written[s.index]
            && if s.index == r && Fits(s.frame.payload) then
                 x.b.delivered == m.b.delivered + [m.a.written[r]] && x.ba == m.ba
               else
                 x.b == m.b && x.ba == m.ba + if DrawsNak(s) then [Asking(r)] else []
  {
    TakeData(Swap(m));
    assert DataAt(m.ab[0], m.a.written, |m.b.delivered|);
    hide Next;
  }

  lemma LastTaken(x: Link)
    requires Good(x) && |x.b.delivered| == |x.a.written|
    ensures x.b.delivered == x.a.written == Deliverable(x.a.written)
  {
    GoodDelivers(x);
  }

  /** Receiving the only frame on the way to a drains it. */
  lemma NakDrained(l: Link)
    requires l.ab == [] && |l.ba| == 1
    ensures Swap(Drain(Swap(l))) == Next(l, Receive)
  {
  }

  // ---------- packets too long ----------

  lemma WrittenGrows(l: Link, move: Move)
    requires Enabled(View(l, move), move.step)
    ensures var m := Apply(l, move);
            m.a.written == (if move.ByA? && move.step.Write? then l.a.written + [move.step.packet] else l.a.written)
  {
  }

  lemma {:induction false} RunGrows(l: Link, moves: seq<Move>)
    requires IsRun(l, moves)
    ensures l.a.written <= Run(l, moves).a.written
    decreases |moves|
  {
    hide Apply, Allowed;
    if moves == [] {
    } else {
      assert Enabled(View(l, moves[0]), moves[0].step) by { AllowedIsEnabled(View(l, moves[0]), moves[0].step); }
      WrittenGrows(l, moves[0]);
      RunGrows(Apply(l, moves[0]), moves[1..]);
    }
  }

  lemma AllowedIsEnabled(l: Link, step: Step)
    requires Allowed(l, step)
    ensures Enabled(l, step)
  {
  }

  /** A packet too long for the receiver stops delivery for good: in no run from a good link does
      anything from that packet on ever arrive. */
  lemma OversizedBlocks(l: Link, moves: seq<Move>, j: nat)
    requires Good(l) && IsRun(l, moves)
    requires j < |l.a.written| && !Fits(l.a.written[j])
    ensures Run(l, moves).b.delivered <= Deliverable(l.a.written) <= l.a.written[..j]
  {
    var m := Run(l, moves);
    RunKeepsGood(l, moves);
    RunGrows(l, moves);
    hide Good, IsRun, Run, Apply;
    GoodDelivers(m);
    DeliverableIsLongest(l.a.written, m.a.written);
  }

  /** How many of the packets ps are two octets too long. */
  function TwoOver(ps: seq<Packet>): nat {
    if ps == [] then 0 else (if |ps[0]| == MAX_PACKET_SIZE then 1 else 0) + TwoOver(ps[1..])
  }

  function Times(n: nat, s: Signal): (q: seq<Signal>)
    ensures |q| == n
  {
    seq(n, _ => s)
  }

  lemma OneMoreTime(n: nat, s: Signal)
    ensures Times(n + 1, s) == [s] + Times(n, s) && Times(0, s) == []
  {
  }

  /** A receiver that cannot go on draws one NAK for each retransmission two octets too long. */
  lemma {:induction false} BlockedDrain(l: Link, k: nat)
    requires Good(l) && l.b.delivered == Deliverable(l.a.written) != l.a.written
    requires k <= |l.a.written| && l.ab == Resent(l.a.written, k)
    ensures var naks := Times(TwoOver(l.a.written[k..]), Asking(|l.b.delivered|));
            Drain(l) == l.(ab := [], ba := l.ba + naks)
    decreases |l.ab|
  {
    var rest, nak := l.a.written[k..], Asking(|l.b.delivered|);
    OneMoreTime(0, nak);
    if l.ab == [] {
      assert l.ba + [] == l.ba;
    } else {
      hide Next, Good, ReceiveB, Resent, Deliverable, FlowOk, Times, Asking;
      BlockedStep(l, k);
      assert rest[0] == l.a.written[k] && rest[1..] == l.a.written[k + 1..];
      BlockedDrain(ReceiveB(l), k + 1);
      OneMoreTime(TwoOver(rest[1..]), nak);
    }
  }

  lemma BlockedStep(l: Link, k: nat)
    requires Good(l) && l.b.delivered == Deliverable(l.a.written) != l.a.written
    requires k < |l.a.written| && l.ab == Resent(l.a.written, k)
    ensures var asked := if |l.a.written[k]| == MAX_PACKET_SIZE then [Asking(|l.b.delivered|)] else [];
            ReceiveB(l) == Link(l.a, l.b, Resent(l.a.written, k + 1), l.ba + asked) && Good(ReceiveB(l))
  {
    ResentFirst(l.a.written, k);
    hide Next, Good, Resent, ReceiveB, Deliverable;
    BlockedFrame(l);
    ReceiveBKeepsGood(l);
  }

  lemma ResentFirst(written: seq<Packet>, k: nat)
    requires k < |written|
    ensures var q := Resent(written, k);
            q[0] == Intact(Frame(Rtx, k % SEQ_RANGE, written[k]), k) && q[1..] == Resent(written, k + 1)
  {
  }

  lemma ReceiveBKeepsGood(l: Link)
    requires Good(l) && l.ab != []
    ensures Good(ReceiveB(l)) && ReceiveB(l).a == l.a
  {
    StepKeepsGood(Swap(l), Receive);
    GoodSwap(Next(Swap(l), Receive));
    hide Good;
  }

  /** A data frame at a receiver that cannot go on. */
  lemma BlockedFrame(l: Link)
    requires Good(l) && l.b.delivered == Deliverable(l.a.written) != l.a.written
    requires l.ab != [] && IsData(l.ab[0])
    ensures ReceiveB(l)
         == Link(l.a, l.b, l.ab[1..], l.ba + if DrawsNak(l.ab[0]) then [Asking(|l.b.delivered|)] else [])
  {
    DataReceived(l);
    hide Next, Good, ReceiveB;
  }

  /** With such a packet next, the exchange never comes to rest: each NAK handled leaves as many
      new ones as the history holds packets two octets too long, and nothing else changes. */
  lemma NeverAtRest(l: Link)
    requires Good(l) && l.ab == [] && l.ba != [] && l.ba[0] == Asking(|l.b.delivered|)
    requires l.b.delivered == Deliverable(l.a.written) != l.a.written
    requires l.a.peer.history == l.a.written[|l.b.delivered|..]
    ensures var naks := Times(TwoOver(l.a.peer.history), Asking(|l.b.delivered|));
            Drain(Next(l, Receive)) == l.(ba := l.ba[1..] + naks)
    ensures l.ba == [Asking(|l.b.delivered|)] && TwoOver(l.a.peer.history) == 1 ==> Drain(Next(l, Receive)) == l
  {
    TakeNak(l);
    StepKeepsGood(l, Receive);
    OneMoreTime(0, Asking(|l.b.delivered|));
    hide Next, Good, Resent, TwoOver, Times;
    var m := Next(l, Receive);
    assert m.ab == Resent(l.a.written, |l.b.delivered|);
    BlockedDrain(m, |l.b.delivered|);
  }
}
