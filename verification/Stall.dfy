/** Which losses a perfect line makes up for: a transmitter whose history is full of packets the
    receiver never got is stuck. */
module Stall {
  import opened Octets
  import opened Frames
  import opened Protocol
  import opened Duplex
  import opened Recovery

  /** Nothing is lost, damaged or made up. */
  predicate Clean(moves: seq<Move>) {
    forall m <- moves :: m.step.Write? || m.step.Receive?
  }

  /** Some clean run, with every write in the window, brings the receiver fully up to date. */
  ghost predicate CanCatchUp(l: Link) {
    exists moves :: IsRun(l, moves) && Clean(moves) && Run(l, moves).b.delivered == Run(l, moves).a.written
  }

  // ---------- a stalled link stays stalled ----------

  /** The history is full, the receiver waits for the oldest packet in it, and nothing on the way
      can make it ask. */
  predicate Stalled(l: Link) {
    && Good(l)
    && |l.a.peer.history| == HISTORY_CAPACITY && Base(l.a) == |l.b.delivered|
    && (forall i | 0 <= i < |l.ab| :: l.ab[i].Intact? && !IsData(l.ab[i]))
    && (forall i | 0 <= i < |l.ba| :: l.ba[i].Intact? && !IsNak(l.ba[i]))
  }

  lemma StalledMayNotWrite(l: Link)
    requires Stalled(l)
    ensures !MayWrite(l) && |l.b.delivered| < |l.a.written|
  {
  }

  lemma SenderReceives(l: Link)
    requires Stalled(l) && l.ba != []
    ensures Stalled(Next(l, Receive))
  {
    StepKeepsGood(l, Receive);
    assert IsData(l.ba[0]) by { assert NoSyn(l.ba); }
    TakeData(l);
    hide Next, Good;
  }

  lemma ReceiverReceives(l: Link)
    requires Stalled(l) && l.ab != []
    ensures Stalled(Swap(Next(Swap(l), Receive)))
  {
    StepKeepsGood(Swap(l), Receive);
    GoodSwap(Next(Swap(l), Receive));
    assert IsNak(l.ab[0]) by { assert NoSyn(l.ab); }
    TakeNak(Swap(l));
    hide Next, Good;
  }

  lemma ReceiverWrites(l: Link, packet: Packet)
    requires Stalled(l) && MayWrite(Swap(l))
    ensures Stalled(Swap(Next(Swap(l), Write(packet))))
  {
    StepKeepsGood(Swap(l), Write(packet));
    GoodSwap(Next(Swap(l), Write(packet)));
    WriteSends(Swap(l), packet);
    hide Next, Good;
  }

  lemma {:induction false} StalledForGood(l: Link, moves: seq<Move>)
    requires Stalled(l) && IsRun(l, moves) && Clean(moves)
    ensures Stalled(Run(l, moves))
    decreases |moves|
  {
    hide Next, Stalled, MayWrite;
    if moves == [] {
    } else {
      var m := moves[0];
      StalledMayNotWrite(l);
      if m.step.Write? {
        ReceiverWrites(l, m.step.packet);
      } else if m.ByA? {
        SenderReceives(l);
      } else {
        ReceiverReceives(l);
      }
      StalledForGood(Apply(l, m), moves[1..]);
    }
  }

  // ---------- any other link recovers ----------

  /** The receiver of a lone user frame asks at most once. */
  lemma FirstAsks(l: Link, packet: Packet)
    requires Good(l) && l.ab == [] == l.ba && MayWrite(l)
    ensures var m := Next(l, Write(packet));
            Drain(m).ab == [] && |Drain(m).ba| <= 1
  {
    var m := Next(l, Write(packet));
    StepKeepsGood(l, Write(packet));
    WriteSends(l, packet);
    FirstAnswer(m);
    assert Drain(m) == ReceiveB(m) by { assert Drain(ReceiveB(m)) == ReceiveB(m); }
  }

  ghost predicate LeadsTo(l: Link, m: Link) {
    exists moves :: IsRun(l, moves) && Clean(moves) && Run(l, moves) == m
  }

  lemma OneMove(l: Link, move: Move)
    requires Allowed(View(l, move), move.step) && (move.step.Write? || move.step.Receive?)
    ensures LeadsTo(l, Apply(l, move))
  {
    assert Enabled(View(l, move), move.step);
    hide Next, Allowed;
    var moves := [move];
    assert moves[1..] == [];
    NoMoves(Apply(l, move));
    assert IsRun(l, moves);
    assert Run(l, moves) == Run(Apply(l, move), moves[1..]);
  }

  lemma NoMoves(l: Link)
    ensures IsRun(l, []) && Run(l, []) == l
  {
  }

  lemma LeadsOn(l: Link, m: Link, n: Link)
    requires LeadsTo(l, m) && LeadsTo(m, n)
    ensures LeadsTo(l, n)
  {
    hide IsRun, Run;
    var xs :| IsRun(l, xs) && Clean(xs) && Run(l, xs) == m;
    var ys :| IsRun(m, ys) && Clean(ys) && Run(m, ys) == n;
    RunConcat(l, xs, ys);
    assert Clean(xs + ys);
  }

  lemma LeadsToDrained(l: Link)
    ensures LeadsTo(l, Drain(l))
  {
    hide IsRun, Run;
    var moves := DrainIsRun(l);
  }

  lemma CatchesUp(l: Link)
    requires Good(l) && l.ab == [] == l.ba && MayWrite(l) && AllFit(l.a.written)
    ensures CanCatchUp(l)
  {
    var m := Next(l, Write([]));
    var asked := Drain(m);
    var answered := Swap(Drain(Swap(asked)));
    NextWriteRepairs(l, []);
    assert AllFit(l.a.written + [[]]);
    FirstAsks(l, []);
    RepairKeepsWritten(l, []);
    OneMove(l, ByA(Write([])));
    hide Good, AllFit, Next, LeadsTo, Deliverable, FlowOk;
    LeadsToDrained(m);
    LeadsOn(l, m, asked);
    if asked.ba == [] {
      assert Drain(Swap(asked)) == Swap(asked);
    } else {
      NakDrained(asked);
      OneMove(asked, ByA(Receive));
      LeadsOn(l, asked, answered);
    }
    LeadsToDrained(answered);
    LeadsOn(l, answered, Drain(answered));
    WrittenStays(l, Drain(answered));
  }

  /** The run's last link has all that was written delivered, and nothing more was written. */
  lemma WrittenStays(l: Link, n: Link)
    requires LeadsTo(l, n) && n.b.delivered == n.a.written
    ensures CanCatchUp(l)
  {
    hide IsRun, Run;
    var moves :| IsRun(l, moves) && Clean(moves) && Run(l, moves) == n;
  }

  /** A quiet link with packets missing gets them all over a perfect line if and only if its
      sender may write one more packet and no packet written is too long. Otherwise no packets
      written at the other end and no frames received will ever bring them. */
  lemma CatchUpExact(l: Link)
    requires Good(l) && l.ab == [] == l.ba && |l.b.delivered| < |l.a.written|
    ensures CanCatchUp(l) <==> MayWrite(l) && AllFit(l.a.written)
  {
    if MayWrite(l) && AllFit(l.a.written) {
      CatchesUp(l);
    } else if CanCatchUp(l) {
      var moves :| IsRun(l, moves) && Clean(moves) && Run(l, moves).b.delivered == Run(l, moves).a.written;
      if MayWrite(l) {
        LongPacketStays(l, moves);
      } else {
        assert Stalled(l) by { hide Next, DataOk, NaksOk; }
        StalledForGood(l, moves);
        StalledMayNotWrite(Run(l, moves));
      }
    }
  }

  lemma LongPacketStays(l: Link, moves: seq<Move>)
    requires Good(l) && IsRun(l, moves) && !AllFit(l.a.written)
    ensures |Run(l, moves).b.delivered| < |Run(l, moves).a.written|
  {
    hide Good, IsRun, Run;
    var j :| 0 <= j < |l.a.written| && !Fits(l.a.written[j]);
    OversizedBlocks(l, moves, j);
    RunGrows(l, moves);
  }
}
