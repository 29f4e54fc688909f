/** The RPC server object: its handlers update the subscription table and the motor cache in
    place and hand serialised messages to the packet writer, a ghost log here. */
module Rpc {
  import opened Octets
  import opened Messages
  import opened RpcSpec
  import opened Publications

  class RpcServer {
    // whether a packet writer is set, and the time since the connection as the clock gives it
    const hasWriter: bool
    var elapsed: bv32

    const motor: array<Octet>
    const subs: array<Subscription>
    const tmp: array<Octet>
    const outBuf: array<Octet>

    // the messages handed to the packet writer since the last reset, and the motor values then
    ghost var outbox: seq<Message>
    ghost var start: seq<Octet>

    ghost predicate Shape()
      reads this
    {
      && motor.Length == MOTORS && subs.Length == SUB_MAX
      && tmp.Length == MAX_PACKET_SIZE && outBuf.Length == MAX_PACKET_SIZE
      && motor != tmp && motor != outBuf && tmp != outBuf
      && subs as object != motor && subs as object != tmp && subs as object != outBuf
      && |start| == MOTORS
    }

    /** Unused slots are zero, and a client that has applied every message has the motor values. */
    ghost predicate Valid()
      reads this, motor, subs
    {
      && Shape()
      && WellKept(subs[..])
      && (hasWriter ==> Mirror(start, outbox) == motor[..])
    }

    constructor (hasWriter: bool, motor: array<Octet>, subs: array<Subscription>, tmp: array<Octet>,
                 outBuf: array<Octet>)
      requires motor.Length == MOTORS && subs.Length == SUB_MAX
      requires tmp.Length == MAX_PACKET_SIZE && outBuf.Length == MAX_PACKET_SIZE
      requires motor != tmp && motor != outBuf && tmp != outBuf
      requires subs as object != motor && subs as object != tmp && subs as object != outBuf
      requires forall i | 0 <= i < SUB_MAX :: subs[i] == EMPTY
      ensures Valid() && outbox == [] && start == motor[..]
      ensures this.hasWriter == hasWriter && elapsed == 0
      ensures this.motor == motor && this.subs == subs && this.tmp == tmp && this.outBuf == outBuf
    {
      this.hasWriter, this.motor, this.subs, this.tmp, this.outBuf := hasWriter, motor, subs, tmp, outBuf;
      elapsed := 0;
      outbox := [];
      start := motor[..];
    }

    /** serverReset: the table is emptied, the clock starts again and the motor cache stays. */
    method Reset()
      requires Shape()
      modifies this`outbox, this`elapsed, this`start, subs
      ensures Valid() && outbox == [] && elapsed == 0
      ensures motor[..] == old(motor[..]) == start
      ensures forall i | 0 <= i < SUB_MAX :: subs[i] == EMPTY
    {
      elapsed, outbox, start := 0, [], motor[..];
      for i := 0 to SUB_MAX
        invariant Shape() && motor[..] == old(motor[..]) == start && outbox == [] && elapsed == 0
        invariant forall j | 0 <= j < i :: subs[j] == EMPTY
      {
        subs[i] := EMPTY;
      }
    }

    /** Time passes. */
    method Tick(now: bv32)
      requires Valid()
      modifies this`elapsed
      ensures Valid() && elapsed == now
    {
      elapsed := now;
    }

    // ---------- sending ----------

    ghost function Sent(ms: seq<Message>): seq<Message> {
      if hasWriter then ms else []
    }

    lemma SentJoin(before: seq<Message>, ms: seq<Message>, ns: seq<Message>)
      ensures before + Sent(ms) + Sent(ns) == before + Sent(ms + ns)
    {
    }

    lemma SentSince(before: seq<Message>, ms: seq<Message>)
      ensures hasWriter ==> (before + Sent(ms))[|before|..] == ms
    {
    }

    /** rpcSend: the message goes out if there is a writer and it fits a packet. */
    method Send(m: Message) returns (ret: int)
      requires Shape() && WellFormed(m)
      modifies this`outbox, outBuf
      ensures var ok := hasWriter && !m.fields.Unknown? && |Serialized(m)| <= MAX_PACKET_SIZE;
              ret == (if ok then 0 else -1) && outbox == old(outbox) + if ok then [m] else []
    {
      hide Head;
      if !hasWriter {
        return -1;
      }
      var outlen;
      ret, outlen := Serialize(m, outBuf, MAX_PACKET_SIZE);
      if ret == 0 {
        assert outBuf[..outlen] == Serialized(m);
        outbox := outbox + [m];
      }
    }

    method SendData(reqId: bv16, topic: Octet, subtopic: Octet, flag: Octet, value: seq<Octet>)
      requires Shape() && |value| <= 50
      modifies this`outbox, outBuf
      ensures var m := DataMessage(reqId, topic, subtopic, flag, elapsed, value);
              && outbox == old(outbox) + Sent([m])
              && (hasWriter ==> Mirror(start, outbox) == ApplyMessage(Mirror(start, old(outbox)), m))
              && (hasWriter && Harmless(m) ==> Mirror(start, outbox) == Mirror(start, old(outbox)))
    {
      hide Head, Mirror, ApplyMessage, Harmless;
      var m := DataMessage(reqId, topic, subtopic, flag, elapsed, value);
      var _ := Send(m);
      MirrorSnoc(start, old(outbox), m);
      if Harmless(m) {
        HarmlessChangesNothing(Mirror(start, old(outbox)), m);
      }
    }

    // ---------- slots ----------

    /** rpcSubFind: without a place to put the slot, nothing is ever reported found. */
    method SubFind(reqId: bv16, wanted: bool) returns (found: int, slot: nat)
      requires Shape()
      ensures !wanted ==> found == 0
      ensures wanted ==> slot == FirstMatch(subs[..], reqId)
                         && found == if slot < SUB_MAX then 1 else 0
    {
      found, slot := 0, SUB_MAX;
      var i := 0;
      while i < SUB_MAX
        invariant 0 <= i <= SUB_MAX
        invariant wanted ==> forall j | 0 <= j < i :: !Matches(subs[j], reqId)
      {
        if subs[i].active && subs[i].reqId == reqId {
          if wanted {
            FirstMatchIs(subs[..], reqId, i);
            return 1, i;
          }
        }
        i := i + 1;
      }
      if wanted {
        FirstMatchIs(subs[..], reqId, SUB_MAX);
      }
    }

    /** rpcSubFree: the number of free slots and the first of them, SUB_MAX if there is none. */
    method SubFree() returns (count: nat, slot: nat)
      requires Shape()
      ensures count == FreeCount(subs[..]) && slot == FirstFree(subs[..])
    {
      count, slot := 0, SUB_MAX;
      var i := 0;
      while i < SUB_MAX
        invariant 0 <= i <= SUB_MAX
        invariant count == FreeCount(subs[..i])
        invariant slot == SUB_MAX || slot < i
        invariant slot < i ==> !subs[slot].active
        invariant forall j | 0 <= j < i && j < slot :: subs[j].active
      {
        assert subs[..i + 1][..i] == subs[..i];
        if !subs[i].active {
          if slot == SUB_MAX {
            slot := i;
          }
          count := count + 1;
        }
        i := i + 1;
      }
      assert subs[..i] == subs[..];
      FirstFreeIs(subs[..], slot);
    }

    /** rpcSendPubError and rpcSendRepError */
    method SendError(reqId: bv16, topic: Octet, subtopic: Octet, flag: Octet, error: Octet)
      requires Valid() && flag & FLAG_ERROR != 0
      modifies this`outbox, outBuf
      ensures Valid()
      ensures outbox == old(outbox) + Sent([ErrorMessage(reqId, topic, subtopic, flag, elapsed, error)])
    {
      hide Mirror, ApplyMessage;
      SendData(reqId, topic, subtopic, flag, [error]);
    }

    /** rpcRecvSubscribe. The check for a request id already in use asks rpcSubFind without a
        place for the slot, so it never fires. */
    method RecvSubscribe(reqId: bv16, topic: Octet, subtopic: Octet)
      requires Valid()
      modifies this`outbox, subs, outBuf
      ensures Valid()
      ensures subs[..] == Subscribed(old(subs[..]), Subscription(true, reqId, topic, subtopic))
      ensures forall i | 0 <= i < SUB_MAX && !old(subs[i]).active
                           && (forall j | 0 <= j < i :: old(subs[j]).active) ::
                && subs[i].active && subs[i].reqId == reqId && subs[i].topic == topic && subs[i].subtopic == subtopic
                && (forall j | 0 <= j < SUB_MAX && j != i :: subs[j] == old(subs[j]))
                && outbox == old(outbox)
      ensures (forall i | 0 <= i < SUB_MAX :: old(subs[i]).active) ==>
                && subs[..] == old(subs[..])
                && (hasWriter ==>
                      && |outbox| == |old(outbox)| + 1
                      && Says(outbox[|old(outbox)|], reqId, topic, subtopic, 0x07, elapsed, [0x04]))
      ensures outbox == old(outbox)
                      + if FreeCount(old(subs[..])) == 0
                        then Sent([ErrorMessage(reqId, topic, subtopic, PUB_ERROR, elapsed, ERROR_SUB_MAX)])
                        else []
    {
      hide Mirror, ApplyMessage, DataMessage, Says;
      var found, _ := SubFind(reqId, false);
      if found != 0 {
        assert false;
      }
      var free, slot := SubFree();
      FreeIffFirst(subs[..]);
      if free == 0 {
        SendError(reqId, topic, subtopic, PUB_ERROR, ERROR_SUB_MAX);
        DataSays(reqId, topic, subtopic, PUB_ERROR, elapsed, [ERROR_SUB_MAX]);
        return;
      }
      subs[slot] := Subscription(true, reqId, topic, subtopic);
      assert subs[..] == old(subs[..])[slot := Subscription(true, reqId, topic, subtopic)];
    }

    /** rpcRecvUnsubscribe: the end is announced even when there is nothing to end. */
    method RecvUnsubscribe(reqId: bv16)
      requires Valid()
      modifies this`outbox, subs, outBuf
      ensures Valid()
      ensures subs[..] == Unsubscribed(old(subs[..]), reqId)
      ensures var i := FirstMatch(old(subs[..]), reqId);
              var flag := FLAG_PUB | FLAG_END;
              outbox == old(outbox) + Sent(
                if i < SUB_MAX then
                  [DataMessage(reqId, old(subs[i]).topic, old(subs[i]).subtopic, flag, elapsed, [])]
                else
                  [ErrorMessage(reqId, TOPIC_ALL, SUBTOPIC_ALL, PUB_ERROR, elapsed, BAD_REQ_ID),
                   DataMessage(reqId, TOPIC_ALL, SUBTOPIC_ALL, flag, elapsed, [])])
      ensures forall i | 0 <= i < SUB_MAX && Has(old(subs[i]), reqId)
                           && (forall j | 0 <= j < i :: !Has(old(subs[j]), reqId)) ::
                && subs[i] == Subscription(false, 0, 0, 0)
                && (forall j | 0 <= j < SUB_MAX && j != i :: subs[j] == old(subs[j]))
                && (hasWriter ==> Ends(outbox[|old(outbox)|..], old(subs[i]), elapsed))
      ensures (forall i | 0 <= i < SUB_MAX :: !Has(old(subs[i]), reqId)) ==>
                && subs[..] == old(subs[..])
                && (hasWriter ==> EndsNothing(outbox[|old(outbox)|..], reqId, elapsed))
    {
      hide Mirror, ApplyMessage, Says;
      var flag := FLAG_PUB | FLAG_END;
      var found, slot := SubFind(reqId, true);
      if found == 0 {
        DataSays(reqId, TOPIC_ALL, SUBTOPIC_ALL, PUB_ERROR, elapsed, [BAD_REQ_ID]);
        DataSays(reqId, TOPIC_ALL, SUBTOPIC_ALL, flag, elapsed, []);
        SendError(reqId, TOPIC_ALL, SUBTOPIC_ALL, PUB_ERROR, BAD_REQ_ID);
        SendData(reqId, TOPIC_ALL, SUBTOPIC_ALL, flag, []);
      } else {
        DataSays(reqId, subs[slot].topic, subs[slot].subtopic, flag, elapsed, []);
        SendData(subs[slot].reqId, subs[slot].topic, subs[slot].subtopic, flag, []);
        SubReset(slot);
      }
    }

    method SubReset(slot: nat)
      requires Valid() && slot < SUB_MAX
      modifies subs
      ensures Valid() && subs[..] == old(subs[..])[slot := EMPTY]
    {
      subs[slot] := EMPTY;
      assert subs[..] == old(subs[..])[slot := EMPTY];
    }

    // ---------- publishing ----------

    method SendPub(slot: nat, value: seq<Octet>)
      requires Shape() && slot < SUB_MAX && |value| <= 50
      modifies this`outbox, outBuf
      ensures var m := Publication(subs[slot], elapsed, value);
              && outbox == old(outbox) + Sent([m])
              && (hasWriter ==> Mirror(start, outbox) == ApplyMessage(Mirror(start, old(outbox)), m))
              && (hasWriter && Harmless(m) ==> Mirror(start, outbox) == Mirror(start, old(outbox)))
    {
      hide Mirror, ApplyMessage, Harmless;
      SendData(subs[slot].reqId, subs[slot].topic, subs[slot].subtopic, FLAG_PUB, value);
    }

    /** A subscription that cannot be served is told why and dropped. */
    method Drop(slot: nat, error: Octet)
      requires Valid() && slot < SUB_MAX
      modifies this`outbox, subs, outBuf
      ensures Valid() && subs[..] == old(subs[..])[slot := EMPTY]
      ensures outbox == old(outbox) + Sent([Refusal(old(subs[slot]), elapsed, error)])
    {
      hide Mirror;
      SendError(subs[slot].reqId, subs[slot].topic, subs[slot].subtopic, PUB_ERROR, error);
      SubReset(slot);
    }

    /** rpcPublishClock; now is the reading of a foreign clock. */
    method PublishClock(slot: nat, now: seq<Octet>)
      requires Valid() && slot < SUB_MAX && |now| == 8 && subs[slot].topic == TOPIC_CLOCK
      modifies this`outbox, subs, outBuf
      ensures Valid()
      ensures subs[..]
           == if old(subs[slot]).subtopic == SUBTOPIC_NOW then old(subs[..]) else old(subs[..])[slot := EMPTY]
      ensures outbox == old(outbox) + Sent(ClockMessages(old(subs[slot]), elapsed, now))
    {
      hide Mirror, ApplyMessage;
      if subs[slot].subtopic == SUBTOPIC_NOW {
        SendPub(slot, now);
      } else {
        Drop(slot, BAD_SUBTOPIC);
      }
    }

    /** Cache the reading of motor i and list it in tmp from tlen on. */
    method NoteReading(i: nat, value: Octet, tlen: nat)
      requires Shape() && i < MOTORS && tlen <= 2 * i
      modifies motor, tmp
      ensures motor[..] == old(motor[..])[i := value]
      ensures tmp[..tlen + 2] == old(tmp[..tlen]) + [i as bv8, value]
    {
      motor[i] := value;
      tmp[tlen] := i as bv8;
      tmp[tlen + 1] := value;
      assert tmp[..tlen] == old(tmp[..tlen]);
    }

    /** The loop over all motors: changed ones are cached and listed in tmp. */
    method CollectChanges(readings: seq<Octet>) returns (tlen: nat)
      requires Shape() && |readings| == MOTORS
      modifies motor, tmp
      ensures motor[..] == readings
      ensures tlen <= 2 * MOTORS && tmp[..tlen] == Changes(old(motor[..]), readings, MOTORS)
    {
      hide PolledTo;
      tlen := 0;
      ghost var was := motor[..];
      PolledToEnds(was, readings);
      var i := 0;
      while i < MOTORS
        invariant 0 <= i <= MOTORS && tlen <= 2 * i
        invariant motor[..] == PolledTo(was, readings, i)
        invariant tmp[..tlen] == Changes(was, readings, i)
      {
        PolledToNext(was, readings, i);
        assert motor[i] == was[i];
        if readings[i] != motor[i] {
          NoteReading(i, readings[i], tlen);
          tlen := tlen + 2;
        } else {
          assert motor[..] == motor[..][i := readings[i]];
        }
        i := i + 1;
      }
    }

    /** rpcPublishMotor: only changes are published, and the cache follows the readings. */
    method PublishMotor(slot: nat, readings: seq<Octet>)
      requires Valid() && slot < SUB_MAX && |readings| == MOTORS && subs[slot].topic == TOPIC_MOTOR
      modifies this`outbox, subs, outBuf, motor, tmp
      ensures Valid()
      ensures subs[..] == if Servable(old(subs[slot])) then old(subs[..]) else old(subs[..])[slot := EMPTY]
      ensures motor[..] == Polled(old(motor[..]), old(subs[slot]).subtopic, readings)
      ensures outbox == old(outbox) + Sent(MotorMessages(old(subs[slot]), elapsed, old(motor[..]), readings))
    {
      hide Mirror, ApplyPairs, Changes, PolledTo;
      var subtopic := subs[slot].subtopic;
      ghost var was := motor[..];
      if (subtopic as nat) < MOTORS {
        var index := subtopic as nat;
        var value := readings[index];
        if value == motor[index] {
          assert motor[..] == motor[..][index := value];
          return;
        }
        motor[index] := value;
        SendPub(slot, [value]);
        assert motor[..] == was[index := value];
      } else if subtopic == SUBTOPIC_ALL {
        PairsReachReadings(was, readings, MOTORS);
        PolledToEnds(was, readings);
        var tlen := CollectChanges(readings);
        if tlen > 0 {
          SendPub(slot, tmp[..tlen]);
        }
      } else {
        Drop(slot, BAD_SUBTOPIC);
      }
    }

    /** rpcPublishAll: the slot stands in for a clock and a motor subscription in turn. */
    method PublishAll(slot: nat, readings: seq<Octet>, now: seq<Octet>)
      requires Valid() && slot < SUB_MAX && |readings| == MOTORS && |now| == 8
      requires subs[slot].active && subs[slot].topic == TOPIC_ALL
      modifies this`outbox, subs, outBuf, motor, tmp
      ensures Valid()
      ensures subs[..]
           == if old(subs[slot]).subtopic == SUBTOPIC_ALL then old(subs[..]) else old(subs[..])[slot := EMPTY]
      ensures motor[..] == if old(subs[slot]).subtopic == SUBTOPIC_ALL then readings else old(motor[..])
      ensures outbox == old(outbox) + Sent(PublishMessages(old(subs[slot]), elapsed, old(motor[..]), readings, now))
      ensures hasWriter ==>
                Due(outbox[|old(outbox)|..], old(subs[slot]), elapsed, old(motor[..]), readings, now)
    {
      hide Mirror, ClockMessages, MotorMessages, Due;
      PublishDue(subs[slot], elapsed, motor[..], readings, now);
      SentSince(outbox, PublishMessages(subs[slot], elapsed, motor[..], readings, now));
      if subs[slot].subtopic == SUBTOPIC_ALL {
        var topic, subtopic := subs[slot].topic, subs[slot].subtopic;
        subs[slot] := subs[slot].(topic := TOPIC_CLOCK, subtopic := SUBTOPIC_NOW);
        PublishClock(slot, now);
        subs[slot] := subs[slot].(topic := TOPIC_MOTOR, subtopic := SUBTOPIC_ALL);
        PublishMotor(slot, readings);
        subs[slot] := subs[slot].(topic := topic, subtopic := subtopic);
        assert subs[..] == old(subs[..]);
      } else {
        Drop(slot, BAD_SUBTOPIC);
      }
    }

    /** rpcPublish */
    method Publish(slot: nat, readings: seq<Octet>, now: seq<Octet>)
      requires Valid() && slot < SUB_MAX && |readings| == MOTORS && |now| == 8
      modifies this`outbox, subs, outBuf, motor, tmp
      ensures Valid()
      ensures subs[..] == old(subs[..])[slot := Served(old(subs[slot]))]
      ensures motor[..] == MotorAfter(old(subs[slot]), old(motor[..]), readings)
      ensures outbox == old(outbox) + Sent(PublishMessages(old(subs[slot]), elapsed, old(motor[..]), readings, now))
      ensures hasWriter ==>
                Due(outbox[|old(outbox)|..], old(subs[slot]), elapsed, old(motor[..]), readings, now)
      ensures subs[slot] == if old(subs[slot]).active then SlotAfter(old(subs[slot])) else old(subs[slot])
      ensures forall i | 0 <= i < SUB_MAX && i != slot :: subs[i] == old(subs[i])
      ensures CacheFollows(old(subs[slot]), old(motor[..]), readings, motor[..])
    {
      hide Mirror, ApplyMessage, ClockMessages, MotorMessages, Due, CacheFollows;
      PublishDue(subs[slot], elapsed, motor[..], readings, now);
      SentSince(outbox, PublishMessages(subs[slot], elapsed, motor[..], readings, now));
      TurnLeaves(subs[slot], motor[..], readings);
      assert subs[..] == subs[..][slot := subs[slot]];
      if !subs[slot].active {
        return;
      }
      var topic := subs[slot].topic;
      if topic == TOPIC_CLOCK {
        PublishClock(slot, now);
      } else if topic == TOPIC_MOTOR {
        PublishMotor(slot, readings);
      } else if topic == TOPIC_ALL {
        PublishAll(slot, readings, now);
      } else {
        Drop(slot, BAD_TOPIC);
      }
    }

    /** The publishing half of rpcLoop; the readings may differ from slot to slot. */
    method PublishRound(polls: seq<seq<Octet>>, now: seq<Octet>)
      requires Valid() && |now| == 8
      requires |polls| == SUB_MAX && forall i | 0 <= i < SUB_MAX :: |polls[i]| == MOTORS
      modifies this`outbox, subs, outBuf, motor, tmp
      ensures Valid()
      ensures subs[..] == AllServed(old(subs[..]))
      ensures motor[..] == RoundMotor(old(subs[..]), old(motor[..]), polls, SUB_MAX)
      ensures outbox == old(outbox)
                      + Sent(RoundMessages(old(subs[..]), elapsed, old(motor[..]), polls, now, SUB_MAX))
      ensures forall i | 0 <= i < SUB_MAX ::
                subs[i] == if old(subs[i]).active then SlotAfter(old(subs[i])) else old(subs[i])
      ensures hasWriter ==> exists cuts, caches ::
                && RoundDue(outbox[|old(outbox)|..], old(subs[..]), elapsed, polls, now, cuts, caches)
                && caches[0] == old(motor[..]) && caches[SUB_MAX] == motor[..]
    {
      ghost var t, was := subs[..], motor[..];
      assert RoundMotor(t, was, polls, 0) == was && RoundMessages(t, elapsed, was, polls, now, 0) == [];
      hide Mirror, Served, WellKept, ServedTo, MotorAfter, PublishMessages, RoundMotor, RoundMessages;
      assert outbox == outbox + Sent([]);
      hide Sent, RoundDue, SlotAfter, Due, CacheFollows;
      ServedToEnds(t);
      var i := 0;
      while i < SUB_MAX
        invariant 0 <= i <= SUB_MAX && Valid()
        invariant subs[..] == ServedTo(t, i)
        invariant motor[..] == RoundMotor(t, was, polls, i)
        invariant outbox == old(outbox) + Sent(RoundMessages(t, elapsed, was, polls, now, i))
      {
        ServedToNext(t, i);
        RoundNext(t, elapsed, was, polls, now, i);
        assert subs[i] == t[i];
        SentJoin(old(outbox), RoundMessages(t, elapsed, was, polls, now, i),
                 PublishMessages(t[i], elapsed, motor[..], polls[i], now));
        Publish(i, polls[i], now);
        i := i + 1;
      }
      SentSince(old(outbox), RoundMessages(t, elapsed, was, polls, now, SUB_MAX));
      RoundIsDue(t, elapsed, was, polls, now);
      SlotsServed(t, was);
    }

    // ---------- reading ----------

    method SendRep(reqId: bv16, topic: Octet, subtopic: Octet, value: seq<Octet>)
      requires Shape() && |value| <= 50
      modifies this`outbox, outBuf
      ensures var m := DataMessage(reqId, topic, subtopic, FLAG_END, elapsed, value);
              && outbox == old(outbox) + Sent([m])
              && (hasWriter ==> Mirror(start, outbox) == ApplyMessage(Mirror(start, old(outbox)), m))
              && (hasWriter && Harmless(m) ==> Mirror(start, outbox) == Mirror(start, old(outbox)))
    {
      hide Mirror, ApplyMessage, Harmless;
      SendData(reqId, topic, subtopic, FLAG_END, value);
    }

    /** The loop over all motors of a read: every motor is cached and listed. */
    method CollectAll(readings: seq<Octet>) returns (tlen: nat)
      requires Shape() && |readings| == MOTORS
      modifies motor, tmp
      ensures motor[..] == readings
      ensures tlen == 2 * MOTORS && tmp[..tlen] == AllPairs(readings, MOTORS)
    {
      hide PolledTo;
      tlen := 0;
      ghost var was := motor[..];
      PolledToEnds(was, readings);
      var i := 0;
      while i < MOTORS
        invariant 0 <= i <= MOTORS && tlen == 2 * i
        invariant motor[..] == PolledTo(was, readings, i)
        invariant tmp[..tlen] == AllPairs(readings, i)
      {
        PolledToNext(was, readings, i);
        NoteReading(i, readings[i], tlen);
        tlen := tlen + 2;
        i := i + 1;
      }
    }

    /** rpcRecvReadMotor */
    method RecvReadMotor(reqId: bv16, subtopic: Octet, readings: seq<Octet>)
      requires Valid() && |readings| == MOTORS
      modifies this`outbox, outBuf, motor, tmp
      ensures Valid()
      ensures motor[..] == Polled(old(motor[..]), subtopic, readings)
      ensures subs[..] == old(subs[..])
      ensures outbox == old(outbox) + Sent([MotorAnswer(reqId, subtopic, elapsed, readings)])
      ensures hasWriter ==>
                && |outbox| == |old(outbox)| + 1
                && AnswersMotorRead(outbox[|old(outbox)|], reqId, subtopic, elapsed, readings)
    {
      hide Mirror, ApplyPairs, AllPairs, PolledTo, AnswersMotorRead;
      MotorAnswered(reqId, subtopic, elapsed, readings);
      ghost var was := motor[..];
      if (subtopic as nat) < MOTORS {
        var index := subtopic as nat;
        motor[index] := readings[index];
        SendRep(reqId, TOPIC_MOTOR, subtopic, [readings[index]]);
        assert motor[..] == was[index := readings[index]];
      } else if subtopic == SUBTOPIC_ALL {
        PairsReachReadings(was, readings, MOTORS);
        PolledToEnds(was, readings);
        var tlen := CollectAll(readings);
        SendRep(reqId, TOPIC_MOTOR, subtopic, tmp[..tlen]);
      } else {
        SendError(reqId, TOPIC_MOTOR, subtopic, REP_ERROR, BAD_SUBTOPIC);
      }
    }

    /** The loop that lists the active slots in tmp. */
    method List() returns (tlen: nat)
      requires Shape()
      modifies tmp
      ensures tlen <= 50 && tmp[..tlen] == Listing(subs[..])
    {
      hide Line;
      tlen := 0;
      var i := 0;
      while i < SUB_MAX
        invariant 0 <= i <= SUB_MAX && tlen <= 5 * i
        invariant tmp[..tlen] == Listing(subs[..i])
      {
        assert subs[..i + 1][..i] == subs[..i];
        if subs[i].active {
          ListSlot(i, tlen);
          tlen := tlen + 5;
        }
        i := i + 1;
      }
      assert subs[..i] == subs[..];
    }

    method ListSlot(i: nat, tlen: nat)
      requires Shape() && i < SUB_MAX && tlen <= 5 * i
      modifies tmp
      ensures tmp[..tlen + 5] == old(tmp[..tlen]) + Line(i, subs[i])
    {
      hide Big16;
      tmp[tlen] := i as bv8;
      tmp[tlen + 1] := Big16(subs[i].reqId)[0];
      tmp[tlen + 2] := Big16(subs[i].reqId)[1];
      tmp[tlen + 3] := subs[i].topic;
      tmp[tlen + 4] := subs[i].subtopic;
      assert tmp[..tlen] == old(tmp[..tlen]);
    }

    method SendAnswer(reqId: bv16, subtopic: Octet, flag: Octet, value: seq<Octet>)
      requires Valid() && |value| <= 50
      modifies this`outbox, outBuf
      ensures Valid() && outbox == old(outbox) + Sent([Answer(reqId, subtopic, flag, elapsed, value)])
    {
      hide Mirror, ApplyMessage;
      SendData(reqId, TOPIC_PUBSUB, subtopic, flag, value);
    }

    method SendCounts(reqId: bv16, free: nat)
      requires Valid() && free <= SUB_MAX
      modifies this`outbox, outBuf
      ensures Valid()
      ensures outbox == old(outbox) + Sent(Counts(reqId, elapsed, free))
    {
      hide Mirror, DataMessage, WellKept;
      SendAnswer(reqId, SUBTOPIC_COUNT, 0, [(SUB_MAX - free) as bv8]);
      SendAnswer(reqId, SUBTOPIC_FREE, 0, [free as bv8]);
      SendAnswer(reqId, SUBTOPIC_MAX, 0, [SUB_MAX as bv8]);
    }

    method SendWholeTable(reqId: bv16, free: nat)
      requires Valid() && free == FreeCount(subs[..])
      modifies this`outbox, outBuf, tmp
      ensures Valid() && subs[..] == old(subs[..])
      ensures outbox == old(outbox) + Sent(WholeTable(reqId, elapsed, subs[..]))
    {
      hide Mirror, Listing, FreeCount, DataMessage, WellKept, Answer, Counts, Sent;
      ListingReadsBack(subs[..]);
      ghost var list := [Answer(reqId, SUBTOPIC_LIST, 0, elapsed, Listing(subs[..]))];
      ghost var counts := Counts(reqId, elapsed, free);
      SentJoin(outbox, list, counts);
      SentJoin(outbox, list + counts, [Answer(reqId, SUBTOPIC_ALL, FLAG_END, elapsed, [])]);
      var tlen := List();
      SendAnswer(reqId, SUBTOPIC_LIST, 0, tmp[..tlen]);
      SendCounts(reqId, free);
      SendAnswer(reqId, SUBTOPIC_ALL, FLAG_END, []);
    }

    /** rpcRecvReadPubsub */
    method RecvReadPubsub(reqId: bv16, subtopic: Octet)
      requires Valid()
      modifies this`outbox, outBuf, tmp
      ensures Valid() && subs[..] == old(subs[..])
      ensures outbox == old(outbox) + Sent(PubsubAnswers(reqId, subtopic, elapsed, subs[..]))
      ensures hasWriter ==> AnswersTableRead(outbox[|old(outbox)|..], reqId, subtopic, elapsed, subs[..])
    {
      hide Mirror, Big16, Listing, FreeCount, DataMessage, WellKept, AnswersTableRead;
      TableAnswered(reqId, subtopic, elapsed, subs[..]);
      SentSince(outbox, PubsubAnswers(reqId, subtopic, elapsed, subs[..]));
      var free, _ := SubFree();
      ListingReadsBack(subs[..]);
      if (subtopic as nat) < SUB_MAX {
        var i := subtopic as nat;
        if !subs[i].active {
          SendAnswer(reqId, subtopic, FLAG_END, []);
        } else {
          SendAnswer(reqId, subtopic, FLAG_END, Big16(subs[i].reqId) + [subs[i].topic, subs[i].subtopic]);
        }
      } else if subtopic == SUBTOPIC_COUNT {
        SendAnswer(reqId, subtopic, FLAG_END, [(SUB_MAX - free) as bv8]);
      } else if subtopic == SUBTOPIC_FREE {
        SendAnswer(reqId, subtopic, FLAG_END, [free as bv8]);
      } else if subtopic == SUBTOPIC_MAX {
        SendAnswer(reqId, subtopic, FLAG_END, [SUB_MAX as bv8]);
      } else if subtopic == SUBTOPIC_LIST {
        var tlen := List();
        SendAnswer(reqId, subtopic, FLAG_END, tmp[..tlen]);
      } else if subtopic == SUBTOPIC_ALL {
        SendWholeTable(reqId, free);
      } else {
        SendError(reqId, TOPIC_PUBSUB, subtopic, REP_ERROR, BAD_SUBTOPIC);
      }
    }
  }
}
