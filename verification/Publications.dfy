/** What the server's messages say, field by field, in the numbers the protocol gives to topics,
    flags and errors. */
module Publications {
  import opened Octets
  import opened Messages
  import opened RpcSpec

  /** A data message with these fields and this value. */
  predicate Says(m: Message, reqId: bv16, topic: Octet, subtopic: Octet, flag: Octet, elapsed: bv32,
                 value: seq<Octet>)
  {
    && m.fields.Data?
    && m.fields.reqId == reqId && m.fields.topic == topic && m.fields.subtopic == subtopic
    && m.fields.flag == flag && m.fields.timestamp == elapsed
    && m.fields.len as int == |value| && m.value == value
  }

  lemma DataSays(reqId: bv16, topic: Octet, subtopic: Octet, flag: Octet, elapsed: bv32, value: seq<Octet>)
    requires |value| < 256
    ensures var m := DataMessage(reqId, topic, subtopic, flag, elapsed, value);
            Says(m, reqId, topic, subtopic, flag, elapsed, value)
  {
    OctetOf(|value|);
  }

  // ---------- the end of a subscription ----------

  predicate Has(s: Subscription, reqId: bv16) {
    s.active && s.reqId == reqId
  }

  /** Its end is published (flags 2 and 1) without a value. */
  predicate Ends(ms: seq<Message>, s: Subscription, elapsed: bv32) {
    |ms| == 1 && Says(ms[0], s.reqId, s.topic, s.subtopic, 0x03, elapsed, [])
  }

  /** Where there was none, an error is published first. */
  predicate EndsNothing(ms: seq<Message>, reqId: bv16, elapsed: bv32) {
    && |ms| == 2
    && Says(ms[0], reqId, 0xff, 0xff, 0x07, elapsed, [0x01])
    && Says(ms[1], reqId, 0xff, 0xff, 0x03, elapsed, [])
  }

  // ---------- one subscription's turn ----------

  /** The time, published (flag 2) on topic 1, subtopic 0. */
  predicate TellsTime(m: Message, s: Subscription, elapsed: bv32, now: seq<Octet>) {
    Says(m, s.reqId, 0x01, 0x00, 0x02, elapsed, now)
  }

  /** A refusal: published, in error and final (flags 2, 4 and 1), with the error's number. */
  predicate Refuses(ms: seq<Message>, s: Subscription, elapsed: bv32, error: Octet) {
    |ms| == 1 && Says(ms[0], s.reqId, s.topic, s.subtopic, 0x07, elapsed, [error])
  }

  function MotorAt(v: seq<Octet>, k: nat): int
    requires k < |v| / 2
  {
    v[2 * k] as int
  }

  /** v lists motors whose reading differs from the cache, each with its reading. */
  predicate OnlyChanges(v: seq<Octet>, was: seq<Octet>, readings: seq<Octet>, n: nat)
    requires |was| == |readings| && n <= |was|
  {
    && |v| % 2 == 0
    && forall k | 0 <= k < |v| / 2 ::
         MotorAt(v, k) < n && v[2 * k + 1] == readings[MotorAt(v, k)] != was[MotorAt(v, k)]
  }

  predicate InOrder(v: seq<Octet>) {
    forall j, k | 0 <= j < k < |v| / 2 :: MotorAt(v, j) < MotorAt(v, k)
  }

  predicate Lists(v: seq<Octet>, i: nat) {
    exists k :: 0 <= k < |v| / 2 && MotorAt(v, k) == i
  }

  /** v lists exactly the first n motors whose reading differs from the cache, in order. */
  predicate ListsChanges(v: seq<Octet>, was: seq<Octet>, readings: seq<Octet>, n: nat)
    requires |was| == |readings| && n <= |was|
  {
    && OnlyChanges(v, was, readings, n) && InOrder(v)
    && forall i | 0 <= i < n && readings[i] != was[i] :: Lists(v, i)
  }

  /** One message on topic 2, subtopic 255, if any reading differs, and none otherwise. */
  predicate TellsMotors(ms: seq<Message>, s: Subscription, elapsed: bv32, was: seq<Octet>, readings: seq<Octet>)
    requires |was| == |readings|
  {
    if readings == was then ms == []
    else |ms| == 1 && Says(ms[0], s.reqId, 0x02, 0xff, 0x02, elapsed, ms[0].value)
         && ListsChanges(ms[0].value, was, readings, |was|)
  }

  predicate TellsMotor(ms: seq<Message>, s: Subscription, elapsed: bv32, was: Octet, reading: Octet) {
    if reading == was then ms == []
    else |ms| == 1 && Says(ms[0], s.reqId, 0x02, s.subtopic, 0x02, elapsed, [reading])
  }

  /** What a subscription is due in its turn, with was the motor cache before it. */
  predicate Due(ms: seq<Message>, s: Subscription, elapsed: bv32, was: seq<Octet>, readings: seq<Octet>,
                now: seq<Octet>)
    requires |was| == |readings| == 10
  {
    if !s.active then ms == []
    else if s.topic == 0x01 && s.subtopic == 0x00 then |ms| == 1 && TellsTime(ms[0], s, elapsed, now)
    else if s.topic == 0x02 && s.subtopic < 10 then
      TellsMotor(ms, s, elapsed, was[s.subtopic as int], readings[s.subtopic as int])
    else if s.topic == 0x02 && s.subtopic == 0xff then TellsMotors(ms, s, elapsed, was, readings)
    else if s.topic == 0xff && s.subtopic == 0xff then
      |ms| >= 1 && TellsTime(ms[0], s, elapsed, now) && TellsMotors(ms[1..], s, elapsed, was, readings)
    else if s.topic == 0x01 || s.topic == 0x02 || s.topic == 0xff then Refuses(ms, s, elapsed, 0x03)
    else Refuses(ms, s, elapsed, 0x02)
  }

  /** A slot after its turn: cleared if its subscription cannot be served. */
  function SlotAfter(s: Subscription): Subscription {
    if s.topic == 0x01 && s.subtopic == 0x00 then s
    else if s.topic == 0x02 && (s.subtopic < 10 || s.subtopic == 0xff) then s
    else if s.topic == 0xff && s.subtopic == 0xff then s
    else Subscription(false, 0, 0, 0)
  }

  /** Motor i is read in the turn of s. */
  predicate Reads(s: Subscription, i: nat) {
    && s.active
    && ((s.topic == 0x02 && (s.subtopic as int == i || s.subtopic == 0xff)) || (s.topic == 0xff && s.subtopic == 0xff))
  }

  /** The motor cache follows the readings where they were taken. */
  predicate CacheFollows(s: Subscription, was: seq<Octet>, readings: seq<Octet>, after: seq<Octet>)
    requires |was| == |readings| == |after|
  {
    forall i | 0 <= i < |was| :: after[i] == if Reads(s, i) then readings[i] else was[i]
  }

  lemma {:induction false} ChangesListed(was: seq<Octet>, readings: seq<Octet>, i: nat)
    requires |was| == |readings| == MOTORS && i <= MOTORS
    ensures ListsChanges(Changes(was, readings, i), was, readings, i)
  {
    if i == 0 {
    } else {
      ChangesListed(was, readings, i - 1);
      OctetOf(i - 1);
      ChangesMore(Changes(was, readings, i - 1), was, readings, i - 1, (i - 1) as bv8);
    }
  }

  lemma ChangesMore(v: seq<Octet>, was: seq<Octet>, readings: seq<Octet>, i: nat, o: Octet)
    requires |was| == |readings| == MOTORS && i < MOTORS && ListsChanges(v, was, readings, i) && o as int == i
    ensures ListsChanges(v + if readings[i] == was[i] then [] else [o, readings[i]], was, readings, i + 1)
  {
    if readings[i] == was[i] {
      assert v + [] == v;
    } else {
      var w := v + [o, readings[i]];
      assert MotorsBelow(v, i);
      OneMoreChange(v, was, readings, i, o);
      OneMoreInOrder(v, i, o, readings[i]);
      PairAdded(v, o, readings[i]);
      hide OnlyChanges, InOrder, Lists;
    }
  }

  predicate MotorsBelow(v: seq<Octet>, i: nat) {
    forall k | 0 <= k < |v| / 2 :: MotorAt(v, k) < i
  }

  lemma OneMoreChange(v: seq<Octet>, was: seq<Octet>, readings: seq<Octet>, i: nat, o: Octet)
    requires |was| == |readings| == MOTORS && i < MOTORS && OnlyChanges(v, was, readings, i)
    requires o as int == i && readings[i] != was[i]
    ensures OnlyChanges(v + [o, readings[i]], was, readings, i + 1)
  {
    hide Lists;
    PairAdded(v, o, readings[i]);
  }

  lemma OneMoreInOrder(v: seq<Octet>, i: nat, o: Octet, x: Octet)
    requires |v| % 2 == 0 && InOrder(v) && MotorsBelow(v, i) && o as int == i
    ensures InOrder(v + [o, x])
  {
    hide Lists;
    PairAdded(v, o, x);
  }

  lemma PairAdded(v: seq<Octet>, o: Octet, x: Octet)
    requires |v| % 2 == 0
    ensures var w := v + [o, x];
            && |w| / 2 == |v| / 2 + 1 && MotorAt(w, |v| / 2) == o as int && w[|w| - 1] == x
            && (forall k | 0 <= k < |v| / 2 :: MotorAt(w, k) == MotorAt(v, k) && w[2 * k + 1] == v[2 * k + 1])
            && Lists(w, o as int) && forall i: nat :: Lists(v, i) ==> Lists(w, i)
  {
    var w := v + [o, x];
    forall k | 0 <= k < |v| / 2 ensures MotorAt(w, k) == MotorAt(v, k) && w[2 * k + 1] == v[2 * k + 1] {
    }
    assert MotorAt(w, |v| / 2) == o as int;
    forall i: nat | Lists(v, i) ensures Lists(w, i) {
      var k :| 0 <= k < |v| / 2 && MotorAt(v, k) == i;
      assert MotorAt(w, k) == i;
    }
  }

  lemma ChangesNone(was: seq<Octet>, readings: seq<Octet>)
    requires |was| == |readings| == MOTORS
    ensures Changes(was, readings, MOTORS) == [] <==> readings == was
  {
    PairsReachReadings(was, readings, MOTORS);
    PolledToEnds(was, readings);
    hide Changes, ApplyPairs;
  }

  lemma SmallOctet(o: Octet)
    ensures o < 10 <==> o as int < 10
  {
  }

  lemma MotorsTold(s: Subscription, elapsed: bv32, was: seq<Octet>, readings: seq<Octet>)
    requires s.topic == TOPIC_MOTOR && s.subtopic == SUBTOPIC_ALL && |was| == |readings| == MOTORS
    ensures TellsMotors(MotorMessages(s, elapsed, was, readings), s, elapsed, was, readings)
  {
    var v := Changes(was, readings, MOTORS);
    ChangesNone(was, readings);
    ChangesListed(was, readings, MOTORS);
    DataSays(s.reqId, s.topic, s.subtopic, 0x02, elapsed, v);
    SmallOctet(s.subtopic);
    assert (s.subtopic as nat) < MOTORS ==> s.subtopic < 10;
    hide Changes, ListsChanges, Says, DataMessage;
  }

  lemma MotorDue(s: Subscription, elapsed: bv32, was: seq<Octet>, readings: seq<Octet>, now: seq<Octet>)
    requires s.active && s.topic == TOPIC_MOTOR && |was| == |readings| == MOTORS
    ensures Due(MotorMessages(s, elapsed, was, readings), s, elapsed, was, readings, now)
  {
    SmallOctet(s.subtopic);
    if s.subtopic < 10 {
      DataSays(s.reqId, s.topic, s.subtopic, 0x02, elapsed, [readings[s.subtopic as int]]);
    } else if s.subtopic == SUBTOPIC_ALL {
      MotorsTold(s, elapsed, was, readings);
    } else {
      DataSays(s.reqId, s.topic, s.subtopic, 0x07, elapsed, [BAD_SUBTOPIC]);
    }
    hide Changes, TellsMotors, Says, DataMessage;
  }

  lemma ClockDue(s: Subscription, elapsed: bv32, was: seq<Octet>, readings: seq<Octet>, now: seq<Octet>)
    requires s.active && s.topic == TOPIC_CLOCK && |now| == 8 && |was| == |readings| == MOTORS
    ensures Due(ClockMessages(s, elapsed, now), s, elapsed, was, readings, now)
  {
    DataSays(s.reqId, s.topic, s.subtopic, 0x02, elapsed, now);
    DataSays(s.reqId, s.topic, s.subtopic, 0x07, elapsed, [BAD_SUBTOPIC]);
    hide Says, DataMessage;
  }

  /** A subscription to everything is told the time, and then what has changed of the motors. */
  lemma AllDue(s: Subscription, elapsed: bv32, was: seq<Octet>, readings: seq<Octet>, now: seq<Octet>)
    requires s.active && s.topic == TOPIC_ALL && s.subtopic == SUBTOPIC_ALL
    requires |now| == 8 && |was| == |readings| == MOTORS
    ensures Due(PublishMessages(s, elapsed, was, readings, now), s, elapsed, was, readings, now)
  {
    var c, m := s.(topic := TOPIC_CLOCK, subtopic := SUBTOPIC_NOW), s.(topic := TOPIC_MOTOR, subtopic := SUBTOPIC_ALL);
    ClockDue(c, elapsed, was, readings, now);
    MotorsTold(m, elapsed, was, readings);
    hide MotorMessages, Says, DataMessage, ListsChanges;
    var ms, ns := ClockMessages(c, elapsed, now), MotorMessages(m, elapsed, was, readings);
    assert (ms + ns)[1..] == ns;
  }

  /** Every subscription gets in its turn exactly what it is due. */
  lemma PublishDue(s: Subscription, elapsed: bv32, was: seq<Octet>, readings: seq<Octet>, now: seq<Octet>)
    requires |now| == 8 && |was| == |readings| == MOTORS
    ensures Due(PublishMessages(s, elapsed, was, readings, now), s, elapsed, was, readings, now)
  {
    hide MotorMessages, ClockMessages, Says, DataMessage, TellsMotors, TellsMotor;
    if !s.active {
    } else if s.topic == TOPIC_CLOCK {
      ClockDue(s, elapsed, was, readings, now);
    } else if s.topic == TOPIC_MOTOR {
      MotorDue(s, elapsed, was, readings, now);
    } else if s.topic == TOPIC_ALL && s.subtopic == SUBTOPIC_ALL {
      AllDue(s, elapsed, was, readings, now);
    } else {
      DataSays(s.reqId, s.topic, s.subtopic, 0x07, elapsed, [BAD_SUBTOPIC]);
      DataSays(s.reqId, s.topic, s.subtopic, 0x07, elapsed, [BAD_TOPIC]);
    }
  }

  /** And its slot and the motor cache afterwards are these. */
  lemma TurnLeaves(s: Subscription, was: seq<Octet>, readings: seq<Octet>)
    requires |was| == |readings| == MOTORS
    ensures Served(s) == if s.active then SlotAfter(s) else s
    ensures CacheFollows(s, was, readings, MotorAfter(s, was, readings))
  {
    SmallOctet(s.subtopic);
  }

  lemma SlotsServed(t: seq<Subscription>, was: seq<Octet>)
    requires |was| == MOTORS
    ensures forall i | 0 <= i < |t| :: AllServed(t)[i] == if t[i].active then SlotAfter(t[i]) else t[i]
  {
    hide Served, SlotAfter;
    forall i | 0 <= i < |t| ensures Served(t[i]) == if t[i].active then SlotAfter(t[i]) else t[i] {
      TurnLeaves(t[i], was, was);
    }
  }

  // ---------- a whole round ----------

  /** Slot i had the messages from the i-th cut up to the next, and they were what it was due. */
  predicate SlotDue(ms: seq<Message>, t: seq<Subscription>, elapsed: bv32, polls: seq<seq<Octet>>,
                    now: seq<Octet>, cuts: seq<nat>, caches: seq<seq<Octet>>, i: nat)
    requires i < |t| == |polls| && |cuts| == |caches| == |t| + 1
  {
    && cuts[i] <= cuts[i + 1] <= |ms|
    && |polls[i]| == |caches[i]| == |caches[i + 1]| == 10
    && Due(ms[cuts[i]..cuts[i + 1]], t[i], elapsed, caches[i], polls[i], now)
    && CacheFollows(t[i], caches[i], polls[i], caches[i + 1])
  }

  /** The messages ms of a round over the table t fall into one run for each slot, in order, with
      caches[i] the motor cache before the turn of slot i. */
  predicate RoundDue(ms: seq<Message>, t: seq<Subscription>, elapsed: bv32, polls: seq<seq<Octet>>,
                     now: seq<Octet>, cuts: seq<nat>, caches: seq<seq<Octet>>)
    requires |polls| == |t|
  {
    && |cuts| == |caches| == |t| + 1 && cuts[0] == 0 && cuts[|t|] == |ms|
    && forall i | 0 <= i < |t| :: SlotDue(ms, t, elapsed, polls, now, cuts, caches, i)
  }

  lemma {:induction false} RoundPrefix(t: seq<Subscription>, elapsed: bv32, was: seq<Octet>, polls: seq<seq<Octet>>,
                                       now: seq<Octet>, i: nat, n: nat)
    requires |was| == MOTORS && i <= n <= |t| == |polls| && |now| == 8
    requires forall j | 0 <= j < |polls| :: |polls[j]| == MOTORS
    ensures RoundMessages(t, elapsed, was, polls, now, i) <= RoundMessages(t, elapsed, was, polls, now, n)
    decreases n
  {
    hide PublishMessages, MotorAfter;
    if i == n {
    } else {
      RoundPrefix(t, elapsed, was, polls, now, i, n - 1);
    }
  }

  /** Where the messages of each slot begin, and the motor cache then. */
  function Cuts(t: seq<Subscription>, elapsed: bv32, was: seq<Octet>, polls: seq<seq<Octet>>,
                now: seq<Octet>): (cuts: seq<nat>)
    requires |was| == MOTORS && |t| == |polls| && |now| == 8
    requires forall j | 0 <= j < |polls| :: |polls[j]| == MOTORS
    ensures |cuts| == |t| + 1
  {
    seq(|t| + 1, i requires 0 <= i <= |t| => |RoundMessages(t, elapsed, was, polls, now, i)|)
  }

  function Caches(t: seq<Subscription>, was: seq<Octet>, polls: seq<seq<Octet>>): (caches: seq<seq<Octet>>)
    requires |was| == MOTORS && |t| == |polls|
    requires forall j | 0 <= j < |polls| :: |polls[j]| == MOTORS
    ensures |caches| == |t| + 1
  {
    seq(|t| + 1, i requires 0 <= i <= |t| => RoundMotor(t, was, polls, i))
  }

  lemma SlotIsDue(t: seq<Subscription>, elapsed: bv32, was: seq<Octet>, polls: seq<seq<Octet>>, now: seq<Octet>,
                  i: nat)
    requires |was| == MOTORS && i < |t| == |polls| && |now| == 8
    requires forall j | 0 <= j < |polls| :: |polls[j]| == MOTORS
    ensures var ms := RoundMessages(t, elapsed, was, polls, now, |t|);
            SlotDue(ms, t, elapsed, polls, now, Cuts(t, elapsed, was, polls, now), Caches(t, was, polls), i)
  {
    hide Due, CacheFollows, RoundMessages, RoundMotor, PublishMessages, MotorAfter, Served;
    var m := RoundMotor(t, was, polls, i);
    RoundNext(t, elapsed, was, polls, now, i);
    RoundPrefix(t, elapsed, was, polls, now, i + 1, |t|);
    PublishDue(t[i], elapsed, m, polls[i], now);
    TurnLeaves(t[i], m, polls[i]);
    var ms := RoundMessages(t, elapsed, was, polls, now, |t|);
    var before, x := RoundMessages(t, elapsed, was, polls, now, i), PublishMessages(t[i], elapsed, m, polls[i], now);
    assert ms[..|before + x|] == before + x;
    assert ms[|before|..|before + x|] == x;
  }

  /** In a round every slot has its turn, in order, and gets in it exactly what it is due. */
  lemma RoundIsDue(t: seq<Subscription>, elapsed: bv32, was: seq<Octet>, polls: seq<seq<Octet>>, now: seq<Octet>)
    requires |was| == MOTORS && |t| == |polls| && |now| == 8
    requires forall j | 0 <= j < |polls| :: |polls[j]| == MOTORS
    ensures var n, cuts, caches := |t|, Cuts(t, elapsed, was, polls, now), Caches(t, was, polls);
            && RoundDue(RoundMessages(t, elapsed, was, polls, now, n), t, elapsed, polls, now, cuts, caches)
            && caches[0] == was && caches[n] == RoundMotor(t, was, polls, n)
  {
    RoundEnds(t, elapsed, was, polls, now);
    hide Cuts, Caches, SlotDue, RoundMessages, RoundMotor;
    var ms, cuts, caches :=
      RoundMessages(t, elapsed, was, polls, now, |t|), Cuts(t, elapsed, was, polls, now), Caches(t, was, polls);
    forall i | 0 <= i < |t| ensures SlotDue(ms, t, elapsed, polls, now, cuts, caches, i) {
      SlotIsDue(t, elapsed, was, polls, now, i);
    }
  }

  lemma RoundEnds(t: seq<Subscription>, elapsed: bv32, was: seq<Octet>, polls: seq<seq<Octet>>, now: seq<Octet>)
    requires |was| == MOTORS && |t| == |polls| && |now| == 8
    requires forall j | 0 <= j < |polls| :: |polls[j]| == MOTORS
    ensures var n, cuts, caches := |t|, Cuts(t, elapsed, was, polls, now), Caches(t, was, polls);
            && cuts[0] == 0 && cuts[n] == |RoundMessages(t, elapsed, was, polls, now, n)|
            && caches[0] == was && caches[n] == RoundMotor(t, was, polls, n)
  {
  }

  // ---------- answers to reads of the motors ----------

  /** v lists the first n motors in order, each with its reading. */
  predicate ListsAll(v: seq<Octet>, readings: seq<Octet>, n: nat)
    requires n <= |readings|
  {
    && |v| == 2 * n
    && forall i | 0 <= i < n :: MotorAt(v, i) == i && v[2 * i + 1] == readings[i]
  }

  /** A reading is answered (flag 1) with the motor's value, or with every index and value. */
  predicate AnswersMotorRead(m: Message, reqId: bv16, subtopic: Octet, elapsed: bv32, readings: seq<Octet>)
    requires |readings| == 10
  {
    if subtopic < 10 then Says(m, reqId, 0x02, subtopic, 0x01, elapsed, [readings[subtopic as int]])
    else if subtopic == 0xff then
      Says(m, reqId, 0x02, 0xff, 0x01, elapsed, m.value) && ListsAll(m.value, readings, 10)
    else Says(m, reqId, 0x02, subtopic, 0x05, elapsed, [0x03])
  }

  lemma {:induction false} PairsListed(readings: seq<Octet>, n: nat)
    requires |readings| == MOTORS && n <= MOTORS
    ensures ListsAll(AllPairs(readings, n), readings, n)
  {
    if n == 0 {
    } else {
      PairsListed(readings, n - 1);
      OctetOf(n - 1);
      PairsMore(AllPairs(readings, n - 1), readings, n - 1, (n - 1) as bv8);
      hide ListsAll;
    }
  }

  lemma PairsMore(v: seq<Octet>, readings: seq<Octet>, i: nat, o: Octet)
    requires |readings| == MOTORS && i < MOTORS && ListsAll(v, readings, i) && o as int == i
    ensures ListsAll(v + [o, readings[i]], readings, i + 1)
  {
    var w := v + [o, readings[i]];
    assert MotorAt(w, i) == i && w[2 * i + 1] == readings[i];
    forall j | 0 <= j < i ensures MotorAt(w, j) == j && w[2 * j + 1] == readings[j] {
      assert MotorAt(w, j) == MotorAt(v, j) && w[2 * j + 1] == v[2 * j + 1];
    }
  }

  lemma MotorAnswered(reqId: bv16, subtopic: Octet, elapsed: bv32, readings: seq<Octet>)
    requires |readings| == MOTORS
    ensures AnswersMotorRead(MotorAnswer(reqId, subtopic, elapsed, readings), reqId, subtopic, elapsed, readings)
  {
    SmallOctet(subtopic);
    PairsListed(readings, MOTORS);
    DataSays(reqId, TOPIC_MOTOR, subtopic, 0x01, elapsed, AllPairs(readings, MOTORS));
    DataSays(reqId, TOPIC_MOTOR, subtopic, 0x05, elapsed, [BAD_SUBTOPIC]);
    if subtopic < 10 {
      DataSays(reqId, TOPIC_MOTOR, subtopic, 0x01, elapsed, [readings[subtopic as int]]);
    }
    hide Says, DataMessage, AllPairs, ListsAll;
  }

  // ---------- answers to reads of the table ----------

  function Slots(t: seq<Subscription>, active: bool): set<int> {
    set i | 0 <= i < |t| && t[i].active == active
  }

  lemma SlotsMore(t: seq<Subscription>, s: Subscription, active: bool)
    ensures |t| !in Slots(t, active)
    ensures Slots(t + [s], active) == Slots(t, active) + if s.active == active then {|t|} else {}
  {
  }

  lemma {:induction false} SlotsCounted(t: seq<Subscription>)
    ensures |Slots(t, false)| == FreeCount(t) && |Slots(t, true)| == |t| - FreeCount(t)
  {
    if t == [] {
      assert Slots(t, false) == {} == Slots(t, true);
    } else {
      var n := |t| - 1;
      SlotsCounted(t[..n]);
      assert t == t[..n] + [t[n]];
      SlotsMore(t[..n], t[n], false);
      SlotsMore(t[..n], t[n], true);
      hide Slots;
    }
  }

  /** Line k of v. */
  function Part(v: seq<Octet>, k: nat): (w: seq<Octet>)
    requires k < |v| / 5
    ensures |w| == 5
  {
    v[5 * k..5 * k + 5]
  }

  /** The index of an active slot, its request id with the most significant octet first, its topic
      and its subtopic. */
  predicate IsLine(w: seq<Octet>, t: seq<Subscription>)
    requires |w| == 5
  {
    var i := w[0] as int;
    && i < |t| && t[i].active
    && 256 * w[1] as int + w[2] as int == t[i].reqId as int
    && w[3] == t[i].topic && w[4] == t[i].subtopic
  }

  /** v lists exactly the active slots, in the order of their indices. */
  predicate ListsActive(v: seq<Octet>, t: seq<Subscription>) {
    && |v| == 5 * |Slots(t, true)|
    && (forall k | 0 <= k < |v| / 5 :: IsLine(Part(v, k), t))
    && (forall j, k | 0 <= j < k < |v| / 5 :: Part(v, j)[0] < Part(v, k)[0])
  }

  lemma {:induction false} ListingListed(t: seq<Subscription>)
    requires |t| <= SUB_MAX
    ensures ListsActive(Listing(t), t)
  {
    hide Line, IsLine;
    if t == [] {
      assert Slots(t, true) == {};
    } else {
      hide Slots, ListsActive;
      var n := |t| - 1;
      ListingListed(t[..n]);
      assert t == t[..n] + [t[n]];
      if t[n].active {
        LineIs(n, t[n]);
        LineAdded(Listing(t[..n]), Line(n, t[n]), t[..n], t[n]);
      } else {
        SlotAdded(Listing(t[..n]), t[..n], t[n]);
        assert Listing(t[..n]) + [] == Listing(t[..n]);
      }
    }
  }

  lemma LineIs(n: nat, s: Subscription)
    requires n < SUB_MAX && s.active
    ensures var w := Line(n, s);
            && w[0] as int == n && 256 * w[1] as int + w[2] as int == s.reqId as int
            && w[3] == s.topic && w[4] == s.subtopic
  {
    OctetOf(n);
    Value16(s.reqId);
    var o, x := n as bv8, Big16(s.reqId);
    assert Line(n, s) == [o, x[0], x[1], s.topic, s.subtopic];
    hide *;
  }

  lemma SameLine(w: seq<Octet>, t: seq<Subscription>, s: Subscription)
    requires |w| == 5 && IsLine(w, t)
    ensures IsLine(w, t + [s])
  {
  }

  lemma SlotAdded(v: seq<Octet>, t: seq<Subscription>, s: Subscription)
    requires ListsActive(v, t) && !s.active
    ensures ListsActive(v, t + [s])
  {
    SlotsMore(t, s, true);
    hide Slots, IsLine;
    forall k | 0 <= k < |v| / 5 ensures IsLine(Part(v, k), t + [s]) {
      SameLine(Part(v, k), t, s);
    }
  }

  lemma PartsOf(v: seq<Octet>, w: seq<Octet>)
    requires |v| % 5 == 0 && |w| == 5
    ensures |v + w| / 5 == |v| / 5 + 1 && Part(v + w, |v| / 5) == w
    ensures forall k | 0 <= k < |v| / 5 :: Part(v + w, k) == Part(v, k)
  {
  }

  lemma LineAdded(v: seq<Octet>, w: seq<Octet>, t: seq<Subscription>, s: Subscription)
    requires ListsActive(v, t) && s.active && |w| == 5 && |t| < 256
    requires w[0] as int == |t| && 256 * w[1] as int + w[2] as int == s.reqId as int
    requires w[3] == s.topic && w[4] == s.subtopic
    ensures ListsActive(v + w, t + [s])
  {
    SlotsMore(t, s, true);
    LinesBefore(v, w, t, s);
    assert IsLine(w, t + [s]);
    assert |Slots(t + [s], true)| == |Slots(t, true)| + 1 by { hide Slots; }
    hide IsLine, Part, Slots;
    LinesJoined(v, w, t + [s]);
  }

  lemma LinesJoined(v: seq<Octet>, w: seq<Octet>, t: seq<Subscription>)
    requires |w| == 5 && |v| + 5 == 5 * |Slots(t, true)| && IsLine(w, t)
    requires forall k | 0 <= k < |v| / 5 :: IsLine(Part(v, k), t) && Part(v, k)[0] < w[0]
    requires forall j, k | 0 <= j < k < |v| / 5 :: Part(v, j)[0] < Part(v, k)[0]
    ensures ListsActive(v + w, t)
  {
    PartsOf(v, w);
    hide Slots, IsLine, Part;
    var u, m := v + w, |v| / 5;
    forall k | 0 <= k < |u| / 5 ensures IsLine(Part(u, k), t) {
      assert k < m || k == m;
    }
  }

  lemma LinesBefore(v: seq<Octet>, w: seq<Octet>, t: seq<Subscription>, s: Subscription)
    requires |w| == 5 && w[0] as int == |t|
    requires forall k | 0 <= k < |v| / 5 :: IsLine(Part(v, k), t)
    ensures forall k | 0 <= k < |v| / 5 :: IsLine(Part(v, k), t + [s]) && Part(v, k)[0] < w[0]
  {
    hide Part;
    forall k | 0 <= k < |v| / 5 ensures IsLine(Part(v, k), t + [s]) && Part(v, k)[0] < w[0] {
      SameLine(Part(v, k), t, s);
      Below(Part(v, k)[0], w[0]);
    }
  }

  lemma Below(a: Octet, b: Octet)
    ensures a as int < b as int ==> a < b
  {
  }

  /** Request id, most significant octet first, topic and subtopic of an active slot. */
  predicate HoldsSlot(v: seq<Octet>, s: Subscription) {
    if s.active then
      |v| == 4 && 256 * v[0] as int + v[1] as int == s.reqId as int && v[2] == s.topic && v[3] == s.subtopic
    else v == []
  }

  /** Subtopics 0xfb to 0xfe of topic 0: how many slots are active, how many are not, how many there
      are, and the active ones in lines of five octets. */
  predicate TellsTable(m: Message, reqId: bv16, which: Octet, flag: Octet, elapsed: bv32, t: seq<Subscription>) {
    && Says(m, reqId, 0x00, which, flag, elapsed, m.value)
    && (which == 0xfb ==> |m.value| == 1 && m.value[0] as int == |Slots(t, true)|)
    && (which == 0xfc ==> |m.value| == 1 && m.value[0] as int == |Slots(t, false)|)
    && (which == 0xfd ==> m.value == [10])
    && (which == 0xfe ==> ListsActive(m.value, t))
  }

  /** A read of the table is answered with the slot or the subtopic asked for, or with all four
      subtopics and an end mark. */
  predicate AnswersTableRead(ms: seq<Message>, reqId: bv16, subtopic: Octet, elapsed: bv32, t: seq<Subscription>)
    requires |t| == 10
  {
    if subtopic < 10 then
      && |ms| == 1 && Says(ms[0], reqId, 0x00, subtopic, 0x01, elapsed, ms[0].value)
      && HoldsSlot(ms[0].value, t[subtopic as int])
    else if 0xfb <= subtopic <= 0xfe then |ms| == 1 && TellsTable(ms[0], reqId, subtopic, 0x01, elapsed, t)
    else if subtopic == 0xff then
      && |ms| == 5
      && TellsTable(ms[0], reqId, 0xfe, 0x00, elapsed, t) && TellsTable(ms[1], reqId, 0xfb, 0x00, elapsed, t)
      && TellsTable(ms[2], reqId, 0xfc, 0x00, elapsed, t) && TellsTable(ms[3], reqId, 0xfd, 0x00, elapsed, t)
      && Says(ms[4], reqId, 0x00, 0xff, 0x01, elapsed, [])
    else |ms| == 1 && Says(ms[0], reqId, 0x00, subtopic, 0x05, elapsed, [0x03])
  }

  lemma CountsTold(reqId: bv16, flag: Octet, elapsed: bv32, t: seq<Subscription>)
    requires |t| == SUB_MAX
    ensures var free := FreeCount(t);
            var count := Answer(reqId, SUBTOPIC_COUNT, flag, elapsed, [(SUB_MAX - free) as bv8]);
            var left := Answer(reqId, SUBTOPIC_FREE, flag, elapsed, [free as bv8]);
            var all := Answer(reqId, SUBTOPIC_MAX, flag, elapsed, [SUB_MAX as bv8]);
            && TellsTable(count, reqId, 0xfb, flag, elapsed, t)
            && TellsTable(left, reqId, 0xfc, flag, elapsed, t)
            && TellsTable(all, reqId, 0xfd, flag, elapsed, t)
  {
    var free := FreeCount(t);
    SlotsCounted(t);
    OctetOf(free);
    OctetOf(SUB_MAX - free);
    DataSays(reqId, TOPIC_PUBSUB, SUBTOPIC_COUNT, flag, elapsed, [(SUB_MAX - free) as bv8]);
    DataSays(reqId, TOPIC_PUBSUB, SUBTOPIC_FREE, flag, elapsed, [free as bv8]);
    DataSays(reqId, TOPIC_PUBSUB, SUBTOPIC_MAX, flag, elapsed, [SUB_MAX as bv8]);
    hide FreeCount, Slots;
  }

  lemma ListTold(reqId: bv16, flag: Octet, elapsed: bv32, t: seq<Subscription>)
    requires |t| == SUB_MAX
    ensures |Listing(t)| < 256
    ensures TellsTable(Answer(reqId, SUBTOPIC_LIST, flag, elapsed, Listing(t)), reqId, 0xfe, flag, elapsed, t)
  {
    hide FreeCount, Slots, Listing, ListsActive, DataMessage, Says;
    ListingReadsBack(t);
    ListingListed(t);
    DataSays(reqId, TOPIC_PUBSUB, SUBTOPIC_LIST, flag, elapsed, Listing(t));
    SaidValue(Answer(reqId, SUBTOPIC_LIST, flag, elapsed, Listing(t)), reqId, 0x00, 0xfe, flag, elapsed, Listing(t));
  }

  lemma SaidValue(m: Message, reqId: bv16, topic: Octet, subtopic: Octet, flag: Octet, elapsed: bv32,
                  value: seq<Octet>)
    requires Says(m, reqId, topic, subtopic, flag, elapsed, value)
    ensures m.value == value
  {
  }

  lemma SlotTold(s: Subscription)
    ensures HoldsSlot(if s.active then Big16(s.reqId) + [s.topic, s.subtopic] else [], s)
  {
    hide Big16;
    Value16(s.reqId);
  }

  lemma TableAnswered(reqId: bv16, subtopic: Octet, elapsed: bv32, t: seq<Subscription>)
    requires |t| == SUB_MAX
    ensures AnswersTableRead(PubsubAnswers(reqId, subtopic, elapsed, t), reqId, subtopic, elapsed, t)
  {
    SmallOctet(subtopic);
    hide Says, DataMessage, TellsTable, FreeCount, Listing, HoldsSlot, Big16;
    if subtopic < 10 {
      var s := t[subtopic as int];
      SlotTold(s);
      var v := if s.active then Big16(s.reqId) + [s.topic, s.subtopic] else [];
      DataSays(reqId, TOPIC_PUBSUB, subtopic, 0x01, elapsed, v);
    } else if 0xfb <= subtopic <= 0xfe {
      CountsTold(reqId, 0x01, elapsed, t);
      ListTold(reqId, 0x01, elapsed, t);
    } else if subtopic == 0xff {
      CountsTold(reqId, 0x00, elapsed, t);
      ListTold(reqId, 0x00, elapsed, t);
      DataSays(reqId, TOPIC_PUBSUB, 0xff, 0x01, elapsed, []);
    } else {
      DataSays(reqId, TOPIC_PUBSUB, subtopic, 0x05, elapsed, [BAD_SUBTOPIC]);
    }
  }
}
