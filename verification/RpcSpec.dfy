/** What the remote procedure calls mean: the subscription table, its listing, and the copy of
    the motor values that a remote client keeps. */
module RpcSpec {
  import opened Octets
  import opened Messages

  const SUB_MAX := 10
  const MOTORS := 10

  const TOPIC_PUBSUB: Octet := 0x00
  const SUBTOPIC_COUNT: Octet := 0xfb
  const SUBTOPIC_FREE: Octet := 0xfc
  const SUBTOPIC_MAX: Octet := 0xfd
  const SUBTOPIC_LIST: Octet := 0xfe
  const SUBTOPIC_ALL: Octet := 0xff
  const TOPIC_CLOCK: Octet := 0x01
  const SUBTOPIC_NOW: Octet := 0x00
  const TOPIC_MOTOR: Octet := 0x02
  const TOPIC_ALL: Octet := 0xff

  const FLAG_END: Octet := 0x01
  const FLAG_PUB: Octet := 0x02
  const FLAG_ERROR: Octet := 0x04

  const BAD_REQ_ID: Octet := 0x01
  const BAD_TOPIC: Octet := 0x02
  const BAD_SUBTOPIC: Octet := 0x03
  const ERROR_SUB_MAX: Octet := 0x04

  function DataMessage(reqId: bv16, topic: Octet, subtopic: Octet, flag: Octet, elapsed: bv32,
                       value: seq<Octet>): (m: Message)
    requires |value| < 256
    ensures WellFormed(m)
  {
    OctetOf(|value|);
    Message(Data(reqId, topic, subtopic, flag, elapsed, |value| as bv8), value)
  }

  // ---------- the subscription table ----------

  datatype Subscription = Subscription(active: bool, reqId: bv16, topic: Octet, subtopic: Octet)

  const EMPTY := Subscription(false, 0, 0, 0)

  /** Inactive slots are all zero. */
  predicate WellKept(t: seq<Subscription>) {
    forall i | 0 <= i < |t| && !t[i].active :: t[i] == EMPTY
  }

  function FirstFree(t: seq<Subscription>): (i: nat)
    ensures i <= |t| && (i < |t| ==> !t[i].active)
    ensures forall j | 0 <= j < i :: t[j].active
  {
    if t == [] || !t[0].active then 0 else 1 + FirstFree(t[1..])
  }

  predicate Matches(s: Subscription, reqId: bv16) {
    s.active && s.reqId == reqId
  }

  function FirstMatch(t: seq<Subscription>, reqId: bv16): (i: nat)
    ensures i <= |t| && (i < |t| ==> Matches(t[i], reqId))
    ensures forall j | 0 <= j < i :: !Matches(t[j], reqId)
  {
    if t == [] || Matches(t[0], reqId) then 0 else 1 + FirstMatch(t[1..], reqId)
  }

  function FreeCount(t: seq<Subscription>): (n: nat)
    ensures n <= |t|
  {
    if t == [] then 0 else FreeCount(t[..|t| - 1]) + if t[|t| - 1].active then 0 else 1
  }

  lemma {:induction false} FreeIffFirst(t: seq<Subscription>)
    ensures FreeCount(t) == 0 <==> FirstFree(t) == |t|
  {
    if t == [] {
    } else {
      var n := |t| - 1;
      FreeIffFirst(t[..n]);
      if FirstFree(t[..n]) < n {
        FirstFreeIs(t, FirstFree(t[..n]));
      } else {
        FirstFreeIs(t, if t[n].active then |t| else n);
      }
    }
  }

  function Subscribed(t: seq<Subscription>, s: Subscription): seq<Subscription> {
    var i := FirstFree(t);
    if i < |t| then t[i := s] else t
  }

  function Unsubscribed(t: seq<Subscription>, reqId: bv16): seq<Subscription> {
    var i := FirstMatch(t, reqId);
    if i < |t| then t[i := EMPTY] else t
  }

  lemma FirstFreeIs(t: seq<Subscription>, i: nat)
    requires i <= |t| && (i < |t| ==> !t[i].active) && forall j | 0 <= j < i :: t[j].active
    ensures FirstFree(t) == i
  {
  }

  lemma FirstMatchIs(t: seq<Subscription>, reqId: bv16, i: nat)
    requires i <= |t| && (i < |t| ==> Matches(t[i], reqId)) && forall j | 0 <= j < i :: !Matches(t[j], reqId)
    ensures FirstMatch(t, reqId) == i
  {
  }

  /** Subscribing and then unsubscribing restores the table exactly when no slot before the first
      free one has the same request id; since duplicates are let in, that can fail. */
  lemma UnsubscribeUndoes(t: seq<Subscription>, s: Subscription)
    requires WellKept(t) && s.active
    ensures Unsubscribed(Subscribed(t, s), s.reqId) == t
       <==> forall j | 0 <= j < FirstFree(t) :: t[j].reqId != s.reqId
  {
    var f := FirstFree(t);
    var u := Subscribed(t, s);
    if forall j | 0 <= j < f :: t[j].reqId != s.reqId {
      FirstMatchIs(u, s.reqId, f);
    } else {
      var j :| 0 <= j < f && t[j].reqId == s.reqId;
      var k := FirstMatch(u, s.reqId);
      assert Matches(u[j], s.reqId);
      assert k <= j;
      assert Unsubscribed(u, s.reqId)[k] == EMPTY && t[k].active;
    }
  }

  // ---------- publishing ----------

  /** A subscription that publishing can serve. */
  predicate Servable(s: Subscription) {
    || (s.topic == TOPIC_CLOCK && s.subtopic == SUBTOPIC_NOW)
    || (s.topic == TOPIC_MOTOR && (s.subtopic as nat < MOTORS || s.subtopic == SUBTOPIC_ALL))
    || (s.topic == TOPIC_ALL && s.subtopic == SUBTOPIC_ALL)
  }

  /** A subscription whose publication polls every motor. */
  predicate PolledAll(s: Subscription) {
    s.active && s.subtopic == SUBTOPIC_ALL && (s.topic == TOPIC_MOTOR || s.topic == TOPIC_ALL)
  }

  /** A table with the first i slots published. */
  function ServedTo(t: seq<Subscription>, i: nat): (u: seq<Subscription>)
    requires i <= |t|
    ensures |u| == |t|
  {
    AllServed(t)[..i] + t[i..]
  }

  lemma ServedToNext(t: seq<Subscription>, i: nat)
    requires i < |t|
    ensures ServedTo(t, i)[i] == t[i]
    ensures ServedTo(t, i + 1) == ServedTo(t, i)[i := Served(t[i])]
  {
  }

  lemma ServedToEnds(t: seq<Subscription>)
    ensures ServedTo(t, 0) == t && ServedTo(t, |t|) == AllServed(t)
  {
  }

  /** Every poll finds the same readings. */
  predicate Stable(polls: seq<seq<Octet>>)
    requires polls != []
  {
    forall i | 0 <= i < |polls| :: polls[i] == polls[0]
  }

  function Served(s: Subscription): Subscription {
    if s.active && !Servable(s) then EMPTY else s
  }

  function AllServed(t: seq<Subscription>): (u: seq<Subscription>)
    ensures |u| == |t|
  {
    seq(|t|, i requires 0 <= i < |t| => Served(t[i]))
  }

  /** One publish round leaves only subscriptions that can be served, and changes none of those;
      another round removes nothing more. */
  lemma RoundsSettle(t: seq<Subscription>)
    ensures var u := AllServed(t);
            && (forall i | 0 <= i < |u| && u[i].active :: Servable(u[i]) && u[i] == t[i])
            && (forall i | 0 <= i < |t| && t[i].active && Servable(t[i]) :: u[i] == t[i])
            && AllServed(u) == u
            && (WellKept(t) ==> WellKept(u))
  {
  }

  // ---------- the listing ----------

  /** Slot index, big-endian request id, topic and subtopic. */
  function Line(slot: nat, s: Subscription): (v: seq<Octet>)
    requires slot < SUB_MAX
    ensures |v| == 5
  {
    [slot as bv8, Big16(s.reqId)[0], Big16(s.reqId)[1], s.topic, s.subtopic]
  }

  /** A line for every active slot. */
  function Listing(t: seq<Subscription>): seq<Octet>
    requires |t| <= SUB_MAX
  {
    if t == [] then []
    else
      var n := |t| - 1;
      Listing(t[..n]) + if t[n].active then Line(n, t[n]) else []
  }

  datatype Entry = Entry(slot: nat, sub: Subscription)

  /** What a client reads a listing as. */
  function ReadListing(s: seq<Octet>): seq<Entry> {
    if |s| < 5 then []
    else [Entry(s[0] as nat, Subscription(true, From16(s[1], s[2]), s[3], s[4]))] + ReadListing(s[5..])
  }

  function ActiveEntries(t: seq<Subscription>): seq<Entry> {
    if t == [] then []
    else
      var n := |t| - 1;
      ActiveEntries(t[..n]) + if t[n].active then [Entry(n, t[n])] else []
  }

  lemma {:induction false} ReadListingConcat(s: seq<Octet>, u: seq<Octet>)
    requires |s| % 5 == 0
    ensures ReadListing(s + u) == ReadListing(s) + ReadListing(u)
  {
    hide From16;
    if s == [] {
      assert s + u == u;
    } else {
      assert (s + u)[5..] == s[5..] + u;
      ReadListingConcat(s[5..], u);
    }
  }

  lemma LineReadsBack(slot: nat, s: Subscription)
    requires slot < SUB_MAX && s.active
    ensures ReadListing(Line(slot, s)) == [Entry(slot, s)]
  {
  }

  /** The listing reads back as exactly the active slots in index order, five octets each. */
  lemma {:induction false} ListingReadsBack(t: seq<Subscription>)
    requires |t| <= SUB_MAX
    ensures |Listing(t)| == 5 * (|t| - FreeCount(t))
    ensures ReadListing(Listing(t)) == ActiveEntries(t)
  {
    hide Line, ReadListing;
    if t == [] {
      assert ReadListing([]) == [] by { NothingListed(); }
    } else {
      var n := |t| - 1;
      ListingReadsBack(t[..n]);
      if t[n].active {
        ReadListingConcat(Listing(t[..n]), Line(n, t[n]));
        LineReadsBack(n, t[n]);
      } else {
        assert Listing(t) == Listing(t[..n]);
      }
    }
  }

  lemma NothingListed()
    ensures ReadListing([]) == []
  {
  }

  // ---------- the remote copy of the motor values ----------

  /** Pairs of motor index and value. */
  function ApplyPairs(copy: seq<Octet>, v: seq<Octet>): (r: seq<Octet>)
    ensures |r| == |copy|
  {
    if |v| < 2 then copy
    else
      var c := ApplyPairs(copy, v[..|v| - 2]);
      var i := v[|v| - 2] as nat;
      if i < |c| then c[i := v[|v| - 1]] else c
  }

  /** A client keeps a copy up to date with every motor message that is not an error. */
  function ApplyMessage(copy: seq<Octet>, m: Message): (r: seq<Octet>)
    ensures |r| == |copy|
  {
    if !m.fields.Data? || m.fields.topic != TOPIC_MOTOR || m.fields.flag & FLAG_ERROR != 0 then copy
    else if (m.fields.subtopic as nat) < |copy| then
      if |m.value| == 1 then copy[m.fields.subtopic as nat := m.value[0]] else copy
    else if m.fields.subtopic == SUBTOPIC_ALL then ApplyPairs(copy, m.value)
    else copy
  }

  function Mirror(copy: seq<Octet>, ms: seq<Message>): (r: seq<Octet>)
    ensures |r| == |copy|
  {
    if ms == [] then copy else ApplyMessage(Mirror(copy, ms[..|ms| - 1]), ms[|ms| - 1])
  }

  lemma MirrorSnoc(copy: seq<Octet>, ms: seq<Message>, m: Message)
    ensures Mirror(copy, ms + [m]) == ApplyMessage(Mirror(copy, ms), m)
  {
  }

  /** Messages that leave every copy as it is: other topics, errors, empty values. */
  predicate Harmless(m: Message) {
    !m.fields.Data? || m.fields.topic != TOPIC_MOTOR || m.fields.flag & FLAG_ERROR != 0 || m.value == []
  }

  lemma HarmlessChangesNothing(copy: seq<Octet>, m: Message)
    requires Harmless(m)
    ensures ApplyMessage(copy, m) == copy
  {
  }

  /** The motor cache after polling a motor, or all of them. */
  function Polled(motor: seq<Octet>, subtopic: Octet, readings: seq<Octet>): (r: seq<Octet>)
    requires |motor| == |readings| == MOTORS
    ensures |r| == MOTORS
  {
    if (subtopic as nat) < MOTORS then motor[subtopic as nat := readings[subtopic as nat]]
    else if subtopic == SUBTOPIC_ALL then readings
    else motor
  }

  lemma NoPairs(copy: seq<Octet>, v: seq<Octet>)
    requires v == []
    ensures ApplyPairs(copy, v) == copy
  {
  }

  /** The cache with the first i motors polled. */
  function PolledTo(was: seq<Octet>, readings: seq<Octet>, i: nat): (r: seq<Octet>)
    requires |was| == |readings| && i <= |was|
    ensures |r| == |was|
  {
    readings[..i] + was[i..]
  }

  lemma PolledToNext(was: seq<Octet>, readings: seq<Octet>, i: nat)
    requires |was| == |readings| && i < |was|
    ensures PolledTo(was, readings, i)[i] == was[i]
    ensures PolledTo(was, readings, i + 1) == PolledTo(was, readings, i)[i := readings[i]]
    ensures PolledTo(was, readings, i + 1) == was <==> PolledTo(was, readings, i) == was && readings[i] == was[i]
  {
  }

  lemma PolledToEnds(was: seq<Octet>, readings: seq<Octet>)
    requires |was| == |readings|
    ensures PolledTo(was, readings, 0) == was && PolledTo(was, readings, |was|) == readings
  {
  }

  lemma OctetPairAppended(copy: seq<Octet>, v: seq<Octet>, o: Octet, x: Octet)
    requires |v| % 2 == 0 && (o as nat) < |copy|
    ensures ApplyPairs(copy, v + [o, x]) == ApplyPairs(copy, v)[o as nat := x]
  {
  }

  lemma PairAppended(copy: seq<Octet>, v: seq<Octet>, i: nat, x: Octet)
    requires |v| % 2 == 0 && i < |copy| <= MOTORS
    ensures ApplyPairs(copy, v + [i as bv8, x]) == ApplyPairs(copy, v)[i := x]
  {
    hide ApplyPairs;
    OctetOf(i);
    OctetPairAppended(copy, v, i as bv8, x);
  }

  // ---------- what publishing and reading send ----------

  /** The first i motors whose reading differs from the cache, as pairs of index and value. */
  function Changes(was: seq<Octet>, readings: seq<Octet>, i: nat): (v: seq<Octet>)
    requires |was| == |readings| == MOTORS && i <= MOTORS
    ensures |v| % 2 == 0 && |v| <= 2 * i
  {
    if i == 0 then []
    else
      Changes(was, readings, i - 1)
      + if readings[i - 1] == was[i - 1] then [] else [(i - 1) as bv8, readings[i - 1]]
  }

  /** The first i motors as pairs of index and value. */
  function AllPairs(readings: seq<Octet>, i: nat): (v: seq<Octet>)
    requires |readings| == MOTORS && i <= MOTORS
    ensures |v| == 2 * i
  {
    if i == 0 then [] else AllPairs(readings, i - 1) + [(i - 1) as bv8, readings[i - 1]]
  }

  /** Either list of pairs brings a copy of the cache to the readings; the list of changes is
      empty only if there is nothing to do. */
  lemma {:induction false} PairsReachReadings(was: seq<Octet>, readings: seq<Octet>, i: nat)
    requires |was| == |readings| == MOTORS && i <= MOTORS
    ensures ApplyPairs(was, Changes(was, readings, i)) == PolledTo(was, readings, i)
    ensures ApplyPairs(was, AllPairs(readings, i)) == PolledTo(was, readings, i)
    ensures Changes(was, readings, i) == [] <==> PolledTo(was, readings, i) == was
  {
    hide ApplyPairs, PolledTo;
    if i == 0 {
      NoPairs(was, []);
      PolledToEnds(was, readings);
    } else {
      PairsReachReadings(was, readings, i - 1);
      PolledToNext(was, readings, i - 1);
      PairAppended(was, Changes(was, readings, i - 1), i - 1, readings[i - 1]);
      PairAppended(was, AllPairs(readings, i - 1), i - 1, readings[i - 1]);
      if readings[i - 1] == was[i - 1] {
        assert PolledTo(was, readings, i) == PolledTo(was, readings, i - 1);
        assert Changes(was, readings, i) == Changes(was, readings, i - 1);
      }
    }
  }

  function Publication(s: Subscription, elapsed: bv32, value: seq<Octet>): Message
    requires |value| < 256
  {
    DataMessage(s.reqId, s.topic, s.subtopic, FLAG_PUB, elapsed, value)
  }

  const PUB_ERROR: Octet := FLAG_PUB | FLAG_ERROR | FLAG_END
  const REP_ERROR: Octet := FLAG_ERROR | FLAG_END

  function ErrorMessage(reqId: bv16, topic: Octet, subtopic: Octet, flag: Octet, elapsed: bv32, error: Octet): Message {
    DataMessage(reqId, topic, subtopic, flag, elapsed, [error])
  }

  function Refusal(s: Subscription, elapsed: bv32, error: Octet): Message {
    ErrorMessage(s.reqId, s.topic, s.subtopic, PUB_ERROR, elapsed, error)
  }

  function ClockMessages(s: Subscription, elapsed: bv32, now: seq<Octet>): seq<Message>
    requires |now| == 8
  {
    [if s.subtopic == SUBTOPIC_NOW then Publication(s, elapsed, now) else Refusal(s, elapsed, BAD_SUBTOPIC)]
  }

  function MotorMessages(s: Subscription, elapsed: bv32, was: seq<Octet>, readings: seq<Octet>): seq<Message>
    requires |was| == |readings| == MOTORS
  {
    if (s.subtopic as nat) < MOTORS then
      var i := s.subtopic as nat;
      if readings[i] == was[i] then [] else [Publication(s, elapsed, [readings[i]])]
    else if s.subtopic == SUBTOPIC_ALL then
      var v := Changes(was, readings, MOTORS);
      if v == [] then [] else [Publication(s, elapsed, v)]
    else [Refusal(s, elapsed, BAD_SUBTOPIC)]
  }

  /** What one subscription is sent when its turn comes. */
  function PublishMessages(s: Subscription, elapsed: bv32, was: seq<Octet>, readings: seq<Octet>,
                           now: seq<Octet>): seq<Message>
    requires |was| == |readings| == MOTORS && |now| == 8
  {
    if !s.active then []
    else if s.topic == TOPIC_CLOCK then ClockMessages(s, elapsed, now)
    else if s.topic == TOPIC_MOTOR then MotorMessages(s, elapsed, was, readings)
    else if s.topic == TOPIC_ALL then
      if s.subtopic == SUBTOPIC_ALL then
        ClockMessages(s.(topic := TOPIC_CLOCK, subtopic := SUBTOPIC_NOW), elapsed, now)
        + MotorMessages(s.(topic := TOPIC_MOTOR, subtopic := SUBTOPIC_ALL), elapsed, was, readings)
      else [Refusal(s, elapsed, BAD_SUBTOPIC)]
    else [Refusal(s, elapsed, BAD_TOPIC)]
  }

  /** The motor cache after a subscription's turn. */
  function MotorAfter(s: Subscription, was: seq<Octet>, readings: seq<Octet>): (r: seq<Octet>)
    requires |was| == |readings| == MOTORS
    ensures |r| == MOTORS
  {
    if !s.active then was
    else if s.topic == TOPIC_MOTOR then Polled(was, s.subtopic, readings)
    else if s.topic == TOPIC_ALL && s.subtopic == SUBTOPIC_ALL then readings
    else was
  }

  /** The motor cache after the turns of the first i slots, each with its own readings. */
  function RoundMotor(t: seq<Subscription>, was: seq<Octet>, polls: seq<seq<Octet>>, i: nat): (r: seq<Octet>)
    requires |was| == MOTORS && i <= |t| == |polls|
    requires forall j | 0 <= j < |polls| :: |polls[j]| == MOTORS
    ensures |r| == MOTORS
  {
    if i == 0 then was else MotorAfter(t[i - 1], RoundMotor(t, was, polls, i - 1), polls[i - 1])
  }

  function RoundMessages(t: seq<Subscription>, elapsed: bv32, was: seq<Octet>, polls: seq<seq<Octet>>,
                         now: seq<Octet>, i: nat): seq<Message>
    requires |was| == MOTORS && i <= |t| == |polls| && |now| == 8
    requires forall j | 0 <= j < |polls| :: |polls[j]| == MOTORS
  {
    if i == 0 then [] else
      var before := RoundMessages(t, elapsed, was, polls, now, i - 1);
      before + PublishMessages(t[i - 1], elapsed, RoundMotor(t, was, polls, i - 1), polls[i - 1], now)
  }

  lemma TurnKeepsReadings(s: Subscription, was: seq<Octet>, readings: seq<Octet>)
    requires |was| == |readings| == MOTORS
    ensures was == readings || PolledAll(s) ==> MotorAfter(s, was, readings) == readings
  {
  }

  lemma RoundNext(t: seq<Subscription>, elapsed: bv32, was: seq<Octet>, polls: seq<seq<Octet>>, now: seq<Octet>, i: nat)
    requires |was| == MOTORS && i < |t| == |polls| && |now| == 8
    requires forall j | 0 <= j < |polls| :: |polls[j]| == MOTORS
    ensures var m := RoundMotor(t, was, polls, i);
            && RoundMotor(t, was, polls, i + 1) == MotorAfter(t[i], m, polls[i])
            && RoundMessages(t, elapsed, was, polls, now, i + 1)
               == RoundMessages(t, elapsed, was, polls, now, i) + PublishMessages(t[i], elapsed, m, polls[i], now)
  {
  }

  /** With stable readings, a round ends with the cache at the readings as soon as one
      subscription asks for all motors. */
  lemma {:induction false} RoundReachesReadings(t: seq<Subscription>, was: seq<Octet>, polls: seq<seq<Octet>>, i: nat)
    requires |was| == MOTORS && i <= |t| == |polls| && polls != [] && Stable(polls) && |polls[0]| == MOTORS
    ensures forall j | 0 <= j < |polls| :: |polls[j]| == MOTORS
    ensures (exists j | 0 <= j < i :: PolledAll(t[j])) ==> RoundMotor(t, was, polls, i) == polls[0]
  {
    hide MotorAfter, PolledAll;
    if i == 0 {
    } else {
      RoundReachesReadings(t, was, polls, i - 1);
      TurnKeepsReadings(t[i - 1], RoundMotor(t, was, polls, i - 1), polls[0]);
      if exists j | 0 <= j < i :: PolledAll(t[j]) {
        var j :| 0 <= j < i && PolledAll(t[j]);
        assert polls[i - 1] == polls[0];
      }
    }
  }

  /** The answer to a read of one motor or of all. */
  function MotorAnswer(reqId: bv16, subtopic: Octet, elapsed: bv32, readings: seq<Octet>): Message
    requires |readings| == MOTORS
  {
    if (subtopic as nat) < MOTORS then
      DataMessage(reqId, TOPIC_MOTOR, subtopic, FLAG_END, elapsed, [readings[subtopic as nat]])
    else if subtopic == SUBTOPIC_ALL then
      DataMessage(reqId, TOPIC_MOTOR, subtopic, FLAG_END, elapsed, AllPairs(readings, MOTORS))
    else ErrorMessage(reqId, TOPIC_MOTOR, subtopic, REP_ERROR, elapsed, BAD_SUBTOPIC)
  }

  // ---------- the answers to reads of the table ----------

  function Answer(reqId: bv16, subtopic: Octet, flag: Octet, elapsed: bv32, value: seq<Octet>): Message
    requires |value| < 256
  {
    DataMessage(reqId, TOPIC_PUBSUB, subtopic, flag, elapsed, value)
  }

  function Counts(reqId: bv16, elapsed: bv32, free: nat): seq<Message>
    requires free <= SUB_MAX
  {
    [Answer(reqId, SUBTOPIC_COUNT, 0, elapsed, [(SUB_MAX - free) as bv8]),
     Answer(reqId, SUBTOPIC_FREE, 0, elapsed, [free as bv8]),
     Answer(reqId, SUBTOPIC_MAX, 0, elapsed, [SUB_MAX as bv8])]
  }

  /** The list, its length, the room left and the capacity, then an end mark. */
  function WholeTable(reqId: bv16, elapsed: bv32, t: seq<Subscription>): seq<Message>
    requires |t| == SUB_MAX
  {
    ListingReadsBack(t);
    [Answer(reqId, SUBTOPIC_LIST, 0, elapsed, Listing(t))]
    + Counts(reqId, elapsed, FreeCount(t))
    + [Answer(reqId, SUBTOPIC_ALL, FLAG_END, elapsed, [])]
  }

  function PubsubAnswers(reqId: bv16, subtopic: Octet, elapsed: bv32, t: seq<Subscription>): seq<Message>
    requires |t| == SUB_MAX
  {
    var free := FreeCount(t);
    ListingReadsBack(t);
    if (subtopic as nat) < SUB_MAX then
      var s := t[subtopic as nat];
      [Answer(reqId, subtopic, FLAG_END, elapsed, if s.active then Big16(s.reqId) + [s.topic, s.subtopic] else [])]
    else if subtopic == SUBTOPIC_COUNT then [Answer(reqId, subtopic, FLAG_END, elapsed, [(SUB_MAX - free) as bv8])]
    else if subtopic == SUBTOPIC_FREE then [Answer(reqId, subtopic, FLAG_END, elapsed, [free as bv8])]
    else if subtopic == SUBTOPIC_MAX then [Answer(reqId, subtopic, FLAG_END, elapsed, [SUB_MAX as bv8])]
    else if subtopic == SUBTOPIC_LIST then [Answer(reqId, subtopic, FLAG_END, elapsed, Listing(t))]
    else if subtopic == SUBTOPIC_ALL then WholeTable(reqId, elapsed, t)
    else [ErrorMessage(reqId, TOPIC_PUBSUB, subtopic, REP_ERROR, elapsed, BAD_SUBTOPIC)]
  }

  lemma {:induction false} MirrorConcat(copy: seq<Octet>, ms: seq<Message>, ns: seq<Message>)
    ensures Mirror(copy, ms + ns) == Mirror(Mirror(copy, ms), ns)
  {
    hide ApplyMessage;
    if ns == [] {
      assert ms + ns == ms;
    } else {
      assert (ms + ns)[..|ms + ns| - 1] == ms + ns[..|ns| - 1];
      MirrorConcat(copy, ms, ns[..|ns| - 1]);
    }
  }

  lemma ClockMessagesHarmless(s: Subscription, elapsed: bv32, was: seq<Octet>, now: seq<Octet>)
    requires s.topic == TOPIC_CLOCK && |now| == 8
    ensures Mirror(was, ClockMessages(s, elapsed, now)) == was
  {
  }

  lemma OneMotorMirror(s: Subscription, elapsed: bv32, was: seq<Octet>, x: Octet)
    requires s.topic == TOPIC_MOTOR && |was| == MOTORS && (s.subtopic as nat) < MOTORS
    ensures Mirror(was, [Publication(s, elapsed, [x])]) == was[s.subtopic as nat := x]
  {
  }

  lemma AllMotorsMirror(s: Subscription, elapsed: bv32, was: seq<Octet>, v: seq<Octet>)
    requires s.topic == TOPIC_MOTOR && s.subtopic == SUBTOPIC_ALL && |was| == MOTORS && |v| < 256
    ensures Mirror(was, [Publication(s, elapsed, v)]) == ApplyPairs(was, v)
  {
  }

  lemma ChangesMirror(s: Subscription, elapsed: bv32, was: seq<Octet>, readings: seq<Octet>)
    requires s.topic == TOPIC_MOTOR && s.subtopic == SUBTOPIC_ALL && |was| == |readings| == MOTORS
    ensures Mirror(was, MotorMessages(s, elapsed, was, readings)) == readings
  {
    PairsReachReadings(was, readings, MOTORS);
    PolledToEnds(was, readings);
    var v := Changes(was, readings, MOTORS);
    AllMotorsMirror(s, elapsed, was, v);
    NothingMirrored(was);
    hide Changes, ApplyPairs, PolledTo, Mirror, Publication, Refusal;
  }

  lemma MotorMessagesMirror(s: Subscription, elapsed: bv32, was: seq<Octet>, readings: seq<Octet>)
    requires s.topic == TOPIC_MOTOR && |was| == |readings| == MOTORS
    ensures Mirror(was, MotorMessages(s, elapsed, was, readings)) == Polled(was, s.subtopic, readings)
  {
    hide Changes, Mirror, Publication, Refusal;
    if (s.subtopic as nat) < MOTORS {
      var i := s.subtopic as nat;
      OneMotorMirror(s, elapsed, was, readings[i]);
      NothingMirrored(was);
      assert readings[i] == was[i] ==> was == was[i := readings[i]];
    } else if s.subtopic == SUBTOPIC_ALL {
      ChangesMirror(s, elapsed, was, readings);
    } else {
      RefusalHarmless(s, elapsed, was, BAD_SUBTOPIC);
    }
  }

  lemma NothingMirrored(was: seq<Octet>)
    ensures Mirror(was, []) == was
  {
  }

  lemma RefusalHarmless(s: Subscription, elapsed: bv32, was: seq<Octet>, error: Octet)
    ensures Mirror(was, [Refusal(s, elapsed, error)]) == was
  {
  }

  /** A client's copy that equals the cache still equals it after a subscription's turn. */
  lemma PublishKeepsMirror(s: Subscription, elapsed: bv32, was: seq<Octet>, readings: seq<Octet>, now: seq<Octet>)
    requires |was| == |readings| == MOTORS && |now| == 8
    ensures Mirror(was, PublishMessages(s, elapsed, was, readings, now)) == MotorAfter(s, was, readings)
  {
    hide ApplyMessage, ClockMessages, MotorMessages, Refusal;
    if s.active {
      if s.topic == TOPIC_CLOCK {
        ClockMessagesHarmless(s, elapsed, was, now);
      } else if s.topic == TOPIC_MOTOR {
        MotorMessagesMirror(s, elapsed, was, readings);
      } else if s.topic == TOPIC_ALL && s.subtopic == SUBTOPIC_ALL {
        var c := s.(topic := TOPIC_CLOCK, subtopic := SUBTOPIC_NOW);
        var m := s.(topic := TOPIC_MOTOR, subtopic := SUBTOPIC_ALL);
        ClockMessagesHarmless(c, elapsed, was, now);
        MotorMessagesMirror(m, elapsed, was, readings);
        MirrorConcat(was, ClockMessages(c, elapsed, now), MotorMessages(m, elapsed, was, readings));
      } else {
        RefusalHarmless(s, elapsed, was, BAD_SUBTOPIC);
        RefusalHarmless(s, elapsed, was, BAD_TOPIC);
      }
    }
  }

  /** So it does after a whole round, whatever the readings do meanwhile. */
  lemma {:induction false} RoundKeepsMirror(t: seq<Subscription>, elapsed: bv32, was: seq<Octet>,
                                            polls: seq<seq<Octet>>, now: seq<Octet>, i: nat)
    requires |was| == MOTORS && i <= |t| == |polls| && |now| == 8
    requires forall j | 0 <= j < |polls| :: |polls[j]| == MOTORS
    ensures Mirror(was, RoundMessages(t, elapsed, was, polls, now, i)) == RoundMotor(t, was, polls, i)
  {
    hide ApplyMessage, PublishMessages, MotorAfter;
    if i == 0 {
    } else {
      RoundKeepsMirror(t, elapsed, was, polls, now, i - 1);
      var mid := RoundMotor(t, was, polls, i - 1);
      PublishKeepsMirror(t[i - 1], elapsed, mid, polls[i - 1], now);
      MirrorConcat(was, RoundMessages(t, elapsed, was, polls, now, i - 1),
                   PublishMessages(t[i - 1], elapsed, mid, polls[i - 1], now));
    }
  }

  /** And after a read. */
  lemma ReadKeepsMirror(reqId: bv16, subtopic: Octet, elapsed: bv32, was: seq<Octet>, readings: seq<Octet>)
    requires |was| == |readings| == MOTORS
    ensures ApplyMessage(was, MotorAnswer(reqId, subtopic, elapsed, readings)) == Polled(was, subtopic, readings)
  {
    PairsReachReadings(was, readings, MOTORS);
    PolledToEnds(was, readings);
    hide Changes, AllPairs, ApplyPairs, PolledTo;
  }
}
