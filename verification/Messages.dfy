/** The message codec: eight kinds of message, big-endian fields, length-prefixed values. */
module Messages {
  import opened Octets

  const OP_PING: Octet := 0x01
  const OP_PONG: Octet := 0x02
  const OP_INFO: Octet := 0x03
  const OP_DATA: Octet := 0x04
  const OP_READ: Octet := 0x05
  const OP_WRITE: Octet := 0x06
  const OP_SUBSCRIBE: Octet := 0x07
  const OP_UNSUBSCRIBE: Octet := 0x08

  /** The struct of a message without its value pointer; Unknown is any other opcode. */
  datatype Fields =
    | Ping(seqId: Octet)
    | Pong(seqId: Octet)
    | Info(topic: Octet, subtopic: Octet, len: Octet)
    | Data(reqId: bv16, topic: Octet, subtopic: Octet, flag: Octet, timestamp: bv32, len: Octet)
    | Read(reqId: bv16, topic: Octet, subtopic: Octet)
    | Write(reqId: bv16, topic: Octet, subtopic: Octet, len: Octet)
    | Subscribe(reqId: bv16, topic: Octet, subtopic: Octet)
    | Unsubscribe(reqId: bv16)
    | Unknown(op: Octet)

  /** A message with the octets its value pointer leads to. */
  datatype Message = Message(fields: Fields, value: seq<Octet>)

  function ValueLength(f: Fields): nat {
    if f.Info? || f.Data? || f.Write? then f.len as nat else 0
  }

  predicate WellFormed(m: Message) {
    |m.value| == ValueLength(m.fields)
  }

  /** The octets before the value. */
  function HeadSize(f: Fields): nat {
    match f
    case Ping(_) => 2
    case Pong(_) => 2
    case Info(_, _, _) => 4
    case Data(_, _, _, _, _, _) => 11
    case Read(_, _, _) => 5
    case Write(_, _, _, _) => 6
    case Subscribe(_, _, _) => 5
    case Unsubscribe(_) => 3
    case Unknown(_) => 0
  }

  /** message_getsizeof: zero for an unknown opcode. */
  function GetSizeof(f: Fields): nat {
    HeadSize(f) + ValueLength(f)
  }

  function Big16(x: bv16): (s: seq<Octet>)
    ensures |s| == 2
  {
    [(x >> 8) as bv8, (x & 0xff) as bv8]
  }

  function Big32(x: bv32): (s: seq<Octet>)
    ensures |s| == 4
  {
    [(x >> 24) as bv8, ((x >> 16) & 0xff) as bv8, ((x >> 8) & 0xff) as bv8, (x & 0xff) as bv8]
  }

  function From16(a: Octet, b: Octet): bv16 {
    ((a as bv16) << 8) | (b as bv16)
  }

  function From32(a: Octet, b: Octet, c: Octet, d: Octet): bv32 {
    ((a as bv32) << 24) | ((b as bv32) << 16) | ((c as bv32) << 8) | (d as bv32)
  }

  lemma BigEndian(x: bv16, y: bv32, a: Octet, b: Octet, c: Octet, d: Octet)
    ensures From16(Big16(x)[0], Big16(x)[1]) == x
    ensures From32(Big32(y)[0], Big32(y)[1], Big32(y)[2], Big32(y)[3]) == y
    ensures Big16(From16(a, b)) == [a, b]
    ensures Big32(From32(a, b, c, d)) == [a, b, c, d]
  {
  }

  function Head(f: Fields): (s: seq<Octet>)
    ensures |s| == HeadSize(f)
  {
    match f
    case Ping(seqId) => [OP_PING, seqId]
    case Pong(seqId) => [OP_PONG, seqId]
    case Info(topic, subtopic, len) => [OP_INFO, topic, subtopic, len]
    case Data(reqId, topic, subtopic, flag, timestamp, len) =>
      [OP_DATA, Big16(reqId)[0], Big16(reqId)[1], topic, subtopic, flag,
       Big32(timestamp)[0], Big32(timestamp)[1], Big32(timestamp)[2], Big32(timestamp)[3], len]
    case Read(reqId, topic, subtopic) =>
      [OP_READ, Big16(reqId)[0], Big16(reqId)[1], topic, subtopic]
    case Write(reqId, topic, subtopic, len) =>
      [OP_WRITE, Big16(reqId)[0], Big16(reqId)[1], topic, subtopic, len]
    case Subscribe(reqId, topic, subtopic) =>
      [OP_SUBSCRIBE, Big16(reqId)[0], Big16(reqId)[1], topic, subtopic]
    case Unsubscribe(reqId) =>
      [OP_UNSUBSCRIBE, Big16(reqId)[0], Big16(reqId)[1]]
    case Unknown(_) => []
  }

  function Serialized(m: Message): seq<Octet> {
    Head(m.fields) + m.value
  }

  /** The result of deserialising: the struct, whose value pointer is the offset of the value. */
  datatype Parsed = Rejected | Accepted(fields: Fields, at: nat)

  /** A sum of two octets, kept in an octet. */
  function WrappedSum(len: Octet, at: Octet): nat {
    (len + at) as int
  }

  /** The length check of a value that starts at offset at. */
  predicate LengthFits(s: seq<Octet>, len: Octet, at: Octet) {
    WrappedSum(len, at) <= |s|
  }

  function ParseInfo(s: seq<Octet>): Parsed {
    if |s| < 4 || !LengthFits(s, s[3], 4) then Rejected
    else Accepted(Info(s[1], s[2], s[3]), 4)
  }

  function ParseData(s: seq<Octet>): Parsed {
    if |s| < 11 || !LengthFits(s, s[10], 11) then Rejected
    else Accepted(Data(From16(s[1], s[2]), s[3], s[4], s[5], From32(s[6], s[7], s[8], s[9]), s[10]), 11)
  }

  function ParseWrite(s: seq<Octet>): Parsed {
    if |s| < 6 || !LengthFits(s, s[5], 6) then Rejected
    else Accepted(Write(From16(s[1], s[2]), s[3], s[4], s[5]), 6)
  }

  /** The kinds that carry no value. */
  function ParsePlain(s: seq<Octet>): Parsed
    requires 2 <= |s|
  {
    if s[0] == OP_PING then Accepted(Ping(s[1]), 2)
    else if s[0] == OP_PONG then Accepted(Pong(s[1]), 2)
    else if s[0] == OP_READ then
      if |s| < 5 then Rejected else Accepted(Read(From16(s[1], s[2]), s[3], s[4]), 5)
    else if s[0] == OP_SUBSCRIBE then
      if |s| < 5 then Rejected else Accepted(Subscribe(From16(s[1], s[2]), s[3], s[4]), 5)
    else if s[0] == OP_UNSUBSCRIBE then
      if |s| < 3 then Rejected else Accepted(Unsubscribe(From16(s[1], s[2])), 3)
    else Rejected
  }

  function Parse(s: seq<Octet>): Parsed {
    if |s| < 2 then Rejected
    else if s[0] == OP_INFO then ParseInfo(s)
    else if s[0] == OP_DATA then ParseData(s)
    else if s[0] == OP_WRITE then ParseWrite(s)
    else ParsePlain(s)
  }

  // ---------- the methods ----------

  method PutValue(buf: array<Octet>, at: nat, value: seq<Octet>)
    requires at + |value| <= buf.Length
    modifies buf
    ensures buf[..] == old(buf[..at]) + value + old(buf[at + |value|..])
  {
    forall i | 0 <= i < |value| {
      buf[at + i] := value[i];
    }
  }

  /** message_serialize: -1 and an untouched buffer if the opcode is unknown or the message does
      not fit, otherwise 0, the message at the start of the buffer, and its size. */
  method Serialize(m: Message, buf: array<Octet>, len: nat) returns (ret: int, outlen: nat)
    requires WellFormed(m) && len <= buf.Length
    modifies buf
    ensures ret == (if m.fields.Unknown? || len < |Serialized(m)| then -1 else 0)
    ensures ret == -1 ==> buf[..] == old(buf[..])
    ensures ret == 0 ==> outlen == |Serialized(m)| && buf[..] == Serialized(m) + old(buf[..])[outlen..]
    ensures ret == 0 ==> Holds(buf[..outlen], m.fields, outlen - |m.value|)
  {
    hide Big16, Big32, Holds;
    var mlen := GetSizeof(m.fields);
    if mlen == 0 || mlen > len {
      return -1, 0;
    }
    ghost var was := buf[..];
    PutHead(m.fields, buf);
    assert buf[..] == Head(m.fields) + was[HeadSize(m.fields)..];
    hide Head;
    PutValue(buf, HeadSize(m.fields), m.value);
    SerializedLayout(m);
    assert buf[..mlen] == Serialized(m);
    return 0, mlen;
  }

  /** buf starts with the octets s and is otherwise as it was. */
  twostate predicate Begins(buf: array<Octet>, s: seq<Octet>)
    reads buf
  {
    && |s| <= buf.Length
    && (forall i | 0 <= i < |s| :: buf[i] == s[i])
    && (forall i | |s| <= i < buf.Length :: buf[i] == old(buf[i]))
  }

  /** Opcode, request id, topic and subtopic. */
  method PutRequest(op: Octet, reqId: bv16, topic: Octet, subtopic: Octet, buf: array<Octet>)
    requires 5 <= buf.Length
    modifies buf
    ensures Begins(buf, [op, Big16(reqId)[0], Big16(reqId)[1], topic, subtopic])
  {
    hide Big16;
    buf[0] := op;
    buf[1] := Big16(reqId)[0];
    buf[2] := Big16(reqId)[1];
    buf[3] := topic;
    buf[4] := subtopic;
  }

  /** The part of a DATA head that follows its subtopic. */
  method PutDataTail(flag: Octet, timestamp: bv32, len: Octet, buf: array<Octet>)
    requires 11 <= buf.Length
    modifies buf
    ensures forall i | 0 <= i < 5 || 11 <= i < buf.Length :: buf[i] == old(buf[i])
    ensures buf[5] == flag && buf[10] == len
    ensures forall i | 0 <= i < 4 :: buf[6 + i] == Big32(timestamp)[i]
  {
    hide Big32;
    buf[5] := flag;
    var octets := Big32(timestamp);
    buf[6] := octets[0];
    buf[7] := octets[1];
    buf[8] := octets[2];
    buf[9] := octets[3];
    buf[10] := len;
  }

  method PutHead(f: Fields, buf: array<Octet>)
    requires !f.Unknown? && HeadSize(f) <= buf.Length
    modifies buf
    ensures Begins(buf, Head(f))
  {
    hide Big16, Big32;
    match f
    case Ping(seqId) =>
      buf[0] := OP_PING;
      buf[1] := seqId;
    case Pong(seqId) =>
      buf[0] := OP_PONG;
      buf[1] := seqId;
    case Info(topic, subtopic, len) =>
      buf[0] := OP_INFO;
      buf[1] := topic;
      buf[2] := subtopic;
      buf[3] := len;
    case Data(reqId, topic, subtopic, flag, timestamp, len) =>
      PutRequest(OP_DATA, reqId, topic, subtopic, buf);
      PutDataTail(flag, timestamp, len, buf);
    case Read(reqId, topic, subtopic) =>
      PutRequest(OP_READ, reqId, topic, subtopic, buf);
    case Write(reqId, topic, subtopic, len) =>
      PutRequest(OP_WRITE, reqId, topic, subtopic, buf);
      buf[5] := len;
    case Subscribe(reqId, topic, subtopic) =>
      PutRequest(OP_SUBSCRIBE, reqId, topic, subtopic, buf);
    case Unsubscribe(reqId) =>
      buf[0] := OP_UNSUBSCRIBE;
      buf[1] := Big16(reqId)[0];
      buf[2] := Big16(reqId)[1];
  }

  method DeserializeInfo(buf: array<Octet>, len: nat) returns (r: Parsed)
    requires len <= buf.Length
    ensures r == ParseInfo(buf[..len])
  {
    if len < 4 {
      return Rejected;
    }
    var vlen := buf[3];
    vlen := vlen + 4;
    if len < vlen as nat {
      return Rejected;
    }
    r := Accepted(Info(buf[1], buf[2], buf[3]), 4);
  }

  method DeserializeData(buf: array<Octet>, len: nat) returns (r: Parsed)
    requires len <= buf.Length
    ensures r == ParseData(buf[..len])
  {
    hide From16, From32;
    if len < 11 {
      return Rejected;
    }
    var vlen := buf[10];
    vlen := vlen + 11;
    if len < vlen as nat {
      return Rejected;
    }
    r := Accepted(Data(From16(buf[1], buf[2]), buf[3], buf[4], buf[5],
                       From32(buf[6], buf[7], buf[8], buf[9]), buf[10]), 11);
  }

  method DeserializeWrite(buf: array<Octet>, len: nat) returns (r: Parsed)
    requires len <= buf.Length
    ensures r == ParseWrite(buf[..len])
  {
    hide From16;
    if len < 6 {
      return Rejected;
    }
    var vlen := buf[5];
    vlen := vlen + 6;
    if len < vlen as nat {
      return Rejected;
    }
    r := Accepted(Write(From16(buf[1], buf[2]), buf[3], buf[4], buf[5]), 6);
  }

  method DeserializePlain(buf: array<Octet>, len: nat) returns (r: Parsed)
    requires 2 <= len <= buf.Length
    ensures r == ParsePlain(buf[..len])
  {
    hide From16;
    r := Rejected;
    var op := buf[0];
    if op == OP_PING {
      r := Accepted(Ping(buf[1]), 2);
    } else if op == OP_PONG {
      r := Accepted(Pong(buf[1]), 2);
    } else if op == OP_READ && len >= 5 {
      r := Accepted(Read(From16(buf[1], buf[2]), buf[3], buf[4]), 5);
    } else if op == OP_SUBSCRIBE && len >= 5 {
      r := Accepted(Subscribe(From16(buf[1], buf[2]), buf[3], buf[4]), 5);
    } else if op == OP_UNSUBSCRIBE && len >= 3 {
      r := Accepted(Unsubscribe(From16(buf[1], buf[2])), 3);
    }
  }

  /** message_deserialize: Accepted where the source returns 0. */
  method Deserialize(buf: array<Octet>, len: nat) returns (r: Parsed)
    requires len <= buf.Length
    ensures r == Parse(buf[..len])
    ensures r.Accepted? ==> Holds(buf[..len], r.fields, r.at)
  {
    hide ParseInfo, ParseData, ParseWrite, ParsePlain, Holds;
    if len < 2 {
      return Rejected;
    }
    var op := buf[0];
    if op == OP_INFO {
      r := DeserializeInfo(buf, len);
    } else if op == OP_DATA {
      r := DeserializeData(buf, len);
    } else if op == OP_WRITE {
      r := DeserializeWrite(buf, len);
    } else {
      r := DeserializePlain(buf, len);
    }
    if r.Accepted? {
      ParsedLayout(buf[..len]);
    }
  }

  // ---------- the codec is its own inverse ----------

  lemma SumWraps(len: Octet, at: Octet)
    requires at <= 11
    ensures var n := len as int + at as int;
            at as int <= 11 && len as int <= 255
            && WrappedSum(len, at) == if n <= 255 then n else n - 256
  {
  }

  /** A length check that may wrap passes if the sum fits, or if it does not fit an octet. */
  lemma LengthFitsExactly(s: seq<Octet>, len: Octet, at: Octet)
    requires at <= 11 && at as int <= |s|
    ensures LengthFits(s, len, at) <==> var n := at as int + len as int; n <= |s| || 255 < n
  {
    hide WrappedSum;
    SumWraps(len, at);
  }

  lemma HeadParsed(f: Fields, rest: seq<Octet>)
    requires !f.Unknown? && |rest| >= ValueLength(f)
    ensures Parse(Head(f) + rest) == Accepted(f, HeadSize(f))
  {
    hide Big16, Big32, From16, From32, LengthFits;
    match f
    case Ping(_) =>
    case Pong(_) =>
    case Info(_, _, len) => LengthFitsExactly(Head(f) + rest, len, 4);
    case Data(x, _, _, _, y, len) =>
      BigEndian(x, y, 0, 0, 0, 0);
      LengthFitsExactly(Head(f) + rest, len, 11);
    case Read(x, _, _) => BigEndian(x, 0, 0, 0, 0, 0);
    case Write(x, _, _, len) =>
      BigEndian(x, 0, 0, 0, 0, 0);
      LengthFitsExactly(Head(f) + rest, len, 6);
    case Subscribe(x, _, _) => BigEndian(x, 0, 0, 0, 0, 0);
    case Unsubscribe(x) => BigEndian(x, 0, 0, 0, 0, 0);
  }

  /** The message a parse result stands for, if its value lies inside the octets parsed. */
  function Denoted(s: seq<Octet>, r: Parsed): Message
    requires r.Accepted? && r.at + ValueLength(r.fields) <= |s|
  {
    Message(r.fields, s[r.at..r.at + ValueLength(r.fields)])
  }

  /** Deserialising a serialised message gives it back, whatever octets follow it. */
  lemma SerializedParses(m: Message, rest: seq<Octet>)
    requires WellFormed(m) && !m.fields.Unknown?
    ensures var r := Parse(Serialized(m) + rest);
            && r == Accepted(m.fields, HeadSize(m.fields))
            && Denoted(Serialized(m) + rest, r) == m
  {
    hide Head, Parse;
    var s := Serialized(m) + rest;
    assert s == Head(m.fields) + (m.value + rest);
    HeadParsed(m.fields, m.value + rest);
  }

  /** Conversely, what is accepted, and lies inside the octets, serialises to a prefix of them. */
  lemma ParsedSerializes(s: seq<Octet>)
    requires var r := Parse(s); r.Accepted? && r.at + ValueLength(r.fields) <= |s|
    ensures var m := Denoted(s, Parse(s));
            WellFormed(m) && Serialized(m) == s[..|Serialized(m)|]
  {
    HeadRestored(s);
    hide Parse, Head;
    var r := Parse(s);
    assert Serialized(Denoted(s, r)) == s[..r.at] + s[r.at..r.at + ValueLength(r.fields)];
  }

  lemma HeadRestored(s: seq<Octet>)
    requires Parse(s).Accepted?
    ensures Parse(s).at == HeadSize(Parse(s).fields) <= |s|
    ensures Head(Parse(s).fields) == s[..Parse(s).at]
  {
    hide Big16, Big32, From16, From32;
    if |s| >= 10 {
      BigEndian(0, 0, s[6], s[7], s[8], s[9]);
    }
    if |s| >= 3 {
      BigEndian(0, 0, s[1], s[2], 0, 0);
    }
  }

  // ---------- where each field lies ----------

  lemma Halves(x: bv16)
    ensures 256 * ((x >> 8) as bv8) as int + ((x & 0xff) as bv8) as int == x as int
  {
  }

  lemma FirstQuarter(x: bv32)
    ensures 0x1000000 * ((x >> 24) as bv8) as int + (x & 0xffffff) as int == x as int
  {
  }

  lemma SecondQuarter(x: bv32)
    ensures 0x10000 * (((x >> 16) & 0xff) as bv8) as int + (x & 0xffff) as int == (x & 0xffffff) as int
  {
  }

  lemma LastQuarters(x: bv32)
    ensures 0x100 * (((x >> 8) & 0xff) as bv8) as int + ((x & 0xff) as bv8) as int == (x & 0xffff) as int
  {
  }

  /** The octets of a number, the most significant first. */
  lemma Value16(x: bv16)
    ensures 256 * Big16(x)[0] as int + Big16(x)[1] as int == x as int
  {
    Halves(x);
    var a, b := (x >> 8) as bv8, (x & 0xff) as bv8;
    assert Big16(x) == [a, b];
    hide *;
  }

  lemma Value32(x: bv32)
    ensures var s := Big32(x);
            0x1000000 * s[0] as int + 0x10000 * s[1] as int + 0x100 * s[2] as int + s[3] as int == x as int
  {
    FirstQuarter(x);
    SecondQuarter(x);
    LastQuarters(x);
    var a, b, c, d := (x >> 24) as bv8, ((x >> 16) & 0xff) as bv8, ((x >> 8) & 0xff) as bv8, (x & 0xff) as bv8;
    assert Big32(x) == [a, b, c, d];
    hide *;
  }

  /** The number that two or four octets stand for, the most significant first. */
  lemma OctetsValue(a: Octet, b: Octet, c: Octet, d: Octet)
    ensures From16(a, b) as int == 256 * a as int + b as int
    ensures From32(a, b, c, d) as int
         == 0x1000000 * a as int + 0x10000 * b as int + 0x100 * c as int + d as int
  {
    BigEndian(0, 0, a, b, c, d);
    hide Big16, Big32, From16, From32;
    Value16(From16(a, b));
    Value32(From32(a, b, c, d));
  }

  predicate At16(s: seq<Octet>, i: nat, x: bv16)
    requires i + 2 <= |s|
  {
    256 * s[i] as int + s[i + 1] as int == x as int
  }

  predicate At32(s: seq<Octet>, i: nat, x: bv32)
    requires i + 4 <= |s|
  {
    0x1000000 * s[i] as int + 0x10000 * s[i + 1] as int + 0x100 * s[i + 2] as int + s[i + 3] as int == x as int
  }

  lemma WrittenAt16(s: seq<Octet>, i: nat, x: bv16)
    requires i + 2 <= |s| && s[i] == Big16(x)[0] && s[i + 1] == Big16(x)[1]
    ensures At16(s, i, x)
  {
    hide Big16;
    Value16(x);
  }

  lemma WrittenAt32(s: seq<Octet>, i: nat, x: bv32)
    requires i + 4 <= |s| && forall j | 0 <= j < 4 :: s[i + j] == Big32(x)[j]
    ensures At32(s, i, x)
  {
    hide Big32;
    Value32(x);
    assert s[i] == s[i + 0];
  }

  lemma ReadAt(s: seq<Octet>, i: nat)
    ensures i + 2 <= |s| ==> At16(s, i, From16(s[i], s[i + 1]))
    ensures i + 4 <= |s| ==> At32(s, i, From32(s[i], s[i + 1], s[i + 2], s[i + 3]))
  {
    hide From16, From32;
    if i + 4 <= |s| {
      OctetsValue(s[i], s[i + 1], s[i + 2], s[i + 3]);
    } else if i + 2 <= |s| {
      OctetsValue(s[i], s[i + 1], 0, 0);
    }
  }

  /** The octets s hold the opcode and fields of f, and the value starts at offset at. */
  predicate Holds(s: seq<Octet>, f: Fields, at: nat) {
    && 2 <= at <= |s|
    && match f
       case Ping(seqId) => at == 2 && s[0] == 0x01 && s[1] == seqId
       case Pong(seqId) => at == 2 && s[0] == 0x02 && s[1] == seqId
       case Info(topic, subtopic, len) =>
         at == 4 && s[0] == 0x03 && s[1] == topic && s[2] == subtopic && s[3] == len
       case Data(reqId, topic, subtopic, flag, timestamp, len) =>
         && at == 11 && s[0] == 0x04 && At16(s, 1, reqId) && s[3] == topic && s[4] == subtopic
         && s[5] == flag && At32(s, 6, timestamp) && s[10] == len
       case Read(reqId, topic, subtopic) =>
         at == 5 && s[0] == 0x05 && At16(s, 1, reqId) && s[3] == topic && s[4] == subtopic
       case Write(reqId, topic, subtopic, len) =>
         at == 6 && s[0] == 0x06 && At16(s, 1, reqId) && s[3] == topic && s[4] == subtopic && s[5] == len
       case Subscribe(reqId, topic, subtopic) =>
         at == 5 && s[0] == 0x07 && At16(s, 1, reqId) && s[3] == topic && s[4] == subtopic
       case Unsubscribe(reqId) => at == 3 && s[0] == 0x08 && At16(s, 1, reqId)
       case Unknown(_) => false
  }

  /** Every field of a serialised message lies where the format has it, numbers with their most
      significant octet first, and the value follows. */
  lemma SerializedLayout(m: Message)
    requires WellFormed(m) && !m.fields.Unknown?
    ensures var s, at := Serialized(m), |Serialized(m)| - |m.value|;
            Holds(s, m.fields, at) && s[at..] == m.value
  {
    hide Big16, Big32, At16, At32;
    var s := Serialized(m);
    match m.fields
    case Data(reqId, _, _, _, timestamp, _) => WrittenAt16(s, 1, reqId); WrittenAt32(s, 6, timestamp);
    case Read(reqId, _, _) => WrittenAt16(s, 1, reqId);
    case Write(reqId, _, _, _) => WrittenAt16(s, 1, reqId);
    case Subscribe(reqId, _, _) => WrittenAt16(s, 1, reqId);
    case Unsubscribe(reqId) => WrittenAt16(s, 1, reqId);
    case _ =>
  }

  /** Every field of an accepted message was read from there. */
  lemma ParsedLayout(s: seq<Octet>)
    requires Parse(s).Accepted?
    ensures Holds(s, Parse(s).fields, Parse(s).at)
  {
    hide From16, From32, At16, At32, LengthFits;
    ReadAt(s, 1);
    ReadAt(s, 6);
  }

  // ---------- what is accepted ----------

  /** The size that the opcode and length octets of s announce; zero without a known opcode and
      a whole head. */
  function AnnouncedSize(s: seq<Octet>): nat {
    if |s| < 2 then 0
    else if s[0] == OP_PING || s[0] == OP_PONG then 2
    else if s[0] == OP_INFO then if |s| < 4 then 0 else 4 + s[3] as nat
    else if s[0] == OP_DATA then if |s| < 11 then 0 else 11 + s[10] as nat
    else if s[0] == OP_READ || s[0] == OP_SUBSCRIBE then if |s| < 5 then 0 else 5
    else if s[0] == OP_WRITE then if |s| < 6 then 0 else 6 + s[5] as nat
    else if s[0] == OP_UNSUBSCRIBE then if |s| < 3 then 0 else 3
    else 0
  }

  /** Exactly the messages that are all there are accepted, together with those announcing more
      than 255 octets: there the eight-bit sum of the length check wraps. */
  lemma AcceptsExactly(s: seq<Octet>)
    ensures Parse(s).Accepted? <==> var n := AnnouncedSize(s); n != 0 && (n <= |s| || 255 < n)
    ensures Parse(s).Accepted? ==> GetSizeof(Parse(s).fields) == AnnouncedSize(s)
  {
    hide From16, From32, LengthFits;
    if |s| >= 4 {
      LengthFitsExactly(s, s[3], 4);
    }
    if |s| >= 6 {
      LengthFitsExactly(s, s[5], 6);
    }
    if |s| >= 11 {
      LengthFitsExactly(s, s[10], 11);
    }
  }

  /** The value of an accepted message runs past the octets given if and only if it announces more
      octets than there are and more than 255. For a buffer of at most 255 octets, as a packet's
      254 are, the announcement alone decides. Four octets are enough for it to happen. */
  lemma AcceptedInsideExactly(s: seq<Octet>)
    requires Parse(s).Accepted?
    ensures var n, end := AnnouncedSize(s), Parse(s).at + ValueLength(Parse(s).fields);
            && (|s| < end <==> 255 < n && |s| < n)
            && (|s| <= 255 ==> (end <= |s| <==> n <= 255))
    ensures var t := [OP_INFO, 0, 0, 0xff]; Parse(t) == Accepted(Info(0, 0, 0xff), 4) && |t| < AnnouncedSize(t)
  {
    AcceptsExactly(s);
    HeadRestored(s);
    assert Parse(s).at + ValueLength(Parse(s).fields) == GetSizeof(Parse(s).fields);
  }
}
