/** The packets as MQTT Version 3.1.1 has them, octet by octet: the serializers write exactly this. */
module MqttWire {
  import opened Types
  import opened MqttPacket
  import opened MqttPublish
  import opened MqttSubscribe
  import opened MqttConnect

  // ----- sections 1.5 and 2.2 -----

  /** Two octets, the more significant one first. */
  function Integer(n: Word): seq<Byte> {
    [n / 256, n % 256]
  }

  /** A string of fewer than 2 to the 16th octets, with its length before it. */
  function Text(t: seq<Byte>): seq<Byte>
    requires |t| < 0x10000
  {
    Integer(|t|) + t
  }

  /** The remaining length: 7 bits an octet, the least significant first, with a continuation bit. */
  function Remaining(n: nat): seq<Byte>
    requires n <= 268435455
  {
    if n <= 127 then [n]
    else if n <= 16383 then [128 + n % 128, n / 128]
    else if n <= 2097151 then [128 + n % 128, 128 + n / 128 % 128, n / 16384]
    else [128 + n % 128, 128 + n / 128 % 128, 128 + n / 16384 % 128, n / 2097152]
  }

  lemma EncodeIsRemaining(n: nat)
    requires n <= 268435455
    ensures Encode(n) == Remaining(n)
  {
    var a := n / 128;
    var b := a / 128;
    var c := b / 128;
    assert b == n / 16384 && c == n / 2097152;
    EncodeStep(n);
    EncodeStep(a);
    EncodeStep(b);
    EncodeStep(c);
    hide Encode;
  }

  /** What octets with continuation bits mean, whether they could be fewer or not. */
  lemma DecodeMeans(a: Byte, b: Byte, c: Byte, d: Byte, rest: seq<Byte>)
    ensures a < 128 ==> Decode([a] + rest) == Some((a, 1))
    ensures a >= 128 > b ==> Decode([a, b] + rest) == Some((a - 128 + 128 * b, 2))
    ensures a >= 128 && b >= 128 > c ==>
              Decode([a, b, c] + rest) == Some((a - 128 + 128 * (b - 128) + 16384 * c, 3))
    ensures a >= 128 && b >= 128 && c >= 128 > d ==>
              Decode([a, b, c, d] + rest)
              == Some((a - 128 + 128 * (b - 128) + 16384 * (c - 128) + 2097152 * d, 4))
  {
    hide DecodeFrom;
    Next(a, [b] + rest, 0, 1, 0);
    Next(a, rest, 0, 1, 0);
    if a >= 128 {
      assert [a, b] + rest == [a] + ([b] + rest);
      Next(b, rest, 1, 128, a - 128);
      if b >= 128 { FourMean(a, b, c, d, rest); }
    }
  }

  lemma FourMean(a: Byte, b: Byte, c: Byte, d: Byte, rest: seq<Byte>)
    requires a >= 128 && b >= 128
    ensures c < 128 ==> Decode([a, b, c] + rest) == Some((a - 128 + 128 * (b - 128) + 16384 * c, 3))
    ensures c >= 128 > d ==>
              Decode([a, b, c, d] + rest)
              == Some((a - 128 + 128 * (b - 128) + 16384 * (c - 128) + 2097152 * d, 4))
  {
    hide DecodeFrom;
    var v := a - 128 + 128 * (b - 128);
    if c < 128 {
      assert [a, b, c] + rest == [a] + ([b] + ([c] + rest));
      Next(a, [b] + ([c] + rest), 0, 1, 0);
      Next(b, [c] + rest, 1, 128, a - 128);
      Next(c, rest, 2, 16384, v);
    } else if d < 128 {
      assert [a, b, c, d] + rest == [a] + ([b] + ([c] + ([d] + rest)));
      Next(a, [b] + ([c] + ([d] + rest)), 0, 1, 0);
      Next(b, [c] + ([d] + rest), 1, 128, a - 128);
      Next(c, [d] + rest, 2, 16384, v);
      Next(d, rest, 3, 2097152, v + 16384 * (c - 128));
    }
  }

  lemma Next(x: Byte, s: seq<Byte>, i: nat, multiplier: nat, value: nat)
    requires i < 4
    ensures DecodeFrom([x] + s, i, multiplier, value)
            == if x < 128 then Some((value + x * multiplier, i + 1))
               else DecodeFrom(s, i + 1, multiplier * 128, value + (x - 128) * multiplier)
  {
    assert ([x] + s)[1..] == s;
  }

  lemma TextIsStringBytes(t: seq<Byte>)
    requires |t| < 0x10000
    ensures StringBytes(t) == Text(t)
  {}

  lemma TextSize(t: seq<Byte>)
    requires |t| < 0x10000
    ensures |Text(t)| == 2 + |t|
  {}

  lemma IntegerIsIntBytes(n: Word)
    ensures IntBytes(n) == Integer(n) && |Integer(n)| == 2
  {}

  /** What a string field means to a deserializer: with its length below 32768 it is read if the data has it
      all, and refused if not; a length of 32768 or more leads out of the data. */
  lemma StringMeans(s: seq<Byte>)
    ensures |s| < 2 ==> ReadString(s) == Code(0)
    ensures |s| >= 2 && s[0] >= 128 ==> ReadString(s) == Astray
    ensures |s| >= 2 && s[0] < 128 ==>
              var (high: nat, low) := (s[0], s[1]);
              var n := 256 * high + low;
              ReadString(s) == if 2 + n <= |s| then Parsed.Ok((s[2..2 + n], 2 + n)) else Code(0)
  {}

  // ----- section 3.3: PUBLISH -----

  function PublishPacket(dup: nat, qos: nat, retain: nat, id: Word, topic: seq<Byte>, payload: seq<Byte>): seq<Byte>
    requires dup < 2 && qos < 4 && retain < 2 && |topic| < 0x10000
    requires 2 + |topic| + (if qos > 0 then 2 else 0) + |payload| <= 268435455
  {
    [0x30 + 8 * dup + 2 * qos + retain]
    + Remaining(2 + |topic| + (if qos > 0 then 2 else 0) + |payload|)
    + Text(topic) + (if qos > 0 then Integer(id) else []) + payload
  }

  lemma PublishIsThis(dup: nat, qos: nat, retain: nat, id: Word, topic: seq<Byte>, payload: seq<Byte>)
    requires dup < 2 && qos < 4 && retain < 2 && |topic| < 0x10000
    requires 2 + |topic| + (if qos > 0 then 2 else 0) + |payload| <= 268435455
    ensures PublishBytes(dup, qos, retain, id, topic, payload) == PublishPacket(dup, qos, retain, id, topic, payload)
  {
    hide Encode, Remaining, StringBytes, IntBytes, Integer, Text;
    var ids := if qos > 0 then Integer(id) else [];
    var body := PublishBody(qos, id, topic, payload);
    assert Header(PUBLISH, dup, qos, retain) == 0x30 + 8 * dup + 2 * qos + retain;
    hide Header;
    TextIsStringBytes(topic);
    IntegerIsIntBytes(id);
    TextSize(topic);
    assert body == Text(topic) + ids + payload;
    assert |ids| == if qos > 0 then 2 else 0;
    EncodeIsRemaining(|body|);
  }

  lemma PublishExample()
    ensures PublishBytes(1, 1, 1, 10, [0x61, 0x2f, 0x62], [1]) == [0x3b, 8, 0, 3, 0x61, 0x2f, 0x62, 0, 10, 1]
  {
    PublishIsThis(1, 1, 1, 10, [0x61, 0x2f, 0x62], [1]);
  }

  // ----- sections 3.8 and 3.9: SUBSCRIBE and SUBACK -----

  /** The filters, each with the quality of service that is asked for. */
  function Filters(rs: seq<Request>): seq<Byte>
    requires AllPlain(rs)
  {
    if rs == [] then [] else Text(Written(rs[0].filter)) + [rs[0].qos % 256] + Filters(rs[1..])
  }

  lemma {:induction false} EntriesAreFilters(rs: seq<Request>)
    requires AllPlain(rs)
    ensures EntriesBytes(rs) == Filters(rs)
  {
    if rs != [] {
      TextIsStringBytes(Written(rs[0].filter));
      assert forall i | 0 <= i < |rs| - 1 :: rs[1..][i] == rs[i + 1];
      EntriesAreFilters(rs[1..]);
    }
  }

  function SubscribePacket(dup: nat, id: Word, rs: seq<Request>): seq<Byte>
    requires dup < 2 && AllPlain(rs) && 2 + |Filters(rs)| <= 268435455
  {
    [0x82 + 8 * dup] + Remaining(2 + |Filters(rs)|) + Integer(id) + Filters(rs)
  }

  lemma SubscribeIsThis(dup: nat, id: Word, rs: seq<Request>)
    requires dup < 2 && AllPlain(rs) && 2 + |Filters(rs)| <= 268435455
    ensures SubscribeBytes(dup, id, rs) == SubscribePacket(dup, id, rs)
  {
    hide Encode, Remaining, EntriesBytes, Filters, EntryBytes, Text, Written, StringBytes;
    EntriesAreFilters(rs);
    EncodeIsRemaining(2 + |Filters(rs)|);
    var body := SubscribeBody(id, rs);
    assert |body| == 2 + |Filters(rs)|;
    assert Header(SUBSCRIBE, dup, 1, 0) == 0x82 + 8 * dup;
  }

  function SubackPacket(id: Word, codes: seq<Byte>): seq<Byte>
    requires 2 + |codes| <= 268435455
  {
    [0x90] + Remaining(2 + |codes|) + Integer(id) + codes
  }

  lemma SubackIsThis(id: Word, codes: seq<int>)
    requires 2 + |codes| <= 268435455
    ensures |CodeBytes(codes)| == |codes|
    ensures forall i | 0 <= i < |codes| :: CodeBytes(codes)[i] == codes[i] % 256
    ensures SubackBytes(id, codes) == SubackPacket(id, CodeBytes(codes))
  {
    EncodeIsRemaining(2 + |codes|);
    IntegerIsIntBytes(id);
    hide Encode, Remaining, IntBytes, Integer;
  }

  lemma FiltersExample(a: MqttSubscribe.Request, b: MqttSubscribe.Request)
    requires a == MqttSubscribe.Request(MqttString(Some([0x61]), None), 1)
    requires b == MqttSubscribe.Request(MqttString(Some([0x62, 0x2f, 0x23]), None), 2)
    ensures AllPlain([a, b]) && Filters([a, b]) == [0, 1, 0x61, 1, 0, 3, 0x62, 0x2f, 0x23, 2]
  {
    assert [a, b][1..] == [b] && [b][1..] == [];
    assert Filters([]) == [];
    assert Filters([b]) == Text([0x62, 0x2f, 0x23]) + [2];
    assert Filters([a, b]) == Text([0x61]) + [1] + Filters([b]);
  }

  /** The filters "a" with quality of service 1 and "b/#" with 2, and an answer that refuses the second. */
  lemma SubscribeExample(a: MqttSubscribe.Request, b: MqttSubscribe.Request)
    requires a == MqttSubscribe.Request(MqttString(Some([0x61]), None), 1)
    requires b == MqttSubscribe.Request(MqttString(Some([0x62, 0x2f, 0x23]), None), 2)
    ensures SubscribeBytes(0, 10, [a, b]) == [0x82, 12, 0, 10, 0, 1, 0x61, 1, 0, 3, 0x62, 0x2f, 0x23, 2]
    ensures SubackBytes(10, [1, 0x80]) == [0x90, 4, 0, 10, 1, 0x80]
  {
    hide SubscribeBytes, SubackBytes, Filters, AllPlain;
    FiltersExample(a, b);
    SubscribeIsThis(0, 10, [a, b]);
    SubackIsThis(10, [1, 0x80]);
    assert CodeBytes([1, 0x80]) == [1, 0x80];
    hide CodeBytes;
    assert Remaining(12) == [12] && Remaining(4) == [4] && Integer(10) == [0, 10];
    hide Remaining, Integer;
  }

  // ----- section 3.1: CONNECT -----

  /** The connect flags: user name, password, will retain, will QoS, will flag, clean session, reserved. */
  function FlagOctet(o: Options): nat {
    (if Present(o.username) then 128 else 0) + (if Present(o.password) then 64 else 0)
    + (if o.willFlag then 32 * o.will.retained + 8 * o.will.qos + 4 else 0) + 2 * o.cleanSession
  }

  /** The protocol name and level: "MQTT" and 4, or "MQIsdp" and 3 as in version 3.1. */
  function Name(version: Byte): seq<Byte> {
    if version == 4 then [0, 4, 0x4d, 0x51, 0x54, 0x54, 4] else [0, 6, 0x4d, 0x51, 0x49, 0x73, 0x64, 0x70, 3]
  }

  function Optionally(present: bool, s: MqttString): seq<Byte>
    requires Plain(s)
  {
    if present then Text(Written(s)) else []
  }

  /** The payload: client identifier, will topic, will message, user name, password. */
  function Fields5(o: Options): seq<Byte>
    requires PlainOptions(o)
  {
    Text(Written(o.clientId)) + (Optionally(o.willFlag, o.will.topic) + Optionally(o.willFlag, o.will.message))
    + (Optionally(Present(o.username), o.username) + Optionally(Present(o.password), o.password))
  }

  function ConnectPacket(o: Options): seq<Byte>
    requires PlainOptions(o) && InRange(o) && |Name(o.version)| + 3 + |Fields5(o)| <= 268435455
  {
    [0x10] + Remaining(|Name(o.version)| + 3 + |Fields5(o)|)
    + Name(o.version) + [FlagOctet(o)] + Integer(o.keepAlive) + Fields5(o)
  }

  lemma FlagsAreOctet(o: Options)
    requires InRange(o)
    ensures Flags(o) == FlagOctet(o)
  {
    hide Present;
  }

  lemma OptionallyIs(present: bool, s: MqttString)
    requires Plain(s)
    ensures OptionalBytes(present, s) == Optionally(present, s)
  {
    TextIsStringBytes(Written(s));
  }

  lemma PartsOfConnect(o: Options)
    requires PlainOptions(o) && InRange(o)
    ensures Protocol(o.version) == Name(o.version) && Flags(o) == FlagOctet(o)
    ensures Payload(o) == Fields5(o)
  {
    assert Protocol(o.version) == Name(o.version);
    hide StringBytes, Text, Protocol, Flags, FlagOctet, Name, Present, OptionalBytes, Optionally;
    FlagsAreOctet(o);
    PayloadParts(o);
    TextIsStringBytes(Written(o.clientId));
    OptionallyIs(o.willFlag, o.will.topic);
    OptionallyIs(o.willFlag, o.will.message);
    OptionallyIs(Present(o.username), o.username);
    OptionallyIs(Present(o.password), o.password);
  }

  lemma ConnectIsThis(o: Options)
    requires PlainOptions(o) && InRange(o) && KnownVersion(o) && ConnectLength(o) <= 268435455
    ensures |Name(o.version)| + 3 + |Fields5(o)| == ConnectLength(o)
    ensures ConnectBytes(o) == ConnectPacket(o)
  {
    hide Encode, Remaining, IntBytes, Integer, Protocol, Name, Flags, FlagOctet, Payload, Fields5, ConnectLength;
    hide PlainOptions, InRange;
    assert Header(CONNECT, 0, 0, 0) == 0x10;
    hide Header;
    PartsOfConnect(o);
    BodyLength(o);
    IntegerIsIntBytes(o.keepAlive);
    var body := Name(o.version) + [FlagOctet(o)] + Integer(o.keepAlive) + Fields5(o);
    assert ConnectBody(o) == body;
    assert |body| == |Name(o.version)| + 3 + |Fields5(o)|;
    EncodeIsRemaining(ConnectLength(o));
    assert [0x10] + Remaining(|body|) + body == ConnectPacket(o);
  }

  lemma ExampleParts(o: Options)
    requires o.version == 4 && !o.willFlag && o.cleanSession == 1 && InRange(o)
    requires o.clientId == MqttString(Some([0x61, 0x62]), None)
    requires o.username == MqttString(Some([0x75]), None) && o.password == MqttString(Some([0x70]), None)
    requires o.will == Will(MqttString(None, None), MqttString(None, None), 0, 0)
    ensures PlainOptions(o) && FlagOctet(o) == 0xc2 && ConnectLength(o) == 20
    ensures Fields5(o) == [0, 2, 0x61, 0x62, 0, 1, 0x75, 0, 1, 0x70]
  {}

  lemma ExampleNumbers()
    ensures Remaining(20) == [20] && Integer(60) == [0, 60] && Name(4) == [0, 4, 0x4d, 0x51, 0x54, 0x54, 4]
  {}

  /** A client "ab" with user name "u", password "p", a clean session and 60 seconds. */
  lemma ConnectExample(o: Options)
    requires o.version == 4 && !o.willFlag && o.cleanSession == 1 && o.keepAlive == 60 && InRange(o)
    requires o.clientId == MqttString(Some([0x61, 0x62]), None)
    requires o.username == MqttString(Some([0x75]), None) && o.password == MqttString(Some([0x70]), None)
    requires o.will == Will(MqttString(None, None), MqttString(None, None), 0, 0)
    ensures ConnectLength(o) == 20
    ensures ConnectBytes(o) == [0x10, 20, 0, 4, 0x4d, 0x51, 0x54, 0x54, 4, 0xc2, 0, 60,
                                0, 2, 0x61, 0x62, 0, 1, 0x75, 0, 1, 0x70]
  {
    hide ConnectBytes, ConnectLength, PlainOptions, InRange, FlagOctet, Fields5, Remaining, Integer, Name;
    ExampleParts(o);
    ConnectIsThis(o);
    ExampleNumbers();
  }

  // ----- packets of other types and versions -----

  /** A packet of another type is refused, with the code that each deserializer has for it. */
  lemma OtherPackets(s: seq<Byte>, maxcount: nat)
    requires s != []
    ensures !(0x30 <= s[0] < 0x40) ==> ParsePublish(s) == Code(0)
    ensures !(0x80 <= s[0] < 0x90) ==> ParseSubscribe(s) == Code(-1)
    ensures !(0x90 <= s[0] < 0xa0) ==> ParseSuback(s, maxcount) == Code(0)
    ensures !(0x10 <= s[0] < 0x20) ==> ParseConnect(s) == Code(0)
  {
    hide Decode, Body, ReadString;
  }

  /** The protocol name of a CONNECT goes with its version as far as the shorter of the two names goes. */
  predicate KnownProtocol(name: seq<Byte>, version: Byte) {
    || (version == 4 && Agree(name, [0x4d, 0x51, 0x54, 0x54]))
    || (version == 3 && Agree(name, [0x4d, 0x51, 0x49, 0x73, 0x64, 0x70]))
  }

  predicate Agree(a: seq<Byte>, b: seq<Byte>) {
    forall i | 0 <= i < |a| && i < |b| :: a[i] == b[i]
  }

  lemma CheckIsKnown(name: seq<Byte>, version: Byte)
    ensures CheckVersion(name, version) <==> KnownProtocol(name, version)
  {
    var four, six: nat := if |name| < 4 then |name| else 4, if |name| < 6 then |name| else 6;
    assert name[..four] == MQTT[..four] <==> Agree(name, MQTT) by { PrefixAgrees(name, MQTT, four); }
    assert name[..six] == MQISDP[..six] <==> Agree(name, MQISDP) by { PrefixAgrees(name, MQISDP, six); }
  }

  lemma PrefixAgrees(a: seq<Byte>, b: seq<Byte>, k: nat)
    requires k == if |a| < |b| then |a| else |b|
    ensures a[..k] == b[..k] <==> Agree(a, b)
  {
    if a[..k] == b[..k] {
      assert forall i | 0 <= i < k :: a[i] == a[..k][i] == b[..k][i] == b[i];
    }
  }

  /** A CONNECT with any protocol name and version, and any remaining length: the rest is looked at exactly
      when they are known, and otherwise it is refused. */
  lemma VersionDecides(first: Byte, n: nat, name: seq<Byte>, version: Byte, rest: seq<Byte>)
    requires 0x10 <= first < 0x20 && n <= 268435455 && |name| < 0x8000
    ensures ParseConnect([first] + Remaining(n) + Text(name) + [version] + rest)
            == if KnownProtocol(name, version) then ParseRest(rest) else Code(0)
  {
    hide Encode, Decode, ReadString, ParseRest, CheckVersion, KnownProtocol, Remaining, Text, StringBytes;
    EncodeIsRemaining(n);
    TextIsStringBytes(name);
    CheckIsKnown(name, version);
    var s := [first] + Remaining(n) + Text(name) + [version] + rest;
    var tail := [version] + rest;
    var body := StringBytes(name) + tail;
    assert s[1..] == Encode(n) + body;
    DecodeInvertsEncode(n, body);
    assert s[1 + |Encode(n)|..] == body;
    ReadsWrittenString(name, tail);
    assert tail[0] == version && tail[1..] == rest;
  }
}
