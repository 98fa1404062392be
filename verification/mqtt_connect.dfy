/** CONNECT, section 3.1 of MQTT Version 3.1.1. */
module MqttConnect {
  import opened Types
  import opened MqttPacket

  const CONNECT := 1
  const MQTT: seq<Byte> := [77, 81, 84, 84]
  const MQISDP: seq<Byte> := [77, 81, 73, 115, 100, 112]

  datatype Will = Will(topic: MqttString, message: MqttString, retained: Byte, qos: nat)

  /** The options to connect with. */
  datatype Options = Options(version: Byte, clientId: MqttString, keepAlive: Word, cleanSession: Byte, willFlag: bool,
                             will: Will, username: MqttString, password: MqttString)

  /** What a server reads from a packet. */
  datatype Testament = Testament(topic: seq<Byte>, message: seq<Byte>, retained: nat, qos: nat)

  datatype Connect = Connect(cleanSession: nat, keepAlive: Word, clientId: seq<Byte>, will: Option<Testament>,
                             username: Option<seq<Byte>>, password: Option<seq<Byte>>)

  /** The string has a representation, be it empty. */
  predicate Present(s: MqttString) {
    s.cstring.Some? || s.lenstring.Some?
  }

  function Bit(b: bool): nat {
    if b then 1 else 0
  }

  // ----- serializing -----

  function OptionalLength(present: bool, s: MqttString): nat {
    if present then Strlen(s) + 2 else 0
  }

  /** MQTTSerialize_connectLength */
  function ConnectLength(o: Options): nat {
    (if o.version == 3 then 12 else if o.version == 4 then 10 else 0)
    + Strlen(o.clientId) + 2
    + (if o.willFlag then Strlen(o.will.topic) + 2 + Strlen(o.will.message) + 2 else 0)
    + OptionalLength(Present(o.username), o.username)
    + OptionalLength(Present(o.password), o.password)
  }

  function Protocol(version: Byte): seq<Byte> {
    if version == 4 then StringBytes(MQTT) + [4] else StringBytes(MQISDP) + [3]
  }

  function Flags(o: Options): Byte {
    o.cleanSession % 2 * 2 + Bit(o.willFlag) * 4
    + (if o.willFlag then o.will.qos % 4 * 8 + o.will.retained % 2 * 32 else 0)
    + Bit(Present(o.password)) * 64 + Bit(Present(o.username)) * 128
  }

  function OptionalBytes(present: bool, s: MqttString): seq<Byte> {
    if present then StringBytes(Written(s)) else []
  }

  function WillBytes(o: Options): seq<Byte> {
    OptionalBytes(o.willFlag, o.will.topic) + OptionalBytes(o.willFlag, o.will.message)
  }

  function LoginBytes(o: Options): seq<Byte> {
    OptionalBytes(Present(o.username), o.username) + OptionalBytes(Present(o.password), o.password)
  }

  function VariableHeader(o: Options): seq<Byte> {
    Protocol(o.version) + [Flags(o)] + IntBytes(o.keepAlive)
  }

  function Payload(o: Options): seq<Byte> {
    StringBytes(Written(o.clientId)) + WillBytes(o) + LoginBytes(o)
  }

  function ConnectBody(o: Options): seq<Byte> {
    VariableHeader(o) + Payload(o)
  }

  /** The packet announces the computed length. */
  function ConnectBytes(o: Options): seq<Byte>
    requires ConnectLength(o) <= MAX_REMAINING
  {
    [Header(CONNECT, 0, 0, 0)] + Encode(ConnectLength(o)) + ConnectBody(o)
  }

  predicate KnownVersion(o: Options) {
    o.version == 3 || o.version == 4
  }

  predicate PlainOptions(o: Options) {
    && Plain(o.clientId) && Plain(o.will.topic) && Plain(o.will.message) && Plain(o.username) && Plain(o.password)
  }

  /** Versions other than 3 and 4 are written like version 3, but the computed length misses the protocol. */
  lemma BodyLength(o: Options)
    requires PlainOptions(o)
    ensures |ConnectBody(o)| == ConnectLength(o) + if KnownVersion(o) then 0 else 12
  {
    PlainLength(o.clientId);
    PlainLength(o.will.topic);
    PlainLength(o.will.message);
    PlainLength(o.username);
    PlainLength(o.password);
  }

  method WriteOptional(buf: array<Byte>, at: nat, present: bool, s: MqttString) returns (q: nat)
    requires at + |OptionalBytes(present, s)| <= buf.Length
    modifies buf
    ensures q == at + |OptionalBytes(present, s)| && Wrote(old(buf[..]), buf[..], at, OptionalBytes(present, s))
  {
    hide Wrote, Written;
    q := at;
    WroteNothing(buf[..], at);
    if present {
      q := WriteString(buf, at, s);
    }
  }

  method WriteTwo(buf: array<Byte>, at: nat, p1: bool, s1: MqttString, p2: bool, s2: MqttString) returns (q: nat)
    requires at + |OptionalBytes(p1, s1)| + |OptionalBytes(p2, s2)| <= buf.Length
    modifies buf
    ensures q == at + |OptionalBytes(p1, s1)| + |OptionalBytes(p2, s2)|
    ensures Wrote(old(buf[..]), buf[..], at, OptionalBytes(p1, s1) + OptionalBytes(p2, s2))
  {
    hide Wrote, OptionalBytes;
    ghost var before := buf[..];
    q := WriteOptional(buf, at, p1, s1);
    ghost var mid := buf[..];
    q := WriteOptional(buf, q, p2, s2);
    WroteBoth(before, mid, buf[..], at, OptionalBytes(p1, s1), OptionalBytes(p2, s2));
  }

  method WriteProtocol(buf: array<Byte>, at: nat, version: Byte) returns (q: nat)
    requires at + |Protocol(version)| <= buf.Length
    modifies buf
    ensures q == at + |Protocol(version)| && Wrote(old(buf[..]), buf[..], at, Protocol(version))
  {
    hide Wrote;
    ghost var before := buf[..];
    var name, level := if version == 4 then MQTT else MQISDP, if version == 4 then 4 else 3;
    q := WriteString(buf, at, MqttString(Some(name), None));
    ghost var mid := buf[..];
    q := WriteChar(buf, q, level);
    WroteBoth(before, mid, buf[..], at, StringBytes(name), [level]);
  }

  method WriteVariableHeader(buf: array<Byte>, at: nat, o: Options) returns (q: nat)
    requires at + |VariableHeader(o)| <= buf.Length
    modifies buf
    ensures q == at + |VariableHeader(o)| && Wrote(old(buf[..]), buf[..], at, VariableHeader(o))
  {
    hide Wrote, Protocol, Flags, IntBytes;
    ghost var before := buf[..];
    q := WriteProtocol(buf, at, o.version);
    ghost var mid := buf[..];
    q := WriteChar(buf, q, Flags(o));
    WroteBoth(before, mid, buf[..], at, Protocol(o.version), [Flags(o)]);
    mid := buf[..];
    q := WriteInt(buf, q, o.keepAlive);
    WroteBoth(before, mid, buf[..], at, Protocol(o.version) + [Flags(o)], IntBytes(o.keepAlive));
  }

  method WritePayload(buf: array<Byte>, at: nat, o: Options) returns (q: nat)
    requires at + |Payload(o)| <= buf.Length
    modifies buf
    ensures q == at + |Payload(o)| && Wrote(old(buf[..]), buf[..], at, Payload(o))
  {
    hide Wrote, StringBytes, Written, OptionalBytes, Present;
    PayloadParts(o);
    hide Payload, WillBytes, LoginBytes;
    ghost var before := buf[..];
    q := WriteString(buf, at, o.clientId);
    ghost var named := buf[..];
    q := WriteTwo(buf, q, o.willFlag, o.will.topic, o.willFlag, o.will.message);
    ghost var willed := buf[..];
    q := WriteTwo(buf, q, Present(o.username), o.username, Present(o.password), o.password);
    WroteThree(before, named, willed, buf[..], at, StringBytes(Written(o.clientId)), WillBytes(o), LoginBytes(o));
  }

  lemma PayloadParts(o: Options)
    ensures Payload(o) == StringBytes(Written(o.clientId)) + WillBytes(o) + LoginBytes(o)
    ensures |Payload(o)| == |StringBytes(Written(o.clientId))| + |WillBytes(o)| + |LoginBytes(o)|
    ensures WillBytes(o) == OptionalBytes(o.willFlag, o.will.topic) + OptionalBytes(o.willFlag, o.will.message)
    ensures |WillBytes(o)| == |OptionalBytes(o.willFlag, o.will.topic)| + |OptionalBytes(o.willFlag, o.will.message)|
    ensures LoginBytes(o) ==
            OptionalBytes(Present(o.username), o.username) + OptionalBytes(Present(o.password), o.password)
    ensures |LoginBytes(o)| ==
            |OptionalBytes(Present(o.username), o.username)| + |OptionalBytes(Present(o.password), o.password)|
  {
  }

  method WriteConnectBody(buf: array<Byte>, at: nat, o: Options) returns (q: nat)
    requires at + |ConnectBody(o)| <= buf.Length
    modifies buf
    ensures q == at + |ConnectBody(o)| && Wrote(old(buf[..]), buf[..], at, ConnectBody(o))
  {
    hide Wrote, VariableHeader, Payload;
    ghost var before := buf[..];
    q := WriteVariableHeader(buf, at, o);
    ghost var mid := buf[..];
    q := WritePayload(buf, q, o);
    WroteBoth(before, mid, buf[..], at, VariableHeader(o), Payload(o));
  }

  /** An accepted call writes behind `buflen` if and only if the version is unknown and the buffer is less
      than 12 bytes longer than the computed length asks for; the array is the memory that takes it. */
  method SerializeConnect(buf: array<Byte>, buflen: nat, o: Options) returns (rc: int)
    requires buflen <= buf.Length && PlainOptions(o) && ConnectLength(o) <= MAX_REMAINING
    requires PacketLen(ConnectLength(o)) <= buflen && !KnownVersion(o) ==> |ConnectBytes(o)| <= buf.Length
    modifies buf
    ensures var n := ConnectLength(o);
            if PacketLen(n) > buflen then rc == -2 && buf[..] == old(buf[..])
            else
              && rc == |ConnectBytes(o)| && Wrote(old(buf[..]), buf[..], 0, ConnectBytes(o))
              && (rc > buflen <==> !KnownVersion(o) && buflen < 1 + |Encode(n)| + n + 12)
  {
    hide Encode, Header, PacketLen, Wrote, ConnectBody, ConnectLength;
    var n := ConnectLength(o);
    PacketLenIsEnough(n);
    BodyLength(o);
    if PacketLen(n) > buflen {
      return BUFFER_TOO_SHORT;
    }
    ghost var before := buf[..];
    var header := Header(CONNECT, 0, 0, 0);
    var p := WriteHead(buf, header, n);
    ghost var mid := buf[..];
    p := WriteConnectBody(buf, p, o);
    WroteBoth(before, mid, buf[..], 0, [header] + Encode(n), ConnectBody(o));
    rc := p;
  }

  // ----- deserializing -----

  function Min(a: nat, b: nat): nat {
    if a < b then a else b
  }

  /** MQTTPacket_checkVersion compares only as much of the name as the packet has. */
  predicate CheckVersion(protocol: seq<Byte>, version: Byte) {
    || (version == 3 && protocol[..Min(6, |protocol|)] == MQISDP[..Min(6, |protocol|)])
    || (version == 4 && protocol[..Min(4, |protocol|)] == MQTT[..Min(4, |protocol|)])
  }

  function WillQosOf(flags: Byte): nat { flags / 8 % 4 }

  function WillRetainOf(flags: Byte): nat { flags / 32 % 2 }

  predicate HasWill(flags: Byte) { flags / 4 % 2 == 1 }

  predicate HasPassword(flags: Byte) { flags / 64 % 2 == 1 }

  predicate HasUsername(flags: Byte) { flags / 128 == 1 }

  /** The will, if the flag is set, and the data behind it. */
  function ParseWill(flags: Byte, s: seq<Byte>): Parsed<(Option<Testament>, seq<Byte>)> {
    if !HasWill(flags) then Ok((None, s))
    else
      match ReadString(s)
      case Astray => Astray
      case Code(c) => Code(c)
      case Ok((topic, k)) =>
        match ReadString(s[k..])
        case Astray => Astray
        case Code(c) => Code(c)
        case Ok((message, m)) =>
          Ok((Some(Testament(topic, message, WillRetainOf(flags), WillQosOf(flags))), s[k..][m..]))
  }

  /** A string that must take at least 3 bytes of the data. */
  function ParseNonEmpty(s: seq<Byte>): Parsed<(seq<Byte>, nat)> {
    if |s| < 3 then Code(0) else ReadString(s)
  }

  /** User name and password; a password without a user name is refused. */
  function ParseLogin(flags: Byte, s: seq<Byte>): Parsed<(Option<seq<Byte>>, Option<seq<Byte>>)> {
    if !HasUsername(flags) then (if HasPassword(flags) then Code(0) else Ok((None, None)))
    else
      match ParseNonEmpty(s)
      case Astray => Astray
      case Code(c) => Code(c)
      case Ok((username, k)) =>
        if !HasPassword(flags) then Ok((Some(username), None))
        else
          assert k <= |s|;
          match ParseNonEmpty(s[k..])
          case Astray => Astray
          case Code(c) => Code(c)
          case Ok((password, _)) => Ok((Some(username), Some(password)))
  }

  /** The packet behind the version byte. */
  function ParseRest(s: seq<Byte>): Parsed<Connect> {
    if |s| < 3 then Astray
    else
      var flags := s[0];
      match ReadString(s[3..])
      case Astray => Astray
      case Code(c) => Code(c)
      case Ok((clientId, k)) =>
        match ParseWill(flags, s[3..][k..])
        case Astray => Astray
        case Code(c) => Code(c)
        case Ok((will, t)) =>
          match ParseLogin(flags, t)
          case Astray => Astray
          case Code(c) => Code(c)
          case Ok((username, password)) =>
            Ok(Connect(flags / 2 % 2, ToWord(ReadInt(s[1], s[2])), clientId, will, username, password))
  }

  /** MQTTDeserialize_connect on the data it is given; the remaining length is skipped, not used. */
  function ParseConnect(s: seq<Byte>): Parsed<Connect> {
    if s == [] then Astray
    else if TypeOf(s[0]) != CONNECT then Code(0)
    else
      match Decode(s[1..])
      case None => Astray
      case Some((_, len)) =>
        if 1 + len > |s| then Astray
        else
          match ReadString(s[1 + len..])
          case Astray => Astray
          case Code(c) => Code(c)
          case Ok((protocol, k)) =>
            var t := s[1 + len..][k..];
            if t == [] then Astray
            else if CheckVersion(protocol, t[0]) then ParseRest(t[1..])
            else Code(0)
  }

  method DeserializeWill(buf: array<Byte>, flags: Byte, cur: nat, end: nat)
      returns (ok: bool, will: Option<Testament>, next: nat)
    requires cur <= end <= buf.Length && ParseWill(flags, buf[cur..end]) != Astray
    ensures match ParseWill(flags, buf[cur..end])
            case Ok((w, t)) => ok && will == w && cur <= next <= end && t == buf[next..end]
            case _ => !ok
  {
    hide ReadString;
    ok, will, next := true, None, cur;
    if HasWill(flags) {
      ghost var s := buf[cur..end];
      var topic, message;
      ok, topic, next := ReadLenString(buf, cur, end);
      if !ok { return; }
      ghost var k := next - cur;
      assert s[k..] == buf[next..end];
      var behind := next;
      ok, message, next := ReadLenString(buf, behind, end);
      if !ok { return; }
      assert buf[behind..end][next - behind..] == buf[next..end];
      will := Some(Testament(topic, message, WillRetainOf(flags), WillQosOf(flags)));
    }
  }

  method DeserializeLogin(buf: array<Byte>, flags: Byte, cur: nat, end: nat)
      returns (ok: bool, username: Option<seq<Byte>>, password: Option<seq<Byte>>)
    requires cur <= end <= buf.Length && ParseLogin(flags, buf[cur..end]) != Astray
    ensures match ParseLogin(flags, buf[cur..end])
            case Ok((u, p)) => ok && username == u && password == p
            case _ => !ok
  {
    hide ReadString;
    ok, username, password := true, None, None;
    if HasUsername(flags) {
      ghost var s := buf[cur..end];
      if end - cur < 3 { return false, None, None; }
      var text, next;
      ok, text, next := ReadLenString(buf, cur, end);
      if !ok { return; }
      username := Some(text);
      if HasPassword(flags) {
        ghost var k := next - cur;
        assert s[k..] == buf[next..end];
        if end - next < 3 { return false, None, None; }
        var behind;
        ok, text, behind := ReadLenString(buf, next, end);
        if !ok { return; }
        password := Some(text);
      }
    } else if HasPassword(flags) {
      ok := false;
    }
  }

  method DeserializeRest(buf: array<Byte>, cur: nat, end: nat) returns (rc: int, data: Connect)
    requires cur <= end <= buf.Length && ParseRest(buf[cur..end]) != Astray
    ensures match ParseRest(buf[cur..end])
            case Ok(c) => rc == 1 && data == c
            case Code(c) => rc == 0
            case Astray => false
  {
    hide ReadString, ReadInt, ParseWill, ParseLogin;
    rc, data := 0, Connect(0, 0, [], None, None, None);
    ghost var s := buf[cur..end];
    assert s[0] == buf[cur] && s[1] == buf[cur + 1] && s[2] == buf[cur + 2] && s[3..] == buf[cur + 3..end];
    var flags := buf[cur];
    var keepAlive := ToWord(ReadInt(buf[cur + 1], buf[cur + 2]));
    var ok, clientId, next := ReadLenString(buf, cur + 3, end);
    if !ok { return; }
    assert buf[cur + 3..end][next - (cur + 3)..] == buf[next..end];
    var will, behind;
    ok, will, behind := DeserializeWill(buf, flags, next, end);
    if !ok { return; }
    var username, password;
    ok, username, password := DeserializeLogin(buf, flags, behind, end);
    if !ok { return; }
    data := Connect(flags / 2 % 2, keepAlive, clientId, will, username, password);
    rc := 1;
  }

  method DeserializeConnect(buf: array<Byte>, len: nat) returns (rc: int, data: Connect)
    requires len <= buf.Length && ParseConnect(buf[..len]) != Astray
    ensures match ParseConnect(buf[..len])
            case Ok(c) => rc == 1 && data == c
            case Code(c) => rc == 0
            case Astray => false
  {
    hide DecodeFrom, TypeOf, ReadString, ParseRest, CheckVersion;
    rc, data := 0, Connect(0, 0, [], None, None, None);
    ghost var s := buf[..len];
    if TypeOf(buf[0]) != CONNECT { return; }
    DecodesPrefix(s[1..], buf[len..], 0, 1, 0);
    assert s[1..] + buf[len..] == buf[1..];
    var used, mylen := DecodeBuf(buf, 1);
    var cur := 1 + used;
    assert s[cur..] == buf[cur..len];
    var ok, protocol, next := ReadLenString(buf, cur, len);
    if !ok { return; }
    assert s[cur..][next - cur..] == buf[next..len];
    var version := buf[next];
    if CheckVersion(protocol, version) {
      assert buf[next..len][1..] == buf[next + 1..len];
      rc, data := DeserializeRest(buf, next + 1, len);
    }
  }

  // ----- the round trip -----

  function Given(present: bool, s: MqttString): Option<seq<Byte>> {
    if present then Some(Written(s)) else None
  }

  /** The fields of the options, as a server should see them. */
  function Fields(o: Options): Connect {
    Connect(o.cleanSession, o.keepAlive, Written(o.clientId),
            if o.willFlag
            then Some(Testament(Written(o.will.topic), Written(o.will.message), o.will.retained, o.will.qos))
            else None,
            Given(Present(o.username), o.username), Given(Present(o.password), o.password))
  }

  /** A password needs a user name, and what comes last must not be empty. */
  predicate Readable(o: Options) {
    && (Present(o.password) ==> Present(o.username) && Written(o.password) != [])
    && (Present(o.username) && !Present(o.password) ==> Written(o.username) != [])
  }

  predicate InRange(o: Options) {
    o.cleanSession < 2 && o.will.qos < 4 && o.will.retained < 2
  }

  lemma FlagFields(o: Options)
    requires InRange(o)
    ensures var f := Flags(o);
            && f / 2 % 2 == o.cleanSession && (HasWill(f) <==> o.willFlag)
            && (HasPassword(f) <==> Present(o.password)) && (HasUsername(f) <==> Present(o.username))
            && (o.willFlag ==> WillQosOf(f) == o.will.qos && WillRetainOf(f) == o.will.retained)
  {
    var user, pass := Bit(Present(o.username)), Bit(Present(o.password));
    var retain, qos := if o.willFlag then o.will.retained else 0, if o.willFlag then o.will.qos else 0;
    var f5 := user * 2 + pass;
    var f4 := f5 * 2 + retain;
    var f3 := f4 * 4 + qos;
    var f2 := f3 * 2 + Bit(o.willFlag);
    var f1 := f2 * 2 + o.cleanSession;
    var f := Flags(o);
    assert f == f1 * 2;
    hide Flags, Present;
    Split(f, f1, 2, 0);
    Split(f1, f2, 2, o.cleanSession);
    Split(f2, f3, 2, Bit(o.willFlag));
    Split(f3, f4, 4, qos);
    Split(f4, f5, 2, retain);
    Split(f5, user, 2, pass);
    Shifts(f);
  }

  lemma ReadsOptional(present: bool, s: MqttString, rest: seq<Byte>)
    requires Plain(s) && present
    ensures ReadString(OptionalBytes(present, s) + rest) == Ok((Written(s), |OptionalBytes(present, s)|))
    ensures (OptionalBytes(present, s) + rest)[|OptionalBytes(present, s)|..] == rest
  {
    PlainLength(s);
    ReadsWrittenString(Written(s), rest);
  }

  lemma WillRoundTrip(o: Options, rest: seq<Byte>)
    requires PlainOptions(o) && InRange(o)
    ensures ParseWill(Flags(o), WillBytes(o) + rest) == Ok((Fields(o).will, rest))
  {
    hide Flags, HasWill, WillQosOf, WillRetainOf, ReadString, Written, Plain, OptionalBytes;
    FlagFields(o);
    if o.willFlag {
      var a, b := OptionalBytes(true, o.will.topic), OptionalBytes(true, o.will.message);
      assert WillBytes(o) + rest == a + (b + rest);
      ReadsOptional(true, o.will.topic, b + rest);
      ReadsOptional(true, o.will.message, rest);
    } else {
      NothingOptional(o);
      assert WillBytes(o) + rest == rest;
    }
  }

  lemma NothingOptional(o: Options)
    ensures !o.willFlag ==> WillBytes(o) == []
    ensures !Present(o.username) ==> LoginBytes(o) == OptionalBytes(Present(o.password), o.password)
    ensures !Present(o.password) ==> LoginBytes(o) == OptionalBytes(Present(o.username), o.username)
  {
  }

  lemma LoginRoundTrip(o: Options)
    requires PlainOptions(o) && InRange(o)
    ensures ParseLogin(Flags(o), LoginBytes(o)) ==
            if Readable(o) then Ok((Fields(o).username, Fields(o).password)) else Code(0)
  {
    hide Flags, HasPassword, HasUsername, ReadString, Written;
    FlagFields(o);
    NothingOptional(o);
    PlainLength(o.username);
    PlainLength(o.password);
    if Present(o.username) {
      var a, b := OptionalBytes(true, o.username), OptionalBytes(Present(o.password), o.password);
      ReadsOptional(true, o.username, b);
      if Present(o.password) {
        assert b + [] == b;
        ReadsOptional(true, o.password, []);
      }
    }
  }

  /** The variable header, as the deserializer goes through it. */
  lemma HeaderRoundTrip(o: Options, rest: seq<Byte>)
    requires PlainOptions(o) && KnownVersion(o)
    ensures var s := VariableHeader(o) + rest;
            match ReadString(s)
            case Ok((protocol, k)) =>
              && s[k..] == [o.version, Flags(o)] + IntBytes(o.keepAlive) + rest
              && CheckVersion(protocol, o.version)
            case _ => false
  {
    hide Flags, IntBytes, ReadString;
    var name := if o.version == 4 then MQTT else MQISDP;
    var tail := [o.version, Flags(o)] + IntBytes(o.keepAlive) + rest;
    assert VariableHeader(o) + rest == StringBytes(name) + tail;
    ReadsWrittenString(name, tail);
  }

  lemma RestRoundTrip(o: Options)
    requires PlainOptions(o) && InRange(o)
    ensures ParseRest([Flags(o)] + IntBytes(o.keepAlive) + Payload(o)) ==
            if Readable(o) then Ok(Fields(o)) else Code(0)
  {
    hide Flags, IntBytes, ReadString, ReadInt, ParseWill, ParseLogin, StringBytes, Written, OptionalBytes;
    var client := StringBytes(Written(o.clientId));
    var tail := Payload(o);
    var s := [Flags(o)] + IntBytes(o.keepAlive) + tail;
    assert s[1] == IntBytes(o.keepAlive)[0] && s[2] == IntBytes(o.keepAlive)[1] && s[3..] == tail;
    ReadsWrittenWord(o.keepAlive);
    FlagFields(o);
    PlainLength(o.clientId);
    assert tail == client + (WillBytes(o) + LoginBytes(o));
    ReadsWrittenString(Written(o.clientId), WillBytes(o) + LoginBytes(o));
    WillRoundTrip(o, LoginBytes(o));
    LoginRoundTrip(o);
  }

  /** A serialized CONNECT of version 3 or 4 is read back if and only if the login is readable;
      otherwise it is refused. */
  lemma ConnectRoundTrip(o: Options)
    requires PlainOptions(o) && KnownVersion(o) && InRange(o) && ConnectLength(o) <= MAX_REMAINING
    ensures ParseConnect(ConnectBytes(o)) == if Readable(o) then Ok(Fields(o)) else Code(0)
  {
    hide Encode, Header, Decode, TypeOf, ReadString, ParseRest, CheckVersion, VariableHeader, Flags, IntBytes;
    hide StringBytes, Written, WillBytes, LoginBytes, Fields, Readable;
    var body := ConnectBody(o);
    var s := ConnectBytes(o);
    var tail := Payload(o);
    HeaderFields(CONNECT, 0, 0, 0);
    BodyLength(o);
    DecodeInvertsEncode(|body|, body);
    assert s[1..] == Encode(|body|) + body;
    assert s[1 + |Encode(|body|)|..] == body;
    assert body == VariableHeader(o) + tail;
    HeaderRoundTrip(o, tail);
    var t := [o.version, Flags(o)] + IntBytes(o.keepAlive) + tail;
    assert t[0] == o.version && t[1..] == [Flags(o)] + IntBytes(o.keepAlive) + tail;
    RestRoundTrip(o);
  }
}
