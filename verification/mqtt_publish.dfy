/** PUBLISH, section 3.3 of MQTT Version 3.1.1. */
module MqttPublish {
  import opened Types
  import opened MqttPacket

  const PUBLISH := 3

  /** The fields of a packet; a packet of QoS 0 has no identifier. `payloadLen` is the length that is
      reported with the payload. */
  datatype Publish = Publish(dup: nat, qos: nat, retained: nat, packetId: Option<Word>,
                             topic: seq<Byte>, payload: seq<Byte>, payloadLen: int)

  /** MQTTSerialize_publishLength */
  function PublishLength(qos: Byte, topic: MqttString, payloadLen: nat): nat {
    2 + Strlen(topic) + payloadLen + if qos > 0 then 2 else 0
  }

  function IdBytes(qos: Byte, packetId: Word): seq<Byte> {
    if qos > 0 then IntBytes(packetId) else []
  }

  function PublishBody(qos: Byte, packetId: Word, topic: seq<Byte>, payload: seq<Byte>): seq<Byte> {
    StringBytes(topic) + IdBytes(qos, packetId) + payload
  }

  /** The packet on the wire. */
  function PublishBytes(dup: nat, qos: Byte, retained: nat, packetId: Word, topic: seq<Byte>,
                        payload: seq<Byte>): seq<Byte> {
    var body := PublishBody(qos, packetId, topic, payload);
    [Header(PUBLISH, dup, qos, retained)] + Encode(|body|) + body
  }

  method WriteId(buf: array<Byte>, at: nat, qos: Byte, packetId: Word) returns (q: nat)
    requires at + |IdBytes(qos, packetId)| <= buf.Length
    modifies buf
    ensures q == at + |IdBytes(qos, packetId)| && Wrote(old(buf[..]), buf[..], at, IdBytes(qos, packetId))
  {
    hide Wrote;
    q := at;
    WroteNothing(buf[..], at);
    if qos > 0 {
      q := WriteInt(buf, at, packetId);
    }
  }

  method WritePublishBody(buf: array<Byte>, at: nat, qos: Byte, packetId: Word, topic: MqttString, payload: seq<Byte>)
      returns (q: nat)
    requires at + |PublishBody(qos, packetId, Written(topic), payload)| <= buf.Length
    modifies buf
    ensures q == at + |PublishBody(qos, packetId, Written(topic), payload)|
    ensures Wrote(old(buf[..]), buf[..], at, PublishBody(qos, packetId, Written(topic), payload))
  {
    hide Written, Wrote, IntBytes, StringBytes, IdBytes;
    ghost var before, text, id := buf[..], StringBytes(Written(topic)), IdBytes(qos, packetId);
    assert PublishBody(qos, packetId, Written(topic), payload) == text + id + payload;
    hide PublishBody;
    q := WriteString(buf, at, topic);
    ghost var named := buf[..];
    q := WriteId(buf, q, qos, packetId);
    ghost var numbered := buf[..];
    q := WriteBytes(buf, q, payload);
    WroteThree(before, named, numbered, buf[..], at, text, id, payload);
  }

  /** The serializer writes only inside the buffer it was given, and returns the packet's length. */
  method SerializePublish(buf: array<Byte>, buflen: nat, dup: Byte, qos: Byte, retained: Byte, packetId: Word,
                          topic: MqttString, payload: seq<Byte>) returns (rc: int)
    requires buflen <= buf.Length && Plain(topic) && PublishLength(qos, topic, |payload|) <= MAX_REMAINING
    modifies buf
    ensures var n := PublishLength(qos, topic, |payload|);
            if PacketLen(n) > buflen then rc == -2 && buf[..] == old(buf[..])
            else rc == 1 + |Encode(n)| + n <= buflen
                 && Wrote(old(buf[..]), buf[..], 0, PublishBytes(dup, qos, retained, packetId, Written(topic), payload))
  {
    hide Encode, Header, PacketLen, Wrote;
    var n := PublishLength(qos, topic, |payload|);
    PacketLenIsEnough(n);
    if PacketLen(n) > buflen {
      return BUFFER_TOO_SHORT;
    }
    ghost var before, body := buf[..], PublishBody(qos, packetId, Written(topic), payload);
    var header := Header(PUBLISH, dup, qos, retained);
    assert |body| == n;
    var p := WriteHead(buf, header, n);
    ghost var mid := buf[..];
    p := WritePublishBody(buf, p, qos, packetId, topic, payload);
    WroteBoth(before, mid, buf[..], 0, [header] + Encode(n), body);
    rc := p;
  }

  /** What follows the topic: `tail` is the rest of the body, `behind` the memory behind the packet. The
      identifier is read without a look at the end of the packet, so a body that ends before it is
      accepted, with the bytes behind the packet and a negative payload length. */
  function BehindTopic(header: Byte, topic: seq<Byte>, tail: seq<Byte>, behind: seq<Byte>): Parsed<Publish> {
    var dup, qos, retained := DupOf(header), QosOf(header), RetainOf(header);
    var t := tail + behind;
    if qos == 0 then Ok(Publish(dup, 0, retained, None, topic, tail, |tail|))
    else if |t| < 2 then Astray
    else
      var id := ToWord(ReadInt(t[0], t[1]));
      Ok(Publish(dup, qos, retained, Some(id), topic, if |tail| < 2 then [] else tail[2..], |tail| - 2))
  }

  /** MQTTDeserialize_publish. When the topic does not fit, the code is the number of bytes of the
      remaining length. */
  function ParsePublish(s: seq<Byte>): Parsed<Publish> {
    if s == [] then Astray
    else if TypeOf(s[0]) != PUBLISH then Code(0)
    else
      match Body(s[1..])
      case None => Astray
      case Some((body, behind, len)) =>
        match ReadString(body)
        case Astray => Astray
        case Code(_) => Code(len)
        case Ok((topic, k)) => BehindTopic(s[0], topic, body[k..], behind)
  }

  /** A serialized packet is read back field by field, whatever follows it. */
  lemma PublishRoundTrip(dup: nat, qos: Byte, retained: nat, packetId: Word, topic: seq<Byte>, payload: seq<Byte>,
                         rest: seq<Byte>)
    requires dup < 2 && qos < 4 && retained < 2 && |topic| < 0x8000
    requires |PublishBody(qos, packetId, topic, payload)| <= MAX_REMAINING
    ensures ParsePublish(PublishBytes(dup, qos, retained, packetId, topic, payload) + rest) ==
            Ok(Publish(dup, qos, retained, if qos > 0 then Some(packetId) else None, topic, payload, |payload|))
  {
    hide Encode, Header, Decode, ReadString, BehindTopic, IdBytes;
    var body := PublishBody(qos, packetId, topic, payload);
    var s := PublishBytes(dup, qos, retained, packetId, topic, payload) + rest;
    assert s[0] == Header(PUBLISH, dup, qos, retained) && s[1..] == Encode(|body|) + body + rest;
    HeaderFields(PUBLISH, dup, qos, retained);
    BodyOfPacket(body, rest);
    var tail := IdBytes(qos, packetId) + payload;
    assert body == StringBytes(topic) + tail;
    ReadsWrittenString(topic, tail);
    TailRoundTrip(s[0], topic, packetId, payload, rest);
  }

  lemma TailRoundTrip(header: Byte, topic: seq<Byte>, packetId: Word, payload: seq<Byte>, rest: seq<Byte>)
    requires QosOf(header) < 4
    ensures var qos := QosOf(header);
            BehindTopic(header, topic, IdBytes(qos, packetId) + payload, rest) ==
            Ok(Publish(DupOf(header), qos, RetainOf(header), if qos > 0 then Some(packetId) else None, topic,
                       payload, |payload|))
  {
    hide ReadInt, DupOf, RetainOf, QosOf;
    var tail := IdBytes(QosOf(header), packetId) + payload;
    if QosOf(header) > 0 {
      hide IntBytes;
      ReadsWrittenWord(packetId);
      assert (tail + rest)[0] == IntBytes(packetId)[0] && (tail + rest)[1] == IntBytes(packetId)[1];
      assert tail[2..] == payload;
    } else {
      assert tail == payload;
    }
  }

  /** A PUBLISH whose topic does not fit its body is reported with the code of success exactly when
      the remaining length takes one byte. */
  lemma BadTopicCode(s: seq<Byte>)
    requires s != [] && TypeOf(s[0]) == PUBLISH && Body(s[1..]).Some? && ReadString(Body(s[1..]).value.0).Code?
    ensures ParsePublish(s).Code? && (ParsePublish(s).rc == 1 <==> s[1] < 128)
  {
    CountIsOne(s[1..]);
  }

  /** The shortest such packet: a PUBLISH without body. */
  lemma BadTopicPacket()
    ensures ParsePublish([0x30, 0]) == Code(1)
  {
    var s: seq<Byte> := [0x30, 0];
    assert s[1..] == [0];
    DecodeInvertsEncode(0, []);
    assert Encode(0) + [] == [0];
    assert Body([0]).value.0 == [];
  }

  /** A PUBLISH is accepted with a negative payload length exactly when it should have an identifier,
      ends before it, and there are bytes behind it to take the identifier from. */
  lemma NegativePayload(s: seq<Byte>)
    requires s != [] && TypeOf(s[0]) == PUBLISH && Body(s[1..]).Some? && ReadString(Body(s[1..]).value.0).Ok?
    ensures var (body, behind, _) := Body(s[1..]).value;
            var k := ReadString(body).value.1;
            ParsePublish(s).Ok? && ParsePublish(s).value.payloadLen < 0 <==>
            QosOf(s[0]) > 0 && |body| - k < 2 && |body| - k + |behind| >= 2
  {
    hide Decode, ReadInt;
  }

  /** Such a packet of QoS 1: its body is the topic "a", and two bytes of another packet follow. */
  lemma NegativePayloadPacket()
    ensures ParsePublish([0x32, 3, 0, 1, 0x61, 0xd0, 0]) == Ok(Publish(0, 1, 0, Some(0xd000), [0x61], [], -2))
  {
    var s: seq<Byte> := [0x32, 3, 0, 1, 0x61, 0xd0, 0];
    var body: seq<Byte> := [0, 1, 0x61];
    var behind: seq<Byte> := [0xd0, 0];
    BodyOfPacket(body, behind);
    assert Encode(3) == [3];
    assert s[1..] == Encode(3) + body + behind;
    assert body == StringBytes([0x61]) + [];
    ReadsWrittenString([0x61], []);
    assert body[3..] + behind == behind;
  }

  method DeserializePublish(buf: array<Byte>) returns (rc: int, r: Publish)
    requires ParsePublish(buf[..]) != Astray
    ensures match ParsePublish(buf[..])
            case Ok(p) => rc == 1 && r == p
            case Code(c) => rc == c
            case Astray => false
  {
    hide Decode, Header, TypeOf, BehindTopic;
    ghost var s := buf[..];
    var header := buf[0];
    r := Publish(0, 0, 0, None, [], [], 0);
    rc := 0;
    if TypeOf(header) != PUBLISH {
      return;
    }
    var cur := 1;
    assert s[1..] == buf[1..];
    var len, mylen := DecodeBuf(buf, cur);
    rc := len;
    cur := cur + len;
    var end := cur + mylen;
    ghost var body := Body(s[1..]).value.0;
    BodyInPlace(s);
    assert buf[cur..end] == body;
    var ok, topic, next := ReadLenString(buf, cur, end);
    if !ok {
      return;
    }
    ghost var k := next - cur;
    BehindInPlace(s, k);
    assert buf[next..end] == body[k..];
    assert buf[end..] == Body(s[1..]).value.1 by { BehindInPlace(s, |body|); }
    r := TakeTail(buf, header, topic, next, end);
    rc := 1;
  }

  /** The identifier and the payload, from `start` on; the packet ends at `end`. */
  method TakeTail(buf: array<Byte>, header: Byte, topic: seq<Byte>, start: nat, end: nat) returns (r: Publish)
    requires start <= end <= buf.Length && BehindTopic(header, topic, buf[start..end], buf[end..]) != Astray
    ensures BehindTopic(header, topic, buf[start..end], buf[end..]) == Ok(r)
  {
    hide ReadInt, DupOf, QosOf, RetainOf;
    assert buf[start..end] + buf[end..] == buf[start..];
    var next, packetId := start, None;
    if QosOf(header) > 0 {
      packetId := Some(ToWord(ReadInt(buf[next], buf[next + 1])));
      next := next + 2;
    }
    var payload := if next <= end then buf[next..end] else [];
    r := Publish(DupOf(header), QosOf(header), RetainOf(header), packetId, topic, payload, end - next);
  }
}
