/** SUBSCRIBE and SUBACK, sections 3.8 and 3.9 of MQTT Version 3.1.1. */
module MqttSubscribe {
  import opened Types
  import opened MqttPacket

  const SUBSCRIBE := 8
  const SUBACK := 9

  /** A topic filter with the requested quality of service. */
  datatype Request = Request(filter: MqttString, qos: int)

  datatype Filter = Filter(text: seq<Byte>, qos: Byte)

  datatype Subscribe = Subscribe(dup: nat, packetId: Word, filters: seq<Filter>)

  datatype Suback = Suback(packetId: Word, granted: seq<Byte>)

  // ----- SUBSCRIBE -----

  predicate AllPlain(rs: seq<Request>) {
    forall i | 0 <= i < |rs| :: Plain(rs[i].filter)
  }

  function EntryBytes(r: Request): seq<Byte> {
    StringBytes(Written(r.filter)) + [ToByte(r.qos)]
  }

  function EntriesBytes(rs: seq<Request>): seq<Byte> {
    if rs == [] then [] else EntryBytes(rs[0]) + EntriesBytes(rs[1..])
  }

  function EntriesLength(rs: seq<Request>): nat {
    if rs == [] then 0 else 2 + Strlen(rs[0].filter) + 1 + EntriesLength(rs[1..])
  }

  lemma {:induction false} EntriesAppend(rs: seq<Request>, r: Request)
    ensures EntriesBytes(rs + [r]) == EntriesBytes(rs) + EntryBytes(r)
    ensures EntriesLength(rs + [r]) == EntriesLength(rs) + 2 + Strlen(r.filter) + 1
  {
    if rs == [] {
      assert [r][1..] == [] && rs + [r] == [r];
      assert EntriesBytes([r]) == EntryBytes(r) + EntriesBytes([]);
    } else {
      assert (rs + [r])[1..] == rs[1..] + [r];
      EntriesAppend(rs[1..], r);
    }
  }

  lemma {:induction false} EntriesSize(rs: seq<Request>)
    requires AllPlain(rs)
    ensures |EntriesBytes(rs)| == EntriesLength(rs)
  {
    if rs != [] {
      PlainLength(rs[0].filter);
      assert forall i | 0 <= i < |rs| - 1 :: rs[1..][i] == rs[i + 1];
      EntriesSize(rs[1..]);
    }
  }

  /** MQTTSerialize_subscribeLength */
  method SubscribeLength(rs: seq<Request>) returns (len: nat)
    ensures len == 2 + EntriesLength(rs)
  {
    len := 2;
    var i := 0;
    assert rs[..0] == [];
    while i < |rs|
      invariant 0 <= i <= |rs| && len == 2 + EntriesLength(rs[..i])
    {
      EntriesAppend(rs[..i], rs[i]);
      assert rs[..i] + [rs[i]] == rs[..i + 1];
      len := len + 2 + Strlen(rs[i].filter) + 1;
      i := i + 1;
    }
    assert rs[..i] == rs;
  }

  function SubscribeBody(packetId: Word, rs: seq<Request>): seq<Byte> {
    IntBytes(packetId) + EntriesBytes(rs)
  }

  function SubscribeBytes(dup: nat, packetId: Word, rs: seq<Request>): seq<Byte> {
    var body := SubscribeBody(packetId, rs);
    [Header(SUBSCRIBE, dup, 1, 0)] + Encode(|body|) + body
  }

  method WriteEntry(buf: array<Byte>, at: nat, r: Request) returns (q: nat)
    requires at + |EntryBytes(r)| <= buf.Length
    modifies buf
    ensures q == at + |EntryBytes(r)| && Wrote(old(buf[..]), buf[..], at, EntryBytes(r))
  {
    hide Wrote, StringBytes;
    ghost var before := buf[..];
    q := WriteString(buf, at, r.filter);
    ghost var mid := buf[..];
    q := WriteChar(buf, q, ToByte(r.qos));
    WroteBoth(before, mid, buf[..], at, StringBytes(Written(r.filter)), [ToByte(r.qos)]);
  }

  lemma {:induction false} PrefixShorter(rs: seq<Request>, i: nat)
    requires i < |rs|
    ensures EntriesBytes(rs[..i + 1]) == EntriesBytes(rs[..i]) + EntryBytes(rs[i])
    ensures |EntriesBytes(rs[..i + 1])| <= |EntriesBytes(rs)|
    decreases |rs| - i
  {
    assert rs[..i] + [rs[i]] == rs[..i + 1];
    EntriesAppend(rs[..i], rs[i]);
    if i + 1 < |rs| {
      PrefixShorter(rs, i + 1);
    } else {
      assert rs[..i + 1] == rs;
    }
  }

  method WriteEntries(buf: array<Byte>, at: nat, rs: seq<Request>) returns (q: nat)
    requires at + |EntriesBytes(rs)| <= buf.Length
    modifies buf
    ensures q == at + |EntriesBytes(rs)| && Wrote(old(buf[..]), buf[..], at, EntriesBytes(rs))
  {
    hide Wrote, EntriesBytes, EntryBytes;
    q := at;
    var i := 0;
    NoEntries(rs);
    WroteNothing(buf[..], at);
    while i < |rs|
      invariant 0 <= i <= |rs| && q == at + |EntriesBytes(rs[..i])|
      invariant Wrote(old(buf[..]), buf[..], at, EntriesBytes(rs[..i]))
    {
      PrefixShorter(rs, i);
      ghost var before := buf[..];
      q := WriteEntry(buf, q, rs[i]);
      WroteBoth(old(buf[..]), before, buf[..], at, EntriesBytes(rs[..i]), EntryBytes(rs[i]));
      i := i + 1;
    }
    assert rs[..i] == rs;
  }

  lemma NoEntries(rs: seq<Request>)
    ensures EntriesBytes(rs[..0]) == []
  {
  }

  method SerializeSubscribe(buf: array<Byte>, buflen: nat, dup: Byte, packetId: Word,
                            rs: seq<Request>) returns (rc: int)
    requires buflen <= buf.Length && AllPlain(rs) && 2 + EntriesLength(rs) <= MAX_REMAINING
    modifies buf
    ensures var n := 2 + EntriesLength(rs);
            if PacketLen(n) > buflen then rc == -2 && buf[..] == old(buf[..])
            else rc == 1 + |Encode(n)| + n <= buflen
                 && Wrote(old(buf[..]), buf[..], 0, SubscribeBytes(dup, packetId, rs))
  {
    hide Encode, Header, PacketLen, Wrote, IntBytes, EntriesBytes;
    var n := SubscribeLength(rs);
    PacketLenIsEnough(n);
    EntriesSize(rs);
    if PacketLen(n) > buflen {
      return BUFFER_TOO_SHORT;
    }
    ghost var before := buf[..];
    var header := Header(SUBSCRIBE, dup, 1, 0);
    ghost var head := [header] + Encode(n);
    var p := WriteHead(buf, header, n);
    ghost var mid := buf[..];
    p := WriteInt(buf, p, packetId);
    WroteBoth(before, mid, buf[..], 0, head, IntBytes(packetId));
    mid := buf[..];
    p := WriteEntries(buf, p, rs);
    WroteBoth(before, mid, buf[..], 0, head + IntBytes(packetId), EntriesBytes(rs));
    assert head + IntBytes(packetId) + EntriesBytes(rs) == head + SubscribeBody(packetId, rs);
    rc := p;
  }

  /** The loop of MQTTDeserialize_subscribe: the filters up to the end of the packet, or the code
      when one does not fit. */
  function ParseFilters(s: seq<Byte>, code: int): (r: Parsed<seq<Filter>>)
    ensures r.Code? ==> r.rc == code
    decreases |s|
  {
    if s == [] then Ok([])
    else
      match ReadString(s)
      case Astray => Astray
      case Code(_) => Code(code)
      case Ok((text, k)) =>
        if k >= |s| then Code(code)
        else
          assert k >= 2;
          match ParseFilters(s[k + 1..], code)
          case Ok(fs) => Ok([Filter(text, s[k])] + fs)
          case other => other
  }

  /** MQTTDeserialize_subscribe. The identifier is read without a look at the end of the packet. */
  function ParseSubscribe(s: seq<Byte>): Parsed<Subscribe> {
    if s == [] then Astray
    else if TypeOf(s[0]) != SUBSCRIBE then Code(-1)
    else
      match Body(s[1..])
      case None => Astray
      case Some((body, behind, len)) =>
        var t := body + behind;
        if |t| < 2 then Astray
        else
          match ParseFilters(if |body| < 2 then [] else body[2..], len)
          case Ok(fs) => Ok(Subscribe(DupOf(s[0]), ToWord(ReadInt(t[0], t[1])), fs))
          case Code(c) => Code(c)
          case Astray => Astray
  }

  /** A SUBSCRIBE too short for its identifier is accepted, without filters, exactly when there are bytes
      behind it to take the identifier from; nothing else happens to it. */
  lemma ShortSubscribe(s: seq<Byte>)
    requires s != [] && TypeOf(s[0]) == SUBSCRIBE && Body(s[1..]).Some? && |Body(s[1..]).value.0| < 2
    ensures var (body, behind, _) := Body(s[1..]).value;
            && (ParseSubscribe(s).Ok? <==> |body + behind| >= 2)
            && (ParseSubscribe(s).Ok? ==>
                  && ParseSubscribe(s).value.filters == []
                  && ParseSubscribe(s).value.packetId == ToWord(ReadInt((body + behind)[0], (body + behind)[1])))
  {
    hide Decode, ReadInt;
  }

  /** Such a packet: a SUBSCRIBE without body, in front of two bytes of another packet. */
  lemma ShortSubscribePacket()
    ensures ParseSubscribe([0x82, 0, 0xd0, 0]) == Ok(Subscribe(0, 0xd000, []))
  {
    var s: seq<Byte> := [0x82, 0, 0xd0, 0];
    var behind: seq<Byte> := [0xd0, 0];
    BodyOfPacket([], behind);
    assert Encode(0) == [0];
    assert s[1..] == Encode(0) + [] + behind;
    assert [] + behind == behind;
  }

  /** A SUBSCRIBE with a filter that does not fit is reported with the code of success exactly when the
      remaining length takes one byte. */
  lemma BadFilterCode(s: seq<Byte>)
    requires s != [] && TypeOf(s[0]) == SUBSCRIBE && Body(s[1..]).Some? && |Body(s[1..]).value.0| >= 2
    requires ParseFilters(Body(s[1..]).value.0[2..], 0).Code?
    ensures ParseSubscribe(s).Code? && (ParseSubscribe(s).rc == 1 <==> s[1] < 128)
  {
    CountIsOne(s[1..]);
    AnyCode(Body(s[1..]).value.0[2..], 0, Body(s[1..]).value.2);
  }

  /** The code does not decide whether the filters fit. */
  lemma {:induction false} AnyCode(s: seq<Byte>, a: int, b: int)
    ensures ParseFilters(s, a).Code? <==> ParseFilters(s, b).Code?
    ensures ParseFilters(s, a).Astray? <==> ParseFilters(s, b).Astray?
    decreases |s|
  {
    hide ReadString;
    if s != [] {
      var r := ReadString(s);
      if r.Ok? && r.value.1 < |s| { AnyCode(s[r.value.1 + 1..], a, b); }
    }
  }

  /** Such a packet: one byte where a filter should be. */
  lemma BadFilterPacket()
    ensures ParseSubscribe([0x82, 3, 0, 1, 0]) == Code(1)
  {
    var s: seq<Byte> := [0x82, 3, 0, 1, 0];
    var t: seq<Byte> := [3, 0, 1, 0];
    var body: seq<Byte> := [0, 1, 0];
    assert s[1..] == t;
    DecodeInvertsEncode(3, body);
    assert Encode(3) + body == t;
    assert t[1..4] == body && body[2..] == [0];
    assert ParseFilters([0], 1) == Code(1);
  }

  function Sent(rs: seq<Request>): (r: seq<Filter>)
    ensures |r| == |rs|
  {
    if rs == [] then [] else [Filter(Written(rs[0].filter), ToByte(rs[0].qos))] + Sent(rs[1..])
  }

  lemma {:induction false} FiltersRoundTrip(rs: seq<Request>, code: int)
    requires AllPlain(rs)
    ensures ParseFilters(EntriesBytes(rs), code) == Ok(Sent(rs))
  {
    hide ReadString;
    if rs != [] {
      var text, tail := Written(rs[0].filter), [ToByte(rs[0].qos)] + EntriesBytes(rs[1..]);
      var s := EntriesBytes(rs);
      PlainLength(rs[0].filter);
      assert s == StringBytes(text) + tail;
      ReadsWrittenString(text, tail);
      assert s[2 + |text|] == tail[0] && s[2 + |text| + 1..] == EntriesBytes(rs[1..]);
      assert forall i | 0 <= i < |rs| - 1 :: rs[1..][i] == rs[i + 1];
      FiltersRoundTrip(rs[1..], code);
    }
  }

  /** A serialized SUBSCRIBE with any number of filters is read back. */
  lemma SubscribeRoundTrip(dup: nat, packetId: Word, rs: seq<Request>, rest: seq<Byte>)
    requires dup < 2 && AllPlain(rs) && 2 + EntriesLength(rs) <= MAX_REMAINING
    ensures var r := ParseSubscribe(SubscribeBytes(dup, packetId, rs) + rest);
            r.Ok? && r.value.dup == dup && r.value.packetId == packetId && r.value.filters == Sent(rs)
  {
    hide Encode, Header, Decode, ReadString, ReadInt, IntBytes, EntriesBytes, ParseFilters;
    var body := SubscribeBody(packetId, rs);
    var s := SubscribeBytes(dup, packetId, rs) + rest;
    HeaderFields(SUBSCRIBE, dup, 1, 0);
    EntriesSize(rs);
    assert s[1..] == Encode(|body|) + body + rest;
    BodyOfPacket(body, rest);
    ReadsWrittenWord(packetId);
    assert body[0] == IntBytes(packetId)[0] && body[1] == IntBytes(packetId)[1] && body[2..] == EntriesBytes(rs);
    FiltersRoundTrip(rs, |Encode(|body|)|);
  }

  /** The result of the whole loop from the filters read so far and the result of the rest. */
  function Behind(done: seq<Filter>, r: Parsed<seq<Filter>>): Parsed<seq<Filter>> {
    match r
    case Ok(fs) => Ok(done + fs)
    case other => other
  }

  lemma BehindOne(done: seq<Filter>, f: Filter, r: Parsed<seq<Filter>>)
    ensures Behind(done, Behind([f], r)) == Behind(done + [f], r)
  {
    if r.Ok? { assert done + ([f] + r.value) == done + [f] + r.value; }
  }

  /** What is read between two turns of the loop. */
  function FilterFirst(s: seq<Byte>, code: int): Parsed<seq<Filter>>
    requires s != []
  {
    var r := ReadString(s);
    if r.Astray? then Astray
    else if r.Code? || r.value.1 >= |s| then Code(code)
    else Behind([Filter(r.value.0, s[r.value.1])], ParseFilters(s[r.value.1 + 1..], code))
  }

  lemma FiltersInTurn(s: seq<Byte>, code: int)
    ensures ParseFilters(s, code) == if s == [] then Ok([]) else FilterFirst(s, code)
  {
  }

  /** The memory between two cursors, of which the first may already be behind the second. */
  function Span(b: seq<Byte>, start: nat, end: nat): seq<Byte>
    requires end <= |b|
  {
    if start <= end then b[start..end] else []
  }

  /** One turn of the loop, at `cur`. */
  lemma NextFilter(b: seq<Byte>, cur: nat, end: nat, code: int, filters: seq<Filter>)
    requires cur < end <= |b|
    ensures var r, all := ReadString(b[cur..end]), ParseFilters(Span(b, cur, end), code);
            match r
            case Astray => all == Astray
            case Code(_) => all == Code(code)
            case Ok((text, k)) =>
              var next := cur + k;
              if next >= end then all == Code(code)
              else
                Behind(filters, all) ==
                Behind(filters + [Filter(text, b[next])], ParseFilters(Span(b, next + 1, end), code))
  {
    hide ReadString, ParseFilters;
    FiltersInTurn(b[cur..end], code);
    var r := ReadString(b[cur..end]);
    if r.Ok? && cur + r.value.1 < end {
      var k := r.value.1;
      assert b[cur..end][k] == b[cur + k] && b[cur..end][k + 1..] == b[cur + k + 1..end];
      BehindOne(filters, Filter(r.value.0, b[cur + k]), ParseFilters(b[cur + k + 1..end], code));
    }
  }

  lemma NoFilter(b: seq<Byte>, cur: nat, end: nat, code: int)
    requires end <= cur && end <= |b|
    ensures ParseFilters(Span(b, cur, end), code) == Ok([])
  {}

  /** The loop reads into arrays of the caller; here they are sequences. */
  method ReadFilters(buf: array<Byte>, start: nat, end: nat, code: int) returns (ok: bool, filters: seq<Filter>)
    requires end <= buf.Length && ParseFilters(Span(buf[..], start, end), code) != Astray
    ensures match ParseFilters(Span(buf[..], start, end), code)
            case Ok(fs) => ok && filters == fs
            case _ => !ok
  {
    hide ReadString, ParseFilters, Span;
    var cur := start;
    filters := [];
    ghost var whole := ParseFilters(Span(buf[..], start, end), code);
    assert whole.Ok? ==> [] + whole.value == whole.value;
    while cur < end
      invariant whole == Behind(filters, ParseFilters(Span(buf[..], cur, end), code))
    {
      NextFilter(buf[..], cur, end, code, filters);
      var found, text, next := ReadLenString(buf, cur, end);
      if !found || next >= end {
        return false, filters;
      }
      filters := filters + [Filter(text, buf[next])];
      cur := next + 1;
    }
    assert filters + [] == filters;
    NoFilter(buf[..], cur, end, code);
    ok := true;
  }

  method DeserializeSubscribe(buf: array<Byte>) returns (rc: int, r: Subscribe)
    requires ParseSubscribe(buf[..]) != Astray
    ensures match ParseSubscribe(buf[..])
            case Ok(p) => rc == 1 && r == p
            case Code(c) => rc == c
            case Astray => false
  {
    hide Decode, Header, TypeOf, DupOf, ReadInt, ParseFilters;
    ghost var s := buf[..];
    rc, r := -1, Subscribe(0, 0, []);
    if TypeOf(buf[0]) != SUBSCRIBE {
      return;
    }
    assert s[1..] == buf[1..];
    var len, mylen := DecodeBuf(buf, 1);
    rc := len;
    var cur := 1 + len;
    var end := cur + mylen;
    ghost var (body, behind, _) := Body(s[1..]).value;
    BodyInPlace(s);
    BehindInPlace(s, 0);
    assert body[0..] == body && body + behind == s[cur..];
    assert Span(s, cur + 2, end) == if |body| < 2 then [] else body[2..];
    var packetId := ToWord(ReadInt(buf[cur], buf[cur + 1]));
    var ok, filters := ReadFilters(buf, cur + 2, end, rc);
    if ok {
      r := Subscribe(DupOf(buf[0]), packetId, filters);
      rc := 1;
    }
  }

  // ----- SUBACK -----

  function CodeBytes(granted: seq<int>): (r: seq<Byte>)
    ensures |r| == |granted|
  {
    seq(|granted|, i requires 0 <= i < |granted| => ToByte(granted[i]))
  }

  function SubackBytes(packetId: Word, granted: seq<int>): seq<Byte> {
    [Header(SUBACK, 0, 0, 0)] + Encode(2 + |granted|) + IntBytes(packetId) + CodeBytes(granted)
  }

  /** The buffer check of MQTTSerialize_suback, which compares with the body alone. */
  predicate SubackAccepted(buflen: nat, granted: seq<int>) {
    buflen >= 2 + |granted|
  }

  /** MQTTSerialize_suback. The check lets packets pass that are longer than the buffer; the array is
      the memory that really takes them. An accepted call writes behind `buflen` if and only if the
      buffer has room for the body but not for the header and the length before it. */
  method SerializeSuback(buf: array<Byte>, buflen: nat, packetId: Word, granted: seq<int>) returns (rc: int)
    requires buflen <= buf.Length
    requires SubackAccepted(buflen, granted) ==> |SubackBytes(packetId, granted)| <= buf.Length
    modifies buf
    ensures if !SubackAccepted(buflen, granted) then rc == -2 && buf[..] == old(buf[..])
            else rc == |SubackBytes(packetId, granted)|
                 && Wrote(old(buf[..]), buf[..], 0, SubackBytes(packetId, granted))
    ensures rc > buflen <==> 2 + |granted| <= buflen <= 2 + |granted| + |Encode(2 + |granted|)|
    ensures rc <= buflen ==> buf[buflen..] == old(buf[buflen..])
    ensures rc > buflen ==> buf[buflen..rc] == SubackBytes(packetId, granted)[buflen..]
  {
    hide Encode, Header, Wrote, IntBytes;
    if buflen < 2 + |granted| {
      return BUFFER_TOO_SHORT;
    }
    SubackLength(packetId, granted);
    ghost var before := buf[..];
    var header := Header(SUBACK, 0, 0, 0);
    ghost var head := [header] + Encode(2 + |granted|);
    var p := WriteHead(buf, header, 2 + |granted|);
    ghost var mid := buf[..];
    p := WriteInt(buf, p, packetId);
    head := head + IntBytes(packetId);
    WroteBoth(before, mid, buf[..], 0, [header] + Encode(2 + |granted|), IntBytes(packetId));
    p := WriteCodes(buf, p, granted, before, head);
    WroteBehind(before, buf[..], SubackBytes(packetId, granted), buflen);
    rc := p;
  }

  lemma SubackLength(packetId: Word, granted: seq<int>)
    ensures |SubackBytes(packetId, granted)| == 3 + |granted| + |Encode(2 + |granted|)|
  {
  }

  /** The memory behind `at`, once `bytes` are written at the beginning. */
  lemma WroteBehind(before: seq<Byte>, after: seq<Byte>, bytes: seq<Byte>, at: nat)
    requires Wrote(before, after, 0, bytes) && at <= |before|
    ensures |bytes| <= |after| == |before|
    ensures |bytes| <= at ==> after[at..] == before[at..]
    ensures |bytes| > at ==> after[at..|bytes|] == bytes[at..]
  {
  }

  /** The loop over the codes, behind what is written in `head`. */
  method WriteCodes(buf: array<Byte>, at: nat, granted: seq<int>, ghost before: seq<Byte>, ghost head: seq<Byte>)
      returns (p: nat)
    requires at == |head| && at + |granted| <= buf.Length && Wrote(before, buf[..], 0, head)
    modifies buf
    ensures p == at + |granted| && Wrote(before, buf[..], 0, head + CodeBytes(granted))
  {
    hide Wrote;
    ghost var codes := CodeBytes(granted);
    p := at;
    var i := 0;
    assert head + codes[..0] == head;
    while i < |granted|
      invariant 0 <= i <= |granted| && p == at + i
      invariant Wrote(before, buf[..], 0, head + codes[..i])
    {
      ghost var mid := buf[..];
      p := WriteChar(buf, p, ToByte(granted[i]));
      WroteBoth(before, mid, buf[..], 0, head + codes[..i], [ToByte(granted[i])]);
      assert head + codes[..i] + [ToByte(granted[i])] == head + codes[..i + 1];
      i := i + 1;
    }
    assert codes[..i] == codes;
  }

  /** The packets that are longer than the buffer they are accepted for: exactly these. */
  lemma SubackCheck(buflen: nat, packetId: Word, granted: seq<int>)
    ensures SubackAccepted(buflen, granted) && |SubackBytes(packetId, granted)| > buflen <==>
            2 + |granted| <= buflen <= 2 + |granted| + |Encode(2 + |granted|)|
  {
    SubackLength(packetId, granted);
  }

  /** Without codes, a buffer of two bytes is accepted, and four are written. */
  method SubackOverrun() returns (rc: int, memory: seq<Byte>)
    ensures rc == 4 && memory == [0x90, 2, 0, 1]
  {
    var buf := new Byte[4](_ => 0);
    assert Encode(2) == [2];
    assert SubackBytes(1, []) == [0x90, 2, 0, 1];
    rc := SerializeSuback(buf, 2, 1, []);
    memory := buf[..];
  }

  /** MQTTDeserialize_suback. The count is compared before the next code is stored, so one code more
      than `maxcount` is accepted. */
  function ParseSuback(s: seq<Byte>, maxcount: nat): Parsed<Suback> {
    if s == [] then Astray
    else if TypeOf(s[0]) != SUBACK then Code(0)
    else
      match Body(s[1..])
      case None => Astray
      case Some((body, _, len)) =>
        if |body| < 2 then Code(len)
        else if |body| - 2 > maxcount + 1 then Code(-1)
        else Ok(Suback(ToWord(ReadInt(body[0], body[1])), body[2..]))
  }

  /** A SUBACK too short for its identifier is reported with the code of success exactly when the
      remaining length takes one byte. */
  lemma ShortSubackCode(s: seq<Byte>, maxcount: nat)
    requires s != [] && TypeOf(s[0]) == SUBACK && Body(s[1..]).Some? && |Body(s[1..]).value.0| < 2
    ensures ParseSuback(s, maxcount).Code? && (ParseSuback(s, maxcount).rc == 1 <==> s[1] < 128)
  {
    CountIsOne(s[1..]);
  }

  /** Such a packet: a SUBACK without body. */
  lemma ShortSubackPacket(maxcount: nat)
    ensures ParseSuback([0x90, 0], maxcount) == Code(1)
  {
    var s: seq<Byte> := [0x90, 0];
    assert s[1..] == [0];
    DecodeInvertsEncode(0, []);
    assert Encode(0) + [] == [0];
    assert Body([0]).value.0 == [];
  }

  /** A serialized SUBACK is read back if and only if it has at most `maxcount` + 1 codes. */
  lemma SubackRoundTrip(packetId: Word, granted: seq<int>, maxcount: nat, rest: seq<Byte>)
    requires 2 + |granted| <= MAX_REMAINING && forall i | 0 <= i < |granted| :: 0 <= granted[i] < 256
    ensures var r := ParseSuback(SubackBytes(packetId, granted) + rest, maxcount);
            && (r.Ok? <==> |granted| <= maxcount + 1)
            && (r.Ok? ==> r.value.packetId == packetId && r.value.granted == granted)
            && (!r.Ok? ==> r == Code(-1))
  {
    hide Encode, Header, Decode, ReadInt, IntBytes;
    var codes := CodeBytes(granted);
    var body := IntBytes(packetId) + codes;
    var s := SubackBytes(packetId, granted) + rest;
    HeaderFields(SUBACK, 0, 0, 0);
    assert s[1..] == Encode(|body|) + body + rest;
    BodyOfPacket(body, rest);
    ReadsWrittenWord(packetId);
    assert body[0] == IntBytes(packetId)[0] && body[1] == IntBytes(packetId)[1] && body[2..] == codes;
    assert codes == granted;
  }

  method ReadCodes(buf: array<Byte>, start: nat, end: nat, maxcount: nat, grantedQoSs: array<int>)
      returns (fits: bool, count: nat)
    requires start <= end <= buf.Length && grantedQoSs.Length > maxcount
    modifies grantedQoSs
    ensures fits <==> end - start <= maxcount + 1
    ensures fits ==> count == end - start && grantedQoSs[..count] == old(buf[start..end])
    ensures grantedQoSs[maxcount + 1..] == old(grantedQoSs[maxcount + 1..])
  {
    count := 0;
    var cur := start;
    while cur < end
      invariant start <= cur <= end && count == cur - start && count <= maxcount + 1 && buf[..] == old(buf[..])
      invariant grantedQoSs[..count] == old(buf[start..cur])
      invariant grantedQoSs[maxcount + 1..] == old(grantedQoSs[maxcount + 1..])
    {
      if count > maxcount {
        return false, count;
      }
      grantedQoSs[count] := buf[cur];
      assert old(buf[start..cur + 1]) == old(buf[start..cur]) + [old(buf[cur])];
      count := count + 1;
      cur := cur + 1;
    }
    fits := true;
  }

  /** The codes go into an array of the caller; the one behind `maxcount` needs a place too. */
  method DeserializeSuback(buf: array<Byte>, maxcount: nat, grantedQoSs: array<int>)
      returns (rc: int, packetId: Word, count: nat)
    requires grantedQoSs.Length > maxcount && ParseSuback(buf[..], maxcount) != Astray
    modifies grantedQoSs
    ensures match ParseSuback(old(buf[..]), maxcount)
            case Ok(p) => rc == 1 && packetId == p.packetId && count == |p.granted| && grantedQoSs[..count] == p.granted
            case Code(c) => rc == c
            case Astray => false
    ensures grantedQoSs[maxcount + 1..] == old(grantedQoSs[maxcount + 1..])
  {
    hide Decode, Header, TypeOf, ReadInt;
    ghost var s := buf[..];
    rc, packetId, count := 0, 0, 0;
    if TypeOf(buf[0]) != SUBACK {
      return;
    }
    assert s[1..] == buf[1..];
    var len, mylen := DecodeBuf(buf, 1);
    rc := len;
    var cur := 1 + len;
    var end := cur + mylen;
    ghost var body := Body(s[1..]).value.0;
    BodyInPlace(s);
    assert buf[cur..end] == body;
    if end - cur < 2 {
      return;
    }
    assert body[0] == buf[cur] && body[1] == buf[cur + 1];
    packetId := ToWord(ReadInt(buf[cur], buf[cur + 1]));
    assert buf[cur + 2..end] == body[2..];
    var fits: bool;
    fits, count := ReadCodes(buf, cur + 2, end, maxcount, grantedQoSs);
    rc := if fits then 1 else -1;
  }
}
