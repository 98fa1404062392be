/** The parts that all packets share: the remaining length, strings, and the header byte. */
module MqttPacket {
  import opened Types

  const MAX_REMAINING := 268435455
  const BUFFER_TOO_SHORT := -2
  const READ_ERROR := -1

  /** What a deserializer does: succeed, return a code, or follow a length field out of the data
      it was given (a length of 32768 or more is read as negative, because `int` has 16 bits). */
  datatype Parsed<+T> = Ok(value: T) | Code(rc: int) | Astray

  // ----- the remaining length -----

  /** The remaining length in groups of 7 bits, the lowest first. */
  function Encode(n: nat): (r: seq<Byte>)
    ensures r != []
  {
    if n < 128 then [n] else [n % 128 + 128] + Encode(n / 128)
  }

  /** What decode does behind `i` bytes whose value is `value`: the value and the count it returns.
      A fifth byte is not read, but it is counted. `None` is a length that runs out of the data. */
  function DecodeFrom(s: seq<Byte>, i: nat, multiplier: nat, value: nat): Option<(nat, nat)>
    requires i <= 4
    decreases 4 - i
  {
    if i == 4 then Some((value, 5))
    else if s == [] then None
    else
      var v := value + s[0] % 128 * multiplier;
      if s[0] < 128 then Some((v, i + 1)) else DecodeFrom(s[1..], i + 1, multiplier * 128, v)
  }

  function Decode(s: seq<Byte>): Option<(nat, nat)> {
    DecodeFrom(s, 0, 1, 0)
  }

  /** Four bytes encode every length up to the maximum. */
  lemma EncodeLength(n: nat)
    ensures |Encode(n)| <= 4 <==> n <= MAX_REMAINING
    ensures |Encode(n)| == 1 <==> n < 128
    ensures |Encode(n)| <= 2 <==> n < 16384
    ensures |Encode(n)| <= 3 <==> n < 2097152
  {
    var a, b, c := n / 128, n / 128 / 128, n / 128 / 128 / 128;
    assert n >= 128 ==> |Encode(n)| == 1 + |Encode(a)|;
    assert a >= 128 ==> |Encode(a)| == 1 + |Encode(b)|;
    assert b >= 128 ==> |Encode(b)| == 1 + |Encode(c)|;
  }

  lemma {:induction false} DecodesFrom(n: nat, rest: seq<Byte>, i: nat, multiplier: nat, value: nat)
    requires i + |Encode(n)| <= 4
    ensures DecodeFrom(Encode(n) + rest, i, multiplier, value) == Some((value + n * multiplier, i + |Encode(n)|))
  {
    var s := Encode(n) + rest;
    if n >= 128 {
      var low, high := n % 128, n / 128;
      assert s[0] == low + 128 && s[1..] == Encode(high) + rest;
      DecodesFrom(high, rest, i + 1, multiplier * 128, value + low * multiplier);
      Recombine(n, multiplier);
    }
  }

  /** More data does not change a length that is complete. */
  lemma {:induction false} DecodesPrefix(s: seq<Byte>, more: seq<Byte>, i: nat, multiplier: nat, value: nat)
    requires i <= 4 && DecodeFrom(s, i, multiplier, value).Some?
    ensures DecodeFrom(s + more, i, multiplier, value) == DecodeFrom(s, i, multiplier, value)
    decreases 4 - i
  {
    if i < 4 && s[0] >= 128 {
      assert (s + more)[1..] == s[1..] + more;
      DecodesPrefix(s[1..], more, i + 1, multiplier * 128, value + s[0] % 128 * multiplier);
    }
  }

  lemma {:induction false} CountsMore(s: seq<Byte>, i: nat, multiplier: nat, value: nat)
    requires i <= 4 && DecodeFrom(s, i, multiplier, value).Some?
    ensures DecodeFrom(s, i, multiplier, value).value.1 > i
  {
    if i < 4 && s[0] >= 128 { CountsMore(s[1..], i + 1, multiplier * 128, value + s[0] % 128 * multiplier); }
  }

  /** A length is reported to take one byte if and only if its first byte is the last. */
  lemma CountIsOne(s: seq<Byte>)
    requires Decode(s).Some?
    ensures s != [] && (Decode(s).value.1 == 1 <==> s[0] < 128)
  {
    if s[0] >= 128 { CountsMore(s[1..], 1, 128, s[0] % 128); }
  }

  lemma Recombine(n: nat, m: nat)
    ensures n % 128 * m + n / 128 * (m * 128) == n * m
  {
    var low, high := n % 128, n / 128;
    assert n == low + high * 128;
    assert n * m == low * m + high * 128 * m;
  }

  /** Decoding inverts encoding, in at most 4 bytes, for every length the standard allows. */
  lemma DecodeInvertsEncode(n: nat, rest: seq<Byte>)
    requires n <= MAX_REMAINING
    ensures |Encode(n)| <= 4 && Decode(Encode(n) + rest) == Some((n, |Encode(n)|))
  {
    EncodeLength(n);
    DecodesFrom(n, rest, 0, 1, 0);
  }

  /** MQTTPacket_len */
  function PacketLen(remaining: int): int {
    var n := remaining + 1;
    if n < 128 then n + 1 else if n < 16384 then n + 2 else if n < 2097151 then n + 3 else n + 4
  }

  /** The buffer check asks for the length of the packet, or for one byte more at exactly the four
      lengths where its thresholds are off. */
  lemma PacketLenIsEnough(n: nat)
    requires n <= MAX_REMAINING
    ensures 1 + |Encode(n)| + n <= PacketLen(n) <= 2 + |Encode(n)| + n
    ensures PacketLen(n) != 1 + |Encode(n)| + n <==> n == 127 || n == 16383 || n == 2097150 || n == 2097151
  {
    EncodeLength(n);
  }

  // ----- writing -----

  /** Memory `after` is `before` with `bytes` at `at`. */
  ghost predicate Wrote(before: seq<Byte>, after: seq<Byte>, at: nat, bytes: seq<Byte>) {
    at + |bytes| <= |before| && after == before[..at] + bytes + before[at + |bytes|..]
  }

  lemma WroteBoth(a: seq<Byte>, b: seq<Byte>, c: seq<Byte>, at: nat, x: seq<Byte>, y: seq<Byte>)
    requires Wrote(a, b, at, x) && Wrote(b, c, at + |x|, y)
    ensures Wrote(a, c, at, x + y)
  {
    assert c[..at + |x|] == a[..at] + x;
    assert c == a[..at] + x + y + a[at + |x| + |y|..];
  }

  lemma WroteThree(a: seq<Byte>, b: seq<Byte>, c: seq<Byte>, d: seq<Byte>, at: nat,
                   x: seq<Byte>, y: seq<Byte>, z: seq<Byte>)
    requires Wrote(a, b, at, x) && Wrote(b, c, at + |x|, y) && Wrote(c, d, at + |x| + |y|, z)
    ensures Wrote(a, d, at, x + y + z)
  {
    WroteBoth(a, b, c, at, x, y);
    WroteBoth(a, c, d, at, x + y, z);
  }

  lemma WroteNothing(a: seq<Byte>, at: nat)
    requires at <= |a|
    ensures Wrote(a, a, at, [])
  {
  }

  method WriteChar(buf: array<Byte>, p: nat, c: Byte) returns (q: nat)
    requires p < buf.Length
    modifies buf
    ensures q == p + 1 && Wrote(old(buf[..]), buf[..], p, [c])
  {
    buf[p] := c;
    q := p + 1;
  }

  lemma EncodeStep(n: nat)
    ensures Encode(n) == if n / 128 > 0 then [n % 128 + 128] + Encode(n / 128) else [n % 128]
  {
  }

  lemma Regroup(a: seq<Byte>, b: seq<Byte>, c: seq<Byte>)
    ensures a + (b + c) == a + b + c
  {}

  /** MQTTPacket_encode at `p`; the result is the number of bytes. */
  method WriteLength(buf: array<Byte>, p: nat, length: nat) returns (rc: nat)
    requires p + |Encode(length)| <= buf.Length
    modifies buf
    ensures rc == |Encode(length)| && Wrote(old(buf[..]), buf[..], p, Encode(length))
  {
    hide Encode, Wrote;
    rc := 0;
    WroteNothing(buf[..], p);
    var left := length;
    ghost var done: seq<Byte> := [];
    while true
      invariant rc == |done| && Encode(length) == done + Encode(left)
      invariant Wrote(old(buf[..]), buf[..], p, done)
      decreases left
    {
      EncodeStep(left);
      var d := left % 128;
      left := left / 128;
      if left > 0 {
        d := d + 128;
      }
      ghost var before := buf[..];
      assert Encode(length) == if left == 0 then done + [d] else done + ([d] + Encode(left));
      Regroup(done, [d], Encode(left));
      var q := WriteChar(buf, p + rc, d);
      WroteBoth(old(buf[..]), before, buf[..], p, done, [d]);
      done := done + [d];
      rc := rc + 1;
      if left == 0 {
        return;
      }
    }
  }

  /** The header byte and the remaining length, which every packet starts with. */
  method WriteHead(buf: array<Byte>, header: Byte, n: nat) returns (q: nat)
    requires 1 + |Encode(n)| <= buf.Length
    modifies buf
    ensures q == 1 + |Encode(n)| && Wrote(old(buf[..]), buf[..], 0, [header] + Encode(n))
  {
    hide Encode;
    ghost var before := buf[..];
    q := WriteChar(buf, 0, header);
    ghost var mid := buf[..];
    var k := WriteLength(buf, q, n);
    WroteBoth(before, mid, buf[..], 0, [header], Encode(n));
    q := q + k;
  }

  /** writeInt */
  function IntBytes(n: nat): (r: seq<Byte>)
    ensures |r| == 2
  {
    [ToByte(n / 256), n % 256]
  }

  method WriteInt(buf: array<Byte>, p: nat, n: nat) returns (q: nat)
    requires p + 2 <= buf.Length
    modifies buf
    ensures q == p + 2 && Wrote(old(buf[..]), buf[..], p, IntBytes(n))
  {
    buf[p] := ToByte(n / 256);
    buf[p + 1] := n % 256;
    q := p + 2;
  }

  /** memcpy */
  method WriteBytes(buf: array<Byte>, p: nat, bytes: seq<Byte>) returns (q: nat)
    requires p + |bytes| <= buf.Length
    modifies buf
    ensures q == p + |bytes| && Wrote(old(buf[..]), buf[..], p, bytes)
  {
    hide Wrote;
    var i := 0;
    WroteNothing(buf[..], p);
    assert bytes[..0] == [];
    while i < |bytes|
      invariant 0 <= i <= |bytes| && Wrote(old(buf[..]), buf[..], p, bytes[..i])
    {
      ghost var before := buf[..];
      q := WriteChar(buf, p + i, bytes[i]);
      WroteBoth(old(buf[..]), before, buf[..], p, bytes[..i], [bytes[i]]);
      assert bytes[..i] + [bytes[i]] == bytes[..i + 1];
      i := i + 1;
    }
    assert bytes[..i] == bytes;
    q := p + |bytes|;
  }

  // ----- strings -----

  /** A C string, a counted string, or both; the bytes of a C string come before its terminator. */
  datatype MqttString = MqttString(cstring: Option<seq<Byte>>, lenstring: Option<seq<Byte>>)

  function CountedLen(s: MqttString): nat {
    if s.lenstring.Some? then |s.lenstring.value| else 0
  }

  /** MQTTstrlen */
  function Strlen(s: MqttString): nat {
    if s.cstring.Some? then |s.cstring.value| else CountedLen(s)
  }

  /** The text that writeMQTTString writes. */
  function Written(s: MqttString): seq<Byte> {
    if CountedLen(s) > 0 then s.lenstring.value else if s.cstring.Some? then s.cstring.value else []
  }

  /** The string has one representation, and its length fits 15 bits. */
  predicate Plain(s: MqttString) {
    (s.cstring.None? || CountedLen(s) == 0) && Strlen(s) < 0x8000
  }

  lemma PlainLength(s: MqttString)
    requires Plain(s)
    ensures |Written(s)| == Strlen(s) < 0x8000
  {
  }

  function StringBytes(text: seq<Byte>): (r: seq<Byte>)
    ensures |r| == 2 + |text|
  {
    IntBytes(|text|) + text
  }

  /** writeMQTTString */
  method WriteString(buf: array<Byte>, p: nat, s: MqttString) returns (q: nat)
    requires p + 2 + |Written(s)| <= buf.Length
    modifies buf
    ensures q == p + 2 + |Written(s)| && Wrote(old(buf[..]), buf[..], p, StringBytes(Written(s)))
  {
    ghost var before := buf[..];
    if CountedLen(s) > 0 {
      q := WriteInt(buf, p, CountedLen(s));
      ghost var mid := buf[..];
      q := WriteBytes(buf, q, s.lenstring.value);
      WroteBoth(before, mid, buf[..], p, IntBytes(|Written(s)|), Written(s));
    } else if s.cstring.Some? {
      q := WriteInt(buf, p, |s.cstring.value|);
      ghost var mid := buf[..];
      q := WriteBytes(buf, q, s.cstring.value);
      WroteBoth(before, mid, buf[..], p, IntBytes(|Written(s)|), Written(s));
    } else {
      q := WriteInt(buf, p, 0);
      assert StringBytes([]) == IntBytes(0);
    }
  }

  // ----- reading -----

  /** readInt, with the 16-bit arithmetic of the target. */
  function ReadInt(hi: Byte, lo: Byte): (r: int)
    ensures -0x8000 <= r < 0x8000
  {
    var n := 256 * hi + lo;
    if n < 0x8000 then n else n - 0x1_0000
  }

  /** As a packet identifier the same two bytes give back any 16-bit number. */
  lemma ReadsWrittenWord(n: Word)
    ensures ToWord(ReadInt(IntBytes(n)[0], IntBytes(n)[1])) == n
    ensures n < 0x8000 ==> ReadInt(IntBytes(n)[0], IntBytes(n)[1]) == n
  {
    var hi, lo := n / 256, n % 256;
    assert n == 256 * hi + lo && hi < 256;
    assert IntBytes(n) == [hi, lo];
    if n >= 0x8000 {
      assert ReadInt(hi, lo) == n - 0x1_0000;
      assert ToWord(n - 0x1_0000) == n;
    }
  }

  /** readMQTTLenString on the data up to `enddata`: the string and how much of the data it takes. */
  function ReadString(s: seq<Byte>): (r: Parsed<(seq<Byte>, nat)>)
    ensures r.Ok? ==> r.value.1 <= |s|
    ensures r.Code? ==> r.rc == 0
  {
    if |s| <= 1 then Code(0)
    else
      var len := ReadInt(s[0], s[1]);
      if len < 0 then Astray else if 2 + len <= |s| then Ok((s[2..2 + len], 2 + len)) else Code(0)
  }

  lemma ReadsWrittenString(text: seq<Byte>, rest: seq<Byte>)
    requires |text| < 0x8000
    ensures ReadString(StringBytes(text) + rest) == Ok((text, 2 + |text|))
    ensures (StringBytes(text) + rest)[2 + |text|..] == rest
  {
    var s := StringBytes(text) + rest;
    ReadsWrittenWord(|text|);
    assert s[0] == IntBytes(|text|)[0] && s[1] == IntBytes(|text|)[1];
    assert s[2..2 + |text|] == text;
  }

  // ----- the header byte -----

  function Header(kind: nat, dup: nat, qos: nat, retain: nat): Byte {
    kind % 16 * 16 + dup % 2 * 8 + qos % 4 * 2 + retain % 2
  }

  function TypeOf(b: Byte): nat { b / 16 }

  function DupOf(b: Byte): nat { b / 8 % 2 }

  function QosOf(b: Byte): nat { b / 2 % 4 }

  function RetainOf(b: Byte): nat { b % 2 }

  lemma Shifts(f: Byte)
    ensures f / 4 == f / 2 / 2 && f / 8 == f / 2 / 4 && f / 8 == f / 4 / 2 && f / 16 == f / 8 / 2
    ensures f / 32 == f / 8 / 4 && f / 64 == f / 32 / 2 && f / 128 == f / 64 / 2
  {
  }

  lemma HeaderFields(kind: nat, dup: nat, qos: nat, retain: nat)
    requires kind < 16 && dup < 2 && qos < 4 && retain < 2
    ensures var b := Header(kind, dup, qos, retain);
            TypeOf(b) == kind && DupOf(b) == dup && QosOf(b) == qos && RetainOf(b) == retain
  {
    hide Header;
    var y := kind * 2 + dup;
    var x := y * 4 + qos;
    var b := Header(kind, dup, qos, retain);
    HeaderIs(kind, dup, qos, retain);
    Split(b, x, 2, retain);
    Split(x, y, 4, qos);
    Split(y, kind, 2, dup);
    Shifts(b);
  }

  lemma HeaderIs(kind: nat, dup: nat, qos: nat, retain: nat)
    requires kind < 16 && dup < 2 && qos < 4 && retain < 2
    ensures Header(kind, dup, qos, retain) == ((kind * 2 + dup) * 4 + qos) * 2 + retain
  {
  }

  lemma Split(n: nat, high: nat, base: nat, low: nat)
    requires base in {2, 4} && low < base && n == high * base + low
    ensures n / base == high && n % base == low
  {
  }

  /** The packet behind its header byte: the body and what follows it, if the data is all there. */
  function Body(s: seq<Byte>): Option<(seq<Byte>, seq<Byte>, nat)> {
    match Decode(s)
    case None => None
    case Some((n, len)) =>
      if len + n <= |s| then Some((s[len..len + n], s[len + n..], len)) else None
  }

  /** Where the body lies in the memory of the packet. */
  lemma BodyInPlace(s: seq<Byte>)
    requires s != [] && Body(s[1..]).Some?
    ensures var (body, _, len) := Body(s[1..]).value;
            1 + len + |body| <= |s| && body == s[1 + len..1 + len + |body|]
  {
    hide Decode;
    var (body, _, len) := Body(s[1..]).value;
    forall j | 0 <= j < |body| ensures body[j] == s[1 + len..1 + len + |body|][j] {
      assert body[j] == s[1..][len + j] == s[1 + len + j];
    }
  }

  /** ... and what lies behind its first `k` bytes, up to the end of the memory. */
  lemma BehindInPlace(s: seq<Byte>, k: nat)
    requires s != [] && Body(s[1..]).Some? && k <= |Body(s[1..]).value.0|
    ensures var (body, behind, len) := Body(s[1..]).value;
            body[k..] + behind == s[1 + len + k..]
  {
    hide Decode;
    var (body, behind, len) := Body(s[1..]).value;
    var t := s[1..];
    assert t[len..] == body + behind;
    assert t[len..][k..] == body[k..] + behind;
    assert s[1 + len + k..] == t[len + k..];
  }

  lemma BodyOfPacket(body: seq<Byte>, rest: seq<Byte>)
    requires |body| <= MAX_REMAINING
    ensures Body(Encode(|body|) + body + rest) == Some((body, rest, |Encode(|body|)|))
  {
    var s := Encode(|body|) + body + rest;
    assert s == Encode(|body|) + (body + rest);
    DecodeInvertsEncode(|body|, body + rest);
    var len := |Encode(|body|)|;
    assert s[len..len + |body|] == body && s[len + |body|..] == rest;
  }

  // ----- reading from memory -----

  /** MQTTPacket_decodeBuf at `p` */
  method DecodeBuf(buf: array<Byte>, p: nat) returns (len: nat, value: nat)
    requires p <= buf.Length && Decode(buf[p..]).Some?
    ensures Decode(buf[p..]) == Some((value, len))
  {
    var multiplier: nat := 1;
    var more := true;
    len, value := 0, 0;
    while more
      invariant len <= 4 && p + len <= buf.Length
      invariant Decode(buf[p..]) ==
                if more then DecodeFrom(buf[p + len..], len, multiplier, value) else Some((value, len))
      decreases 5 - len, more
    {
      len := len + 1;
      if len > 4 {
        return;
      }
      var c := buf[p + len - 1];
      assert buf[p + len - 1..][0] == c && buf[p + len - 1..][1..] == buf[p + len..];
      value := value + c % 128 * multiplier;
      multiplier := multiplier * 128;
      more := c >= 128;
    }
  }

  lemma Slice(b: seq<Byte>, cur: nat, end: nat, k: nat, n: nat)
    requires cur + k + n <= end <= |b|
    ensures b[cur..end][k..k + n] == b[cur + k..cur + k + n]
  {
    var x, y := b[cur..end][k..k + n], b[cur + k..cur + k + n];
    forall j | 0 <= j < n ensures x[j] == y[j] {
      assert x[j] == b[cur..end][k + j] == b[cur + k + j];
    }
  }

  /** readMQTTLenString between `cur` and `end`: the string's place, and the cursor behind it. */
  method ReadLenString(buf: array<Byte>, cur: nat, end: nat) returns (ok: bool, text: seq<Byte>, next: nat)
    requires cur <= end <= buf.Length && ReadString(buf[cur..end]) != Astray
    ensures ok <==> ReadString(buf[cur..end]).Ok?
    ensures ok ==> cur <= next <= end && ReadString(buf[cur..end]) == Ok((text, next - cur))
  {
    ok, text, next := false, [], cur;
    if end - cur > 1 {
      ghost var s := buf[cur..end];
      assert s[0] == buf[cur] && s[1] == buf[cur + 1];
      var len := ReadInt(buf[cur], buf[cur + 1]);
      next := cur + 2;
      if next + len <= end {
        ok, text, next := true, buf[next..next + len], next + len;
        Slice(buf[..], cur, end, 2, len);
      }
    }
  }
}
