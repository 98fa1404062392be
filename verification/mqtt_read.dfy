/** Reading a packet from a transport: the blocking reader, and the one that is called again
    whenever the transport has no data. */
module MqttRead {
  import opened Types
  import opened MqttPacket

  /** What the non-blocking reader keeps between calls. */
  datatype Progress = Progress(state: nat, len: nat, multiplier: nat, remLen: nat)

  /** A transport: the bytes that will arrive, and how many of them each call of `getfn` may take.
      A negative amount is an error, and behind the last amount nothing arrives. */
  datatype Link = Link(stream: seq<Byte>, amounts: seq<int>)

  function Min(a: nat, b: nat): nat {
    if a < b then a else b
  }

  /** One call of `getfn` for `n` bytes: its result, the bytes, and the link behind it. */
  function Get(link: Link, n: nat): (r: (int, seq<Byte>, Link))
    ensures r.0 == |r.1| || (r.0 == READ_ERROR && r.1 == [])
    ensures |r.1| <= n && |r.1| <= |link.stream| && r.2.stream == link.stream[|r.1|..] && r.1 == link.stream[..|r.1|]
  {
    if link.amounts == [] then (0, [], link)
    else
      var rest := link.amounts[1..];
      if link.amounts[0] < 0 then (READ_ERROR, [], Link(link.stream, rest))
      else
        var k := Min(link.amounts[0], Min(n, |link.stream|));
        (k, link.stream[..k], Link(link.stream[k..], rest))
  }

  function Put(buf: seq<Byte>, at: nat, bytes: seq<Byte>): (r: seq<Byte>)
    requires at + |bytes| <= |buf|
    ensures |r| == |buf|
  {
    buf[..at] + bytes + buf[at + |bytes|..]
  }

  // ----- the non-blocking reader -----

  predicate Scale(len: nat, multiplier: nat) {
    multiplier == if len == 0 then 1 else if len == 1 then 128 else if len == 2 then 16384 else 2097152
  }

  /** The progress is one that the reader leaves behind. */
  predicate Sound(t: Progress, buf: seq<Byte>, buflen: nat) {
    && 1 <= |buf| && buflen <= |buf|
    && (t.state == 1 ==> t.len <= 3 && (t.len > 0 ==> Scale(t.len, t.multiplier) && t.remLen < t.multiplier))
    && (t.state == 2 ==> t.len + t.remLen <= buflen)
  }

  /** How many bytes are asked for next. */
  function Request(t: Progress): nat {
    if t.state == 2 then t.remLen else 1
  }

  /** `Overruns` stands for memory that ends before the length that is written back into it. */
  datatype Turn = Return(rc: int, t: Progress, buf: seq<Byte>) | Continue(t: Progress, buf: seq<Byte>) | Overruns

  function Reset(t: Progress): Progress {
    t.(state := 0)
  }

  /** What the reader does with the result of one call of `getfn`. */
  function Feed(t: Progress, buf: seq<Byte>, buflen: nat, frc: int, chunk: seq<Byte>): (r: Turn)
    requires Sound(t, buf, buflen) && |chunk| <= Request(t) && (frc == |chunk| || frc == READ_ERROR)
    ensures !r.Overruns? ==> |r.buf| == |buf| && Sound(r.t, r.buf, buflen)
    ensures r.Overruns? ==> t.state == 1
    ensures r.Continue? && t.state != 1 ==> t.state != 2 && r.t.state == 1 && r.t.len == 0
    ensures r.Continue? && t.state == 1 ==> (r.t.state == 1 && r.t.len == t.len + 1) || r.t.state == 2
  {
    if t.state == 1 then FeedLength(t, buf, buflen, frc, chunk)
    else if t.state == 2 then
      if frc == READ_ERROR then Return(READ_ERROR, Reset(t), buf)
      else if frc == 0 then Return(0, t, buf)
      else
        var u := t.(remLen := t.remLen - frc, len := t.len + frc);
        var b := Put(buf, t.len, chunk);
        if u.remLen != 0 then Return(0, u, b) else Return(TypeOf(b[0]), Reset(u), b)
    else
      if frc == READ_ERROR then Return(READ_ERROR, Reset(t), buf)
      else if frc == 0 then Return(0, Reset(t), buf)
      else Continue(t.(state := 1, len := 0), Put(buf, 0, chunk))
  }

  /** One byte of the remaining length. */
  function Advance(t: Progress, c: Byte): Progress {
    t.(len := t.len + 1, remLen := t.remLen + c % 128 * t.multiplier, multiplier := t.multiplier * 128)
  }

  /** ... within the remaining length: a turn of the loop of MQTTPacket_decodenb. */
  function FeedLength(t: Progress, buf: seq<Byte>, buflen: nat, frc: int, chunk: seq<Byte>): (r: Turn)
    requires Sound(t, buf, buflen) && t.state == 1 && |chunk| <= 1 && (frc == |chunk| || frc == READ_ERROR)
    ensures !r.Overruns? ==> |r.buf| == |buf| && Sound(r.t, r.buf, buflen)
    ensures r.Overruns? ==> t.state == 1
    ensures r.Continue? ==> (r.t.state == 1 && r.t.len == t.len + 1) || r.t.state == 2
  {
    var t0 := if t.len == 0 then t.(multiplier := 1, remLen := 0) else t;
    if frc == READ_ERROR then Return(READ_ERROR, Reset(t0), buf)
    else if frc == 0 then Return(0, t0, buf)
    else
      var u := Advance(t0, chunk[0]);
      LengthBound(t0.len, t0.multiplier, t0.remLen, chunk[0]);
      if chunk[0] >= 128 then
        if u.len >= 4 then Return(READ_ERROR, Reset(u), buf) else Continue(u, buf)
      else
        EncodeLength(u.remLen);
        if 1 + |Encode(u.remLen)| > |buf| then Overruns
        else
          var b := Put(buf, 1, Encode(u.remLen));
          var v := u.(len := 1 + |Encode(u.remLen)|);
          if v.remLen + v.len > buflen then Return(READ_ERROR, Reset(v), b) else Continue(v.(state := 2), b)
  }

  lemma LengthBound(len: nat, multiplier: nat, remLen: nat, c: Byte)
    requires len <= 3 && Scale(len, multiplier) && remLen < multiplier
    ensures remLen + c % 128 * multiplier < multiplier * 128 <= 268435456
    ensures len < 3 ==> Scale(len + 1, multiplier * 128)
  {
  }

  datatype Called = Called(rc: int, t: Progress, buf: seq<Byte>, link: Link) | Overrun

  function Left(t: Progress): nat {
    if t.state == 2 then 0 else if t.state == 1 then (if t.len <= 4 then 5 - t.len else 0) else 6
  }

  /** MQTTPacket_readnb */
  function Readnb(t: Progress, buf: seq<Byte>, buflen: nat, link: Link): (r: Called)
    requires Sound(t, buf, buflen)
    ensures r.Called? ==> Sound(r.t, r.buf, buflen) && |r.buf| == |buf|
    ensures r.Called? && link.amounts == [] ==> r.link.amounts == []
    ensures r.Called? && link.amounts != [] ==> |r.link.amounts| < |link.amounts|
    decreases Left(t)
  {
    var (frc, chunk, behind) := Get(link, Request(t));
    match Feed(t, buf, buflen, frc, chunk)
    case Return(rc, u, b) => Called(rc, u, b, behind)
    case Continue(u, b) => Readnb(u, b, buflen, behind)
    case Overruns => Overrun
  }

  /** Five bytes of memory take any length that is written back; within a packet that fits, its own size
      is enough (`ReadsOn`). */
  lemma {:induction false} FiveBytesAreEnough(t: Progress, buf: seq<Byte>, buflen: nat, link: Link)
    requires Sound(t, buf, buflen) && 5 <= |buf|
    ensures Readnb(t, buf, buflen, link).Called?
    decreases Left(t)
  {
    hide Encode;
    var (frc, chunk, behind) := Get(link, Request(t));
    NoOverrun(t, buf, buflen, frc, chunk);
    match Feed(t, buf, buflen, frc, chunk)
    case Return(rc, u, b) =>
    case Continue(u, b) => FiveBytesAreEnough(u, b, buflen, behind);
  }

  lemma NoOverrun(t: Progress, buf: seq<Byte>, buflen: nat, frc: int, chunk: seq<Byte>)
    requires Sound(t, buf, buflen) && |chunk| <= Request(t) && (frc == |chunk| || frc == READ_ERROR) && 5 <= |buf|
    ensures !Feed(t, buf, buflen, frc, chunk).Overruns?
  {
    hide Encode;
    if t.state == 1 && frc == 1 {
      var t0 := if t.len == 0 then t.(multiplier := 1, remLen := 0) else t;
      LengthBound(t0.len, t0.multiplier, t0.remLen, chunk[0]);
      EncodeLength(Advance(t0, chunk[0]).remLen);
    }
  }

  /** The reader, called again as long as it asks for it and anything can arrive. */
  function Polled(t: Progress, buf: seq<Byte>, buflen: nat, link: Link): (r: Called)
    requires Sound(t, buf, buflen)
    decreases |link.amounts|
  {
    var r := Readnb(t, buf, buflen, link);
    if r.Called? && r.rc == 0 && link.amounts != [] then Polled(r.t, r.buf, buflen, r.link) else r
  }

  // ----- the blocking reader -----

  /** MQTTPacket_read when all the data is there: `getfn` delivers what it is asked for or, at the
      end, what is left. A length that runs over 4 bytes is not noticed. */
  function Read(buf: seq<Byte>, buflen: nat, stream: seq<Byte>): (int, seq<Byte>)
    requires buflen <= |buf| && stream != []
    requires Decode(stream[1..]).Some? && Decode(stream[1..]).value.0 <= MAX_REMAINING
    requires 1 + |Encode(Decode(stream[1..]).value.0)| <= |buf|
  {
    var (n, used) := Decode(stream[1..]).value;
    EncodeLength(n);
    var b := Put(Put(buf, 0, [stream[0]]), 1, Encode(n));
    var len := 1 + |Encode(n)|;
    var behind := stream[1 + Min(used, 4)..];
    if n + len > buflen then (READ_ERROR, b)
    else if n > |behind| then (READ_ERROR, Put(b, len, behind))
    else (TypeOf(b[0]), Put(b, len, behind[..n]))
  }

  // ----- the result does not depend on how the bytes arrive -----

  datatype Packet = Packet(header: Byte, length: seq<Byte>, body: seq<Byte>)

  function Bytes(p: Packet): seq<Byte> {
    [p.header] + p.length + p.body
  }

  /** The packet with its length encoded the short way. */
  function Canonical(p: Packet): seq<Byte> {
    [p.header] + Encode(|p.body|) + p.body
  }

  /** Memory with `bytes` at its beginning. */
  function Image(orig: seq<Byte>, bytes: seq<Byte>): (r: seq<Byte>)
    requires |bytes| <= |orig|
    ensures |r| == |orig|
  {
    bytes + orig[|bytes|..]
  }

  /** A packet whose length takes at most 4 bytes and that fits the buffer. */
  predicate Fits(p: Packet, orig: seq<Byte>, buflen: nat) {
    && 1 <= |p.length| <= 4 && Decode(p.length) == Some((|p.body|, |p.length|)) && |p.body| <= MAX_REMAINING
    && |Canonical(p)| <= buflen <= |orig|
  }

  /** The reader is somewhere in the packet, and the rest of it is still to come. */
  ghost predicate Within(t: Progress, buf: seq<Byte>, stream: seq<Byte>, p: Packet, more: seq<Byte>, orig: seq<Byte>,
                         buflen: nat)
    requires Fits(p, orig, buflen)
  {
    if t.state == 1 then InLength(t, buf, stream, p, more, orig)
    else if t.state == 2 then InBody(t, buf, stream, p, more, orig, buflen)
    else buf == orig && stream == Bytes(p) + more
  }

  ghost predicate InLength(t: Progress, buf: seq<Byte>, stream: seq<Byte>, p: Packet, more: seq<Byte>, orig: seq<Byte>)
    requires 1 <= |orig|
  {
    && t.len < |p.length| <= 4 && buf == Image(orig, [p.header])
    && stream == p.length[t.len..] + p.body + more
    && DecodeFrom(p.length[t.len..], t.len, if t.len == 0 then 1 else t.multiplier, if t.len == 0 then 0 else t.remLen)
       == Some((|p.body|, |p.length|))
  }

  ghost predicate InBody(t: Progress, buf: seq<Byte>, stream: seq<Byte>, p: Packet, more: seq<Byte>, orig: seq<Byte>,
                         buflen: nat)
    requires Fits(p, orig, buflen)
  {
    var k := t.len - 1 - |Encode(|p.body|)|;
    && 0 <= k <= |p.body| && (p.body != [] ==> k < |p.body|) && t.remLen == |p.body| - k
    && stream == p.body[k..] + more
    && buf == Image(orig, [p.header] + Encode(|p.body|) + p.body[..k])
  }

  /** The packet is complete. */
  ghost predicate Complete(rc: int, t: Progress, buf: seq<Byte>, stream: seq<Byte>, p: Packet, more: seq<Byte>,
                           orig: seq<Byte>, buflen: nat)
    requires Fits(p, orig, buflen)
  {
    rc == TypeOf(p.header) && t.state == 0 && buf == Image(orig, Canonical(p)) && stream == more
  }

  ghost predicate After(r: Turn, stream: seq<Byte>, p: Packet, more: seq<Byte>, orig: seq<Byte>, buflen: nat)
    requires Fits(p, orig, buflen)
  {
    match r
    case Continue(u, b) => Within(u, b, stream, p, more, orig, buflen)
    case Return(rc, u, b) =>
      || (rc == 0 && Within(u, b, stream, p, more, orig, buflen))
      || (p.body != [] && Complete(rc, u, b, stream, p, more, orig, buflen))
    case Overruns => false
  }

  lemma FeedsHeader(t: Progress, buf: seq<Byte>, buflen: nat, chunk: seq<Byte>, stream: seq<Byte>, p: Packet,
                    more: seq<Byte>, orig: seq<Byte>)
    requires Fits(p, orig, buflen) && Sound(t, buf, buflen) && Within(t, buf, stream, p, more, orig, buflen)
    requires t.state != 1 && t.state != 2 && |chunk| <= 1 && |chunk| <= |stream| && chunk == stream[..|chunk|]
    ensures After(Feed(t, buf, buflen, |chunk|, chunk), stream[|chunk|..], p, more, orig, buflen)
  {
    hide DecodeFrom, Encode;
    if chunk != [] {
      assert chunk == [p.header];
      assert p.length[0..] == p.length;
      assert stream[1..] == p.length + p.body + more;
    }
  }

  lemma FeedsLength(t: Progress, buf: seq<Byte>, buflen: nat, chunk: seq<Byte>, stream: seq<Byte>, p: Packet,
                    more: seq<Byte>, orig: seq<Byte>)
    requires Fits(p, orig, buflen) && Sound(t, buf, buflen) && Within(t, buf, stream, p, more, orig, buflen)
    requires t.state == 1 && |chunk| <= 1 && |chunk| <= |stream| && chunk == stream[..|chunk|]
    ensures After(Feed(t, buf, buflen, |chunk|, chunk), stream[|chunk|..], p, more, orig, buflen)
  {
    hide DecodeFrom, Encode, Decode, TypeOf;
    if chunk != [] {
      var multiplier, value := if t.len == 0 then 1 else t.multiplier, if t.len == 0 then 0 else t.remLen;
      NextLengthByte(p, more, stream, t.len, multiplier, value);
      if chunk[0] < 128 {
        LengthIsWhole(buf, p, orig, buflen);
      }
    }
  }

  /** The stream at the byte number `i` of the length. */
  lemma NextLengthByte(p: Packet, more: seq<Byte>, stream: seq<Byte>, i: nat, multiplier: nat, value: nat)
    requires i < |p.length| <= 4 && stream == p.length[i..] + p.body + more
    requires DecodeFrom(p.length[i..], i, multiplier, value) == Some((|p.body|, |p.length|))
    ensures stream[0] < 128 ==> i + 1 == |p.length| && value + stream[0] % 128 * multiplier == |p.body|
    ensures stream[0] < 128 ==> stream[1..] == p.body[0..] + more
    ensures stream[0] >= 128 ==>
              && i + 1 < |p.length| && stream[1..] == p.length[i + 1..] + p.body + more
              && DecodeFrom(p.length[i + 1..], i + 1, multiplier * 128, value + stream[0] % 128 * multiplier) ==
                 Some((|p.body|, |p.length|))
  {
    var s := p.length[i..];
    LengthEndsHere(p, s, i, multiplier, value);
    hide DecodeFrom;
    assert stream[0] == s[0] && s[1..] == p.length[i + 1..];
    assert stream[1..] == p.length[i + 1..] + p.body + more;
    assert stream[0] < 128 ==> stream[1..] == p.body[0..] + more;
  }

  /** The memory once the length is written back. */
  lemma LengthIsWhole(buf: seq<Byte>, p: Packet, orig: seq<Byte>, buflen: nat)
    requires Fits(p, orig, buflen) && buf == Image(orig, [p.header])
    ensures 1 + |Encode(|p.body|)| <= |buf|
    ensures Put(buf, 1, Encode(|p.body|)) == Image(orig, [p.header] + Encode(|p.body|) + p.body[..0])
  {
    hide DecodeFrom, Encode, Decode;
  }

  /** The last byte of the length is the one below 128. */
  lemma LengthEndsHere(p: Packet, s: seq<Byte>, i: nat, multiplier: nat, value: nat)
    requires i < 4 && i + |s| == |p.length| <= 4 && s != []
    requires DecodeFrom(s, i, multiplier, value) == Some((|p.body|, |p.length|))
    ensures s[0] < 128 ==> |s| == 1 && value + s[0] % 128 * multiplier == |p.body|
    ensures s[0] >= 128 ==>
              && |s| > 1 && i + 1 < 4
              && DecodeFrom(s[1..], i + 1, multiplier * 128, value + s[0] % 128 * multiplier) ==
                 Some((|p.body|, |p.length|))
  {
  }

  lemma FeedsBody(t: Progress, buf: seq<Byte>, buflen: nat, chunk: seq<Byte>, stream: seq<Byte>, p: Packet,
                  more: seq<Byte>, orig: seq<Byte>)
    requires Fits(p, orig, buflen) && Sound(t, buf, buflen) && Within(t, buf, stream, p, more, orig, buflen)
    requires t.state == 2 && |chunk| <= t.remLen && |chunk| <= |stream| && chunk == stream[..|chunk|]
    ensures After(Feed(t, buf, buflen, |chunk|, chunk), stream[|chunk|..], p, more, orig, buflen)
  {
    hide DecodeFrom, Encode, TypeOf;
    if chunk != [] {
      var k := t.len - 1 - |Encode(|p.body|)|;
      var head := [p.header] + Encode(|p.body|);
      var k2 := k + |chunk|;
      assert chunk == p.body[k..k2] && stream[|chunk|..] == p.body[k2..] + more;
      assert head + p.body[..k] + chunk == head + p.body[..k2];
      assert Put(buf, t.len, chunk) == Image(orig, head + p.body[..k2]);
      if k2 == |p.body| {
        assert p.body[..k2] == p.body && p.body[k2..] + more == more;
      }
    }
  }

  function Positives(amounts: seq<int>): nat {
    if amounts == [] then 0 else (if amounts[0] > 0 then 1 else 0) + Positives(amounts[1..])
  }

  predicate NoErrors(amounts: seq<int>) {
    forall i | 0 <= i < |amounts| :: amounts[i] >= 0
  }

  /** One call of `getfn` within a packet: no error, and a positive amount brings a byte. */
  lemma Gets(t: Progress, buf: seq<Byte>, link: Link, p: Packet, more: seq<Byte>, orig: seq<Byte>, buflen: nat)
    requires Fits(p, orig, buflen) && Within(t, buf, link.stream, p, more, orig, buflen) && NoErrors(link.amounts)
    ensures var (frc, chunk, behind) := Get(link, Request(t));
            && frc == |chunk| && NoErrors(behind.amounts)
            && (p.body != [] ==>
                  Positives(link.amounts) + |behind.stream| <= Positives(behind.amounts) + |link.stream|)
            && (link.amounts != [] ==> |behind.amounts| < |link.amounts|)
            && (link.amounts == [] ==> behind.amounts == [])
  {
    hide DecodeFrom, Encode;
  }

  /** Where a call can leave the reader. */
  ghost predicate Outcome(r: Called, p: Packet, more: seq<Byte>, orig: seq<Byte>, buflen: nat)
    requires Fits(p, orig, buflen)
  {
    && r.Called?
    && (|| (r.rc == 0 && Within(r.t, r.buf, r.link.stream, p, more, orig, buflen))
        || (p.body != [] && Complete(r.rc, r.t, r.buf, r.link.stream, p, more, orig, buflen)))
  }

  lemma {:induction false} ReadsOn(t: Progress, buf: seq<Byte>, buflen: nat, link: Link, p: Packet, more: seq<Byte>,
                                   orig: seq<Byte>)
    requires Fits(p, orig, buflen) && Sound(t, buf, buflen) && Within(t, buf, link.stream, p, more, orig, buflen)
    requires NoErrors(link.amounts)
    ensures var r := Readnb(t, buf, buflen, link);
            && Outcome(r, p, more, orig, buflen) && NoErrors(r.link.amounts)
            && (p.body != [] ==> Positives(link.amounts) + |r.link.stream| <= Positives(r.link.amounts) + |link.stream|)
    decreases Left(t)
  {
    hide DecodeFrom, Encode, Within, Complete, Feed, Get, Positives, Fits;
    Gets(t, buf, link, p, more, orig, buflen);
    var (frc, chunk, behind) := Get(link, Request(t));
    if t.state == 1 {
      FeedsLength(t, buf, buflen, chunk, link.stream, p, more, orig);
    } else if t.state == 2 {
      FeedsBody(t, buf, buflen, chunk, link.stream, p, more, orig);
    } else {
      FeedsHeader(t, buf, buflen, chunk, link.stream, p, more, orig);
    }
    match Feed(t, buf, buflen, frc, chunk)
    case Return(rc, u, b) =>
    case Continue(u, b) => ReadsOn(u, b, buflen, behind, p, more, orig);
  }

  lemma {:induction false} PollsOn(t: Progress, buf: seq<Byte>, buflen: nat, link: Link, p: Packet, more: seq<Byte>,
                                   orig: seq<Byte>)
    requires Fits(p, orig, buflen) && Sound(t, buf, buflen) && Within(t, buf, link.stream, p, more, orig, buflen)
    requires NoErrors(link.amounts) && TypeOf(p.header) > 0
    ensures var r := Polled(t, buf, buflen, link);
            && Outcome(r, p, more, orig, buflen)
            && (p.body != [] && r.rc == 0 ==> Positives(link.amounts) + |r.link.stream| <= |link.stream|)
    decreases |link.amounts|
  {
    hide DecodeFrom, Encode, Within, Readnb, Fits;
    ReadsOn(t, buf, buflen, link, p, more, orig);
    var r := Readnb(t, buf, buflen, link);
    if r.rc == 0 && link.amounts != [] {
      PollsOn(r.t, r.buf, buflen, r.link, p, more, orig);
    }
  }

  /** The blocking reader gets the same packet from the whole stream. */
  lemma ReadsWhole(p: Packet, more: seq<Byte>, orig: seq<Byte>, buflen: nat)
    requires Fits(p, orig, buflen)
    ensures var s := Bytes(p) + more;
            && s != [] && Decode(s[1..]) == Some((|p.body|, |p.length|))
            && Read(orig, buflen, s) == (TypeOf(p.header), Image(orig, Canonical(p)))
  {
    hide DecodeFrom, Encode, TypeOf;
    var s := Bytes(p) + more;
    assert s[1..] == p.length + (p.body + more);
    DecodesPrefix(p.length, p.body + more, 0, 1, 0);
    assert s[1 + |p.length|..][..|p.body|] == p.body;
    var head := [p.header] + Encode(|p.body|);
    var b := Put(Put(orig, 0, [p.header]), 1, Encode(|p.body|));
    assert b == Image(orig, head);
    assert Put(b, |head|, p.body) == Image(orig, Canonical(p));
  }

  lemma StillToCome(t: Progress, buf: seq<Byte>, stream: seq<Byte>, p: Packet, more: seq<Byte>, orig: seq<Byte>,
                    buflen: nat)
    requires Fits(p, orig, buflen) && Within(t, buf, stream, p, more, orig, buflen) && p.body != []
    ensures |stream| > |more|
  {
    hide DecodeFrom, Encode;
  }

  /** Whatever parts the bytes arrive in, and however often the reader is told to call again, a
      packet of type 1 or above with a body ends with the type and the buffer of the blocking reader,
      and does so once enough bytes were allowed through. A packet without a body is never returned:
      the reader asks for zero bytes and takes the answer 0 as a request to call again. */
  lemma ChunkingIndependence(t: Progress, p: Packet, more: seq<Byte>, amounts: seq<int>, orig: seq<Byte>, buflen: nat)
    requires Fits(p, orig, buflen) && TypeOf(p.header) > 0 && NoErrors(amounts) && t.state == 0
    ensures var s := Bytes(p) + more;
            var r := Polled(t, orig, buflen, Link(s, amounts));
            && Decode(s[1..]) == Some((|p.body|, |p.length|)) && r.Called?
            && (p.body == [] ==> r.rc == 0)
            && (r.rc != 0 ==> (r.rc, r.buf) == Read(orig, buflen, s) && r.link.stream == more && r.t.state == 0)
            && (p.body != [] && Positives(amounts) >= |Bytes(p)| ==> r.rc != 0)
  {
    hide DecodeFrom, Encode, Polled, TypeOf, Read;
    var s := Bytes(p) + more;
    PollsOn(t, orig, buflen, Link(s, amounts), p, more, orig);
    ReadsWhole(p, more, orig, buflen);
    var r := Polled(t, orig, buflen, Link(s, amounts));
    if p.body != [] && r.rc == 0 {
      StillToCome(r.t, r.buf, r.link.stream, p, more, orig, buflen);
    }
  }
}
