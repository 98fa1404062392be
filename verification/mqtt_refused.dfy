/** What the readers do with a packet that they refuse, and with a transport that fails. */
module MqttRefused {
  import opened Types
  import opened MqttPacket
  import opened MqttRead

  /** A length of four bytes that all announce a further one. */
  predicate Endless(length: seq<Byte>) {
    |length| == 4 && forall i | 0 <= i < 4 :: length[i] >= 128
  }

  /** The length of a packet that does not fit the buffer. */
  predicate TooLong(length: seq<Byte>, n: nat, buflen: nat) {
    && 1 <= |length| <= 4 && Decode(length) == Some((n, |length|)) && n <= MAX_REMAINING
    && 1 + |Encode(n)| + n > buflen
  }

  /** The buffer once the packet is refused: its header and, if its length was understood, that length. */
  function Refusal(header: Byte, length: seq<Byte>): seq<Byte> {
    [header] + match Decode(length) case Some((n, _)) => (if Endless(length) then [] else Encode(n)) case None => []
  }

  ghost predicate Refused(length: seq<Byte>, header: Byte, orig: seq<Byte>, buflen: nat) {
    && buflen <= |orig| && 1 <= |orig|
    && (Endless(length) || exists n :: TooLong(length, n, buflen) && 1 + |Encode(n)| <= |orig|)
  }

  /** The reader is somewhere before the end of the length. */
  ghost predicate InHead(t: Progress, buf: seq<Byte>, stream: seq<Byte>, header: Byte, length: seq<Byte>,
                         more: seq<Byte>, orig: seq<Byte>)
    requires 1 <= |orig|
  {
    && t.state != 2
    && (t.state != 1 ==> buf == orig && stream == [header] + length + more)
    && (t.state == 1 ==>
          && t.len < |length| <= 4 && buf == Image(orig, [header]) && stream == length[t.len..] + more
          && (!Endless(length) ==>
                DecodeFrom(length[t.len..], t.len, if t.len == 0 then 1 else t.multiplier,
                           if t.len == 0 then 0 else t.remLen) == Decode(length)))
  }

  /** The packet is refused. */
  ghost predicate IsRefused(rc: int, t: Progress, buf: seq<Byte>, stream: seq<Byte>, header: Byte, length: seq<Byte>,
                            more: seq<Byte>, orig: seq<Byte>)
  {
    && rc == -1 && t.state == 0 && stream == more
    && |Refusal(header, length)| <= |orig| && buf == Image(orig, Refusal(header, length))
  }

  ghost predicate HeadAfter(r: Turn, stream: seq<Byte>, header: Byte, length: seq<Byte>, more: seq<Byte>,
                            orig: seq<Byte>)
    requires 1 <= |orig|
  {
    match r
    case Continue(u, b) => InHead(u, b, stream, header, length, more, orig)
    case Return(rc, u, b) =>
      || (rc == 0 && InHead(u, b, stream, header, length, more, orig))
      || IsRefused(rc, u, b, stream, header, length, more, orig)
    case Overruns => false
  }

  /** A byte of a length that ends within 4 bytes. */
  lemma LengthByte(length: seq<Byte>, s: seq<Byte>, i: nat, multiplier: nat, value: nat, n: nat)
    requires i < 4 && i + |s| == |length| <= 4 && s != []
    requires DecodeFrom(s, i, multiplier, value) == Some((n, |length|))
    ensures s[0] < 128 ==> |s| == 1 && value + s[0] % 128 * multiplier == n
    ensures s[0] >= 128 ==>
              && |s| > 1 && i + 1 < 4
              && DecodeFrom(s[1..], i + 1, multiplier * 128, value + s[0] % 128 * multiplier) == Some((n, |length|))
  {}

  lemma FeedsHeader(t: Progress, buf: seq<Byte>, buflen: nat, chunk: seq<Byte>, stream: seq<Byte>, header: Byte,
                    length: seq<Byte>, more: seq<Byte>, orig: seq<Byte>)
    requires Sound(t, buf, buflen) && Refused(length, header, orig, buflen)
    requires InHead(t, buf, stream, header, length, more, orig)
    requires t.state != 1 && |chunk| <= 1 && |chunk| <= |stream| && chunk == stream[..|chunk|]
    ensures HeadAfter(Feed(t, buf, buflen, |chunk|, chunk), stream[|chunk|..], header, length, more, orig)
  {
    hide DecodeFrom, Encode;
    if chunk != [] {
      assert chunk == [header];
      assert length[0..] == length;
      assert stream[1..] == length + more;
    }
  }

  lemma FeedsEndless(t: Progress, buf: seq<Byte>, buflen: nat, chunk: seq<Byte>, stream: seq<Byte>, header: Byte,
                     length: seq<Byte>, more: seq<Byte>, orig: seq<Byte>)
    requires Sound(t, buf, buflen) && Endless(length) && buflen <= |orig| && 1 <= |orig|
    requires InHead(t, buf, stream, header, length, more, orig)
    requires t.state == 1 && |chunk| <= 1 && |chunk| <= |stream| && chunk == stream[..|chunk|]
    ensures HeadAfter(Feed(t, buf, buflen, |chunk|, chunk), stream[|chunk|..], header, length, more, orig)
  {
    hide DecodeFrom, Encode, Decode;
    if chunk != [] {
      assert chunk[0] == length[t.len] >= 128;
      assert stream[1..] == length[t.len + 1..] + more;
      if t.len == 3 { assert stream[1..] == more; }
    }
  }

  lemma FeedsTooLong(t: Progress, buf: seq<Byte>, buflen: nat, chunk: seq<Byte>, stream: seq<Byte>, header: Byte,
                     length: seq<Byte>, n: nat, more: seq<Byte>, orig: seq<Byte>)
    requires Sound(t, buf, buflen) && buflen <= |orig| && !Endless(length)
    requires TooLong(length, n, buflen) && 1 + |Encode(n)| <= |orig|
    requires InHead(t, buf, stream, header, length, more, orig)
    requires t.state == 1 && |chunk| <= 1 && |chunk| <= |stream| && chunk == stream[..|chunk|]
    ensures HeadAfter(Feed(t, buf, buflen, |chunk|, chunk), stream[|chunk|..], header, length, more, orig)
  {
    hide DecodeFrom, Encode, Decode;
    if chunk != [] {
      var multiplier, value := if t.len == 0 then 1 else t.multiplier, if t.len == 0 then 0 else t.remLen;
      var s := length[t.len..];
      LengthByte(length, s, t.len, multiplier, value, n);
      assert chunk[0] == s[0] && s[1..] == length[t.len + 1..];
      assert stream[1..] == length[t.len + 1..] + more;
      if chunk[0] < 128 {
        assert stream[1..] == more;
        assert Put(buf, 1, Encode(n)) == Image(orig, [header] + Encode(n));
      }
    }
  }

  lemma FeedsHead(t: Progress, buf: seq<Byte>, buflen: nat, chunk: seq<Byte>, stream: seq<Byte>, header: Byte,
                  length: seq<Byte>, more: seq<Byte>, orig: seq<Byte>)
    requires Sound(t, buf, buflen) && Refused(length, header, orig, buflen)
    requires InHead(t, buf, stream, header, length, more, orig)
    requires |chunk| <= 1 && |chunk| <= |stream| && chunk == stream[..|chunk|]
    ensures HeadAfter(Feed(t, buf, buflen, |chunk|, chunk), stream[|chunk|..], header, length, more, orig)
  {
    hide Feed, HeadAfter, InHead, Sound, Decode;
    if t.state != 1 {
      FeedsHeader(t, buf, buflen, chunk, stream, header, length, more, orig);
    } else if Endless(length) {
      FeedsEndless(t, buf, buflen, chunk, stream, header, length, more, orig);
    } else {
      var n :| TooLong(length, n, buflen) && 1 + |Encode(n)| <= |orig|;
      FeedsTooLong(t, buf, buflen, chunk, stream, header, length, n, more, orig);
    }
  }

  /** One call of `getfn` before the end of the length. */
  lemma GetsHead(t: Progress, buf: seq<Byte>, link: Link, header: Byte, length: seq<Byte>, more: seq<Byte>,
                 orig: seq<Byte>)
    requires 1 <= |orig| && InHead(t, buf, link.stream, header, length, more, orig) && NoErrors(link.amounts)
    ensures var (frc, chunk, behind) := Get(link, Request(t));
            && frc == |chunk| <= 1 && NoErrors(behind.amounts)
            && Positives(link.amounts) + |behind.stream| <= Positives(behind.amounts) + |link.stream|
  {
    hide DecodeFrom, Decode;
  }

  ghost predicate HeadOutcome(r: Called, header: Byte, length: seq<Byte>, more: seq<Byte>, orig: seq<Byte>)
    requires 1 <= |orig|
  {
    && r.Called?
    && (|| (r.rc == 0 && InHead(r.t, r.buf, r.link.stream, header, length, more, orig))
        || IsRefused(r.rc, r.t, r.buf, r.link.stream, header, length, more, orig))
  }

  lemma {:induction false} CallsHead(t: Progress, buf: seq<Byte>, buflen: nat, link: Link, header: Byte,
                                     length: seq<Byte>, more: seq<Byte>, orig: seq<Byte>)
    requires Sound(t, buf, buflen) && Refused(length, header, orig, buflen)
    requires InHead(t, buf, link.stream, header, length, more, orig) && NoErrors(link.amounts)
    ensures var r := Readnb(t, buf, buflen, link);
            && HeadOutcome(r, header, length, more, orig) && NoErrors(r.link.amounts)
            && Positives(link.amounts) + |r.link.stream| <= Positives(r.link.amounts) + |link.stream|
    decreases Left(t)
  {
    hide Feed, InHead, IsRefused, Get, Positives, Refused, NoErrors;
    LengthIsThere(length, header, orig, buflen);
    GetsHead(t, buf, link, header, length, more, orig);
    var (frc, chunk, behind) := Get(link, Request(t));
    assert t.state != 2 by { HeadIsEarly(t, buf, link.stream, header, length, more, orig); }
    FeedsHead(t, buf, buflen, chunk, link.stream, header, length, more, orig);
    match Feed(t, buf, buflen, frc, chunk)
    case Return(rc, u, b) =>
    case Continue(u, b) => CallsHead(u, b, buflen, behind, header, length, more, orig);
  }

  lemma HeadIsEarly(t: Progress, buf: seq<Byte>, stream: seq<Byte>, header: Byte, length: seq<Byte>, more: seq<Byte>,
                    orig: seq<Byte>)
    requires 1 <= |orig| && InHead(t, buf, stream, header, length, more, orig) && 1 <= |length|
    ensures t.state != 2 && |stream| > |more|
  {}

  lemma {:induction false} PollsHead(t: Progress, buf: seq<Byte>, buflen: nat, link: Link, header: Byte,
                                     length: seq<Byte>, more: seq<Byte>, orig: seq<Byte>)
    requires Sound(t, buf, buflen) && Refused(length, header, orig, buflen)
    requires InHead(t, buf, link.stream, header, length, more, orig) && NoErrors(link.amounts)
    ensures var r := Polled(t, buf, buflen, link);
            && HeadOutcome(r, header, length, more, orig)
            && (r.rc == 0 ==> Positives(link.amounts) + |r.link.stream| <= |link.stream|)
    decreases |link.amounts|
  {
    hide Readnb, InHead, Refused, NoErrors, Refusal, Image;
    LengthIsThere(length, header, orig, buflen);
    CallsHead(t, buf, buflen, link, header, length, more, orig);
    var r := Readnb(t, buf, buflen, link);
    if r.rc == 0 && link.amounts != [] {
      PollsHead(r.t, r.buf, buflen, r.link, header, length, more, orig);
    }
  }

  /** A packet that does not fit the buffer, or whose length runs over 4 bytes, is refused however its bytes
      arrive, as soon as its length is there: with the code of an error, in front of everything behind the
      length, and with nothing but the header and the length in the buffer. */
  lemma RefusedAnyhow(t: Progress, header: Byte, length: seq<Byte>, more: seq<Byte>, amounts: seq<int>, orig: seq<Byte>,
                      buflen: nat)
    requires Refused(length, header, orig, buflen) && NoErrors(amounts) && t.state == 0
    ensures var r := Polled(t, orig, buflen, Link([header] + length + more, amounts));
            && r.Called?
            && (r.rc != 0 ==> IsRefused(r.rc, r.t, r.buf, r.link.stream, header, length, more, orig))
            && (Positives(amounts) >= 1 + |length| ==> r.rc != 0)
  {
    hide Polled, Decode, TooLong, Refusal;
    var s := [header] + length + more;
    LengthIsThere(length, header, orig, buflen);
    PollsHead(t, orig, buflen, Link(s, amounts), header, length, more, orig);
    var r := Polled(t, orig, buflen, Link(s, amounts));
    if r.rc == 0 {
      HeadIsEarly(r.t, r.buf, r.link.stream, header, length, more, orig);
    }
  }

  lemma LengthIsThere(length: seq<Byte>, header: Byte, orig: seq<Byte>, buflen: nat)
    requires Refused(length, header, orig, buflen)
    ensures 1 <= |length| && 1 <= |orig|
  {
    hide Decode;
  }

  /** The blocking reader refuses a packet that does not fit in the same way, and one that breaks off. */
  lemma ReadRefuses(header: Byte, length: seq<Byte>, n: nat, behind: seq<Byte>, orig: seq<Byte>, buflen: nat)
    requires 1 <= |length| <= 4 && Decode(length) == Some((n, |length|)) && n <= MAX_REMAINING
    requires buflen <= |orig| && 1 + |Encode(n)| <= |orig|
    ensures var s := [header] + length + behind;
            && Decode(s[1..]) == Some((n, |length|))
            && (1 + |Encode(n)| + n > buflen ==> Read(orig, buflen, s) == (-1, Image(orig, [header] + Encode(n))))
            && (1 + |Encode(n)| + n <= buflen && |behind| < n ==>
                  Read(orig, buflen, s) == (-1, Image(orig, [header] + Encode(n) + behind)))
  {
    hide DecodeFrom, Encode;
    var s := [header] + length + behind;
    assert s[1..] == length + behind;
    DecodesPrefix(length, behind, 0, 1, 0);
    assert s[1 + |length|..] == behind;
    var b := Put(Put(orig, 0, [header]), 1, Encode(n));
    assert b == Image(orig, [header] + Encode(n));
    if 1 + |Encode(n)| + n <= buflen && |behind| < n {
      assert Put(b, 1 + |Encode(n)|, behind) == Image(orig, [header] + Encode(n) + behind);
    }
  }

  /** A call that fails leaves the reader at the beginning of a packet, and so does one that completes. */
  lemma {:induction false} StartsOver(t: Progress, buf: seq<Byte>, buflen: nat, link: Link)
    requires Sound(t, buf, buflen) && Readnb(t, buf, buflen, link).Called?
    ensures Readnb(t, buf, buflen, link).rc != 0 ==> Readnb(t, buf, buflen, link).t.state == 0
    decreases Left(t)
  {
    hide Encode;
    var (frc, chunk, behind) := Get(link, Request(t));
    match Feed(t, buf, buflen, frc, chunk)
    case Return(rc, u, b) =>
    case Continue(u, b) => StartsOver(u, b, buflen, behind);
  }

  /** An error of the transport ends the call with that error, wherever the packet stands. */
  lemma ErrorEndsCall(t: Progress, buf: seq<Byte>, buflen: nat, link: Link)
    requires Sound(t, buf, buflen) && link.amounts != [] && link.amounts[0] < 0
    ensures var r := Readnb(t, buf, buflen, link);
            r.Called? && r.rc == -1 && r.t.state == 0 && r.buf == buf && r.link.stream == link.stream
  {
    hide Encode;
  }

  /** Behind the buffer, and behind the five bytes of a header and a length, memory stays as it is. */
  lemma {:induction false} BehindTheBuffer(t: Progress, buf: seq<Byte>, buflen: nat, link: Link, k: nat)
    requires Sound(t, buf, buflen) && Readnb(t, buf, buflen, link).Called?
    requires buflen <= k < |buf| && 5 <= k
    ensures Readnb(t, buf, buflen, link).buf[k] == buf[k]
    decreases Left(t)
  {
    hide Encode;
    var (frc, chunk, behind) := Get(link, Request(t));
    KeepsBehind(t, buf, buflen, frc, chunk, k);
    match Feed(t, buf, buflen, frc, chunk)
    case Return(rc, u, b) =>
    case Continue(u, b) => BehindTheBuffer(u, b, buflen, behind, k);
  }

  lemma KeepsBehind(t: Progress, buf: seq<Byte>, buflen: nat, frc: int, chunk: seq<Byte>, k: nat)
    requires Sound(t, buf, buflen) && |chunk| <= Request(t) && (frc == |chunk| || frc == READ_ERROR)
    requires buflen <= k < |buf| && 5 <= k && !Feed(t, buf, buflen, frc, chunk).Overruns?
    ensures Feed(t, buf, buflen, frc, chunk).buf[k] == buf[k]
  {
    hide Encode;
    if t.state == 1 && frc == 1 {
      var t0 := if t.len == 0 then t.(multiplier := 1, remLen := 0) else t;
      LengthBound(t0.len, t0.multiplier, t0.remLen, chunk[0]);
      EncodeLength(Advance(t0, chunk[0]).remLen);
    }
  }
}
