/** The non-blocking reader over its transport structure and the caller's buffer. */
module MqttTransport {
  import opened Types
  import opened MqttPacket
  import opened MqttRead

  class Transport {
    var stream: seq<Byte>
    var amounts: seq<int>
    var multiplier: nat
    var remLen: nat
    var len: nat
    var state: nat

    ghost function Snap(): Progress
      reads this
    {
      Progress(state, len, multiplier, remLen)
    }

    ghost function Source(): Link
      reads this
    {
      Link(stream, amounts)
    }

    constructor (stream: seq<Byte>, amounts: seq<int>)
      ensures state == 0 && Source() == Link(stream, amounts)
    {
      this.stream, this.amounts := stream, amounts;
      multiplier, remLen, len, state := 0, 0, 0, 0;
    }

    /** The callback for `n` bytes. */
    method GetFn(n: nat) returns (frc: int, chunk: seq<Byte>)
      modifies this`stream, this`amounts
      ensures (frc, chunk, Source()) == Get(old(Source()), n)
    {
      if amounts == [] {
        return 0, [];
      }
      var amount := amounts[0];
      amounts := amounts[1..];
      if amount < 0 {
        return READ_ERROR, [];
      }
      var k := Min(amount, Min(n, |stream|));
      chunk := stream[..k];
      stream := stream[k..];
      frc := k;
    }

    method TakeLengthByte(c: Byte)
      modifies this`len, this`remLen, this`multiplier
      ensures Snap() == Advance(old(Snap()), c)
    {
      len := len + 1;
      remLen := remLen + c % 128 * multiplier;
      multiplier := multiplier * 128;
    }

    /** MQTTPacket_decodenb; `whole` is what the call of the reader amounts to. */
    method DecodeNb(ghost buf: seq<Byte>, ghost buflen: nat, ghost whole: Called) returns (rc: int)
      requires state == 1 && Sound(Snap(), buf, buflen) && whole == Readnb(Snap(), buf, buflen, Source())
      modifies this
      ensures state == 1
      ensures rc == READ_ERROR ==> whole == Called(READ_ERROR, Reset(Snap()), buf, Source())
      ensures rc == 0 ==> whole == Called(0, Snap(), buf, Source())
      ensures rc != READ_ERROR && rc != 0 ==>
                && remLen <= MAX_REMAINING && 1 <= |buf| && buflen <= |buf|
                && whole == Stored(Snap(), buf, buflen, Source())
    {
      hide Encode, Readnb, Feed, FeedLength, Stored, Get, Advance, Scale;
      ghost var given := Snap();
      if len == 0 {
        multiplier := 1;
        remLen := 0;
      }
      if given.len == 0 {
        StartOfLength(given, buf, buflen, Source());
      }
      assert 1 <= |buf| && buflen <= |buf| && Started(Snap());
      hide Sound;
      while true
        invariant state == 1 && Sound(Snap(), buf, buflen) && whole == Readnb(Snap(), buf, buflen, Source())
        invariant Started(Snap()) && len <= 3
        decreases 4 - len
      {
        ghost var t := Snap();
        LengthTurn(t, buf, buflen, Source());
        var frc, c := GetFn(1);
        if frc == READ_ERROR {
          return READ_ERROR;
        }
        if frc == 0 {
          return 0;
        }
        AdvanceCounts(t, c[0]);
        TakeLengthByte(c[0]);
        if c[0] < 128 {
          return len;
        }
        if len >= 4 {
          return READ_ERROR;
        }
      }
    }

    /** MQTTPacket_readnb, when the memory takes the length that is written back. */
    method ReadNb(buf: array<Byte>, buflen: nat) returns (rc: int)
      requires Sound(Snap(), buf[..], buflen) && Readnb(Snap(), buf[..], buflen, Source()).Called?
      modifies this, buf
      ensures Called(rc, Snap(), buf[..], Source()) == Readnb(old(Snap()), old(buf[..]), buflen, old(Source()))
    {
      hide Readnb, Sound;
      var frc := 1;
      if state != 1 && state != 2 {
        frc := StartHeader(buf, buflen);
        if frc == READ_ERROR || frc == 0 { return frc; }
      }
      if state == 1 {
        frc := ReadLength(buf, buflen);
        if frc == READ_ERROR || frc == 0 { return frc; }
      }
      rc := FinishBody(buf, buflen);
    }

    /** The call ends here with `frc`, or it goes on and ends as the call at the beginning would. */
    ghost predicate EndsOrGoesOn(frc: int, whole: Called, buf: seq<Byte>, buflen: nat)
      reads this
    {
      if frc == READ_ERROR || frc == 0 then whole == Called(frc, Snap(), buf, Source())
      else Sound(Snap(), buf, buflen) && whole == Readnb(Snap(), buf, buflen, Source())
    }

    /** Case 0: the header byte. */
    method StartHeader(buf: array<Byte>, buflen: nat) returns (frc: int)
      requires Sound(Snap(), buf[..], buflen) && state != 1 && state != 2
      modifies this, buf
      ensures EndsOrGoesOn(frc, Readnb(old(Snap()), old(buf[..]), buflen, old(Source())), buf[..], buflen)
      ensures frc != READ_ERROR && frc != 0 ==> state == 1
    {
      hide FeedLength, Get;
      var chunk;
      state := 0;
      frc, chunk := GetFn(1);
      if frc == READ_ERROR || frc == 0 { return; }
      buf[0] := chunk[0];
      assert buf[..] == Put(old(buf[..]), 0, chunk);
      len := 0;
      state := 1;
    }

    /** Case 1: the remaining length, which goes back into the buffer. */
    method ReadLength(buf: array<Byte>, buflen: nat) returns (frc: int)
      requires Sound(Snap(), buf[..], buflen) && state == 1
      requires Readnb(Snap(), buf[..], buflen, Source()).Called?
      modifies this, buf
      ensures EndsOrGoesOn(frc, Readnb(old(Snap()), old(buf[..]), buflen, old(Source())), buf[..], buflen)
      ensures frc != READ_ERROR && frc != 0 ==> state == 2
    {
      hide Encode, Readnb;
      ghost var whole, before := Readnb(Snap(), buf[..], buflen, Source()), buf[..];
      frc := DecodeNb(before, buflen, whole);
      if frc == READ_ERROR {
        state := 0;
        return;
      }
      if frc == 0 { return; }
      EncodeLength(remLen);
      var k := WriteLength(buf, 1, remLen);
      assert buf[..] == Put(before, 1, Encode(remLen));
      len := 1 + k;
      if remLen + len > buflen {
        state := 0;
        return READ_ERROR;
      }
      state := 2;
    }

    /** Case 2 of the reader: the rest of the packet. */
    method FinishBody(buf: array<Byte>, buflen: nat) returns (rc: int)
      requires state == 2 && Sound(Snap(), buf[..], buflen)
      modifies this, buf
      ensures Called(rc, Snap(), buf[..], Source()) == Readnb(old(Snap()), old(buf[..]), buflen, old(Source()))
    {
      hide Encode;
      var frc, chunk := GetFn(remLen);
      if frc == READ_ERROR {
        state := 0;
        return READ_ERROR;
      }
      if frc == 0 { return 0; }
      ghost var before := buf[..];
      var q := WriteBytes(buf, len, chunk);
      assert buf[..] == Put(before, len, chunk);
      remLen := remLen - frc;
      len := len + frc;
      if remLen != 0 { return 0; }
      rc := TypeOf(buf[0]);
      state := 0;
    }
  }

  /** The reader once the remaining length is complete. */
  ghost function Stored(t: Progress, buf: seq<Byte>, buflen: nat, link: Link): Called
    requires 1 <= |buf| && buflen <= |buf| && t.remLen <= MAX_REMAINING
  {
    EncodeLength(t.remLen);
    if 1 + |Encode(t.remLen)| > |buf| then Overrun
    else
      var b := Put(buf, 1, Encode(t.remLen));
      var v := t.(len := 1 + |Encode(t.remLen)|);
      if v.remLen + v.len > buflen then Called(READ_ERROR, Reset(v), b, link)
      else Readnb(v.(state := 2), b, buflen, link)
  }

  predicate Started(t: Progress) {
    t.state == 1 && (t.len == 0 ==> t.multiplier == 1 && t.remLen == 0)
  }

  lemma StartOfLength(t: Progress, buf: seq<Byte>, buflen: nat, link: Link)
    requires Sound(t, buf, buflen) && t.state == 1 && t.len == 0
    ensures Sound(t.(multiplier := 1, remLen := 0), buf, buflen)
    ensures Readnb(t.(multiplier := 1, remLen := 0), buf, buflen, link) == Readnb(t, buf, buflen, link)
  {
  }

  lemma AdvanceCounts(t: Progress, c: Byte)
    ensures Advance(t, c).len == t.len + 1 && Advance(t, c).state == t.state
  {
  }

  /** One turn of the loop of MQTTPacket_decodenb. */
  lemma LengthTurn(t: Progress, buf: seq<Byte>, buflen: nat, link: Link)
    requires Sound(t, buf, buflen) && Started(t)
    ensures var (frc, c, behind) := Get(link, 1);
            var whole := Readnb(t, buf, buflen, link);
            && (frc == READ_ERROR ==> whole == Called(READ_ERROR, Reset(t), buf, behind))
            && (frc == 0 ==> whole == Called(0, t, buf, behind))
            && (frc != READ_ERROR && frc != 0 ==>
                  var u := Advance(t, c[0]);
                  if c[0] < 128 then u.remLen <= MAX_REMAINING && whole == Stored(u, buf, buflen, behind)
                  else if u.len >= 4 then whole == Called(READ_ERROR, Reset(u), buf, behind)
                  else Sound(u, buf, buflen) && whole == Readnb(u, buf, buflen, behind))
  {
    hide Encode, Get;
    var (frc, c, behind) := Get(link, 1);
    if frc != READ_ERROR && frc != 0 {
      LengthBound(t.len, t.multiplier, t.remLen, c[0]);
    }
  }
}
