/** An encrypted frame is cipher feedback mode (section 6.3 of NIST SP 800-38A), with a code of its last vector. */
module CipherFeedback {
  import opened Security

  // ----- words -----

  /** Four bytes as a word, the low byte first. */
  function Word32(b: Text): bv32
    requires |b| == 4
  {
    Pack(b[0], b[1], b[2], b[3])
  }

  function Pack(a: bv8, b: bv8, c: bv8, d: bv8): bv32 {
    (a as bv32) | ((b as bv32) << 8) | ((c as bv32) << 16) | ((d as bv32) << 24)
  }

  function Word16(b: (bv8, bv8)): bv32 {
    (b.0 as bv32) | ((b.1 as bv32) << 8)
  }

  /** Bytes are combined by exclusive or. */
  lemma MixIsXor(a: bv8, b: bv8)
    ensures Mix(a, b) == (a | b) & !(a & b)
  {}

  /** The vector starts as the four words of nwkSecurityStart. */
  lemma VectorWords(h: Header)
    ensures var v := InitialVector(h);
            && Word32(v[0..4]) == h.seqNo as bv32
            && Word32(v[4..8]) == (Word16(h.dst) << 16) | (h.dstEndpoint as bv32)
            && Word32(v[8..12]) == (Word16(h.src) << 16) | (h.srcEndpoint as bv32)
            && Word32(v[12..16]) == (Word16(h.panId) << 16) | (h.fcf as bv32)
  {
    var v := InitialVector(h);
    assert v[0..4] == [h.seqNo, 0, 0, 0];
    assert v[4..8] == [h.dstEndpoint, 0, h.dst.0, h.dst.1];
    assert v[8..12] == [h.srcEndpoint, 0, h.src.0, h.src.1];
    assert v[12..16] == [h.fcf, 0, h.panId.0, h.panId.1];
    hide InitialVector;
    LowWord(h.seqNo);
    HighWord(h.dstEndpoint, h.dst);
    HighWord(h.srcEndpoint, h.src);
    HighWord(h.fcf, h.panId);
  }

  lemma LowWord(a: bv8)
    ensures Word32([a, 0, 0, 0]) == a as bv32
  {}

  lemma HighWord(a: bv8, b: (bv8, bv8))
    ensures Word32([a, 0, b.0, b.1]) == (Word16(b) << 16) | (a as bv32)
  {}

  /** The code is the sum of the four words. */
  lemma MicIsSum(v: Text)
    requires |v| == 16
    ensures Word32(Mic(v)) == Word32(v[0..4]) ^ Word32(v[4..8]) ^ Word32(v[8..12]) ^ Word32(v[12..16])
  {
    hide Mic, Pack;
    var a, b, c, d := v[0..4], v[4..8], v[8..12], v[12..16];
    var ab := Xor(a, b);
    var abc := Xor(ab, c);
    SumOfTwo(a, b);
    SumOfTwo(ab, c);
    SumOfTwo(abc, d);
    hide Mix;
    assert Mic(v) == Xor(abc, d) by { MicByWords(v); }
  }

  lemma MicByWords(v: Text)
    requires |v| == 16
    ensures Mic(v) == Xor(Xor(Xor(v[0..4], v[4..8]), v[8..12]), v[12..16])
  {
    hide Mix;
  }

  lemma SumOfTwo(a: Text, b: Text)
    requires |a| == |b| == 4
    ensures Word32(Xor(a, b)) == Word32(a) ^ Word32(b)
  {
    hide Pack, Mix;
    PacksSum(a[0], a[1], a[2], a[3], b[0], b[1], b[2], b[3]);
  }

  lemma PacksSum(a: bv8, b: bv8, c: bv8, d: bv8, w: bv8, x: bv8, y: bv8, z: bv8)
    ensures Pack(Mix(a, w), Mix(b, x), Mix(c, y), Mix(d, z)) == Pack(a, b, c, d) ^ Pack(w, x, y, z)
  {}

  // ----- the blocks -----

  /** What the block function gets for segment `k`: the start, or the encrypted segment before. */
  function Input(iv: Text, c: Text, k: nat): (r: Text)
    requires |iv| == 16 && 16 * k <= |c|
    ensures |r| == 16
  {
    if k == 0 then iv else c[16 * (k - 1)..16 * k]
  }

  /** `c` is `p` encrypted. */
  ghost predicate Feedback(E: Text -> Text, iv: Text, p: Text, c: Text)
    requires |iv| == 16 && Blocks(E)
  {
    && |p| == |c|
    && forall i {:trigger c[i]} | 0 <= i < |p| :: c[i] == Mix(p[i], E(Input(iv, c, i / 16))[i % 16])
  }

  /** The last segment, of 0 bytes if there is no text. */
  function LastSegment(n: nat): nat {
    if n == 0 then 0 else (n - 1) / 16
  }

  /** The vector that is left: the last encrypted segment and behind it what the block function gave. */
  function LastVector(E: Text -> Text, iv: Text, c: Text): Text
    requires |iv| == 16 && Blocks(E)
  {
    var k := LastSegment(|c|);
    c[16 * k..] + E(Input(iv, c, k))[|c| - 16 * k..]
  }

  lemma FirstSegment(E: Text -> Text, iv: Text, p: Text, c: Text)
    requires |iv| == 16 && Blocks(E) && |p| == |c| <= 16 && c == Xor(p, E(iv)[..|p|])
    ensures Feedback(E, iv, p, c) && LastVector(E, iv, c) == c + E(iv)[|c|..]
  {
    hide Mix;
    assert forall i | 0 <= i < |p| :: i / 16 == 0 && i % 16 == i;
  }

  /** A segment in front of encrypted text. */
  lemma AnotherSegment(E: Text -> Text, iv: Text, p: Text, c: Text, p': Text, c': Text)
    requires |iv| == 16 && Blocks(E) && |p| == |c| == 16 && c == Xor(p, E(iv)) && c' != []
    requires Feedback(E, c, p', c')
    ensures Feedback(E, iv, p + p', c + c') && LastVector(E, iv, c + c') == LastVector(E, c, c')
  {
    hide Mix, Input, LastVector;
    var all := c + c';
    forall i {:trigger all[i]} | 0 <= i < |all| ensures all[i] == Mix((p + p')[i], E(Input(iv, all, i / 16))[i % 16]) {
      if i < 16 {
        assert Input(iv, all, 0) == iv by { FirstInput(iv, all); }
        assert i / 16 == 0 && i % 16 == i;
        assert c[i] == Mix(p[i], E(iv)[i]);
      } else {
        Behind(E, iv, p, c, p', c', i - 16);
      }
    }
    LastBehind(E, iv, c, c');
  }

  lemma FirstInput(iv: Text, c: Text)
    requires |iv| == 16
    ensures Input(iv, c, 0) == iv
  {}

  lemma LastBehind(E: Text -> Text, iv: Text, c: Text, c': Text)
    requires |iv| == |c| == 16 && Blocks(E) && c' != []
    ensures LastVector(E, iv, c + c') == LastVector(E, c, c')
  {
    var k := LastSegment(|c'|);
    assert LastSegment(|c + c'|) == k + 1;
    InputShifts(iv, c, c', k);
    hide Input;
    assert (c + c')[16 * (k + 1)..] == c'[16 * k..];
  }

  lemma Behind(E: Text -> Text, iv: Text, p: Text, c: Text, p': Text, c': Text, j: nat)
    requires |iv| == 16 && Blocks(E) && |p| == |c| == 16 && j < |c'|
    requires Feedback(E, c, p', c')
    ensures (c + c')[j + 16] == Mix((p + p')[j + 16], E(Input(iv, c + c', (j + 16) / 16))[(j + 16) % 16])
  {
    hide Input, Mix;
    NextSegment(j);
    var k, r := j / 16, j % 16;
    assert 16 * k <= |c'|;
    assert c'[j] == Mix(p'[j], E(Input(c, c', k))[r]);
    hide Feedback;
    InputShifts(iv, c, c', k);
    assert (c + c')[j + 16] == c'[j] && (p + p')[j + 16] == p'[j];
  }

  lemma NextSegment(j: nat)
    ensures (j + 16) / 16 == j / 16 + 1 && (j + 16) % 16 == j % 16
  {}

  lemma InputShifts(iv: Text, c: Text, c': Text, k: nat)
    requires |iv| == |c| == 16 && 16 * k <= |c'|
    ensures Input(iv, c + c', k + 1) == Input(c, c', k)
  {
    if k > 0 { assert (c + c')[16 * k..16 * (k + 1)] == c'[16 * (k - 1)..16 * k]; }
  }

  /** Encryption is cipher feedback, and the vector behind it is the last segment. */
  lemma {:induction false} EncryptsByFeedback(E: Text -> Text, iv: Text, text: Text)
    requires |iv| == 16 && Blocks(E)
    ensures var (c, last) := Crypt(E, iv, text, true);
            Feedback(E, iv, text, c) && last == LastVector(E, iv, c)
    decreases |text|
  {
    hide Feedback, LastVector, Mix;
    if |text| <= 16 {
      OneSegment(E, iv, text);
    } else {
      var p, p' := text[..16], text[16..];
      var c := Xor(p, E(iv));
      CryptFirst(E, iv, text, true);
      assert E(iv)[..16] == E(iv) && E(iv)[16..] == [] && Chain(E(iv), p, c, true) == c;
      EncryptsByFeedback(E, c, p');
      AnotherSegment(E, iv, p, c, p', Crypt(E, c, p', true).0);
      assert p + p' == text;
    }
  }

  lemma OneSegment(E: Text -> Text, iv: Text, text: Text)
    requires |iv| == 16 && Blocks(E) && |text| <= 16
    ensures var (c, last) := Crypt(E, iv, text, true);
            Feedback(E, iv, text, c) && last == LastVector(E, iv, c)
  {
    hide Mix;
    assert text[..|text|] == text;
    var c := Crypt(E, iv, text, true).0;
    FirstSegment(E, iv, text, c);
  }

  /** A text is the decryption of exactly one encrypted text: what decryption yields, encrypts to it. */
  lemma {:induction false} DecryptsByFeedback(E: Text -> Text, iv: Text, c: Text)
    requires |iv| == 16 && Blocks(E)
    ensures var (p, last) := Crypt(E, iv, c, false);
            Feedback(E, iv, p, c) && last == LastVector(E, iv, c)
    decreases |c|
  {
    EncryptDecrypted(E, iv, c);
    EncryptsByFeedback(E, iv, Crypt(E, iv, c, false).0);
  }

  lemma {:induction false} EncryptDecrypted(E: Text -> Text, iv: Text, c: Text)
    requires |iv| == 16 && Blocks(E)
    ensures var (p, last) := Crypt(E, iv, c, false); Crypt(E, iv, p, true) == (c, last)
    decreases |c|
  {
    hide Mix;
    var k, w := Min(|c|, 16), E(iv);
    var p0 := Xor(c[..k], w[..k]);
    XorTwice(c[..k], w[..k]);
    SameChain(w, p0);
    var (p, last) := Crypt(E, iv, c, false);
    assert p[..k] == p0;
    if |c| > k {
      var next := Chain(w, c[..k], p0, false);
      EncryptDecrypted(E, next, c[k..]);
      assert p[k..] == Crypt(E, next, c[k..], false).0;
      assert c[..k] + c[k..] == c;
    } else {
      assert c[..k] == c;
    }
  }

  // ----- whole frames -----

  /** An encrypted frame: the payload in cipher feedback mode from the words of the header, then the code. */
  lemma EncryptedFrame(E: Text -> Text, h: Header, payload: Text, size: nat)
    requires Blocks(E) && size + 4 <= |payload|
    ensures var sent := Run(E, Begin(Job0(EncryptPending, payload, size), h));
            && sent.phase == Done(true) && sent.size == size + 4 && |sent.payload| == |payload|
            && Feedback(E, InitialVector(h), payload[..size], sent.payload[..size])
            && sent.payload[size..size + 4] == Mic(LastVector(E, InitialVector(h), sent.payload[..size]))
            && sent.payload[size + 4..] == payload[size + 4..]
  {
    hide Run, Mic, Crypt, InitialVector, Mix, Feedback, LastVector;
    var iv, text := InitialVector(h), payload[..size];
    var j := Begin(Job0(EncryptPending, payload, size), h);
    RunCrypts(E, j);
    assert payload[0..size] == text && payload[..0] == [];
    var (c, last) := Crypt(E, iv, text, true);
    EncryptsByFeedback(E, iv, text);
    var sent := Run(E, j);
    assert sent.payload == c + Mic(last) + payload[size + 4..];
    assert sent.payload[..size] == c;
  }

  /** Any frame that is decrypted: the text that encrypts to its payload, and success exactly if its last
      four bytes are the code. The size is that of the text either way, and the code stays behind it. */
  lemma DecryptedFrame(E: Text -> Text, h: Header, payload: Text, size: nat)
    requires Blocks(E) && 4 <= size <= |payload|
    ensures var got := Run(E, Begin(Job0(DecryptPending, payload, size), h));
            var n := size - 4;
            && got.size == n && |got.payload| == |payload|
            && Feedback(E, InitialVector(h), got.payload[..n], payload[..n])
            && got.payload[n..] == payload[n..]
            && (got.phase == Done(true) <==> payload[n..size] == Mic(LastVector(E, InitialVector(h), payload[..n])))
  {
    hide Run, Mic, Crypt, InitialVector, Mix, Feedback, LastVector;
    var iv, n := InitialVector(h), size - 4;
    var c := payload[..n];
    var j := Begin(Job0(DecryptPending, payload, size), h);
    RunCrypts(E, j);
    assert payload[0..n] == c && payload[..0] == [];
    var (p, last) := Crypt(E, iv, c, false);
    DecryptsByFeedback(E, iv, c);
    var got := Run(E, j);
    assert got.payload == p + payload[n..];
    assert got.payload[..n] == p && got.payload[n..n + 4] == payload[n..size];
  }
}
