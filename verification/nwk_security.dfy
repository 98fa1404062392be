/** Frame encryption: the payload is combined block by block with a chaining vector that an
    arbitrary block function scrambles, and an integrity code is folded from the vector. */
module Security {
  const BLOCK_SIZE := 16
  const MIC_SIZE := 4

  type Text = seq<bv8>

  /** Addition of bytes without carry. */
  function Mix(a: bv8, b: bv8): bv8 {
    a ^ b
  }

  lemma MixTwice(a: bv8, b: bv8)
    ensures Mix(Mix(a, b), b) == a && Mix(a, b) == Mix(b, a)
  {
  }

  /** The fields of the header that enter the vector, each as its bytes in memory. */
  datatype Header = Header(seqNo: bv8, dst: (bv8, bv8), dstEndpoint: bv8, src: (bv8, bv8), srcEndpoint: bv8,
                           panId: (bv8, bv8), fcf: bv8)

  /** The start of the chain: four 32-bit words, the low byte first. */
  function InitialVector(h: Header): (v: Text)
    ensures |v| == BLOCK_SIZE
  {
    [h.seqNo, 0, 0, 0]
    + [h.dstEndpoint, 0, h.dst.0, h.dst.1]
    + [h.srcEndpoint, 0, h.src.0, h.src.1]
    + [h.fcf, 0, h.panId.0, h.panId.1]
  }

  datatype Phase = EncryptPending | DecryptPending | Process | Wait | Confirm | Done(ok: bool)

  /** The frame that is worked on. `size` is the size of its payload, which lies at the beginning of
      the payload memory; the rest are the module's variables. */
  datatype Job = Job(phase: Phase, payload: Text, size: nat, left: nat, offset: nat, encrypt: bool, vector: Text)

  ghost predicate Blocks(E: Text -> Text) {
    forall v: Text | |v| == BLOCK_SIZE :: |E(v)| == BLOCK_SIZE
  }

  predicate Sound(j: Job) {
    && |j.vector| == BLOCK_SIZE && j.size <= |j.payload|
    && match j.phase
       case EncryptPending => j.size + MIC_SIZE <= |j.payload|
       case DecryptPending => MIC_SIZE <= j.size
       case Done(_) => true
       case _ => j.offset + j.left == j.size && j.size + MIC_SIZE <= |j.payload| && (j.phase == Confirm ==> j.left == 0)
  }

  /** nwkSecurityStart */
  function Begin(j: Job, h: Header): (r: Job)
    requires Sound(j) && (j.phase == EncryptPending || j.phase == DecryptPending)
    ensures Sound(r) && r.phase == Process
  {
    var size := if j.phase == DecryptPending then j.size - MIC_SIZE else j.size;
    Job(Process, j.payload, size, size, 0, j.phase == EncryptPending, InitialVector(h))
  }

  function Min(a: nat, b: nat): nat {
    if a < b then a else b
  }

  function Xor(a: Text, b: Text): (r: Text)
    requires |a| == |b|
    ensures |r| == |a| && forall i | 0 <= i < |a| :: r[i] == Mix(a[i], b[i])
  {
    seq(|a|, i requires 0 <= i < |a| => Mix(a[i], b[i]))
  }

  /** The vector behind a block: both ways, its beginning becomes the encrypted text. */
  function Chain(w: Text, text: Text, out: Text, encrypt: bool): (v: Text)
    requires |text| == |out| <= |w|
    ensures |v| == |w|
  {
    (if encrypt then out else Xor(w[..|text|], out)) + w[|text|..]
  }

  /** SYS_EncryptConf, when the block function has been applied to the vector. */
  function Confirmed(j: Job, w: Text): (r: Job)
    requires Sound(j) && j.phase == Wait && |w| == BLOCK_SIZE
    ensures Sound(r) && (r.phase == Process || r.phase == Confirm)
    ensures r.phase == Process ==> r.left < j.left
    ensures r.left <= j.left
  {
    var k := Min(j.left, BLOCK_SIZE);
    var text := j.payload[j.offset..j.offset + k];
    var out := Xor(text, w[..k]);
    j.(payload := j.payload[..j.offset] + out + j.payload[j.offset + k..],
       vector := Chain(w, text, out, j.encrypt),
       offset := j.offset + k, left := j.left - k,
       phase := if j.left - k > 0 then Process else Confirm)
  }

  /** The integrity code of a vector. */
  function Mic(v: Text): (m: Text)
    requires |v| == BLOCK_SIZE
    ensures |m| == MIC_SIZE
  {
    seq(MIC_SIZE, i requires 0 <= i < MIC_SIZE => Mix(Mix(Mix(v[i], v[4 + i]), v[8 + i]), v[12 + i]))
  }

  /** nwkSecurityProcessMic: an encrypted frame gets its code, a decrypted one is checked. */
  function Finished(j: Job): (r: Job)
    requires Sound(j) && j.phase == Confirm
    ensures Sound(r) && r.phase.Done?
  {
    if j.encrypt then
      j.(payload := j.payload[..j.offset] + Mic(j.vector) + j.payload[j.offset + MIC_SIZE..],
         size := j.size + MIC_SIZE, phase := Done(true))
    else j.(phase := Done(j.payload[j.offset..j.offset + MIC_SIZE] == Mic(j.vector)))
  }

  function Rank(j: Job): nat {
    match j.phase case Process => 2 case Wait => 1 case _ => 0
  }

  /** nwkSecurityTaskHandler and the block function take turns until the frame is done. Every block makes
      the rest shorter, so this ends. */
  function Run(E: Text -> Text, j: Job): (r: Job)
    requires Sound(j) && (j.phase == Process || j.phase == Wait || j.phase == Confirm) && Blocks(E)
    ensures Sound(r) && r.phase.Done?
    decreases j.left, Rank(j)
  {
    if j.phase == Process then Run(E, j.(phase := Wait))
    else if j.phase == Wait then Run(E, Confirmed(j, E(j.vector)))
    else Finished(j)
  }

  // ----- the meaning -----

  /** The text and the vector behind it: at least one block, the last one possibly partial. */
  function Crypt(E: Text -> Text, v: Text, text: Text, encrypt: bool): (r: (Text, Text))
    requires |v| == BLOCK_SIZE && Blocks(E)
    ensures |r.0| == |text| && |r.1| == BLOCK_SIZE
    decreases |text|
  {
    var k, w := Min(|text|, BLOCK_SIZE), E(v);
    var out := Xor(text[..k], w[..k]);
    var next := Chain(w, text[..k], out, encrypt);
    if |text| > k then
      var (rest, last) := Crypt(E, next, text[k..], encrypt);
      (out + rest, last)
    else (out, next)
  }

  lemma XorTwice(a: Text, w: Text)
    requires |a| == |w|
    ensures Xor(Xor(a, w), w) == a && Xor(w, Xor(Xor(a, w), w)) == Xor(a, w)
  {
    hide Mix;
    forall i | 0 <= i < |a|
      ensures Mix(Mix(a[i], w[i]), w[i]) == a[i] && Mix(w[i], a[i]) == Mix(a[i], w[i])
    {
      MixTwice(a[i], w[i]);
    }
  }

  /** Both sides carry the encrypted text as the chain. */
  lemma SameChain(w: Text, text: Text)
    requires |text| <= |w| == BLOCK_SIZE
    ensures var out := Xor(text, w[..|text|]);
            Xor(out, w[..|text|]) == text && Chain(w, out, text, false) == Chain(w, text, out, true)
  {
    XorTwice(text, w[..|text|]);
  }

  /** Decryption inverts encryption and ends with the same vector, for every block function, vector
      and text. */
  lemma {:induction false} CryptInverse(E: Text -> Text, v: Text, text: Text)
    requires |v| == BLOCK_SIZE && Blocks(E)
    ensures var (c, last) := Crypt(E, v, text, true); Crypt(E, v, c, false) == (text, last)
    decreases |text|
  {
    var k, w := Min(|text|, BLOCK_SIZE), E(v);
    var out := Xor(text[..k], w[..k]);
    var (c, last) := Crypt(E, v, text, true);
    SameChain(w, text[..k]);
    assert c[..k] == out;
    if |text| > k {
      var next := Chain(w, text[..k], out, true);
      CryptInverse(E, next, text[k..]);
      assert c[k..] == Crypt(E, next, text[k..], true).0;
      assert text[..k] + text[k..] == text;
    } else {
      assert text[..k] == text;
    }
  }

  /** One turn of the machine: a block. */
  lemma RunTurn(E: Text -> Text, j: Job)
    requires Sound(j) && Blocks(E)
    ensures j.phase == Process ==> Run(E, j) == Run(E, Confirmed(j.(phase := Wait), E(j.vector)))
    ensures j.phase == Confirm ==> Run(E, j) == Finished(j)
  {
    hide Confirmed, Finished, Mix;
  }

  /** The job behind its last block. */
  function Crypted(E: Text -> Text, j: Job): (r: Job)
    requires Sound(j) && j.phase == Process && Blocks(E)
    ensures Sound(r) && r.phase == Confirm
  {
    var (out, last) := Crypt(E, j.vector, j.payload[j.offset..j.size], j.encrypt);
    j.(payload := j.payload[..j.offset] + out + j.payload[j.size..],
       vector := last, offset := j.size, left := 0, phase := Confirm)
  }

  lemma LastBlock(E: Text -> Text, j: Job)
    requires Sound(j) && j.phase == Process && Blocks(E) && j.left <= BLOCK_SIZE
    ensures Confirmed(j.(phase := Wait), E(j.vector)) == Crypted(E, j)
  {
    hide Xor, Chain, Mix;
    var text := j.payload[j.offset..j.size];
    assert text[..j.left] == text == j.payload[j.offset..j.offset + j.left];
  }

  lemma CryptFirst(E: Text -> Text, v: Text, text: Text, encrypt: bool)
    requires |v| == BLOCK_SIZE && Blocks(E) && |text| > BLOCK_SIZE
    ensures var out := Xor(text[..BLOCK_SIZE], E(v)[..BLOCK_SIZE]);
            var r := Crypt(E, Chain(E(v), text[..BLOCK_SIZE], out, encrypt), text[BLOCK_SIZE..], encrypt);
            Crypt(E, v, text, encrypt) == (out + r.0, r.1)
  {
    hide Xor, Chain, Mix;
  }

  /** Memory with one block replaced. */
  lemma Replaced(p: Text, o: nat, out: Text, size: nat)
    requires o + |out| <= size <= |p|
    ensures var q := p[..o] + out + p[o + |out|..];
            && |q| == |p| && q[..o + |out|] == p[..o] + out
            && q[o + |out|..size] == p[o + |out|..size] && q[size..] == p[size..]
  {
  }

  lemma OtherBlock(E: Text -> Text, j: Job)
    requires Sound(j) && j.phase == Process && Blocks(E) && j.left > BLOCK_SIZE
    ensures var n := Confirmed(j.(phase := Wait), E(j.vector)); n.phase == Process && Crypted(E, n) == Crypted(E, j)
  {
    hide Xor, Chain, Mix, Crypt;
    var text := j.payload[j.offset..j.size];
    var first, others := text[..BLOCK_SIZE], text[BLOCK_SIZE..];
    assert first == j.payload[j.offset..j.offset + BLOCK_SIZE];
    assert others == j.payload[j.offset + BLOCK_SIZE..j.size];
    CryptFirst(E, j.vector, text, j.encrypt);
    var n := Confirmed(j.(phase := Wait), E(j.vector));
    var head, out := j.payload[..j.offset], Xor(first, E(j.vector)[..BLOCK_SIZE]);
    Replaced(j.payload, j.offset, out, j.size);
    assert n.payload[n.offset..n.size] == others;
    var rest := Crypt(E, n.vector, others, j.encrypt).0;
    assert head + out + rest == head + (out + rest);
  }

  /** The machine computes this on the payload it was given. */
  lemma {:induction false} RunCrypts(E: Text -> Text, j: Job)
    requires Sound(j) && j.phase == Process && Blocks(E)
    ensures Run(E, j) == Finished(Crypted(E, j))
    decreases j.left
  {
    hide Run, Finished, Confirmed, Crypted, Mix;
    var n := Confirmed(j.(phase := Wait), E(j.vector));
    RunTurn(E, j);
    if j.left > BLOCK_SIZE {
      OtherBlock(E, j);
      RunCrypts(E, n);
    } else {
      LastBlock(E, j);
      RunTurn(E, n);
    }
  }

  function Job0(phase: Phase, payload: Text, size: nat): Job {
    Job(phase, payload, size, 0, 0, false, seq(BLOCK_SIZE, _ => 0))
  }

  /** A frame that was encrypted and is decrypted under the same header has its payload and its size
      back and passes the integrity check. */
  lemma EncryptDecrypt(E: Text -> Text, h: Header, payload: Text, size: nat)
    requires Blocks(E) && size + MIC_SIZE <= |payload|
    ensures var sent := Run(E, Begin(Job0(EncryptPending, payload, size), h));
            && sent.phase == Done(true) && sent.size == size + MIC_SIZE && |sent.payload| == |payload|
            && sent.payload[sent.size..] == payload[sent.size..]
            && var got := Run(E, Begin(Job0(DecryptPending, sent.payload, sent.size), h));
               got.phase == Done(true) && got.size == size && got.payload[..size] == payload[..size]
  {
    hide Run, Mic, Crypt, InitialVector, Mix;
    var v, text := InitialVector(h), payload[..size];
    var j := Begin(Job0(EncryptPending, payload, size), h);
    var (c, last) := Crypt(E, v, text, true);
    RunCrypts(E, j);
    assert payload[0..size] == text && payload[..0] == [];
    var sent := Run(E, j);
    assert sent.payload == c + Mic(last) + payload[size + MIC_SIZE..];
    CryptInverse(E, v, text);
    var d := Begin(Job0(DecryptPending, sent.payload, sent.size), h);
    RunCrypts(E, d);
    assert sent.payload[0..size] == c && sent.payload[..0] == [];
    assert sent.payload[size..][..MIC_SIZE] == Mic(last);
    var got := Run(E, d);
    assert got.payload == text + sent.payload[size..];
  }

  /** The first `n` bytes of the block, encrypted or decrypted. */
  function Out(j: Job, w: Text, n: nat): (r: Text)
    requires n <= |w| && j.offset + n <= |j.payload|
    ensures |r| == n
  {
    Xor(j.payload[j.offset..j.offset + n], w[..n])
  }

  /** The memory when the loop over a block is through with `n` bytes. */
  predicate TextDone(j: Job, w: Text, payload: Text, n: nat)
    requires n <= |w| && j.offset + n <= |j.payload|
  {
    payload == j.payload[..j.offset] + Out(j, w, n) + j.payload[j.offset + n..]
  }

  predicate VectorDone(j: Job, w: Text, vector: Text, n: nat)
    requires n <= |w| && j.offset + n <= |j.payload|
  {
    vector == Chain(w, j.payload[j.offset..j.offset + n], Out(j, w, n), j.encrypt)
  }

  lemma NoByte(j: Job)
    requires Sound(j)
    ensures j.offset <= |j.payload| ==> TextDone(j, j.vector, j.payload, 0) && VectorDone(j, j.vector, j.vector, 0)
  {
  }

  lemma XorNext(a: Text, b: Text, x: bv8, y: bv8)
    requires |a| == |b|
    ensures Xor(a + [x], b + [y]) == Xor(a, b) + [Mix(x, y)]
  {
    hide Mix;
  }

  lemma OutNext(j: Job, w: Text, n: nat)
    requires n < |w| && j.offset + n < |j.payload|
    ensures Out(j, w, n + 1) == Out(j, w, n) + [Mix(j.payload[j.offset + n], w[n])]
  {
    hide Xor, Mix;
    assert w[..n + 1] == w[..n] + [w[n]];
    assert j.payload[j.offset..j.offset + n + 1] == j.payload[j.offset..j.offset + n] + [j.payload[j.offset + n]];
    XorNext(j.payload[j.offset..j.offset + n], w[..n], j.payload[j.offset + n], w[n]);
  }

  /** Writing to the first place behind `done`. */
  lemma WriteNext(done: Text, rest: Text, c: bv8)
    requires rest != []
    ensures (done + rest)[|done|] == rest[0]
    ensures (done + rest)[|done| := c] == done + [c] + rest[1..]
  {}

  lemma NextTextByte(j: Job, w: Text, p: Text, i: nat)
    requires i < |w| && j.offset + i < |j.payload| && TextDone(j, w, p, i)
    ensures j.offset + i < |p| && p[j.offset + i] == j.payload[j.offset + i]
    ensures TextDone(j, w, p[j.offset + i := Mix(j.payload[j.offset + i], w[i])], i + 1)
  {
    hide Out, Mix;
    OutNext(j, w, i);
    TailOf(j.payload, j.offset + i);
    WriteBehind(j.payload[..j.offset], Out(j, w, i), j.payload[j.offset + i..], Mix(j.payload[j.offset + i], w[i]));
  }

  lemma TailOf(t: Text, i: nat)
    requires i < |t|
    ensures t[i..] != [] && t[i..][0] == t[i] && t[i..][1..] == t[i + 1..]
  {}

  lemma WriteBehind(head: Text, done: Text, rest: Text, c: bv8)
    requires rest != []
    ensures (head + done + rest)[|head| + |done|] == rest[0]
    ensures (head + done + rest)[|head| + |done| := c] == head + (done + [c]) + rest[1..]
  {
    WriteNext(head + done, rest, c);
    assert head + done + [c] == head + (done + [c]);
  }

  lemma NextVectorByte(j: Job, w: Text, v: Text, i: nat)
    requires i < |w| && j.offset + i < |j.payload| && VectorDone(j, w, v, i)
    ensures i < |v| && v[i] == w[i]
    ensures var c := Mix(j.payload[j.offset + i], w[i]);
            VectorDone(j, w, v[i := if j.encrypt then c else Mix(w[i], c)], i + 1)
  {
    hide Out, Mix, Xor;
    OutNext(j, w, i);
    var c := Mix(j.payload[j.offset + i], w[i]);
    TailOf(w, i);
    if j.encrypt {
      WriteNext(Out(j, w, i), w[i..], c);
    } else {
      XorNext(w[..i], Out(j, w, i), w[i], c);
      assert w[..i + 1] == w[..i] + [w[i]];
      WriteNext(Xor(w[..i], Out(j, w, i)), w[i..], Mix(w[i], c));
    }
  }

  /** One turn of the loop. */
  lemma NextByte(j: Job, w: Text, p: Text, v: Text, i: nat)
    requires i < |w| && j.offset + i < |j.payload| && |w| == |v| && |p| == |j.payload|
    requires TextDone(j, w, p, i) && VectorDone(j, w, v, i)
    ensures var c := Mix(p[j.offset + i], v[i]);
            && TextDone(j, w, p[j.offset + i := c], i + 1)
            && VectorDone(j, w, v[i := if j.encrypt then c else Mix(v[i], c)], i + 1)
  {
    hide TextDone, VectorDone, Mix;
    NextTextByte(j, w, p, i);
    NextVectorByte(j, w, v, i);
  }

  lemma Spliced(before: Text, at: nat, mid: Text, after: Text)
    requires at + |mid| <= |before| == |after|
    requires forall k | 0 <= k < |after| :: after[k] == if at <= k < at + |mid| then mid[k - at] else before[k]
    ensures after == before[..at] + mid + before[at + |mid|..]
  {}

  /** What the whole loop leaves is what the block function says. */
  lemma BlockIs(j: Job, w: Text, payload: Text, vector: Text)
    requires Sound(j) && j.phase == Wait && |w| == BLOCK_SIZE
    requires TextDone(j, w, payload, Min(j.left, BLOCK_SIZE)) && VectorDone(j, w, vector, Min(j.left, BLOCK_SIZE))
    ensures payload == Confirmed(j, w).payload && vector == Confirmed(j, w).vector
  {
    hide Xor, Chain, Mix;
  }

  lemma VectorIsReplaced(j: Job, w: Text)
    requires Sound(j) && j.phase == Wait && |w| == BLOCK_SIZE
    ensures Confirmed(j.(vector := w), w) == Confirmed(j, w)
  {
    hide Xor, Chain, Mix;
  }

  // ----- the module's variables -----

  /** The active frame and the static variables beside it. */
  class Module {
    const payload: array<bv8>
    const vector: array<bv8>
    var phase: Phase
    var size: nat
    var left: nat
    var offset: nat
    var encrypt: bool

    ghost function Snap(): Job
      reads this, payload, vector
    {
      Job(phase, payload[..], size, left, offset, encrypt, vector[..])
    }

    ghost predicate Valid()
      reads this, payload, vector
    {
      payload != vector && Sound(Snap())
    }

    constructor (text: array<bv8>, size: nat, phase: Phase)
      requires || (phase == EncryptPending && size + MIC_SIZE <= text.Length)
               || (phase == DecryptPending && MIC_SIZE <= size <= text.Length)
      ensures Valid() && payload == text && Snap() == Job0(phase, text[..], size) && fresh(vector)
    {
      payload := text;
      vector := new bv8[BLOCK_SIZE](_ => 0);
      this.phase, this.size := phase, size;
      left, offset, encrypt := 0, 0, false;
      new;
      assert vector[..] == seq(BLOCK_SIZE, _ => 0);
    }

    /** nwkSecurityStart */
    method Start(h: Header)
      requires Valid() && (phase == EncryptPending || phase == DecryptPending)
      modifies this, vector
      ensures Valid() && Snap() == Begin(old(Snap()), h)
    {
      var v := InitialVector(h);
      forall i | 0 <= i < BLOCK_SIZE { vector[i] := v[i]; }
      assert vector[..] == v;
      if phase == DecryptPending {
        size := size - MIC_SIZE;
      }
      left := size;
      offset := 0;
      encrypt := phase == EncryptPending;
      phase := Process;
    }

    /** The loop of SYS_EncryptConf over the bytes of a block. */
    method XorBlock(block: nat)
      requires Valid() && block <= BLOCK_SIZE && offset + block <= payload.Length
      modifies payload, vector
      ensures TextDone(old(Snap()), old(vector[..]), payload[..], block)
      ensures VectorDone(old(Snap()), old(vector[..]), vector[..], block)
    {
      hide TextDone, VectorDone, Mix;
      ghost var w, j := vector[..], Snap();
      NoByte(j);
      var i := 0;
      while i < block
        invariant 0 <= i <= block
        invariant TextDone(j, w, payload[..], i) && VectorDone(j, w, vector[..], i)
      {
        ghost var p, v := payload[..], vector[..];
        NextByte(j, w, p, v, i);
        payload[offset + i] := Mix(payload[offset + i], vector[i]);
        if encrypt {
          vector[i] := payload[offset + i];
        } else {
          vector[i] := Mix(vector[i], payload[offset + i]);
        }
        assert payload[..] == p[offset + i := payload[offset + i]];
        assert vector[..] == v[i := vector[i]];
        i := i + 1;
      }
    }

    /** SYS_EncryptConf: `vector` holds the output of the block function. */
    method EncryptConf()
      requires Valid() && phase == Wait
      modifies this, payload, vector
      ensures Valid() && Snap() == Confirmed(old(Snap()), old(vector[..]))
    {
      hide Xor, Chain, TextDone, VectorDone, Mix;
      ghost var j := Snap();
      var block := if left < BLOCK_SIZE then left else BLOCK_SIZE;
      XorBlock(block);
      BlockIs(j, j.vector, payload[..], vector[..]);
      offset := offset + block;
      left := left - block;
      phase := if left > 0 then Process else Confirm;
    }

    /** The memcpy of the code to its place. */
    method CopyMic(vmic: Text)
      requires |vmic| == MIC_SIZE && offset + MIC_SIZE <= payload.Length
      modifies payload
      ensures payload[..] == old(payload[..offset]) + vmic + old(payload[offset + MIC_SIZE..])
    {
      ghost var before := payload[..];
      payload[offset], payload[offset + 1] := vmic[0], vmic[1];
      payload[offset + 2], payload[offset + 3] := vmic[2], vmic[3];
      Spliced(before, offset, vmic, payload[..]);
      assert before[..offset] == old(payload[..offset]);
      assert before[offset + MIC_SIZE..] == old(payload[offset + MIC_SIZE..]);
    }

    /** nwkSecurityProcessMic */
    method ProcessMic() returns (ok: bool)
      requires Valid() && phase == Confirm
      modifies this, payload
      ensures Valid() && Snap() == Finished(old(Snap())) && phase == Done(ok)
    {
      hide Mix, Mic;
      var vmic := Mic(vector[..]);
      if encrypt {
        CopyMic(vmic);
        size := size + MIC_SIZE;
        ok := true;
      } else {
        var tmic := payload[offset..offset + MIC_SIZE];
        ok := tmic == vmic;
      }
      phase := Done(ok);
    }

    /** SYS_EncryptReq: the hardware replaces the vector. */
    method EncryptReq(E: Text -> Text)
      requires Valid() && phase == Wait && Blocks(E)
      modifies vector
      ensures Valid() && Snap() == old(Snap()).(vector := E(old(vector[..])))
    {
      var w := E(vector[..]);
      forall i | 0 <= i < BLOCK_SIZE { vector[i] := w[i]; }
      assert vector[..] == w;
    }

    /** nwkSecurityTaskHandler on its active frame, called until the frame is done. */
    method Work(E: Text -> Text) returns (ok: bool)
      requires Valid() && phase == Process && Blocks(E)
      modifies this, payload, vector
      ensures Valid() && Snap() == Run(E, old(Snap())) && phase == Done(ok)
    {
      hide Run, Confirmed, Finished, Mix;
      while phase != Confirm
        invariant Valid() && (phase == Process || phase == Confirm) && Run(E, Snap()) == Run(E, old(Snap()))
        decreases left, phase == Process
      {
        RunTurn(E, Snap());
        phase := Wait;
        VectorIsReplaced(Snap(), E(vector[..]));
        EncryptReq(E);
        EncryptConf();
      }
      RunTurn(E, Snap());
      ok := ProcessMic();
    }
  }
}
