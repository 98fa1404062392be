/** Lookups over the parsed tree: each follows the `h` links of one object and finds the first
    binding of a key. */
module JsonDecoder {
  import opened Types
  import opened JsonLexer
  import opened JsonParser
  import opened JsonRoundTrip

  datatype DecoderStatus = DecoderOk | KeyNotFound

  function FirstBinding(ms: Members, key: string): Option<Value> {
    match ms
    case End => None
    case Member(k, v, rest) => if k == key then Some(v) else FirstBinding(rest, key)
  }

  /** JSON_DECODER_getNumber */
  method GetNumber(pool: array<Node>, current: nat, key: string, ghost ms: Members) returns (status: DecoderStatus,
                   r: Contents)
    requires ms.Member? && HoldsMembers(pool[..], current, ms)
    ensures status == DecoderOk <==> FirstBinding(ms, key).Some?
    ensures forall n :: FirstBinding(ms, key) == Some(Num(n)) ==> r == Number(n)
  {
    var i, found := FindKey(pool, current, key, ms);
    r := Unset;
    status := KeyNotFound;
    if found {
      r := pool[i].value;
      status := DecoderOk;
    }
  }

  /** The loop that the lookups share: the first node of the object with this key. */
  method FindKey(pool: array<Node>, current: nat, key: string, ghost ms: Members) returns (i: nat, found: bool)
    requires ms.Member? && HoldsMembers(pool[..], current, ms)
    ensures found <==> FirstBinding(ms, key).Some?
    ensures found ==> HoldsValue(pool[..], i, FirstBinding(ms, key).value)
  {
    i := current;
    ghost var left := ms;
    while true
      invariant left.Member? && HoldsMembers(pool[..], i, left)
      invariant FirstBinding(left, key) == FirstBinding(ms, key)
      decreases left
    {
      if pool[i].key.text == key {
        return i, true;
      }
      match pool[i].h {
        case None => return i, false;
        case Some(j) => i := j;
      }
      left := left.rest;
    }
  }

  /** JSON_DECODER_getObject: the first binding of the key, if it is an object. */
  method GetObject(pool: array<Node>, current: nat, key: string, ghost ms: Members) returns (status: DecoderStatus,
                   node: nat)
    requires ms.Member? && HoldsMembers(pool[..], current, ms)
    ensures status == DecoderOk <==> FirstBinding(ms, key).Some? && FirstBinding(ms, key).value.Obj?
    ensures status == DecoderOk ==> HoldsMembers(pool[..], node, FirstBinding(ms, key).value.members)
  {
    var i, found := FindKey(pool, current, key, ms);
    if found && pool[i].isObject && pool[i].v.Some? {
      return DecoderOk, pool[i].v.value;
    }
    return KeyNotFound, 0;
  }

  /** strncpy */
  function Copied(text: string, size: nat): (r: string)
    ensures |r| == size && (forall i | 0 <= i < size :: r[i] == if i < |text| then text[i] else NUL)
  {
    if |text| >= size then text[..size] else text + seq(size - |text|, _ => NUL)
  }

  /** JSON_DECODER_getString copies at most `size` characters: the text is terminated if and only if
      it is shorter than that. */
  method GetString(pool: array<Node>, current: nat, key: string, size: Byte, pVal: array<char>, ghost ms: Members)
      returns (status: DecoderStatus)
    requires ms.Member? && HoldsMembers(pool[..], current, ms) && size <= pVal.Length
    requires FirstBinding(ms, key).Some? ==> FirstBinding(ms, key).value.Str?
    modifies pVal
    ensures status == DecoderOk <==> FirstBinding(ms, key).Some?
    ensures status == DecoderOk ==> pVal[..] == Copied(FirstBinding(ms, key).value.text, size) + old(pVal[size..])
    ensures status == KeyNotFound ==> pVal[..] == old(pVal[..])
  {
    var i, found := FindKey(pool, current, key, ms);
    if !found { return KeyNotFound; }
    var text := pool[i].value.text;
    var k := 0;
    while k < size
      invariant 0 <= k <= size
      invariant pVal[..k] == Copied(text, size)[..k] && pVal[size..] == old(pVal[size..])
    {
      pVal[k] := if k < |text| then text[k] else NUL;
      k := k + 1;
    }
    return DecoderOk;
  }

  lemma TerminatedIfShorter(text: string, size: nat)
    requires NUL !in text
    ensures NUL in Copied(text, size) <==> |text| < size
  {
    var r := Copied(text, size);
    if |text| < size { assert r[|text|] == NUL; }
  }
}
