/** Parsing inverts printing, exactly when the object fits the node pool and the stack. */
module JsonRoundTrip {
  import opened Types
  import opened JsonLexer
  import opened JsonParser

  datatype Value = Str(text: string) | Num(number: nat) | Obj(members: Members)

  datatype Members = End | Member(key: string, value: Value, rest: Members)

  // ----- printing -----

  function Digits(n: nat): string {
    if n < 10 then [Digit(n)] else Digits(n / 10) + [Digit(n % 10)]
  }

  function Digit(n: nat): char
    requires n < 10
  {
    ('0' as int + n) as char
  }

  function Quote(s: string): string {
    "\"" + s + "\""
  }

  function Print(v: Value): string
    decreases v
  {
    match v
    case Str(s) => Quote(s)
    case Num(n) => Digits(n)
    case Obj(ms) => "{" + if ms.End? then "}" else PrintMembers(ms)
  }

  function PrintMembers(ms: Members): string
    requires ms.Member?
    decreases ms, 1
  {
    Quote(ms.key) + PrintBehindKey(ms)
  }

  function PrintBehindKey(ms: Members): string
    requires ms.Member?
    decreases ms, 0
  {
    ":" + Print(ms.value) + if ms.rest.End? then "}" else "," + PrintMembers(ms.rest)
  }

  predicate PrintableText(s: string) {
    '"' !in s && NUL !in s && |s| <= 255
  }

  /** Texts without quote or terminator, short enough for the tokenizer, and numbers that fit `int`. */
  predicate Printable(v: Value) {
    match v
    case Str(s) => PrintableText(s)
    case Num(n) => n < 0x8000
    case Obj(ms) => PrintableMembers(ms)
  }

  predicate PrintableMembers(ms: Members) {
    ms.Member? ==> PrintableText(ms.key) && Printable(ms.value) && PrintableMembers(ms.rest)
  }

  // ----- the size of an object -----

  /** The nodes an object takes; the first one is allocated when the object is met. */
  function Nodes(v: Value): nat {
    if v.Obj? then 1 + MoreNodes(v.members) else 0
  }

  function MoreNodes(ms: Members): nat {
    match ms
    case End => 0
    case Member(_, v, rest) => Nodes(v) + (if rest.End? then 0 else 1 + MoreNodes(rest))
  }

  /** How deep non-empty objects are nested. */
  function Height(v: Value): nat {
    if v.Obj? && v.members.Member? then 1 + HeightBelow(v.members) else 0
  }

  function HeightBelow(ms: Members): nat {
    if ms.End? then 0 else Max(Height(ms.value), HeightBelow(ms.rest))
  }

  /** A value at `depth` fits when `top` nodes are taken. */
  predicate Fits(v: Value, top: nat, depth: nat) {
    top + Nodes(v) <= MAX_KEYS && depth + Height(v) < STACK_SIZE
  }

  predicate FitMembers(ms: Members, top: nat, depth: nat) {
    top + MoreNodes(ms) <= MAX_KEYS && depth + 1 + HeightBelow(ms) < STACK_SIZE
  }

  // ----- the tree in the pool -----

  /** The node `i` holds the value. */
  predicate HoldsValue(pool: seq<Node>, i: nat, v: Value)
    decreases v
  {
    && i < |pool|
    && match v
       case Str(s) => !pool[i].isObject && pool[i].v.None? && pool[i].value == Text(s)
       case Num(n) => !pool[i].isObject && pool[i].v.None? && pool[i].value == Number(n)
       case Obj(ms) => pool[i].isObject && pool[i].v.Some? && HoldsMembers(pool, pool[i].v.value, ms)
  }

  /** The chain of `h` links from `i` on holds the members; an object without members is one node
      without key. */
  predicate HoldsMembers(pool: seq<Node>, i: nat, ms: Members)
    decreases ms
  {
    && i < |pool|
    && match ms
       case End => pool[i] == ZERO_NODE
       case Member(k, v, rest) =>
         && pool[i].key == Text(k) && HoldsValue(pool, i, v)
         && (rest.End? ==> pool[i].h.None?)
         && (rest.Member? ==> pool[i].h.Some? && HoldsMembers(pool, pool[i].h.value, rest))
  }

  /** The pool after a value is parsed into node `i`, with nodes from `t` on free. */
  function BuildValue(pool: seq<Node>, i: nat, t: nat, v: Value): (r: seq<Node>)
    requires i < t && t + Nodes(v) <= |pool|
    ensures |r| == |pool| && forall j | 0 <= j < |r| && j != i && !(t <= j < t + Nodes(v)) :: r[j] == pool[j]
    decreases v
  {
    match v
    case Str(s) => pool[i := pool[i].(value := Text(s))]
    case Num(n) => pool[i := pool[i].(value := Number(n))]
    case Obj(ms) => BuildMembers(pool[i := pool[i].(isObject := true, v := Some(t))], t, t + 1, ms)
  }

  function BuildMembers(pool: seq<Node>, i: nat, t: nat, ms: Members): (r: seq<Node>)
    requires i < t && t + MoreNodes(ms) <= |pool|
    ensures |r| == |pool| && forall j | 0 <= j < |r| && j != i && !(t <= j < t + MoreNodes(ms)) :: r[j] == pool[j]
    decreases ms
  {
    if ms.End? then pool
    else
      var r := BuildValue(pool[i := pool[i].(key := Text(ms.key))], i, t, ms.value);
      var j := t + Nodes(ms.value);
      if ms.rest.End? then r else BuildMembers(r[i := r[i].(h := Some(j))], j, j + 1, ms.rest)
  }

  // The same with the places of the nodes, which shows what it depends on.

  predicate ValueAt(pool: seq<Node>, i: nat, t: nat, v: Value)
    requires i < t && t + Nodes(v) <= |pool|
    decreases v
  {
    match v
    case Str(s) => !pool[i].isObject && pool[i].v.None? && pool[i].value == Text(s)
    case Num(n) => !pool[i].isObject && pool[i].v.None? && pool[i].value == Number(n)
    case Obj(ms) => pool[i].isObject && pool[i].v == Some(t) && MembersAt(pool, t, t + 1, ms)
  }

  predicate MembersAt(pool: seq<Node>, i: nat, t: nat, ms: Members)
    requires i < t && t + MoreNodes(ms) <= |pool|
    decreases ms
  {
    if ms.End? then pool[i] == ZERO_NODE
    else
      var j := t + Nodes(ms.value);
      && pool[i].key == Text(ms.key) && ValueAt(pool, i, t, ms.value)
      && pool[i].h == (if ms.rest.End? then None else Some(j))
      && (ms.rest.Member? ==> MembersAt(pool, j, j + 1, ms.rest))
  }

  lemma {:induction false} ValueFrame(p: seq<Node>, q: seq<Node>, i: nat, t: nat, v: Value)
    requires i < t && t + Nodes(v) <= |p| == |q| && ValueAt(p, i, t, v)
    requires p[i].isObject == q[i].isObject && p[i].v == q[i].v && p[i].value == q[i].value
    requires forall j | t <= j < t + Nodes(v) :: p[j] == q[j]
    ensures ValueAt(q, i, t, v)
    decreases v
  {
    if v.Obj? { MembersFrame(p, q, t, t + 1, v.members); }
  }

  lemma {:induction false} MembersFrame(p: seq<Node>, q: seq<Node>, i: nat, t: nat, ms: Members)
    requires i < t && t + MoreNodes(ms) <= |p| == |q| && MembersAt(p, i, t, ms) && p[i] == q[i]
    requires forall j | t <= j < t + MoreNodes(ms) :: p[j] == q[j]
    ensures MembersAt(q, i, t, ms)
    decreases ms
  {
    if ms.Member? {
      ValueFrame(p, q, i, t, ms.value);
      var j := t + Nodes(ms.value);
      if ms.rest.Member? { MembersFrame(p, q, j, j + 1, ms.rest); }
    }
  }

  // The pool is never cleared, so a node may carry what an earlier call left in it. It must not show
  // where the parser writes nothing: these are the fields that a printed object needs to be clean.

  predicate CleanValue(pool: seq<Node>, i: nat, t: nat, v: Value)
    requires i < t && t + Nodes(v) <= |pool|
    decreases v
  {
    if v.Obj? then CleanMembers(pool, t, t + 1, v.members) else !pool[i].isObject && pool[i].v.None?
  }

  /** A leaf is no object, the last member has no successor, and an empty object has nothing at all. */
  predicate CleanMembers(pool: seq<Node>, i: nat, t: nat, ms: Members)
    requires i < t && t + MoreNodes(ms) <= |pool|
    decreases ms
  {
    if ms.End? then pool[i] == ZERO_NODE
    else
      var j := t + Nodes(ms.value);
      && CleanValue(pool, i, t, ms.value)
      && (if ms.rest.End? then pool[i].h.None? else CleanMembers(pool, j, j + 1, ms.rest))
  }

  lemma {:induction false} CleanValueFrame(p: seq<Node>, q: seq<Node>, i: nat, t: nat, v: Value)
    requires i < t && t + Nodes(v) <= |p| == |q|
    requires p[i].isObject == q[i].isObject && p[i].v == q[i].v
    requires forall j | t <= j < t + Nodes(v) :: p[j] == q[j]
    ensures CleanValue(p, i, t, v) <==> CleanValue(q, i, t, v)
    decreases v
  {
    if v.Obj? { CleanFrame(p, q, t, t + 1, v.members); }
  }

  lemma {:induction false} CleanFrame(p: seq<Node>, q: seq<Node>, i: nat, t: nat, ms: Members)
    requires i < t && t + MoreNodes(ms) <= |p| == |q| && p[i] == q[i]
    requires forall j | t <= j < t + MoreNodes(ms) :: p[j] == q[j]
    ensures CleanMembers(p, i, t, ms) <==> CleanMembers(q, i, t, ms)
    decreases ms
  {
    if ms.Member? {
      CleanValueFrame(p, q, i, t, ms.value);
      var j := t + Nodes(ms.value);
      if ms.rest.Member? { CleanFrame(p, q, j, j + 1, ms.rest); }
    }
  }

  /** The built value is right if and only if its fields were clean. */
  lemma {:induction false} BuildValueAt(pool: seq<Node>, i: nat, t: nat, v: Value)
    requires i < t && t + Nodes(v) <= |pool|
    ensures var r := BuildValue(pool, i, t, v);
            && (ValueAt(r, i, t, v) <==> CleanValue(pool, i, t, v))
            && r[i].key == pool[i].key && r[i].h == pool[i].h
    decreases v
  {
    if v.Obj? {
      var p := pool[i := pool[i].(isObject := true, v := Some(t))];
      BuildMembersAt(p, t, t + 1, v.members);
      CleanFrame(pool, p, t, t + 1, v.members);
    }
  }

  lemma {:induction false} BuildMembersAt(pool: seq<Node>, i: nat, t: nat, ms: Members)
    requires i < t && t + MoreNodes(ms) <= |pool|
    ensures MembersAt(BuildMembers(pool, i, t, ms), i, t, ms) <==> CleanMembers(pool, i, t, ms)
    decreases ms
  {
    hide BuildValue, ValueAt, CleanValue;
    if ms.Member? {
      var p := pool[i := pool[i].(key := Text(ms.key))];
      var r := BuildValue(p, i, t, ms.value);
      BuildValueAt(p, i, t, ms.value);
      CleanValueFrame(pool, p, i, t, ms.value);
      if ms.rest.Member? { BuildRestAt(pool, r, i, t, ms); }
    }
  }

  /** The members behind the first one, which is built in `r`. */
  lemma {:induction false} BuildRestAt(pool: seq<Node>, r: seq<Node>, i: nat, t: nat, ms: Members)
    requires i < t && t + MoreNodes(ms) <= |pool| && ms.Member? && ms.rest.Member?
    requires r == BuildValue(pool[i := pool[i].(key := Text(ms.key))], i, t, ms.value) && r[i].key == Text(ms.key)
    ensures var j := t + Nodes(ms.value);
            var q := r[i := r[i].(h := Some(j))];
            MembersAt(BuildMembers(q, j, j + 1, ms.rest), i, t, ms) <==>
            ValueAt(r, i, t, ms.value) && CleanMembers(pool, j, j + 1, ms.rest)
    decreases ms, 0
  {
    hide BuildMembers, BuildValue, CleanMembers, ValueAt;
    var j := t + Nodes(ms.value);
    var q := r[i := r[i].(h := Some(j))];
    var z := BuildMembers(q, j, j + 1, ms.rest);
    assert z[i] == q[i] && MoreNodes(ms) == Nodes(ms.value) + 1 + MoreNodes(ms.rest);
    BuildMembersAt(q, j, j + 1, ms.rest);
    CleanFrame(pool, q, j, j + 1, ms.rest);
    if ValueAt(r, i, t, ms.value) { ValueFrame(r, z, i, t, ms.value); }
    if ValueAt(z, i, t, ms.value) { ValueFrame(z, r, i, t, ms.value); }
  }

  // Where the parser does write a link, reading along the links meets the same nodes.

  predicate LinkedValue(pool: seq<Node>, i: nat, t: nat, v: Value)
    requires i < t && t + Nodes(v) <= |pool|
    decreases v
  {
    v.Obj? ==> pool[i].v == Some(t) && LinkedMembers(pool, t, t + 1, v.members)
  }

  predicate LinkedMembers(pool: seq<Node>, i: nat, t: nat, ms: Members)
    requires i < t && t + MoreNodes(ms) <= |pool|
    decreases ms
  {
    ms.Member? ==>
      var j := t + Nodes(ms.value);
      && LinkedValue(pool, i, t, ms.value)
      && (ms.rest.Member? ==> pool[i].h == Some(j) && LinkedMembers(pool, j, j + 1, ms.rest))
  }

  lemma {:induction false} LinkedValueFrame(p: seq<Node>, q: seq<Node>, i: nat, t: nat, v: Value)
    requires i < t && t + Nodes(v) <= |p| == |q| && LinkedValue(p, i, t, v) && p[i].v == q[i].v
    requires forall j | t <= j < t + Nodes(v) :: p[j] == q[j]
    ensures LinkedValue(q, i, t, v)
    decreases v
  {
    if v.Obj? { LinkedFrame(p, q, t, t + 1, v.members); }
  }

  lemma {:induction false} LinkedFrame(p: seq<Node>, q: seq<Node>, i: nat, t: nat, ms: Members)
    requires i < t && t + MoreNodes(ms) <= |p| == |q| && LinkedMembers(p, i, t, ms) && p[i] == q[i]
    requires forall j | t <= j < t + MoreNodes(ms) :: p[j] == q[j]
    ensures LinkedMembers(q, i, t, ms)
    decreases ms
  {
    if ms.Member? {
      LinkedValueFrame(p, q, i, t, ms.value);
      var j := t + Nodes(ms.value);
      if ms.rest.Member? { LinkedFrame(p, q, j, j + 1, ms.rest); }
    }
  }

  lemma {:induction false} BuildLinksValue(pool: seq<Node>, i: nat, t: nat, v: Value)
    requires i < t && t + Nodes(v) <= |pool|
    ensures LinkedValue(BuildValue(pool, i, t, v), i, t, v)
    decreases v
  {
    if v.Obj? { BuildLinks(pool[i := pool[i].(isObject := true, v := Some(t))], t, t + 1, v.members); }
  }

  lemma {:induction false} BuildLinks(pool: seq<Node>, i: nat, t: nat, ms: Members)
    requires i < t && t + MoreNodes(ms) <= |pool|
    ensures LinkedMembers(BuildMembers(pool, i, t, ms), i, t, ms)
    decreases ms
  {
    if ms.Member? {
      var p := pool[i := pool[i].(key := Text(ms.key))];
      var r := BuildValue(p, i, t, ms.value);
      BuildLinksValue(p, i, t, ms.value);
      if ms.rest.Member? {
        var j := t + Nodes(ms.value);
        var q := r[i := r[i].(h := Some(j))];
        BuildLinks(q, j, j + 1, ms.rest);
        LinkedValueFrame(r, BuildMembers(q, j, j + 1, ms.rest), i, t, ms.value);
      }
    }
  }

  lemma {:induction false} LinkedValueHolds(pool: seq<Node>, i: nat, t: nat, v: Value)
    requires i < t && t + Nodes(v) <= |pool| && LinkedValue(pool, i, t, v)
    ensures HoldsValue(pool, i, v) <==> ValueAt(pool, i, t, v)
    decreases v
  {
    if v.Obj? { LinkedHolds(pool, t, t + 1, v.members); }
  }

  lemma {:induction false} LinkedHolds(pool: seq<Node>, i: nat, t: nat, ms: Members)
    requires i < t && t + MoreNodes(ms) <= |pool| && LinkedMembers(pool, i, t, ms)
    ensures HoldsMembers(pool, i, ms) <==> MembersAt(pool, i, t, ms)
    decreases ms
  {
    if ms.Member? {
      LinkedValueHolds(pool, i, t, ms.value);
      var j := t + Nodes(ms.value);
      if ms.rest.Member? { LinkedHolds(pool, j, j + 1, ms.rest); }
    }
  }

  /** Parsing into a pool in any state: the object is there if and only if its fields were clean. */
  lemma BuildHolds(pool: seq<Node>, i: nat, t: nat, ms: Members)
    requires i < t && t + MoreNodes(ms) <= |pool|
    ensures HoldsMembers(BuildMembers(pool, i, t, ms), i, ms) <==> CleanMembers(pool, i, t, ms)
  {
    BuildMembersAt(pool, i, t, ms);
    BuildLinks(pool, i, t, ms);
    LinkedHolds(BuildMembers(pool, i, t, ms), i, t, ms);
  }

  // ----- reading what was printed -----

  lemma {:induction false} DigitsRead(n: nat)
    ensures |Digits(n)| >= 1 && forall i | 0 <= i < |Digits(n)| :: IsDigit(Digits(n)[i])
    ensures Atoi(Digits(n)) == n
  {
    var d := Digits(n);
    if n >= 10 {
      DigitsRead(n / 10);
      assert d[..|d| - 1] == Digits(n / 10);
    } else {
      assert d[..|d| - 1] == [];
    }
  }

  lemma DigitsShort(n: nat)
    requires n < 100000
    ensures |Digits(n)| <= 5
  {
    assert |Digits(n / 10 / 10 / 10 / 10)| == 1;
    assert |Digits(n / 10 / 10 / 10)| <= 2;
    assert |Digits(n / 10 / 10)| <= 3;
    assert |Digits(n / 10)| <= 4;
  }

  function SymbolOf(c: char): TokenType {
    match c case '{' => LeftBrace case '}' => RightBrace case ',' => Comma case _ => Colon
  }

  lemma TakesSymbol(m: Machine, c: char, rest: string)
    requires m.input == [c] + rest && c in "{},:"
    ensures Take(m) == Go(m.(input := rest, token := Token(SymbolOf(c), m.token.contents)))
  {
    ReadsSymbol(c, rest);
  }

  lemma TakesText(m: Machine, text: string, rest: string)
    requires m.input == Quote(text) + rest && PrintableText(text)
    ensures Take(m) == Go(m.(input := rest, token := Token(StringToken, Text(text))))
  {
    ReadsText(text, rest);
    assert m.input == "\"" + text + "\"" + rest;
  }

  lemma TakesNumber(m: Machine, n: nat, rest: string)
    requires m.input == Digits(n) + rest && n < 0x8000 && rest != [] && !IsDigit(rest[0])
    ensures Take(m) == Go(m.(input := rest, token := Token(NumberToken, Number(n))))
  {
    DigitsRead(n);
    DigitsShort(n);
    ReadsNumber(Digits(n), rest);
  }

  /** A leaf is left in the token; the frame below stores it. */
  lemma CallsLeaf(m: Machine, st: seq<Frame>, v: Value, rest: string)
    requires InBounds(m) && m.stack == st + [Call(false)] && m.input == Print(v) + rest && Printable(v) && !v.Obj?
    requires rest != [] && !IsDigit(rest[0])
    ensures var token := if v.Str? then Token(StringToken, Text(v.text)) else Token(NumberToken, Number(v.number));
            Step(m) == Go(m.(stack := st, input := rest, token := token, ret := LeafToken))
  {
    hide NextToken;
    var n := m.(stack := st);
    assert m.stack[..|m.stack| - 1] == st;
    if v.Str? { TakesText(n, v.text, rest); } else { TakesNumber(n, v.number, rest); }
  }

  /** The machine once a brace is read and a node is allocated for the object it opens. */
  function Opened(m: Machine, st: seq<Frame>): Machine
    requires |m.pool| == MAX_KEYS && InPool(m.previous) && m.top < MAX_KEYS
  {
    var a := m.(stack := st, current := Some(m.top), top := m.top + 1);
    if m.previous.None? then a
    else SetNode(a, m.previous.value, m.pool[m.previous.value].(isObject := true, v := Some(m.top)))
  }

  lemma CallsEmpty(m: Machine, st: seq<Frame>, root: bool, rest: string)
    requires InBounds(m) && m.stack == st + [Call(root)] && m.input == "{}" + rest && m.top < MAX_KEYS
    ensures Step(m) == Go(Opened(m, st).(input := rest, token := Token(RightBrace, m.token.contents), ret := ParserOk))
  {
    hide NextToken;
    assert m.stack[..|m.stack| - 1] == st;
    assert m.input == ['{'] + (['}'] + rest);
    TakesSymbol(m.(stack := st), '{', ['}'] + rest);
    var n := Opened(m, st).(input := ['}'] + rest, token := Token(LeftBrace, m.token.contents));
    TakesSymbol(n, '}', rest);
  }

  lemma PrintsKeyFirst(v: Value, rest: string)
    requires v.Obj? && v.members.Member?
    ensures Print(v) + rest == "{" + (Quote(v.members.key) + (PrintBehindKey(v.members) + rest))
  {
  }

  lemma CallsObject(m: Machine, st: seq<Frame>, root: bool, key: string, rest: string)
    requires InBounds(m) && m.stack == st + [Call(root)] && PrintableText(key) && m.top < MAX_KEYS
    requires m.input == "{" + (Quote(key) + rest)
    ensures Step(m) == Go(Opened(m, st + [CallLoop]).(input := rest, token := Token(StringToken, Text(key))))
  {
    hide NextToken;
    var inner := Quote(key) + rest;
    assert m.stack[..|m.stack| - 1] == st;
    assert m.input == ['{'] + inner;
    TakesSymbol(m.(stack := st), '{', inner);
    var n := Opened(m, st).(input := inner, token := Token(LeftBrace, m.token.contents));
    TakesText(n, key, rest);
  }

  lemma CallsWithoutSpace(m: Machine, st: seq<Frame>, root: bool, rest: string)
    requires InBounds(m) && m.stack == st + [Call(root)] && m.input == "{" + rest && m.top == MAX_KEYS
    ensures Step(m).Stop? && Step(m).status == NoMoreSpace
  {
    hide NextToken;
    assert m.stack[..|m.stack| - 1] == st;
    TakesSymbol(m.(stack := st), '{', rest);
  }

  /** A key and its colon: the frame that waits for the value, and the call that reads it. */
  lemma Keys(m: Machine, st: seq<Frame>, i: nat, key: string, rest: string)
    requires InBounds(m) && m.stack == st + [CallLoop] && m.current == Some(i)
    requires m.token == Token(StringToken, Text(key)) && m.input == ":" + rest
    ensures if |st| + 1 >= STACK_SIZE then Step(m).Stop? && Step(m).status == NoMoreSpace
            else Step(m) == Go(m.(stack := st + [ResumeLoop(i)] + [Call(false)], input := rest, previous := Some(i),
                                  token := Token(Colon, Text(key)), pool := m.pool[i := m.pool[i].(key := Text(key))]))
  {
    hide NextToken;
    assert m.stack[..|m.stack| - 1] == st;
    TakesSymbol(SetNode(m.(stack := st), i, m.pool[i].(key := Text(key))), ':', rest);
  }

  /** The machine once a leaf is stored. */
  function Stored(m: Machine, st: seq<Frame>): Machine
    requires InBounds(m) && (m.ret == LeafToken ==> m.current.Some?)
  {
    var a := m.(stack := st);
    if m.ret == LeafToken then SetNode(a, m.current.value, m.pool[m.current.value].(value := m.token.contents)) else a
  }

  predicate Fine(m: Machine) {
    m.ret == ParserOk || (m.ret == LeafToken && m.current.Some?)
  }

  lemma ResumesAtEnd(m: Machine, st: seq<Frame>, i: nat, rest: string)
    requires InBounds(m) && Fine(m) && m.stack == st + [ResumeLoop(i)] && m.input == "}" + rest
    ensures Step(m) == Go(Stored(m, st).(input := rest, token := Token(RightBrace, m.token.contents), ret := ParserOk))
  {
    hide NextToken;
    assert m.stack[..|m.stack| - 1] == st;
    TakesSymbol(Stored(m, st), '}', rest);
  }

  lemma ResumesAtComma(m: Machine, st: seq<Frame>, i: nat, ms: Members, rest: string)
    requires InBounds(m) && Fine(m) && m.stack == st + [ResumeLoop(i)] && i < m.top
    requires ms.Member? && PrintableText(ms.key)
    requires m.input == "," + PrintMembers(ms) + rest
    ensures if m.top >= MAX_KEYS then Step(m).Stop? && Step(m).status == NoMoreSpace
            else
              var s := Stored(m, st + [CallLoop]);
              Step(m) == Go(s.(input := PrintBehindKey(ms) + rest, token := Token(StringToken, Text(ms.key)),
                               previous := Some(i), current := Some(m.top), top := m.top + 1,
                               pool := s.pool[i := s.pool[i].(h := Some(m.top))]))
  {
    hide NextToken;
    var inner := PrintMembers(ms) + rest;
    assert m.stack[..|m.stack| - 1] == st;
    assert m.input == [','] + inner;
    TakesSymbol(Stored(m, st), ',', inner);
    if m.top < MAX_KEYS {
      var a := Stored(m, st).(input := inner, token := Token(Comma, m.token.contents));
      var b := SetNode(a, i, a.pool[i].(h := Some(m.top)));
      var c := b.(previous := Some(i), current := Some(m.top), top := m.top + 1);
      assert c.input == Quote(ms.key) + (PrintBehindKey(ms) + rest);
      TakesText(c, ms.key, PrintBehindKey(ms) + rest);
    }
  }

  /** `m` runs into `q`. */
  ghost predicate Reaches(m: Machine, q: Machine) {
    InBounds(m) && InBounds(q) && Run(m) == Run(q)
  }

  ghost predicate RunsOut(m: Machine) {
    InBounds(m) && Run(m).Returned? && Run(m).status == NoMoreSpace
  }

  lemma SizeInParts(ms: Members)
    requires ms.Member?
    ensures MoreNodes(ms) == Nodes(ms.value) + if ms.rest.End? then 0 else 1 + MoreNodes(ms.rest)
    ensures HeightBelow(ms) == Max(Height(ms.value), if ms.rest.End? then 0 else HeightBelow(ms.rest))
  {
  }

  /** Members fit if the first value does and the others fit behind it. */
  lemma FitsInParts(ms: Members, top: nat, depth: nat)
    requires ms.Member?
    ensures MoreNodes(ms) == Nodes(ms.value) + if ms.rest.End? then 0 else 1 + MoreNodes(ms.rest)
    ensures FitMembers(ms, top, depth) <==>
            && depth + 1 < STACK_SIZE && Fits(ms.value, top, depth + 1)
            && (ms.rest.Member? ==>
                  top + Nodes(ms.value) < MAX_KEYS && FitMembers(ms.rest, top + Nodes(ms.value) + 1, depth))
  {
    hide Nodes, MoreNodes, Height, HeightBelow;
    SizeInParts(ms);
  }

  /** An object fits if its first node does and its members fit behind that. */
  lemma FitsInside(v: Value, top: nat, depth: nat)
    requires top <= MAX_KEYS && depth < STACK_SIZE
    ensures v.Obj? ==> Nodes(v) == 1 + MoreNodes(v.members)
    ensures Fits(v, top, depth) <==>
            && (v.Obj? ==> top < MAX_KEYS)
            && (v.Obj? && v.members.Member? ==> FitMembers(v.members, top + 1, depth))
  {
  }

  lemma StepRuns(m: Machine)
    requires InBounds(m) && m.stack != []
    ensures Step(m).Go? ==> Reaches(m, Step(m).m)
    ensures Step(m).Stop? && Step(m).status == NoMoreSpace ==> RunsOut(m)
  {
    StepInBounds(m);
  }

  /** What the machine `a` runs into, `m` runs into. */
  lemma Through(m: Machine, a: Machine)
    requires Reaches(m, a)
    ensures InBounds(a)
    ensures forall q :: Reaches(a, q) ==> Reaches(m, q)
    ensures RunsOut(a) ==> RunsOut(m)
  {
  }

  lemma Sizes(m: Machine)
    requires InBounds(m)
    ensures |m.pool| == MAX_KEYS && m.top <= MAX_KEYS && |m.stack| <= STACK_SIZE && InPool(m.previous)
  {
  }

  /** The machine behind a value: it stands in the token or in the pool. */
  ghost predicate Behind(m: Machine, q: Machine, st: seq<Frame>, i: nat, v: Value, rest: string)
    requires i < m.top && m.top + Nodes(v) <= |m.pool|
  {
    && q.stack == st && q.input == rest && q.top == m.top + Nodes(v) && Fine(q)
    && (if v.Obj? then q.ret == ParserOk && q.pool == BuildValue(m.pool, i, m.top, v)
        else q.ret == LeafToken && q.current == Some(i) && q.pool == m.pool && |q.pool| > i
             && q.pool[i := q.pool[i].(value := q.token.contents)] == BuildValue(m.pool, i, m.top, v))
  }

  /** Reading a value without members. */
  lemma ReadsSmall(m: Machine, st: seq<Frame>, i: nat, v: Value, rest: string) returns (q: Machine)
    requires InBounds(m) && m.stack == st + [Call(false)] && m.input == Print(v) + rest && Printable(v)
    requires rest != [] && !IsDigit(rest[0]) && i < m.top && m.current == m.previous == Some(i)
    requires v.Obj? ==> v.members.End? && m.top < MAX_KEYS
    ensures Reaches(m, q) && Behind(m, q, st, i, v, rest)
  {
    hide NextToken, Step, Run;
    StepRuns(m);
    if v.Obj? {
      assert m.input == "{}" + rest;
      CallsEmpty(m, st, false, rest);
    } else {
      CallsLeaf(m, st, v, rest);
    }
    q := Step(m).m;
  }

  /** Reading a printed value at the key of node `i`: the run gets behind it if it fits, and
      otherwise it ends for lack of space. */
  lemma {:induction false} ReadsValue(m: Machine, st: seq<Frame>, i: nat, v: Value, rest: string) returns (q: Machine)
    requires InBounds(m) && m.stack == st + [Call(false)] && m.input == Print(v) + rest && Printable(v)
    requires rest != [] && !IsDigit(rest[0]) && i < m.top && m.current == m.previous == Some(i)
    ensures Fits(v, m.top, |st|) ==> Reaches(m, q) && Behind(m, q, st, i, v, rest)
    ensures !Fits(v, m.top, |st|) ==> RunsOut(m)
    decreases v, 1
  {
    hide NextToken, Step, Run, Fits, FitMembers, Nodes, MoreNodes, Height, HeightBelow, BuildMembers;
    hide PrintMembers, PrintBehindKey, Digits, InBounds, Reaches, RunsOut;
    q := m;
    StepRuns(m);
    Sizes(m);
    FitsInside(v, m.top, |st|);
    if v.Obj? && m.top == MAX_KEYS {
      var ms := v.members;
      var tail := if ms.End? then "}" + rest else PrintMembers(ms) + rest;
      assert m.input == "{" + tail;
      CallsWithoutSpace(m, st, false, tail);
    } else if !v.Obj? || v.members.End? {
      q := ReadsSmall(m, st, i, v, rest);
    } else {
      PrintsKeyFirst(v, rest);
      CallsObject(m, st, false, v.members.key, PrintBehindKey(v.members) + rest);
      Through(m, Step(m).m);
      q := ReadsMembers(Step(m).m, st, m.top, v.members, rest);
    }
  }

  /** Reading the members of an object behind the first key. */
  lemma {:induction false} ReadsMembers(m: Machine, st: seq<Frame>, i: nat, ms: Members,
                                        rest: string) returns (q: Machine)
    requires InBounds(m) && m.stack == st + [CallLoop] && ms.Member? && PrintableMembers(ms)
    requires m.input == PrintBehindKey(ms) + rest && m.token == Token(StringToken, Text(ms.key))
    requires i < m.top && m.current == Some(i)
    ensures FitMembers(ms, m.top, |st|) ==>
              && Reaches(m, q) && q.stack == st && q.input == rest && q.ret == ParserOk
              && q.top == m.top + MoreNodes(ms) && q.pool == BuildMembers(m.pool, i, m.top, ms)
    ensures !FitMembers(ms, m.top, |st|) ==> RunsOut(m)
    decreases ms, 1
  {
    hide NextToken, Step, Run, FitMembers, Nodes, MoreNodes, Height, HeightBelow, Print, PrintMembers, Digits;
    hide BuildValue, Behind, Stored, Fine, InBounds, Reaches, RunsOut;
    q := m;
    Sizes(m);
    FitsInParts(ms, m.top, |st|);
    var tail := PrintTail(ms.rest) + rest;
    assert m.input == ":" + (Print(ms.value) + tail);
    Keys(m, st, i, ms.key, Print(ms.value) + tail);
    StepRuns(m);
    if |st| + 1 < STACK_SIZE {
      var a := Step(m).m;
      Through(m, a);
      var b := ReadsValue(a, st + [ResumeLoop(i)], i, ms.value, tail);
      if Fits(ms.value, a.top, |st| + 1) {
        Through(a, b);
        BehindStored(a, b, st, i, ms.value, tail);
        q := ReadsTail(b, st, i, ms.rest, rest);
      }
    }
  }

  lemma BehindStored(m: Machine, q: Machine, st: seq<Frame>, i: nat, v: Value, rest: string)
    requires InBounds(m) && InBounds(q) && i < m.top && m.top + Nodes(v) <= MAX_KEYS
    requires Behind(m, q, st + [ResumeLoop(i)], i, v, rest)
    ensures q.stack == st + [ResumeLoop(i)] && q.input == rest && q.top == m.top + Nodes(v) && Fine(q)
    ensures Stored(q, st).pool == Stored(q, st + [CallLoop]).pool == BuildValue(m.pool, i, m.top, v)
  {
  }

  function PrintTail(ms: Members): string {
    if ms.End? then "}" else "," + PrintMembers(ms)
  }

  /** Reading what comes behind a value: the end of the object or its other members. */
  lemma {:induction false} ReadsTail(m: Machine, st: seq<Frame>, i: nat, ms: Members, rest: string) returns (q: Machine)
    requires InBounds(m) && Fine(m) && m.stack == st + [ResumeLoop(i)] && i < m.top
    requires PrintableMembers(ms) && m.input == PrintTail(ms) + rest
    ensures ms.End? ==>
              && Reaches(m, q) && q.stack == st && q.input == rest && q.ret == ParserOk
              && q.top == m.top && q.pool == Stored(m, st).pool
    ensures ms.Member? && m.top < MAX_KEYS && FitMembers(ms, m.top + 1, |st|) ==>
              var pool := Stored(m, st).pool;
              && Reaches(m, q) && q.stack == st && q.input == rest && q.ret == ParserOk
              && q.top == m.top + 1 + MoreNodes(ms)
              && q.pool == BuildMembers(pool[i := pool[i].(h := Some(m.top))], m.top, m.top + 1, ms)
    ensures ms.Member? && !(m.top < MAX_KEYS && FitMembers(ms, m.top + 1, |st|)) ==> RunsOut(m)
    decreases ms, 2
  {
    hide NextToken, Step, Run, FitMembers, Fits, Nodes, MoreNodes, Height, HeightBelow, Print, Digits;
    hide BuildMembers, BuildValue, InBounds, Reaches, RunsOut;
    q := m;
    StepRuns(m);
    Sizes(m);
    if ms.End? {
      ResumesAtEnd(m, st, i, rest);
      q := Step(m).m;
    } else {
      assert m.input == "," + PrintMembers(ms) + rest;
      ResumesAtComma(m, st, i, ms, rest);
      if m.top < MAX_KEYS {
        Through(m, Step(m).m);
        q := ReadsMembers(Step(m).m, st, m.top, ms, rest);
      }
    }
  }

  // ----- the round trip -----

  /** From an empty stack the text of an object is read, whatever the pool holds, if and only if the
      object takes no more than 10 nodes and nests no deeper than 9; otherwise the parser reports that
      there is no more space. Nothing behind the text is consumed. The nodes from the first one on
      then hold the object if and only if the fields it needs clean were clean. */
  lemma RoundTrip(ms: Members, rest: string, pool: seq<Node>)
    requires PrintableMembers(ms) && |pool| == MAX_KEYS
    ensures var r := Parse(Print(Obj(ms)) + rest, [], pool);
            && r.Returned?
            && (Nodes(Obj(ms)) <= 10 && Height(Obj(ms)) <= 9 ==>
                  && r.status == ParserOk && r.m.stack == [] && r.m.input == rest && r.m.top == Nodes(Obj(ms))
                  && |r.m.pool| == MAX_KEYS
                  && (HoldsMembers(r.m.pool, 0, ms) <==> CleanMembers(pool, 0, 1, ms)))
            && (Nodes(Obj(ms)) > 10 || Height(Obj(ms)) > 9 ==> r.status == NoMoreSpace)
  {
    ParsesInto(ms, rest, pool);
    if Nodes(Obj(ms)) <= 10 && Height(Obj(ms)) <= 9 {
      BuildHolds(pool, 0, 1, ms);
    }
  }

  /** The same with the pool that the call leaves. */
  lemma ParsesInto(ms: Members, rest: string, pool: seq<Node>)
    requires PrintableMembers(ms) && |pool| == MAX_KEYS
    ensures var r := Parse(Print(Obj(ms)) + rest, [], pool);
            && r.Returned?
            && (Nodes(Obj(ms)) <= 10 && Height(Obj(ms)) <= 9 ==>
                  && r.status == ParserOk && r.m.stack == [] && r.m.input == rest && r.m.top == Nodes(Obj(ms))
                  && r.m.pool == BuildMembers(pool, 0, 1, ms))
            && (Nodes(Obj(ms)) > 10 || Height(Obj(ms)) > 9 ==> r.status == NoMoreSpace)
  {
    hide NextToken, Step, Run, BuildMembers, PrintBehindKey, PrintMembers;
    var m := Machine(Print(Obj(ms)) + rest, [Call(true)], 0, pool, None, None, Token(NoToken, Unset), ParserOk);
    assert m.stack == [] + [Call(true)];
    StepRuns(m);
    if ms.End? {
      assert m.input == "{}" + rest;
      CallsEmpty(m, [], true, rest);
      Unfold(Step(m).m);
      NothingBuilt(pool);
    } else {
      PrintsKeyFirst(Obj(ms), rest);
      CallsObject(m, [], true, ms.key, PrintBehindKey(ms) + rest);
      var a := Step(m).m;
      var q := ReadsMembers(a, [], 0, ms, rest);
      if Nodes(Obj(ms)) <= 10 && Height(Obj(ms)) <= 9 {
        Unfold(q);
      }
    }
  }

  lemma NothingBuilt(pool: seq<Node>)
    requires |pool| == MAX_KEYS
    ensures BuildMembers(pool, 0, 1, End) == pool
  {
  }

  // ----- later calls: the nodes of the call before are still there -----

  /** In memory that was never written everything is clean. */
  lemma {:induction false} ZeroIsClean(pool: seq<Node>, i: nat, t: nat, ms: Members)
    requires i < t && t + MoreNodes(ms) <= |pool| && forall j | 0 <= j < |pool| :: pool[j] == ZERO_NODE
    ensures CleanMembers(pool, i, t, ms)
    decreases ms
  {
    if ms.Member? {
      if ms.value.Obj? { ZeroIsClean(pool, t, t + 1, ms.value.members); }
      var j := t + Nodes(ms.value);
      if ms.rest.Member? { ZeroIsClean(pool, j, j + 1, ms.rest); }
    }
  }

  /** The same keys and leaves in the same places, with other names and contents. */
  predicate SameShape(a: Value, b: Value) {
    if a.Obj? && b.Obj? then SameShapes(a.members, b.members) else !a.Obj? && !b.Obj?
  }

  predicate SameShapes(a: Members, b: Members) {
    if a.Member? && b.Member? then SameShape(a.value, b.value) && SameShapes(a.rest, b.rest) else a.End? && b.End?
  }

  lemma {:induction false} SameNodes(a: Value, b: Value)
    requires SameShape(a, b)
    ensures Nodes(a) == Nodes(b) && Height(a) == Height(b)
    decreases a
  {
    if a.Obj? { SameMoreNodes(a.members, b.members); }
  }

  lemma {:induction false} SameMoreNodes(a: Members, b: Members)
    requires SameShapes(a, b)
    ensures MoreNodes(a) == MoreNodes(b) && HeightBelow(a) == HeightBelow(b)
    decreases a
  {
    if a.Member? {
      SameNodes(a.value, b.value);
      SameMoreNodes(a.rest, b.rest);
    }
  }

  lemma {:induction false} SameValueIsClean(pool: seq<Node>, i: nat, t: nat, a: Value, b: Value)
    requires i < t && Nodes(a) == Nodes(b) && t + Nodes(a) <= |pool| && SameShape(a, b) && ValueAt(pool, i, t, a)
    ensures CleanValue(pool, i, t, b)
    decreases a
  {
    if a.Obj? {
      SameMoreNodes(a.members, b.members);
      SameIsClean(pool, t, t + 1, a.members, b.members);
    }
  }

  lemma {:induction false} SameIsClean(pool: seq<Node>, i: nat, t: nat, a: Members, b: Members)
    requires i < t && MoreNodes(a) == MoreNodes(b) && t + MoreNodes(a) <= |pool|
    requires SameShapes(a, b) && MembersAt(pool, i, t, a)
    ensures CleanMembers(pool, i, t, b)
    decreases a
  {
    if a.Member? {
      SameNodes(a.value, b.value);
      SameValueIsClean(pool, i, t, a.value, b.value);
      var j := t + Nodes(a.value);
      if a.rest.Member? {
        SameMoreNodes(a.rest, b.rest);
        SameIsClean(pool, j, j + 1, a.rest, b.rest);
      }
    }
  }

  /** The pool after the text of an object was parsed into memory that was never written. */
  function FirstPool(ms: Members): (r: seq<Node>)
    requires Nodes(Obj(ms)) <= MAX_KEYS
    ensures |r| == MAX_KEYS
  {
    BuildMembers(seq(MAX_KEYS, _ => ZERO_NODE), 0, 1, ms)
  }

  /** A second object of the same shape as the first one is read back. */
  lemma SameShapeRereads(first: Members, second: Members, rest: string)
    requires PrintableMembers(second) && SameShapes(first, second)
    requires Nodes(Obj(first)) <= 10 && Height(Obj(first)) <= 9
    ensures var r := Parse(Print(Obj(second)) + rest, [], FirstPool(first));
            r.Returned? && r.status == ParserOk && HoldsMembers(r.m.pool, 0, second)
  {
    var zero := seq(MAX_KEYS, _ => ZERO_NODE);
    SameNodes(Obj(first), Obj(second));
    ZeroIsClean(zero, 0, 1, first);
    BuildMembersAt(zero, 0, 1, first);
    SameIsClean(FirstPool(first), 0, 1, first, second);
    RoundTrip(second, rest, FirstPool(first));
  }

  /** An object with one member is never read back after one with more: its node still has a
      successor. */
  lemma FewerMembersFail(first: Members, second: Members, rest: string)
    requires PrintableMembers(second) && Nodes(Obj(first)) <= 10
    requires first.Member? && first.rest.Member? && second.Member? && second.rest.End?
    ensures var r := Parse(Print(Obj(second)) + rest, [], FirstPool(first));
            r.Returned? && (r.status == ParserOk ==> !HoldsMembers(r.m.pool, 0, second))
  {
    BuildLinks(seq(MAX_KEYS, _ => ZERO_NODE), 0, 1, first);
    RoundTrip(second, rest, FirstPool(first));
  }

  /** What is read instead, when the first values are leaves: the new member, and behind it the members
      of the old object. */
  lemma OldMembersStay(first: Members, second: Members, rest: string)
    requires PrintableMembers(second) && Nodes(Obj(first)) <= 10
    requires first.Member? && !first.value.Obj? && second.Member? && second.rest.End? && !second.value.Obj?
    ensures var r := Parse(Print(Obj(second)) + rest, [], FirstPool(first));
            && r.Returned? && r.status == ParserOk
            && HoldsMembers(r.m.pool, 0, Member(second.key, second.value, first.rest))
  {
    hide Parse, Print, PrintableMembers;
    var zero, old' := seq(MAX_KEYS, _ => ZERO_NODE), FirstPool(first);
    ZeroIsClean(zero, 0, 1, first);
    BuildMembersAt(zero, 0, 1, first);
    BuildLinks(zero, 0, 1, first);
    assert MoreNodes(End) == 0 && HeightBelow(End) == 0;
    assert Nodes(second.value) == 0 && Height(second.value) == 0 && second.rest == End;
    assert MoreNodes(second) == 0 && HeightBelow(second) == 0;
    ParsesInto(second, rest, old');
    MergedAt(old', first, second);
    var both := Member(second.key, second.value, first.rest);
    MembersLinked(BuildMembers(old', 0, 1, second), 0, 1, both);
    LinkedHolds(BuildMembers(old', 0, 1, second), 0, 1, both);
  }

  lemma MergedAt(pool: seq<Node>, first: Members, second: Members)
    requires first.Member? && !first.value.Obj? && second.Member? && second.rest.End? && !second.value.Obj?
    requires 1 + MoreNodes(first) <= |pool| && MembersAt(pool, 0, 1, first)
    ensures MembersAt(BuildMembers(pool, 0, 1, second), 0, 1, Member(second.key, second.value, first.rest))
  {
    var after := BuildMembers(pool, 0, 1, second);
    var both := Member(second.key, second.value, first.rest);
    LeafMember(pool, first);
    LeafBuilt(pool, second);
    LeafMember(after, both);
    assert MoreNodes(both) == MoreNodes(first);
    hide MembersAt, BuildMembers, BuildValue, ValueAt, MoreNodes;
    if first.rest.Member? { MembersFrame(pool, after, 1, 2, first.rest); }
  }

  lemma LeafMember(pool: seq<Node>, ms: Members)
    requires ms.Member? && !ms.value.Obj? && 1 + MoreNodes(ms) <= |pool|
    ensures MoreNodes(ms) == if ms.rest.End? then 0 else 1 + MoreNodes(ms.rest)
    ensures MembersAt(pool, 0, 1, ms) <==>
              && pool[0].key == Text(ms.key) && ValueAt(pool, 0, 1, ms.value)
              && pool[0].h == (if ms.rest.End? then None else Some(1))
              && (ms.rest.Member? ==> MembersAt(pool, 1, 2, ms.rest))
  {
    assert Nodes(ms.value) == 0;
  }

  lemma LeafBuilt(pool: seq<Node>, ms: Members)
    requires pool != [] && ms.Member? && ms.rest.End? && !ms.value.Obj? && 1 + MoreNodes(ms) <= |pool|
    requires !pool[0].isObject && pool[0].v.None?
    ensures var after := BuildMembers(pool, 0, 1, ms);
            && after[0].h == pool[0].h && after[0].key == Text(ms.key) && ValueAt(after, 0, 1, ms.value)
  {}

  lemma {:induction false} ValueLinked(pool: seq<Node>, i: nat, t: nat, v: Value)
    requires i < t && t + Nodes(v) <= |pool| && ValueAt(pool, i, t, v)
    ensures LinkedValue(pool, i, t, v)
    decreases v
  {
    if v.Obj? { MembersLinked(pool, t, t + 1, v.members); }
  }

  lemma {:induction false} MembersLinked(pool: seq<Node>, i: nat, t: nat, ms: Members)
    requires i < t && t + MoreNodes(ms) <= |pool| && MembersAt(pool, i, t, ms)
    ensures LinkedMembers(pool, i, t, ms)
    decreases ms
  {
    if ms.Member? {
      ValueLinked(pool, i, t, ms.value);
      var j := t + Nodes(ms.value);
      if ms.rest.Member? { MembersLinked(pool, j, j + 1, ms.rest); }
    }
  }

  const TWO_SETTINGS := Member("mqtt_timer", Num(5), Member("vypis_cau", Num(3), End))
  const ONE_SETTING := Member("mqtt_timer", Num(7), End)

  const BOTH_SETTINGS := Member("mqtt_timer", Num(7), Member("vypis_cau", Num(3), End))

  /** Two calls in a row: both succeed, and the second object has a member it was not given. */
  lemma SecondCallKeepsOldMember()
    ensures var zero := seq(MAX_KEYS, _ => ZERO_NODE);
            var r1 := Parse(Print(Obj(TWO_SETTINGS)), [], zero);
            && r1.Returned? && r1.status == ParserOk && HoldsMembers(r1.m.pool, 0, TWO_SETTINGS)
            && r1.m.stack == [] && |r1.m.pool| == MAX_KEYS
            && var r2 := Parse(Print(Obj(ONE_SETTING)), [], r1.m.pool);
               && r2.Returned? && r2.status == ParserOk && !HoldsMembers(r2.m.pool, 0, ONE_SETTING)
               && HoldsMembers(r2.m.pool, 0, BOTH_SETTINGS)
  {
    hide Print, NextToken, BuildMembers;
    var zero := seq(MAX_KEYS, _ => ZERO_NODE);
    SettingsFit();
    assert Print(Obj(TWO_SETTINGS)) + "" == Print(Obj(TWO_SETTINGS));
    assert Print(Obj(ONE_SETTING)) + "" == Print(Obj(ONE_SETTING));
    ZeroIsClean(zero, 0, 1, TWO_SETTINGS);
    RoundTrip(TWO_SETTINGS, "", zero);
    ParsesInto(TWO_SETTINGS, "", zero);
    OldMembersStay(TWO_SETTINGS, ONE_SETTING, "");
    FewerMembersFail(TWO_SETTINGS, ONE_SETTING, "");
  }

  lemma SettingsFit()
    ensures PrintableMembers(TWO_SETTINGS) && Nodes(Obj(TWO_SETTINGS)) == 2 && Height(Obj(TWO_SETTINGS)) == 1
    ensures PrintableMembers(ONE_SETTING) && Nodes(Obj(ONE_SETTING)) == 1 && Height(Obj(ONE_SETTING)) == 1
  {
    assert MoreNodes(End) == 0 && HeightBelow(End) == 0;
    var tail := TWO_SETTINGS.rest;
    assert PrintableMembers(tail) && MoreNodes(tail) == 0 && HeightBelow(tail) == 0;
  }

  /** The empty stack is needed: with frames left over from an earlier call, no object is read. */
  lemma NeedsEmptyStack(ms: Members, st: seq<Frame>, pool: seq<Node>)
    requires PrintableMembers(ms) && |pool| == MAX_KEYS && Waiting(st) && st != [] && |st| <= STACK_SIZE
    ensures Parse(Print(Obj(ms)), st, pool).Returned? && Parse(Print(Obj(ms)), st, pool).status != ParserOk
  {
    hide NextToken, Step, Run;
    if |st| < STACK_SIZE {
      var m := Machine(Print(Obj(ms)), st + [Call(true)], 0, pool, None, None, Token(NoToken, Unset), ParserOk);
      assert m.stack[..|st|] == st;
      StepRuns(m);
      if ms.End? {
        assert m.input == "{}" + "";
        CallsEmpty(m, st, true, "");
        NothingLeft(Step(m).m);
      } else {
        PrintsKeyFirst(Obj(ms), "");
        assert m.input == m.input + "";
        CallsObject(m, st, true, ms.key, PrintBehindKey(ms) + "");
        var a := Step(m).m;
        var q := ReadsMembers(a, st, 0, ms, "");
        if FitMembers(ms, a.top, |st|) {
          NothingLeft(q);
        }
      }
    }
  }

  /** A frame that waits for more input than there is. */
  lemma NothingLeft(m: Machine)
    requires InBounds(m) && m.stack != [] && m.input == "" && m.ret == ParserOk
    requires Waiting(m.stack)
    ensures Run(m).Returned? && Run(m).status == ParserBadFormat
  {
    assert Last(m.stack).ResumeLoop?;
    assert Step(m).Stop?;
  }

  /** An early return leaves such frames: here the value of a key is missing. */
  lemma EarlyReturnLeavesFrames(pool: seq<Node>)
    requires |pool| == MAX_KEYS
    ensures var r := Parse("{\"a\":", [], pool);
            r.Returned? && r.status == ParserBadFormat && r.m.stack == [ResumeLoop(0)]
  {
    hide NextToken, Step, Run;
    var m := Machine("{\"a\":", [Call(true)], 0, pool, None, None, Token(NoToken, Unset), ParserOk);
    assert m.input == "{" + (Quote("a") + ":") && m.stack == [] + [Call(true)];
    CallsObject(m, [], true, "a", ":");
    Unfold(m);
    ValueMissing(Step(m).m, 0, "a");
  }

  lemma ValueMissing(m: Machine, i: nat, key: string)
    requires InBounds(m) && m.stack == [CallLoop] && m.current == Some(i)
    requires m.token == Token(StringToken, Text(key)) && m.input == ":"
    ensures Run(m).Returned? && Run(m).status == ParserBadFormat && Run(m).m.stack == [ResumeLoop(i)]
  {
    hide NextToken, Run, Keyed, Called;
    assert m.stack == [] + [CallLoop] && m.input == ":" + "";
    Keys(m, [], i, key, "");
    Unfold(m);
    var b := Step(m).m;
    assert b.stack == [ResumeLoop(i), Call(false)] && b.stack[..1] == [ResumeLoop(i)];
    NothingToRead();
    Unfold(b);
  }

  lemma NothingToRead()
    ensures NextToken("").status == NoMoreTokens
  {
  }
}
