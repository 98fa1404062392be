/** Spaces between the tokens of an object: the parser reads what it would read without them. */
module JsonSpaces {
  import opened Types
  import opened JsonLexer
  import opened JsonParser
  import opened JsonRoundTrip

  // ----- an object as a row of tokens -----

  datatype Piece = Symbol(c: char) | Quotation(text: string) | Numeral(n: nat)

  function Spelling(p: Piece): string {
    match p
    case Symbol(c) => [c]
    case Quotation(text) => Quote(text)
    case Numeral(n) => Digits(n)
  }

  /** The tokens of a value, in front of others. */
  function Pieces(v: Value, tail: seq<Piece>): seq<Piece>
    decreases v
  {
    match v
    case Str(s) => [Quotation(s)] + tail
    case Num(n) => [Numeral(n)] + tail
    case Obj(ms) => [Symbol('{')] + if ms.End? then [Symbol('}')] + tail else MemberPieces(ms, tail)
  }

  function MemberPieces(ms: Members, tail: seq<Piece>): seq<Piece>
    requires ms.Member?
    decreases ms, 1
  {
    [Quotation(ms.key)] + ([Symbol(':')] + Pieces(ms.value, More(ms, tail)))
  }

  function More(ms: Members, tail: seq<Piece>): (r: seq<Piece>)
    requires ms.Member?
    ensures r != [] && r[0].Symbol?
    decreases ms, 0
  {
    if ms.rest.End? then [Symbol('}')] + tail else [Symbol(',')] + MemberPieces(ms.rest, tail)
  }

  /** The tokens with `gaps[k]` before token `k`. */
  function Layout(ps: seq<Piece>, gaps: seq<string>): string
    requires |gaps| == |ps|
  {
    if ps == [] then "" else gaps[0] + Spelling(ps[0]) + Layout(ps[1..], gaps[1..])
  }

  function Tight(ps: seq<Piece>): string {
    if ps == [] then "" else Spelling(ps[0]) + Tight(ps[1..])
  }

  lemma TightCons(p: Piece, ps: seq<Piece>)
    ensures Tight([p] + ps) == Spelling(p) + Tight(ps)
  {
    assert ([p] + ps)[1..] == ps;
  }

  /** A printed value is its tokens without gaps. */
  lemma {:induction false} PrintIsTight(v: Value, tail: seq<Piece>)
    ensures Tight(Pieces(v, tail)) == Print(v) + Tight(tail)
    decreases v
  {
    hide Tight, Digits, Quote;
    match v
    case Str(s) => TightCons(Quotation(s), tail);
    case Num(n) => TightCons(Numeral(n), tail);
    case Obj(ms) =>
      if ms.End? {
        TightCons(Symbol('}'), tail);
        TightCons(Symbol('{'), [Symbol('}')] + tail);
      } else {
        TightCons(Symbol('{'), MemberPieces(ms, tail));
        MembersAreTight(ms, tail);
      }
  }

  lemma {:induction false} MembersAreTight(ms: Members, tail: seq<Piece>)
    requires ms.Member?
    ensures Tight(MemberPieces(ms, tail)) == PrintMembers(ms) + Tight(tail)
    decreases ms
  {
    hide Tight, Digits, Quote, Print;
    var more := More(ms, tail);
    var inner := Pieces(ms.value, more);
    TightCons(Quotation(ms.key), [Symbol(':')] + inner);
    TightCons(Symbol(':'), inner);
    PrintIsTight(ms.value, more);
    if ms.rest.End? {
      TightCons(Symbol('}'), tail);
    } else {
      TightCons(Symbol(','), MemberPieces(ms.rest, tail));
      MembersAreTight(ms.rest, tail);
    }
    var value, key, end := Print(ms.value), Quote(ms.key), if ms.rest.End? then "}" else "," + PrintMembers(ms.rest);
    assert PrintBehindKey(ms) == ":" + value + end;
    hide PrintBehindKey;
    assert PrintMembers(ms) == key + PrintBehindKey(ms);
    hide Pieces, MemberPieces, More, PrintMembers;
    assert Tight(more) == end + Tight(tail);
    assert key + (":" + (value + (end + Tight(tail)))) == (key + (":" + value + end)) + Tight(tail);
  }

  predicate Fair(p: Piece) {
    match p
    case Symbol(c) => c in "{},:"
    case Quotation(text) => PrintableText(text)
    case Numeral(n) => n < 0x8000
  }

  /** A number has a symbol behind it. */
  predicate Tidy(ps: seq<Piece>) {
    ps != [] ==> Fair(ps[0]) && (ps[0].Numeral? ==> |ps| > 1 && ps[1].Symbol?) && Tidy(ps[1..])
  }

  lemma TidyCons(p: Piece, ps: seq<Piece>)
    requires Fair(p) && Tidy(ps) && (p.Numeral? ==> ps != [] && ps[0].Symbol?)
    ensures Tidy([p] + ps)
  {
    assert ([p] + ps)[1..] == ps;
  }

  lemma {:induction false} PiecesAreTidy(v: Value, tail: seq<Piece>)
    requires Printable(v) && Tidy(tail) && (v.Num? ==> tail != [] && tail[0].Symbol?)
    ensures Tidy(Pieces(v, tail))
    decreases v
  {
    hide Tidy;
    match v
    case Str(text) => TidyCons(Quotation(text), tail);
    case Num(n) => TidyCons(Numeral(n), tail);
    case Obj(ms) =>
      if ms.End? {
        TidyCons(Symbol('}'), tail);
        TidyCons(Symbol('{'), [Symbol('}')] + tail);
      } else {
        MemberPiecesAreTidy(ms, tail);
        TidyCons(Symbol('{'), MemberPieces(ms, tail));
      }
  }

  lemma {:induction false} MemberPiecesAreTidy(ms: Members, tail: seq<Piece>)
    requires ms.Member? && PrintableMembers(ms) && Tidy(tail)
    ensures Tidy(MemberPieces(ms, tail))
    decreases ms
  {
    hide Tidy;
    if ms.rest.Member? {
      MemberPiecesAreTidy(ms.rest, tail);
      TidyCons(Symbol(','), MemberPieces(ms.rest, tail));
    } else {
      TidyCons(Symbol('}'), tail);
    }
    var inner := Pieces(ms.value, More(ms, tail));
    PiecesAreTidy(ms.value, More(ms, tail));
    TidyCons(Symbol(':'), inner);
    TidyCons(Quotation(ms.key), [Symbol(':')] + inner);
  }

  // ----- inputs with the same tokens -----

  /** The two inputs have the same tokens until they are the same, at `rest` or before it. */
  predicate Alike(s: string, t: string, rest: string)
    decreases |s|
  {
    || s == t
    || (|t| > |rest|
        && var a, b := NextToken(s), NextToken(t);
           && a.status == Status.Ok == b.status && a.kind == b.kind && a.contents == b.contents
           && Alike(a.rest, b.rest, rest))
  }

  /** The token that a spelling is read as. */
  function Read(p: Piece, rest: string): Lexed {
    match p
    case Symbol(c) => Lexed(Status.Ok, SymbolOf(c), None, rest)
    case Quotation(text) => Lexed(Status.Ok, StringToken, Some(Text(text)), rest)
    case Numeral(n) => Lexed(Status.Ok, NumberToken, Some(Number(n)), rest)
  }

  lemma ReadsSpelling(gap: string, p: Piece, rest: string)
    requires Blanks(gap) && Fair(p) && (p.Numeral? ==> rest == [] || !IsDigit(rest[0]))
    ensures NextToken(gap + Spelling(p) + rest) == Read(p, rest)
  {
    hide NextToken, Digits;
    assert gap + Spelling(p) + rest == gap + (Spelling(p) + rest);
    SkipsBlanks(gap, Spelling(p) + rest);
    match p
    case Symbol(c) => ReadsSymbol(c, rest);
    case Quotation(text) =>
      ReadsText(text, rest);
      assert Quote(text) + rest == "\"" + text + "\"" + rest;
    case Numeral(n) =>
      DigitsRead(n);
      DigitsShort(n);
      ReadsNumber(Digits(n), rest);
  }

  ghost predicate AllBlank(gaps: seq<string>) {
    forall k | 0 <= k < |gaps| :: Blanks(gaps[k])
  }

  /** Behind a number there is no digit, with or without a gap. */
  lemma NoDigitBehind(ps: seq<Piece>, gaps: seq<string>, rest: string)
    requires |gaps| == |ps| && AllBlank(gaps) && ps != [] && ps[0].Symbol? && Fair(ps[0])
    ensures !IsDigit((Layout(ps, gaps) + rest)[0])
  {
    var s := Layout(ps, gaps) + rest;
    if gaps[0] == "" { assert s[0] == ps[0].c; } else { assert s[0] == gaps[0][0]; }
  }

  lemma {:induction false} LayoutTight(ps: seq<Piece>)
    ensures Layout(ps, seq(|ps|, _ => "")) == Tight(ps)
  {
    if ps != [] {
      var gaps := seq(|ps|, _ => "");
      assert gaps[1..] == seq(|ps[1..]|, _ => "");
      LayoutTight(ps[1..]);
    }
  }

  lemma {:induction false} LayoutsAlike(ps: seq<Piece>, gaps: seq<string>, others: seq<string>, rest: string)
    requires |gaps| == |others| == |ps| && AllBlank(gaps) && AllBlank(others) && Tidy(ps)
    ensures Alike(Layout(ps, gaps) + rest, Layout(ps, others) + rest, rest)
  {
    hide NextToken, Spelling, Blanks;
    if ps != [] {
      var more, more' := Layout(ps[1..], gaps[1..]) + rest, Layout(ps[1..], others[1..]) + rest;
      var s, t := Layout(ps, gaps) + rest, Layout(ps, others) + rest;
      if ps[0].Numeral? {
        NoDigitBehind(ps[1..], gaps[1..], rest);
        NoDigitBehind(ps[1..], others[1..], rest);
      }
      assert s == gaps[0] + Spelling(ps[0]) + more && t == others[0] + Spelling(ps[0]) + more';
      ReadsSpelling(gaps[0], ps[0], more);
      ReadsSpelling(others[0], ps[0], more');
      SpellingLong(ps[0]);
      LayoutsAlike(ps[1..], gaps[1..], others[1..], rest);
    }
  }

  lemma SpellingLong(p: Piece)
    ensures |Spelling(p)| >= 1
  {
    if p.Numeral? { DigitsRead(p.n); }
  }

  // ----- the parser on such inputs -----

  /** The two machines differ in the spelling of the input alone. */
  predicate Twins(m: Machine, n: Machine, rest: string) {
    n == m.(input := n.input) && Alike(m.input, n.input, rest)
  }

  predicate TwinOutcomes(a: Outcome, b: Outcome, rest: string) {
    match (a, b)
    case (Go(m), Go(n)) => Twins(m, n, rest)
    case (Stop(x, m), Stop(y, n)) => x == y && Twins(m, n, rest)
    case (Stuck, Stuck) => true
    case _ => false
  }

  lemma TakeTwins(m: Machine, n: Machine, rest: string)
    requires Twins(m, n, rest)
    ensures TwinOutcomes(Take(m), Take(n), rest)
  {
    hide NextToken;
  }

  lemma CalledTwins(m: Machine, n: Machine, root: bool, rest: string)
    requires |m.pool| == MAX_KEYS && InPool(m.previous) && m.top <= MAX_KEYS && Twins(m, n, rest)
    ensures TwinOutcomes(Called(m, root), Called(n, root), rest)
  {
    hide Take, Alike;
    if m.token.kind == LeftBrace && m.top < MAX_KEYS {
      var a := m.(current := Some(m.top), top := m.top + 1);
      var b := if a.previous.None? then a
               else SetNode(a, a.previous.value, a.pool[a.previous.value].(isObject := true, v := a.current));
      TakeTwins(b, b.(input := n.input), rest);
    }
  }

  lemma KeyedTwins(m: Machine, n: Machine, rest: string)
    requires |m.pool| == MAX_KEYS && InPool(m.current) && m.top <= MAX_KEYS && m.current.Some? && Twins(m, n, rest)
    ensures TwinOutcomes(Keyed(m), Keyed(n), rest)
  {
    hide Take, Alike;
    var i := m.current.value;
    var a := SetNode(m, i, m.pool[i].(key := m.token.contents));
    TakeTwins(a, a.(input := n.input), rest);
  }

  lemma NextMemberTwins(m: Machine, n: Machine, node: nat, rest: string)
    requires |m.pool| == MAX_KEYS && m.top <= MAX_KEYS && node < MAX_KEYS && Twins(m, n, rest)
    ensures TwinOutcomes(NextMember(m, node), NextMember(n, node), rest)
  {
    hide Take, Alike;
    if m.top < MAX_KEYS {
      var a := SetNode(m, node, m.pool[node].(h := Some(m.top)));
      var b := a.(previous := Some(node), current := Some(m.top), top := m.top + 1);
      TakeTwins(b, b.(input := n.input), rest);
    }
  }

  lemma ResumedTwins(m: Machine, n: Machine, node: nat, rest: string)
    requires |m.pool| == MAX_KEYS && InPool(m.current) && m.top <= MAX_KEYS && node < MAX_KEYS
    requires (m.ret == LeafToken ==> m.current.Some?) && Twins(m, n, rest)
    ensures TwinOutcomes(Resumed(m, node), Resumed(n, node), rest)
  {
    hide Take, Alike, NextMember;
    var a := if m.ret == LeafToken
             then SetNode(m, m.current.value, m.pool[m.current.value].(value := m.token.contents)) else m;
    TakeTwins(a, a.(input := n.input), rest);
    if Take(a).Go? {
      NextMemberTwins(Take(a).m, Take(a.(input := n.input)).m, node, rest);
    }
  }

  lemma StepTwins(m: Machine, n: Machine, rest: string)
    requires InBounds(m) && InBounds(n) && m.stack != [] && Twins(m, n, rest)
    ensures TwinOutcomes(Step(m), Step(n), rest)
  {
    hide Take, Alike, Called, Keyed, Resumed;
    var a := m.(stack := m.stack[..|m.stack| - 1]);
    var b := a.(input := n.input);
    match Last(m.stack)
    case Call(root) =>
      TakeTwins(a, b, rest);
      if Take(a).Go? { CalledTwins(Take(a).m, Take(b).m, root, rest); }
    case CallLoop => KeyedTwins(a, b, rest);
    case ResumeLoop(node) => ResumedTwins(a, b, node, rest);
  }

  lemma {:induction false} RunTwins(m: Machine, n: Machine, rest: string)
    requires InBounds(m) && InBounds(n) && Twins(m, n, rest)
    ensures Run(m).Returned? == Run(n).Returned?
    ensures Run(m).Returned? ==> Run(m).status == Run(n).status && Twins(Run(m).m, Run(n).m, rest)
    decreases |m.input|, |m.stack|
  {
    hide Step, Run, InBounds, Twins;
    Unfold(m);
    Unfold(n);
    assert n.stack == m.stack && n.ret == m.ret by { TwinFrames(m, n, rest); }
    if m.stack != [] {
      StepTwins(m, n, rest);
      if Step(m).Go? { RunTwins(Step(m).m, Step(n).m, rest); }
    }
  }

  lemma TwinFrames(m: Machine, n: Machine, rest: string)
    requires Twins(m, n, rest)
    ensures n.stack == m.stack && n.ret == m.ret
  {}

  // ----- the round trip, with spaces -----

  /** An object with any number of spaces or backslashes before each of its tokens is read like the same
      object without them, from any stack and pool that earlier calls left: the status, the stack and the
      pool are the same, and of an object that is read the same input is left. */
  lemma SpacesDoNotMatter(ms: Members, gaps: seq<string>, rest: string, stack: seq<Frame>, pool: seq<Node>)
    requires PrintableMembers(ms) && |gaps| == |Pieces(Obj(ms), [])| && AllBlank(gaps)
    requires |pool| == MAX_KEYS && |stack| <= STACK_SIZE && Waiting(stack)
    ensures var r := Parse(Layout(Pieces(Obj(ms), []), gaps) + rest, stack, pool);
            var t := Parse(Print(Obj(ms)) + rest, stack, pool);
            && r.Returned? == t.Returned?
            && (r.Returned? ==> r.status == t.status && r.m == t.m.(input := r.m.input))
            && (t.Returned? && t.m.input == rest ==> r == t)
  {
    hide Run, NextToken, Layout, Print, Pieces, PrintableMembers, AllBlank;
    var ps := Pieces(Obj(ms), []);
    var none := seq(|ps|, _ => "");
    PiecesAreTidy(Obj(ms), []) by { assert Printable(Obj(ms)); }
    assert AllBlank(none) by { BlankNone(|ps|); }
    LayoutsAlike(ps, gaps, none, rest);
    LayoutTight(ps);
    PrintIsTight(Obj(ms), []);
    var s, t := Layout(ps, gaps) + rest, Print(Obj(ms)) + rest;
    assert t == Layout(ps, none) + rest by { assert Tight([]) == ""; assert Print(Obj(ms)) + "" == Print(Obj(ms)); }
    var m := Machine(s, stack, 0, pool, None, None, Token(NoToken, Unset), ParserOk);
    var n := m.(input := t);
    assert Twins(m, n, rest);
    if !Full(m) {
      assert Push(m, Call(true)).stack[..|stack|] == stack;
      RunTwins(Push(m, Call(true)), Push(n, Call(true)), rest);
    }
  }

  lemma BlankNone(n: nat)
    ensures AllBlank(seq(n, _ => ""))
  {}

  /** The round trip with any spaces: which objects are read, and what the pool then holds. */
  lemma SpacedRoundTrip(ms: Members, gaps: seq<string>, rest: string, pool: seq<Node>)
    requires PrintableMembers(ms) && |gaps| == |Pieces(Obj(ms), [])| && AllBlank(gaps) && |pool| == MAX_KEYS
    ensures var r := Parse(Layout(Pieces(Obj(ms), []), gaps) + rest, [], pool);
            && r.Returned?
            && (Nodes(Obj(ms)) <= 10 && Height(Obj(ms)) <= 9 ==>
                  && r.status == ParserOk && r.m.stack == [] && r.m.input == rest && r.m.top == Nodes(Obj(ms))
                  && |r.m.pool| == MAX_KEYS
                  && (HoldsMembers(r.m.pool, 0, ms) <==> CleanMembers(pool, 0, 1, ms)))
            && (Nodes(Obj(ms)) > 10 || Height(Obj(ms)) > 9 ==> r.status == NoMoreSpace)
  {
    hide Parse, PrintableMembers, Nodes, Height, HoldsMembers, CleanMembers, Layout, Pieces;
    RoundTrip(ms, rest, pool);
    SpacesDoNotMatter(ms, gaps, rest, [], pool);
  }

  /** A member with a number, and a space behind its colon. */
  lemma OneMember(key: string, n: nat)
    ensures var ps := Pieces(Obj(Member(key, Num(n), End)), []);
            && |ps| == 5
            && Layout(ps, ["", "", "", " ", ""]) == "{" + Quote(key) + ": " + Digits(n) + "}"
  {
    hide Layout, Quote, Digits;
    PiecesOfOne(key, n);
    var end := [Symbol('}')] + [];
    var value := [Numeral(n)] + end;
    var colon := [Symbol(':')] + value;
    var inside := [Quotation(key)] + colon;
    NoLayout();
    LayoutCons(Symbol('}'), [], "", []);
    LayoutCons(Numeral(n), end, " ", [""]);
    LayoutCons(Symbol(':'), value, "", [" ", ""]);
    LayoutCons(Quotation(key), colon, "", ["", " ", ""]);
    LayoutCons(Symbol('{'), inside, "", ["", "", " ", ""]);
    assert [""] + [] == [""] && [" "] + [""] == [" ", ""] && [""] + [" ", ""] == ["", " ", ""];
    assert [""] + ["", " ", ""] == ["", "", " ", ""] && [""] + ["", "", " ", ""] == ["", "", "", " ", ""];
    Joined(Quote(key), Digits(n));
  }

  lemma Joined(key: string, n: string)
    ensures "" + "{" + ("" + key + ("" + ":" + (" " + n + ("" + "}" + "")))) == "{" + key + ": " + n + "}"
  {}

  lemma PiecesOfOne(key: string, n: nat)
    ensures Pieces(Obj(Member(key, Num(n), End)), [])
            == [Symbol('{')] + ([Quotation(key)] + ([Symbol(':')] + ([Numeral(n)] + ([Symbol('}')] + []))))
  {
    var ms := Member(key, Num(n), End);
    assert More(ms, []) == [Symbol('}')] + [];
    assert MemberPieces(ms, []) == [Quotation(key)] + ([Symbol(':')] + Pieces(Num(n), More(ms, [])));
  }

  lemma NoLayout()
    ensures Layout([], []) == ""
  {}

  lemma LayoutCons(p: Piece, ps: seq<Piece>, gap: string, gaps: seq<string>)
    requires |gaps| == |ps|
    ensures Layout([p] + ps, [gap] + gaps) == gap + Spelling(p) + Layout(ps, gaps)
  {
    assert ([p] + ps)[1..] == ps && ([gap] + gaps)[1..] == gaps;
  }

  /** A text as a person writes it, such as {"mqtt_timer": 5}. */
  lemma WrittenByHand(key: string, n: nat, pool: seq<Node>)
    requires PrintableText(key) && n < 0x8000 && pool == seq(MAX_KEYS, _ => ZERO_NODE)
    ensures var r := Parse("{" + Quote(key) + ": " + Digits(n) + "}", [], pool);
            r.Returned? && r.status == ParserOk && HoldsMembers(r.m.pool, 0, Member(key, Num(n), End))
  {
    var ms := Member(key, Num(n), End);
    OneFits(ms);
    OneMember(key, n);
    hide Parse, Layout, Pieces, PrintableMembers, Nodes, Height, HoldsMembers, CleanMembers, Digits, Quote;
    var text := "{" + Quote(key) + ": " + Digits(n) + "}";
    assert text + "" == text;
    SpacedRoundTrip(ms, ["", "", "", " ", ""], "", pool);
    ZeroIsClean(pool, 0, 1, ms);
  }

  lemma OneFits(ms: Members)
    requires ms.Member? && ms.rest.End? && !ms.value.Obj?
    ensures Nodes(Obj(ms)) == 1 && Height(Obj(ms)) == 1 && MoreNodes(ms) == 0
    ensures PrintableText(ms.key) && Printable(ms.value) ==> PrintableMembers(ms)
  {
    assert ms.rest == End && MoreNodes(End) == 0 && HeightBelow(End) == 0;
    assert Nodes(ms.value) == 0 && Height(ms.value) == 0 && MoreNodes(ms) == 0 && HeightBelow(ms) == 0;
  }

  lemma SettingText()
    ensures var r := Parse("{\"mqtt_timer\": 5}", [], seq(MAX_KEYS, _ => ZERO_NODE));
            r.Returned? && r.status == ParserOk && HoldsMembers(r.m.pool, 0, Member("mqtt_timer", Num(5), End))
  {
    assert "{" + Quote("mqtt_timer") + ": " + Digits(5) + "}" == "{\"mqtt_timer\": 5}";
    hide Parse, HoldsMembers, Quote, Digits;
    WrittenByHand("mqtt_timer", 5, seq(MAX_KEYS, _ => ZERO_NODE));
  }
}
