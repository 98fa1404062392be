/** What the parser accepts and builds: its loop does on every input what the recursive grammar says. */
module JsonGrammar {
  import opened Types
  import opened JsonLexer
  import opened JsonParser
  import opened JsonRoundTrip

  /** The nodes, how many of them are taken, and the contents of the last token that had some. */
  datatype Built = Built(pool: seq<Node>, top: nat, last: Contents)

  /** What reading yields: the input behind and what was built, or why it failed and what was built till then. */
  datatype Answer = Taken(rest: string, built: Built) | Refused(pool: seq<Node>) | NoSpace(pool: seq<Node>) | Endless

  predicate Whole(b: Built) {
    |b.pool| == 10 && b.top <= 10
  }

  /** A token that is no token. */
  function Failed(r: Lexed, pool: seq<Node>): Answer {
    if r.status == Hangs then Endless else Refused(pool)
  }

  /** A token without contents leaves those of the token before it. */
  function After(b: Built, r: Lexed): Built {
    b.(last := if r.contents.Some? then r.contents.value else b.last)
  }

  function Change(b: Built, i: nat, n: Node): Built
    requires i < |b.pool|
  {
    b.(pool := b.pool[i := n])
  }

  /** value = object | any other token, whose contents are stored in node `i` */
  function ReadValue(s: string, i: nat, b: Built, depth: nat): (a: Answer)
    requires Whole(b) && i < 10
    ensures a.Taken? ==> |a.rest| < |s| && Whole(a.built)
    decreases |s|, 1
  {
    var r := NextToken(s);
    if r.status != Status.Ok then Failed(r, b.pool)
    else if r.kind == LeftBrace then ReadObject(r.rest, Some(i), After(b, r), depth)
    else
      var c := After(b, r);
      Taken(r.rest, Change(c, i, c.pool[i].(value := c.last)))
  }

  /** The node that an object belongs to links to the object's first one. */
  function Owned(b: Built, own: Option<nat>): Built
    requires Whole(b) && (own.Some? ==> own.value < 10)
  {
    if own.None? then b else Change(b, own.value, b.pool[own.value].(isObject := true, v := Some(b.top)))
  }

  /** Behind its brace an object is `}` or a member. It takes a node, to which its own node links, and `depth`
      objects are around it. */
  function ReadObject(s: string, own: Option<nat>, b: Built, depth: nat): (a: Answer)
    requires Whole(b) && (own.Some? ==> own.value < 10)
    ensures a.Taken? ==> |a.rest| < |s| && Whole(a.built)
    decreases |s|, 0
  {
    var r := NextToken(s);
    if b.top >= 10 then NoSpace(b.pool)
    else
      var c := Owned(b, own);
      var d := After(c, r).(top := b.top + 1);
      if r.status != Status.Ok then Failed(r, c.pool)
      else if r.kind == RightBrace then Taken(r.rest, d)
      else if depth >= 10 then NoSpace(c.pool)
      else ReadMember(r.kind, r.rest, b.top, d, depth)
  }

  /** member = text `:` value ( `}` | `,` member ), behind its first token, in node `i` */
  function ReadMember(key: TokenType, s: string, i: nat, b: Built, depth: nat): (a: Answer)
    requires Whole(b) && i < 10
    ensures a.Taken? ==> |a.rest| < |s| && Whole(a.built)
    decreases |s|, 0
  {
    if key != StringToken then Refused(b.pool)
    else
      var colon, c := NextToken(s), Change(b, i, b.pool[i].(key := b.last));
      if colon.status != Status.Ok then Failed(colon, c.pool)
      else if colon.kind != Colon then Refused(c.pool)
      else if depth + 1 >= 10 then NoSpace(c.pool)
      else
        match ReadValue(colon.rest, i, After(c, colon), depth + 1)
        case Taken(t, d) => ReadMore(t, i, d, depth)
        case other => other
  }

  /** ... behind its value. A further member takes a node, to which the one before it links. */
  function ReadMore(s: string, i: nat, b: Built, depth: nat): (a: Answer)
    requires Whole(b) && i < 10
    ensures a.Taken? ==> |a.rest| < |s| && Whole(a.built)
    decreases |s|, 0
  {
    var next := NextToken(s);
    var c := After(b, next);
    if next.status != Status.Ok then Failed(next, b.pool)
    else if next.kind == RightBrace then Taken(next.rest, c)
    else if next.kind != Comma then Refused(b.pool)
    else if b.top >= 10 then NoSpace(b.pool[i := b.pool[i].(h := None)])
    else
      var key, d := NextToken(next.rest), Change(c, i, c.pool[i].(h := Some(b.top)));
      if key.status != Status.Ok then Failed(key, d.pool)
      else ReadMember(key.kind, key.rest, b.top, After(d, key).(top := b.top + 1), depth)
  }

  /** A text is one object. */
  function ReadText(s: string, pool: seq<Node>): Answer
    requires |pool| == 10
  {
    var r := NextToken(s);
    var b := After(Built(pool, 0, Unset), r);
    if r.status != Status.Ok then Failed(r, pool)
    else if r.kind != LeftBrace then Refused(pool)
    else ReadObject(r.rest, None, b, 0)
  }

  // ----- the machine follows the grammar -----

  /** What a machine has built, once the leaf in its token is stored. */
  function BuiltBy(m: Machine): Built
    requires InBounds(m)
  {
    Built(Stored(m, m.stack).pool, m.top, m.token.contents)
  }

  ghost predicate ReturnsWith(m: Machine, status: ParserStatus, pool: seq<Node>)
    requires InBounds(m)
  {
    Run(m).Returned? && Run(m).status == status && Run(m).m.pool == pool
  }

  /** The run from `m` gets behind what was read, or ends with the error. */
  ghost predicate Follows(m: Machine, q: Machine, st: seq<Frame>, a: Answer) {
    && InBounds(m)
    && match a
       case Taken(rest, built) =>
         Reaches(m, q) && q.stack == st && q.input == rest && Fine(q) && BuiltBy(q) == built
       case Refused(pool) => ReturnsWith(m, ParserBadFormat, pool)
       case NoSpace(pool) => ReturnsWith(m, NoMoreSpace, pool)
       case Endless => Run(m) == Hung
  }

  lemma FollowsThrough(m: Machine, b: Machine, q: Machine, st: seq<Frame>, a: Answer)
    requires Reaches(m, b) && Follows(b, q, st, a)
    ensures Follows(m, q, st, a)
  {}

  /** An error that is left to the waiting frames passes through all of them. */
  lemma {:induction false} Unwinds(m: Machine)
    requires InBounds(m) && Waiting(m.stack) && m.ret == ParserBadFormat
    ensures ReturnsWith(m, ParserBadFormat, m.pool)
    decreases |m.stack|
  {
    Unfold(m);
    hide Run, Take, NextMember;
    if m.stack != [] {
      WaitingFrames(m.stack);
      var n := m.(stack := m.stack[..|m.stack| - 1]);
      assert Step(m) == Go(n);
      assert Waiting(n.stack);
      Unwinds(n);
    }
  }

  /** How one step ends, when it does not go on. */
  ghost predicate Ends(m: Machine, st: seq<Frame>, a: Answer)
    requires InBounds(m) && m.stack != []
  {
    match a
    case Taken(_, _) => false
    case Refused(pool) =>
      && !Step(m).Stuck? && Step(m).m.pool == pool
      && (Step(m).Stop? ==> Step(m).status == ParserBadFormat)
      && (Step(m).Go? ==> Step(m).m.stack == st && Step(m).m.ret == ParserBadFormat)
    case NoSpace(pool) => Step(m).Stop? && Step(m).status == NoMoreSpace && Step(m).m.pool == pool
    case Endless => Step(m).Stuck?
  }

  lemma StepEnds(m: Machine, q: Machine, st: seq<Frame>, a: Answer)
    requires InBounds(m) && m.stack != [] && m.stack[..|m.stack| - 1] == st && Ends(m, st, a)
    ensures Follows(m, q, st, a)
  {
    hide Step, Run;
    Unfold(m);
    if a.Refused? && Step(m).Go? { Unwinds(Step(m).m); }
  }

  /** The first token of a value. */
  lemma CallStep(m: Machine, st: seq<Frame>, root: bool)
    requires InBounds(m) && m.stack == st + [Call(root)]
    ensures m.stack[..|m.stack| - 1] == st
    ensures var r := NextToken(m.input);
            && (r.status != Status.Ok ==> Ends(m, st, Failed(r, m.pool)))
            && (r.status == Status.Ok && r.kind != LeftBrace ==>
                  if root then Ends(m, st, Refused(m.pool))
                  else
                    && Step(m).Go? && Step(m).m.ret == LeafToken
                    && Step(m).m == m.(stack := st, input := r.rest, ret := LeafToken, token := Step(m).m.token)
                    && Step(m).m.token.contents == if r.contents.Some? then r.contents.value else m.token.contents)
  {
    hide NextToken;
    assert m.stack[..|m.stack| - 1] == st;
  }

  /** The brace and the first token of an object. */
  lemma ObjectStep(m: Machine, st: seq<Frame>, root: bool)
    requires InBounds(m) && m.stack == st + [Call(root)]
    requires NextToken(m.input).status == Status.Ok && NextToken(m.input).kind == LeftBrace
    ensures m.stack[..|m.stack| - 1] == st && |m.pool| == 10 && m.top <= 10 && InPool(m.previous)
    ensures var first := NextToken(m.input);
            var r, b := NextToken(first.rest), After(Built(m.pool, m.top, m.token.contents), first);
            if m.top >= 10 then Ends(m, st, NoSpace(m.pool))
            else
              var c := Owned(b, m.previous);
              var d := After(c, r).(top := b.top + 1);
              if r.status != Status.Ok then Ends(m, st, Failed(r, c.pool))
              else if r.kind != RightBrace && |st| >= 10 then Ends(m, st, NoSpace(c.pool))
              else
                && Step(m).Go? && Step(m).m.input == r.rest && Step(m).m.pool == d.pool && Step(m).m.top == d.top
                && Step(m).m.token == Token(r.kind, d.last)
                && (if r.kind == RightBrace then Step(m).m.stack == st && Step(m).m.ret == ParserOk
                    else Step(m).m.stack == st + [CallLoop] && Step(m).m.current == Some(m.top))
  {
    hide NextToken;
    assert m.stack[..|m.stack| - 1] == st;
  }

  /** The colon of a member. */
  lemma KeyStep(m: Machine, st: seq<Frame>, i: nat)
    requires InBounds(m) && m.stack == st + [CallLoop] && m.current == Some(i)
    ensures m.stack[..|m.stack| - 1] == st
    ensures if m.token.kind != StringToken then Ends(m, st, Refused(m.pool))
            else
              var r, b := NextToken(m.input), Built(m.pool, m.top, m.token.contents);
              var c := Change(b, i, b.pool[i].(key := b.last));
              if r.status != Status.Ok then Ends(m, st, Failed(r, c.pool))
              else if r.kind != Colon then Ends(m, st, Refused(c.pool))
              else if |st| + 1 >= 10 then Ends(m, st, NoSpace(c.pool))
              else
                && Step(m).Go? && Step(m).m.input == r.rest && Step(m).m.pool == c.pool && Step(m).m.top == m.top
                && Step(m).m.token.contents == After(c, r).last
                && Step(m).m.current == Step(m).m.previous == Some(i)
                && Step(m).m.stack == st + [ResumeLoop(i)] + [Call(false)]
  {
    hide NextToken;
    assert m.stack[..|m.stack| - 1] == st;
  }

  /** What is behind a value. */
  lemma MoreStep(m: Machine, st: seq<Frame>, i: nat)
    requires InBounds(m) && Fine(m) && m.stack == st + [ResumeLoop(i)]
    ensures m.stack[..|m.stack| - 1] == st && i < 10
    ensures var r, b := NextToken(m.input), BuiltBy(m);
            var c := After(b, r);
            if r.status != Status.Ok then Ends(m, st, Failed(r, b.pool))
            else if r.kind == RightBrace then
              && Step(m).Go? && Step(m).m.stack == st && Step(m).m.input == r.rest && Step(m).m.ret == ParserOk
              && Built(Step(m).m.pool, Step(m).m.top, Step(m).m.token.contents) == c
            else if r.kind != Comma then Ends(m, st, Refused(b.pool))
            else if m.top >= 10 then Ends(m, st, NoSpace(b.pool[i := b.pool[i].(h := None)]))
            else
              var key, d := NextToken(r.rest), Change(c, i, c.pool[i].(h := Some(b.top)));
              if key.status != Status.Ok then Ends(m, st, Failed(key, d.pool))
              else
                && Step(m).Go? && Step(m).m.stack == st + [CallLoop] && Step(m).m.input == key.rest
                && Step(m).m.pool == d.pool && Step(m).m.top == m.top + 1 && Step(m).m.current == Some(m.top)
                && Step(m).m.token == Token(key.kind, After(d, key).last)
  {
    assert m.stack[..|m.stack| - 1] == st;
    ResumedIs(m, st, i);
    var n := m.(stack := st, pool := BuiltBy(m).pool);
    var r := NextToken(m.input);
    TakeIs(n);
    BuiltWhole(m);
    hide NextToken, NextMember, Step, Take, BuiltBy, Stored;
    if r.status == Status.Ok && r.kind == Comma {
      MemberStep(n.(input := r.rest, token := Token(Comma, After(BuiltBy(m), r).last)), i);
    }
  }

  lemma ResumedIs(m: Machine, st: seq<Frame>, i: nat)
    requires InBounds(m) && Fine(m) && m.stack == st + [ResumeLoop(i)]
    ensures i < 10 && |m.pool| == 10 && m.top <= 10 && |st| < 10
    ensures BuiltBy(m).top == m.top && BuiltBy(m).last == m.token.contents && |BuiltBy(m).pool| == 10
    ensures Step(m) ==
              match Take(m.(stack := st, pool := BuiltBy(m).pool))
              case Go(b) =>
                if b.token.kind == RightBrace then Go(b.(ret := ParserOk))
                else if b.token.kind != Comma then Go(b.(ret := ParserBadFormat))
                else NextMember(b, i)
              case other => other
  {
    hide NextToken, NextMember, Take;
    assert m.stack[..|m.stack| - 1] == st;
  }

  lemma TakeIs(m: Machine)
    ensures var r := NextToken(m.input);
            Take(m) ==
              if r.status == Hangs then Stuck
              else if r.status != Status.Ok then Stop(ParserBadFormat, m.(input := r.rest))
              else
                Go(m.(input := r.rest,
                      token := Token(r.kind, if r.contents.Some? then r.contents.value else m.token.contents)))
  {
    hide NextToken;
  }

  /** The node of a further member, and its first token. */
  lemma MemberStep(n: Machine, i: nat)
    requires |n.pool| == MAX_KEYS && n.top <= MAX_KEYS && i < MAX_KEYS && |n.stack| < STACK_SIZE
    ensures var r, key := NextMember(n, i), NextToken(n.input);
            var pool := n.pool[i := n.pool[i].(h := Some(n.top))];
            if n.top >= 10 then r.Stop? && r.status == NoMoreSpace && r.m.pool == n.pool[i := n.pool[i].(h := None)]
            else if key.status == Hangs then r.Stuck?
            else if key.status != Status.Ok then r.Stop? && r.status == ParserBadFormat && r.m.pool == pool
            else
              && r.Go? && r.m.stack == n.stack + [CallLoop] && r.m.input == key.rest && r.m.pool == pool
              && r.m.top == n.top + 1 && r.m.current == Some(n.top)
              && r.m.token == Token(key.kind, if key.contents.Some? then key.contents.value else n.token.contents)
  {
    hide NextToken;
  }

  lemma Arrives(m: Machine, q: Machine, st: seq<Frame>)
    requires Reaches(m, q) && q.stack == st && Fine(q)
    ensures Follows(m, q, st, Taken(q.input, BuiltBy(q)))
  {}

  /** Without a leaf nothing has to be stored. */
  lemma NothingStored(q: Machine)
    requires InBounds(q) && q.ret == ParserOk
    ensures Fine(q) && BuiltBy(q) == Built(q.pool, q.top, q.token.contents)
  {}

  lemma LeafStored(q: Machine, i: nat)
    requires InBounds(q) && q.ret == LeafToken && q.current == Some(i)
    ensures Fine(q) && i < |q.pool|
    ensures BuiltBy(q) == Built(q.pool[i := q.pool[i].(value := q.token.contents)], q.top, q.token.contents)
  {}

  lemma {:induction false} FollowsValue(m: Machine, st: seq<Frame>, i: nat) returns (q: Machine)
    requires InBounds(m) && m.stack == st + [Call(false)] && m.current == m.previous == Some(i)
    ensures i < 10 && |m.pool| == 10 && m.top <= 10
    ensures Follows(m, q, st, ReadValue(m.input, i, Built(m.pool, m.top, m.token.contents), |st|))
    decreases |m.input|, 4
  {
    Sizes(m);
    assert i < 10 by { CurrentInPool(m); }
    hide NextToken, Step, Run, InBounds, Ends, Follows, ReadObject, Fine, BuiltBy;
    q := m;
    var r := NextToken(m.input);
    CallStep(m, st, false);
    StepRuns(m);
    if r.status != Status.Ok {
      StepEnds(m, q, st, Failed(r, m.pool));
    } else if r.kind == LeftBrace {
      q := FollowsObject(m, st, false);
    } else {
      q := Step(m).m;
      assert InBounds(q) by { StepGoes(m); }
      LeafStored(q, i);
      Arrives(m, q, st);
    }
  }

  lemma CurrentInPool(m: Machine)
    requires InBounds(m) && m.current.Some?
    ensures m.current.value < 10
  {}

  lemma StepGoes(m: Machine)
    requires InBounds(m) && m.stack != [] && Step(m).Go?
    ensures InBounds(Step(m).m)
  {
    StepInBounds(m);
  }

  lemma {:induction false} FollowsObject(m: Machine, st: seq<Frame>, root: bool) returns (q: Machine)
    requires InBounds(m) && m.stack == st + [Call(root)]
    requires NextToken(m.input).status == Status.Ok && NextToken(m.input).kind == LeftBrace
    ensures |m.pool| == 10 && m.top <= 10 && InPool(m.previous)
    ensures var r := NextToken(m.input);
            var a := ReadObject(r.rest, m.previous, After(Built(m.pool, m.top, m.token.contents), r), |st|);
            Follows(m, q, st, a) && (a.Taken? ==> q.ret == ParserOk)
    decreases |m.input|, 3
  {
    Sizes(m);
    hide NextToken, Step, Run, InBounds, Ends, Follows, ReadMember, Fine, BuiltBy, After, Owned;
    q := m;
    var first := NextToken(m.input);
    var r, b := NextToken(first.rest), After(Built(m.pool, m.top, m.token.contents), first);
    AfterKeeps(Built(m.pool, m.top, m.token.contents), first);
    var a := ReadObject(first.rest, m.previous, b, |st|);
    ObjectIs(first.rest, m.previous, b, |st|);
    hide ReadObject;
    ObjectStep(m, st, root);
    StepRuns(m);
    if m.top >= 10 {
      StepEnds(m, q, st, NoSpace(m.pool));
    } else {
      var c := Owned(b, m.previous);
      if r.status != Status.Ok {
        StepEnds(m, q, st, Failed(r, c.pool));
      } else if r.kind == RightBrace {
        q := Step(m).m;
        StepGoes(m);
        NothingStored(q);
        Arrives(m, q, st);
      } else if |st| >= 10 {
        StepEnds(m, q, st, NoSpace(c.pool));
      } else {
        var n := Step(m).m;
        StepGoes(m);
        q := FollowsMember(n, st, m.top);
        FollowsThrough(m, n, q, st, a);
      }
    }
  }

  lemma ObjectIs(s: string, own: Option<nat>, b: Built, depth: nat)
    requires Whole(b) && (own.Some? ==> own.value < 10)
    ensures var r := NextToken(s);
            var d := After(Owned(b, own), r).(top := b.top + 1);
            ReadObject(s, own, b, depth) ==
              if b.top >= 10 then NoSpace(b.pool)
              else if r.status != Status.Ok then Failed(r, Owned(b, own).pool)
              else if r.kind == RightBrace then Taken(r.rest, d)
              else if depth >= 10 then NoSpace(Owned(b, own).pool)
              else ReadMember(r.kind, r.rest, b.top, d, depth)
  {
    hide NextToken, ReadMember;
  }

  lemma AfterKeeps(b: Built, r: Lexed)
    ensures After(b, r).pool == b.pool && After(b, r).top == b.top
  {}

  lemma {:induction false} FollowsMember(m: Machine, st: seq<Frame>, i: nat) returns (q: Machine)
    requires InBounds(m) && m.stack == st + [CallLoop] && m.current == Some(i)
    ensures i < 10 && |m.pool| == 10 && m.top <= 10
    ensures var a := ReadMember(m.token.kind, m.input, i, Built(m.pool, m.top, m.token.contents), |st|);
            Follows(m, q, st, a) && (a.Taken? ==> q.ret == ParserOk)
    decreases |m.input|, 3
  {
    Sizes(m);
    CurrentInPool(m);
    hide NextToken, Step, Run, InBounds, Ends, Follows, ReadValue, ReadMore, Fine, BuiltBy;
    q := m;
    var r := NextToken(m.input);
    KeyStep(m, st, i);
    StepRuns(m);
    if m.token.kind != StringToken {
      StepEnds(m, q, st, Refused(m.pool));
    } else {
      var pool := m.pool[i := m.pool[i].(key := m.token.contents)];
      if r.status != Status.Ok {
        StepEnds(m, q, st, Failed(r, pool));
      } else if r.kind != Colon {
        StepEnds(m, q, st, Refused(pool));
      } else if |st| + 1 >= 10 {
        StepEnds(m, q, st, NoSpace(pool));
      } else {
        StepGoes(m);
        q := FollowsTurn(m, Step(m).m, st, i);
      }
    }
  }

  /** The value of a member and what is behind it. */
  lemma {:induction false} FollowsTurn(m: Machine, n: Machine, st: seq<Frame>, i: nat) returns (q: Machine)
    requires InBounds(n) && Reaches(m, n) && n.stack == st + [ResumeLoop(i)] + [Call(false)] && |n.input| < |m.input|
    requires n.current == n.previous == Some(i)
    ensures i < 10 && |n.pool| == 10 && n.top <= 10
    ensures var v := ReadValue(n.input, i, Built(n.pool, n.top, n.token.contents), |st| + 1);
            var a := if v.Taken? then ReadMore(v.rest, i, v.built, |st|) else v;
            Follows(m, q, st, a) && (a.Taken? ==> q.ret == ParserOk)
    decreases |m.input|, 2
  {
    Sizes(n);
    CurrentInPool(n);
    hide NextToken, Step, Run, InBounds, Ends, ReadValue, ReadMore, Fine, Reaches, BuiltBy, ReturnsWith;
    var a := ReadValue(n.input, i, Built(n.pool, n.top, n.token.contents), |st| + 1);
    var inner := st + [ResumeLoop(i)];
    q := FollowsValue(n, inner, i);
    FollowsThrough(m, n, q, inner, a);
    if a.Taken? {
      var c := q;
      Through(m, c);
      q := FollowsMore(c, st, i);
      FollowsThrough(m, c, q, st, ReadMore(c.input, i, BuiltBy(c), |st|));
    }
  }

  lemma BuiltWhole(m: Machine)
    requires InBounds(m)
    ensures Whole(BuiltBy(m))
  {}

  lemma {:induction false} FollowsMore(m: Machine, st: seq<Frame>, i: nat) returns (q: Machine)
    requires InBounds(m) && Fine(m) && m.stack == st + [ResumeLoop(i)]
    ensures Whole(BuiltBy(m)) && i < 10
    ensures var a := ReadMore(m.input, i, BuiltBy(m), |st|);
            Follows(m, q, st, a) && (a.Taken? ==> q.ret == ParserOk)
    decreases |m.input|, 3
  {
    BuiltWhole(m);
    var b, r := BuiltBy(m), NextToken(m.input);
    var c := After(b, r);
    var key := NextToken(r.rest);
    MoreStep(m, st, i);
    MoreIs(m.input, i, b, |st|);
    AfterKeeps(b, r);
    hide NextToken, Step, Run, InBounds, Ends, Follows, ReadMember, ReadMore, Fine, BuiltBy, After;
    if r.status == Status.Ok && r.kind == Comma && b.top < 10 && key.status == Status.Ok {
      StepRuns(m);
      StepGoes(m);
      AfterKeeps(Change(c, i, c.pool[i].(h := Some(b.top))), key);
      hide Change;
      var n := Step(m).m;
      q := FollowsMember(n, st, m.top);
      FollowsThrough(m, n, q, st, ReadMore(m.input, i, b, |st|));
    } else {
      q := FollowsEnd(m, st, i);
    }
  }

  /** ... when no further member is read. */
  lemma FollowsEnd(m: Machine, st: seq<Frame>, i: nat) returns (q: Machine)
    requires InBounds(m) && Fine(m) && m.stack == st + [ResumeLoop(i)] && Whole(BuiltBy(m)) && i < 10
    requires var r := NextToken(m.input);
             !(r.status == Status.Ok && r.kind == Comma && m.top < 10 && NextToken(r.rest).status == Status.Ok)
    ensures var a := ReadMore(m.input, i, BuiltBy(m), |st|);
            Follows(m, q, st, a) && (a.Taken? ==> q.ret == ParserOk)
  {
    q := m;
    var b, r := BuiltBy(m), NextToken(m.input);
    assert b.top == m.top;
    MoreStep(m, st, i);
    MoreIs(m.input, i, b, |st|);
    hide NextToken, Step, Run, InBounds, Ends, Follows, ReadMember, ReadMore, Fine, BuiltBy, After, Change;
    if r.status == Status.Ok && r.kind == RightBrace {
      StepRuns(m);
      StepGoes(m);
      q := Step(m).m;
      NothingStored(q);
      Arrives(m, q, st);
    } else {
      StepEnds(m, q, st, ReadMore(m.input, i, b, |st|));
    }
  }

  lemma MoreIs(s: string, i: nat, b: Built, depth: nat)
    requires Whole(b) && i < 10
    ensures var next := NextToken(s);
            var c := After(b, next);
            ReadMore(s, i, b, depth) ==
              if next.status != Status.Ok then Failed(next, b.pool)
              else if next.kind == RightBrace then Taken(next.rest, c)
              else if next.kind != Comma then Refused(b.pool)
              else if b.top >= 10 then NoSpace(b.pool[i := b.pool[i].(h := None)])
              else
                var key, d := NextToken(next.rest), Change(c, i, c.pool[i].(h := Some(b.top)));
                if key.status != Status.Ok then Failed(key, d.pool)
                else ReadMember(key.kind, key.rest, b.top, After(d, key).(top := b.top + 1), depth)
  {
    hide NextToken, ReadMember;
  }

  /** From an empty stack the parser does on every input, in any pool, what the grammar says: it accepts the same
      texts, refuses others for the same reason, and either way has built the same nodes. */
  lemma ParsesByGrammar(s: string, pool: seq<Node>)
    requires |pool| == 10
    ensures var r := Parse(s, [], pool);
            match ReadText(s, pool)
            case Taken(rest, built) =>
              && r.Returned? && r.status == ParserOk && r.m.input == rest
              && r.m.pool == built.pool && r.m.top == built.top
            case Refused(left) => r.Returned? && r.status == ParserBadFormat && r.m.pool == left
            case NoSpace(left) => r.Returned? && r.status == NoMoreSpace && r.m.pool == left
            case Endless => r == Hung
  {
    hide NextToken, Step, Run, Ends, ReadObject, BuiltBy;
    var m := Machine(s, [Call(true)], 0, pool, None, None, Token(NoToken, Unset), ParserOk);
    assert m.stack == [] + [Call(true)];
    assert Parse(s, [], pool) == Run(m);
    var r := NextToken(s);
    CallStep(m, [], true);
    if r.status != Status.Ok {
      StepEnds(m, m, [], Failed(r, pool));
    } else if r.kind != LeftBrace {
      StepEnds(m, m, [], Refused(pool));
    } else {
      var q := FollowsObject(m, [], true);
      var a := ReadObject(r.rest, None, After(Built(pool, 0, Unset), r), 0);
      if a.Taken? {
        NothingStored(q);
        Unfold(q);
      }
    }
  }

  /** The grammar is wider than that of JSON: a comma may stand for a value. It has no contents, so the member
      gets those of the last token that had some, which is its own key. */
  lemma CommaAsValue(pool: seq<Node>)
    requires |pool| == 10
    ensures var r := Parse("{\"a\":,}", [], pool);
            && r.Returned? && r.status == ParserOk && r.m.input == "" && r.m.top == 1
            && r.m.pool == pool[0 := pool[0].(key := Text("a"), value := Text("a"))]
  {
    CommaTokens();
    ReadsComma(pool);
    hide NextToken, Parse, ReadObject;
    ParsesByGrammar("{\"a\":,}", pool);
  }

  lemma ReadsComma(pool: seq<Node>)
    requires |pool| == 10
    requires NextToken("\"a\":,}") == Lexed(Status.Ok, StringToken, Some(Text("a")), ":,}")
    requires NextToken(":,}") == Lexed(Status.Ok, Colon, None, ",}")
    requires NextToken(",}") == Lexed(Status.Ok, Comma, None, "}")
    requires NextToken("}") == Lexed(Status.Ok, RightBrace, None, "")
    ensures ReadObject("\"a\":,}", None, Built(pool, 0, Unset), 0)
         == Taken("", Built(pool[0 := pool[0].(key := Text("a"), value := Text("a"))], 1, Text("a")))
  {
    hide NextToken;
    var b := Built(pool, 1, Text("a"));
    var c := Change(b, 0, pool[0].(key := Text("a")));
    var d := Change(c, 0, c.pool[0].(value := Text("a")));
    assert ReadValue(",}", 0, c, 1) == Taken("}", d);
    assert ReadMember(StringToken, ":,}", 0, b, 0) == ReadMore("}", 0, d, 0) == Taken("", d);
    assert d.pool == pool[0 := pool[0].(key := Text("a"), value := Text("a"))];
  }

  lemma CommaTokens()
    ensures NextToken("{\"a\":,}") == Lexed(Status.Ok, LeftBrace, None, "\"a\":,}")
    ensures NextToken("\"a\":,}") == Lexed(Status.Ok, StringToken, Some(Text("a")), ":,}")
    ensures NextToken(":,}") == Lexed(Status.Ok, Colon, None, ",}")
    ensures NextToken(",}") == Lexed(Status.Ok, Comma, None, "}")
    ensures NextToken("}") == Lexed(Status.Ok, RightBrace, None, "")
  {
    hide NextToken;
    assert "{\"a\":,}" == ['{'] + "\"a\":,}" && "\"a\":,}" == "\"" + "a" + "\"" + ":,}";
    assert ":,}" == [':'] + ",}" && ",}" == [','] + "}" && "}" == ['}'] + "";
    ReadsSymbol('{', "\"a\":,}");
    JsonLexer.ReadsText("a", ":,}");
    ReadsSymbol(':', ",}");
    ReadsSymbol(',', "}");
    ReadsSymbol('}', "");
  }
}
