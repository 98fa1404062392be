/** The parser: a recursive grammar run on an explicit stack. One iteration of its loop is a step
    of a machine; a node is named by its place in the pool. */
module JsonParser {
  import opened Types
  import opened JsonLexer

  const MAX_KEYS := 10
  const STACK_SIZE := MAX_KEYS

  datatype ParserStatus = ParserOk | ParserBadFormat | NoMoreSpace | LeafToken

  /** A node of the pool. A node of memory that was never written has no key. */
  datatype Node = Node(key: Contents, isObject: bool, value: Contents, h: Option<nat>, v: Option<nat>)

  const ZERO_NODE := Node(Unset, false, Unset, None, None)

  datatype Frame = Call(root: bool) | CallLoop | ResumeLoop(node: nat)

  datatype Token = Token(kind: TokenType, contents: Contents)

  /** The parser between two iterations; `top` is the number of allocated nodes. */
  datatype Machine = Machine(
    input: string, stack: seq<Frame>, top: nat, pool: seq<Node>,
    current: Option<nat>, previous: Option<nat>, token: Token, ret: ParserStatus)

  /** `Stop` is an early return, which leaves the stack as it is; `Stuck` is a tokenizer that hangs. */
  datatype Outcome = Go(m: Machine) | Stop(status: ParserStatus, m: Machine) | Stuck

  predicate InPool(i: Option<nat>) {
    i.None? || i.value < MAX_KEYS
  }

  /** The frames of loops that wait for a value. */
  ghost predicate Waiting(stack: seq<Frame>) {
    forall i | 0 <= i < |stack| :: stack[i].ResumeLoop? && stack[i].node < MAX_KEYS
  }

  /** The pool, the stack index and the node pointers are in bounds, and the node that the next
      frame works on exists. */
  ghost predicate InBounds(m: Machine) {
    && |m.pool| == MAX_KEYS && m.top <= MAX_KEYS && |m.stack| <= STACK_SIZE
    && InPool(m.current) && InPool(m.previous)
    && (m.ret == LeafToken ==> m.current.Some?)
    && (m.stack != [] ==>
          && Waiting(m.stack[..|m.stack| - 1])
          && (Last(m.stack).ResumeLoop? ==> Last(m.stack).node < MAX_KEYS)
          && (Last(m.stack) == CallLoop || Last(m.stack) == Call(false) ==> m.current.Some?))
  }

  function Last(s: seq<Frame>): Frame
    requires s != []
  {
    s[|s| - 1]
  }

  function Push(m: Machine, f: Frame): Machine {
    m.(stack := m.stack + [f])
  }

  predicate Full(m: Machine) {
    |m.stack| >= STACK_SIZE
  }

  /** ASSERT_TOKEN: the next token, unless the tokenizer fails. */
  function Take(m: Machine): (r: Outcome)
    ensures |m.input| <= 255 ==> !r.Stuck?
    ensures r.Go? ==> |r.m.input| < |m.input|
    ensures r.Go? ==> r.m == m.(input := r.m.input, token := r.m.token)
    ensures r.Stop? ==> r.status == ParserBadFormat && r.m == m.(input := r.m.input)
  {
    var r := NextToken(m.input);
    if r.status == Hangs then Stuck
    else
      var n := m.(input := r.rest);
      if r.status != Ok then Stop(ParserBadFormat, n)
      else Go(n.(token := Token(r.kind, if r.contents.Some? then r.contents.value else m.token.contents)))
  }

  function SetNode(m: Machine, i: nat, n: Node): Machine
    requires i < |m.pool|
  {
    m.(pool := m.pool[i := n])
  }

  /** CALL */
  function CallOutcome(m: Machine, root: bool): (r: Outcome)
    requires |m.pool| == MAX_KEYS && InPool(m.previous) && m.top <= MAX_KEYS
    ensures r.Go? ==> |r.m.input| < |m.input| || (r.m.input == m.input && r.m.stack == m.stack)
    ensures |m.input| <= 255 ==> !r.Stuck?
  {
    match Take(m)
    case Go(n) => Called(n, root)
    case other => other
  }

  /** ... behind its first token. */
  function Called(m: Machine, root: bool): (r: Outcome)
    requires |m.pool| == MAX_KEYS && InPool(m.previous) && m.top <= MAX_KEYS
    ensures r.Go? ==> |r.m.input| < |m.input| || (r.m.input == m.input && r.m.stack == m.stack)
    ensures |m.input| <= 255 ==> !r.Stuck?
  {
    if root && m.token.kind != LeftBrace then Go(m.(ret := ParserBadFormat))
    else if m.token.kind != LeftBrace then Go(m.(ret := LeafToken))
    else if m.top >= MAX_KEYS then Stop(NoMoreSpace, m.(current := None))
    else
      var a := m.(current := Some(m.top), top := m.top + 1);
      var b := match a.previous
               case None => a
               case Some(p) => SetNode(a, p, a.pool[p].(isObject := true, v := a.current));
      match Take(b)
      case Go(c) =>
        if c.token.kind == RightBrace then Go(c.(ret := ParserOk))
        else if Full(c) then Stop(NoMoreSpace, c)
        else Go(Push(c, CallLoop))
      case other => other
  }

  /** CALL_LOOP */
  function Keyed(m: Machine): (r: Outcome)
    requires |m.pool| == MAX_KEYS && InPool(m.current) && m.top <= MAX_KEYS && m.current.Some?
    ensures r.Go? ==> |r.m.input| < |m.input| || (r.m.input == m.input && r.m.stack == m.stack)
    ensures |m.input| <= 255 ==> !r.Stuck?
  {
    if m.token.kind != StringToken then Go(m.(ret := ParserBadFormat))
    else
      var i := m.current.value;
      match Take(SetNode(m, i, m.pool[i].(key := m.token.contents)))
      case Go(b) =>
        if b.token.kind != Colon then Go(b.(ret := ParserBadFormat))
        else
          var c := b.(previous := m.current);
          if Full(c) then Stop(NoMoreSpace, c)
          else
            var d := Push(c, ResumeLoop(i));
            if Full(d) then Stop(NoMoreSpace, d) else Go(Push(d, Call(false)))
      case other => other
  }

  /** RESUME_LOOP behind a comma: a node for the next member, and its key. */
  function NextMember(m: Machine, node: nat): (r: Outcome)
    requires |m.pool| == MAX_KEYS && m.top <= MAX_KEYS && node < MAX_KEYS
    ensures r.Go? ==> |r.m.input| < |m.input|
    ensures |m.input| <= 255 ==> !r.Stuck?
  {
    if m.top >= MAX_KEYS then Stop(NoMoreSpace, SetNode(m, node, m.pool[node].(h := None)))
    else
      var n := SetNode(m, node, m.pool[node].(h := Some(m.top)));
      match Take(n.(previous := Some(node), current := Some(m.top), top := m.top + 1))
      case Go(d) => if Full(d) then Stop(NoMoreSpace, d) else Go(Push(d, CallLoop))
      case other => other
  }

  /** RESUME_LOOP */
  function Resumed(m: Machine, node: nat): (r: Outcome)
    requires |m.pool| == MAX_KEYS && InPool(m.current) && m.top <= MAX_KEYS && node < MAX_KEYS
    requires m.ret == LeafToken ==> m.current.Some?
    ensures r.Go? ==> |r.m.input| < |m.input| || (r.m.input == m.input && r.m.stack == m.stack)
    ensures |m.input| <= 255 ==> !r.Stuck?
  {
    if m.ret != LeafToken && m.ret != ParserOk then Go(m.(ret := ParserBadFormat))
    else
      var a := if m.ret == LeafToken
               then SetNode(m, m.current.value, m.pool[m.current.value].(value := m.token.contents))
               else m;
      match Take(a)
      case Go(b) =>
        if b.token.kind == RightBrace then Go(b.(ret := ParserOk))
        else if b.token.kind != Comma then Go(b.(ret := ParserBadFormat))
        else NextMember(b, node)
      case other => other
  }

  /** One iteration of the loop. */
  function Step(m: Machine): (r: Outcome)
    requires InBounds(m) && m.stack != []
    ensures r.Go? ==> |r.m.input| < |m.input| || (r.m.input == m.input && |r.m.stack| < |m.stack|)
    ensures |m.input| <= 255 ==> !r.Stuck?
  {
    var pop := Last(m.stack);
    var m := m.(stack := m.stack[..|m.stack| - 1]);
    match pop
    case Call(root) => CallOutcome(m, root)
    case CallLoop => Keyed(m)
    case ResumeLoop(node) => Resumed(m, node)
  }

  /** What holds while a frame is worked on. */
  ghost predicate Popped(m: Machine) {
    && |m.pool| == MAX_KEYS && m.top <= MAX_KEYS && |m.stack| < STACK_SIZE && Waiting(m.stack)
    && InPool(m.current) && InPool(m.previous) && (m.ret == LeafToken ==> m.current.Some?)
  }

  /** The next step starts in bounds; an early return leaves only waiting frames. */
  ghost predicate Safe(r: Outcome) {
    match r
    case Go(m) => InBounds(m)
    case Stop(_, m) => |m.pool| == MAX_KEYS && |m.stack| <= STACK_SIZE && Waiting(m.stack)
    case Stuck => true
  }

  lemma WaitingFrames(s: seq<Frame>)
    requires Waiting(s)
    ensures s != [] ==> Waiting(s[..|s| - 1]) && Last(s).ResumeLoop? && Last(s).node < MAX_KEYS
  {
  }

  /** A frame pushed on waiting ones. */
  lemma Pushed(s: seq<Frame>, f: Frame)
    requires Waiting(s)
    ensures Last(s + [f]) == f && (s + [f])[..|s + [f]| - 1] == s
    ensures f.ResumeLoop? && f.node < MAX_KEYS ==> Waiting(s + [f])
  {
  }

  lemma CalledInBounds(m: Machine, root: bool)
    requires Popped(m) && (root || m.current.Some?)
    ensures Safe(Called(m, root))
  {
    hide Take, Waiting, Last;
    WaitingFrames(m.stack);
    Pushed(m.stack, CallLoop);
  }

  lemma KeyedInBounds(m: Machine)
    requires Popped(m) && m.current.Some?
    ensures Safe(Keyed(m))
  {
    hide Take, Waiting, Last;
    var frame := ResumeLoop(m.current.value);
    WaitingFrames(m.stack);
    Pushed(m.stack, frame);
    WaitingFrames(m.stack + [frame]);
    Pushed(m.stack + [frame], Call(false));
  }

  lemma ResumedInBounds(m: Machine, node: nat)
    requires Popped(m) && node < MAX_KEYS
    ensures Safe(Resumed(m, node))
  {
    hide Take, Waiting, Last;
    WaitingFrames(m.stack);
    Pushed(m.stack, CallLoop);
  }

  /** The stack index stays in bounds, and so does every node pointer. */
  lemma StepInBounds(m: Machine)
    requires InBounds(m) && m.stack != []
    ensures Safe(Step(m))
  {
    hide NextToken, Called, Keyed, Resumed;
    var n := m.(stack := m.stack[..|m.stack| - 1]);
    match Last(m.stack)
    case Call(root) => if Take(n).Go? { CalledInBounds(Take(n).m, root); }
    case CallLoop => KeyedInBounds(n);
    case ResumeLoop(node) => ResumedInBounds(n, node);
  }

  datatype Result = Returned(status: ParserStatus, m: Machine) | Hung

  /** The loop. It ends on any input: an iteration consumes input or pops a frame. */
  function Run(m: Machine): (r: Result)
    requires InBounds(m)
    decreases |m.input|, |m.stack|
  {
    if m.stack == [] then Returned(m.ret, m)
    else
      StepInBounds(m);
      match Step(m)
      case Go(n) => Run(n)
      case Stop(status, n) => Returned(status, n)
      case Stuck => Hung
  }

  /** One turn of the loop. */
  lemma Unfold(m: Machine)
    requires InBounds(m)
    ensures m.stack == [] ==> Run(m) == Returned(m.ret, m)
    ensures m.stack != [] ==>
              match Step(m)
              case Go(n) =>
                && InBounds(n) && Run(m) == Run(n)
                && (|n.input| < |m.input| || (n.input == m.input && |n.stack| < |m.stack|))
              case Stop(status, n) => Run(m) == Returned(status, n)
              case Stuck => Run(m) == Hung
  {
    if m.stack != [] { StepInBounds(m); }
  }

  /** PARSER_parseTokens. The stack is what earlier calls left; the pool is never cleared. */
  function Parse(input: string, stack: seq<Frame>, pool: seq<Node>): Result
    requires |pool| == MAX_KEYS && |stack| <= STACK_SIZE && Waiting(stack)
  {
    var m := Machine(input, stack, 0, pool, None, None, Token(NoToken, Unset), ParserOk);
    if Full(m) then Returned(NoMoreSpace, m)
    else
      assert Push(m, Call(true)).stack[..|stack|] == stack;
      Run(Push(m, Call(true)))
  }

  /** Whatever the input and whatever earlier calls left behind, a call keeps the stack index and
      the pool in bounds and leaves only what the next call can start from; with input of at most
      255 characters it returns. */
  lemma ParseIsSafe(input: string, stack: seq<Frame>, pool: seq<Node>)
    requires |pool| == MAX_KEYS && |stack| <= STACK_SIZE && Waiting(stack)
    ensures var r := Parse(input, stack, pool);
            && (|input| <= 255 ==> r.Returned?)
            && (r.Returned? ==> |r.m.pool| == MAX_KEYS && |r.m.stack| <= STACK_SIZE && Waiting(r.m.stack))
            && (r.Returned? && r.status == ParserOk ==> r.m.stack == [])
  {
    if |stack| < STACK_SIZE {
      var m := Machine(input, stack, 0, pool, None, None, Token(NoToken, Unset), ParserOk);
      assert Push(m, Call(true)).stack[..|stack|] == stack;
      RunIsSafe(Push(m, Call(true)));
    }
  }

  lemma {:induction false} RunIsSafe(m: Machine)
    requires InBounds(m)
    ensures |m.input| <= 255 ==> Run(m).Returned?
    ensures Run(m).Returned? ==>
              var q := Run(m).m; |q.pool| == MAX_KEYS && |q.stack| <= STACK_SIZE && Waiting(q.stack)
    ensures Run(m).Returned? && Run(m).status == ParserOk ==> Run(m).m.stack == []
    decreases |m.input|, |m.stack|
  {
    hide Step;
    if m.stack != [] {
      StepInBounds(m);
      StopsWithError(m);
      match Step(m)
      case Go(n) => RunIsSafe(n);
      case _ =>
    }
  }

  /** No early return reports success. */
  lemma StopsWithError(m: Machine)
    requires InBounds(m) && m.stack != []
    ensures Step(m).Stop? ==> Step(m).status != ParserOk
  {
    hide Take;
  }
}
