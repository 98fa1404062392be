/** PARSER_parseTokens over its static stack and node pool. */
module JsonParserLoop {
  import opened Types
  import opened JsonLexer
  import opened JsonParser

  /** A step that returns early, or goes on to the state `m`. */
  ghost predicate Did(r: Outcome, stop: Option<ParserStatus>, m: Machine) {
    r == match stop case None => Go(m) case Some(status) => Stop(status, m)
  }

  class Parser {
    const stack: array<Frame>
    const theJson: array<Node>
    var stackTop: nat
    var theJsonTop: nat
    var input: string
    // the local variables of PARSER_parseTokens
    var currentNode: Option<nat>
    var previousNode: Option<nat>
    var nextToken: Token
    var retVal: ParserStatus

    ghost predicate Valid()
      reads this, stack, theJson
    {
      stack.Length == STACK_SIZE && theJson.Length == MAX_KEYS && stackTop <= STACK_SIZE && stack != theJson as object
    }

    ghost function Snap(): Machine
      requires Valid()
      reads this, stack, theJson
    {
      Machine(input, stack[..stackTop], theJsonTop, theJson[..], currentNode, previousNode, nextToken, retVal)
    }

    constructor ()
      ensures Valid() && stackTop == 0 && theJson[..] == seq(MAX_KEYS, _ => ZERO_NODE)
      ensures fresh(stack) && fresh(theJson)
    {
      stack := new Frame[STACK_SIZE](_ => CallLoop);
      theJson := new Node[MAX_KEYS](_ => ZERO_NODE);
      stackTop, theJsonTop, input := 0, 0, "";
      currentNode, previousNode, nextToken, retVal := None, None, Token(NoToken, Unset), ParserOk;
      new;
      assert theJson[..] == seq(MAX_KEYS, _ => ZERO_NODE);
    }

    /** MEM_MODEL_init and LEXER_init */
    method Init(text: string)
      requires Valid()
      modifies this
      ensures Valid() && stackTop == old(stackTop) && theJsonTop == 0 && input == text
    {
      theJsonTop := 0;
      input := text;
    }

    /** MEM_MODEL_allocNode */
    method AllocNode() returns (node: Option<nat>)
      requires Valid()
      modifies this`theJsonTop
      ensures if old(theJsonTop) < MAX_KEYS then node == Some(old(theJsonTop)) && theJsonTop == old(theJsonTop) + 1
              else node == None && theJsonTop == old(theJsonTop)
    {
      if theJsonTop < MAX_KEYS {
        node := Some(theJsonTop);
        theJsonTop := theJsonTop + 1;
      } else {
        node := None;
      }
    }

    /** LEXER_nextToken */
    method TakeToken() returns (ok: bool)
      requires Valid() && !Take(Snap()).Stuck?
      modifies this`input, this`nextToken
      ensures Valid() && Did(Take(old(Snap())), if ok then None else Some(ParserBadFormat), Snap())
    {
      var r := NextToken(input);
      input := r.rest;
      ok := r.status == Ok;
      if ok {
        nextToken := Token(r.kind, if r.contents.Some? then r.contents.value else nextToken.contents);
      }
    }

    method PushFrame(f: Frame)
      requires Valid() && stackTop < STACK_SIZE
      modifies this`stackTop, stack
      ensures Valid() && Snap() == Push(old(Snap()), f)
    {
      stack[stackTop] := f;
      stackTop := stackTop + 1;
    }

    /** CALL */
    method CallCase(root: bool) returns (stop: Option<ParserStatus>)
      requires Valid() && Popped(Snap()) && !CallOutcome(Snap(), root).Stuck?
      modifies this, stack, theJson
      ensures Valid() && Did(CallOutcome(old(Snap()), root), stop, Snap())
    {
      hide NextToken, Take;
      var ok := TakeToken();
      if !ok { return Some(ParserBadFormat); }
      if root && nextToken.kind != LeftBrace {
        retVal := ParserBadFormat;
        return None;
      }
      if nextToken.kind == LeftBrace {
        currentNode := AllocNode();
        if currentNode == None { return Some(NoMoreSpace); }
        if previousNode != None {
          var p := previousNode.value;
          theJson[p] := theJson[p].(isObject := true, v := currentNode);
        }
        ok := TakeToken();
        if !ok { return Some(ParserBadFormat); }
        if nextToken.kind == RightBrace {
          retVal := ParserOk;
          return None;
        }
        if stackTop >= STACK_SIZE { return Some(NoMoreSpace); }
        PushFrame(CallLoop);
      } else {
        retVal := LeafToken;
      }
      return None;
    }

    /** CALL_LOOP */
    method CallLoopCase() returns (stop: Option<ParserStatus>)
      requires Valid() && Popped(Snap()) && currentNode.Some? && !Keyed(Snap()).Stuck?
      modifies this, stack, theJson
      ensures Valid() && Did(Keyed(old(Snap())), stop, Snap())
    {
      hide NextToken, Take;
      if nextToken.kind != StringToken {
        retVal := ParserBadFormat;
        return None;
      }
      var i := currentNode.value;
      theJson[i] := theJson[i].(key := nextToken.contents);
      var ok := TakeToken();
      if !ok { return Some(ParserBadFormat); }
      if nextToken.kind != Colon {
        retVal := ParserBadFormat;
        return None;
      }
      previousNode := currentNode;
      if stackTop >= STACK_SIZE { return Some(NoMoreSpace); }
      PushFrame(ResumeLoop(i));
      if stackTop >= STACK_SIZE { return Some(NoMoreSpace); }
      PushFrame(Call(false));
      return None;
    }

    /** RESUME_LOOP */
    method ResumeLoopCase(node: nat) returns (stop: Option<ParserStatus>)
      requires Valid() && Popped(Snap()) && node < MAX_KEYS && !Resumed(Snap(), node).Stuck?
      modifies this, stack, theJson
      ensures Valid() && Did(Resumed(old(Snap()), node), stop, Snap())
    {
      hide NextToken, Take, NextMember;
      if retVal == LeafToken {
        var i := currentNode.value;
        theJson[i] := theJson[i].(value := nextToken.contents);
      } else if retVal != ParserOk {
        retVal := ParserBadFormat;
        return None;
      }
      var ok := TakeToken();
      if !ok { return Some(ParserBadFormat); }
      if nextToken.kind == RightBrace {
        retVal := ParserOk;
        return None;
      } else if nextToken.kind != Comma {
        retVal := ParserBadFormat;
        return None;
      }
      stop := NextMemberCase(node);
    }

    /** ... behind a comma. */
    method NextMemberCase(node: nat) returns (stop: Option<ParserStatus>)
      requires Valid() && |Snap().pool| == MAX_KEYS && theJsonTop <= MAX_KEYS && node < MAX_KEYS
      requires !NextMember(Snap(), node).Stuck?
      modifies this, stack, theJson
      ensures Valid() && Did(NextMember(old(Snap()), node), stop, Snap())
    {
      hide NextToken, Take;
      var h := AllocNode();
      theJson[node] := theJson[node].(h := h);
      if h == None { return Some(NoMoreSpace); }
      previousNode := Some(node);
      currentNode := h;
      var ok := TakeToken();
      if !ok { return Some(ParserBadFormat); }
      if stackTop >= STACK_SIZE { return Some(NoMoreSpace); }
      PushFrame(CallLoop);
      return None;
    }

    /** One iteration of the loop: a frame is popped and worked on. */
    method Iterate() returns (stop: Option<ParserStatus>)
      requires Valid() && InBounds(Snap()) && stackTop > 0 && !Step(Snap()).Stuck?
      modifies this, stack, theJson
      ensures Valid() && Did(Step(old(Snap())), stop, Snap())
    {
      hide NextToken, CallOutcome, Keyed, Resumed;
      ghost var m := Snap();
      stackTop := stackTop - 1;
      var pop := stack[stackTop];
      assert Snap() == m.(stack := m.stack[..|m.stack| - 1]);
      match pop {
        case Call(root) => stop := CallCase(root);
        case CallLoop => stop := CallLoopCase();
        case ResumeLoop(node) => stop := ResumeLoopCase(node);
      }
    }

    /** The loop over the stack. */
    method RunStack() returns (status: ParserStatus)
      requires Valid() && InBounds(Snap()) && Run(Snap()).Returned?
      modifies this, stack, theJson
      ensures Valid() && Run(old(Snap())) == Returned(status, Snap())
    {
      hide Step, Run, InBounds;
      ghost var start := Snap();
      while stackTop > 0
        invariant Valid() && InBounds(Snap()) && Run(Snap()) == Run(start) && Run(start).Returned?
        decreases |input|, stackTop
      {
        ghost var m := Snap();
        StepInBounds(m);
        Unfold(m);
        var stop := Iterate();
        if stop.Some? { return stop.value; }
      }
      Unfold(Snap());
      return retVal;
    }

    method ParseTokens() returns (status: ParserStatus)
      requires Valid() && theJsonTop == 0 && Waiting(stack[..stackTop])
      requires Parse(input, stack[..stackTop], theJson[..]).Returned?
      modifies this, stack, theJson
      ensures Valid() && Parse(old(input), old(stack[..stackTop]), old(theJson[..])) == Returned(status, Snap())
    {
      hide Run;
      retVal := ParserOk;
      currentNode, previousNode, nextToken := None, None, Token(NoToken, Unset);
      if stackTop >= STACK_SIZE { return NoMoreSpace; }
      PushFrame(Call(true));
      assert Snap().stack[..|Snap().stack| - 1] == old(stack[..stackTop]);
      status := RunStack();
    }
  }
}
