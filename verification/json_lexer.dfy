/** The tokenizer: what a call yields and what input it leaves, and the code over the buffer. */
module JsonLexer {
  import opened Types

  const NUL: char := '\0'

  /** What a token or a node carries; `Unset` is memory that was never written. */
  datatype Contents = Unset | Text(text: string) | Number(number: nat)

  datatype TokenType = NoToken | StringToken | NumberToken | LeftBrace | RightBrace | Colon | Comma

  /** `Hangs` stands for the loops that never end because their index is 8 bits wide. */
  datatype Status = Ok | Skip | NoMoreTokens | BadFormat | Hangs

  /** One call: its status, the token type and contents it stores, and the input it leaves. A token
      without contents leaves the contents of the token before it in place. */
  datatype Lexed = Lexed(status: Status, kind: TokenType, contents: Option<Contents>, rest: string)

  predicate IsDigit(c: char) {
    '0' <= c <= '9'
  }

  /** How many characters come before the first quote, or all of them. */
  function BeforeQuote(s: string): (n: nat)
    ensures n <= |s| && (forall i | 0 <= i < n :: s[i] != '"') && (n < |s| ==> s[n] == '"')
  {
    if s == [] || s[0] == '"' then 0 else 1 + BeforeQuote(s[1..])
  }

  function LeadingDigits(s: string): (n: nat)
    ensures n <= |s| && (forall i | 0 <= i < n :: IsDigit(s[i])) && (n < |s| ==> !IsDigit(s[n]))
  {
    if s == [] || !IsDigit(s[0]) then 0 else 1 + LeadingDigits(s[1..])
  }

  /** The value of a row of digits. */
  function Atoi(digits: string): nat
    requires forall i | 0 <= i < |digits| :: IsDigit(digits[i])
  {
    if digits == [] then 0
    else
      assert IsDigit(digits[|digits| - 1]);
      10 * Atoi(digits[..|digits| - 1]) + (digits[|digits| - 1] as int - '0' as int)
  }

  /** lex_string on input that starts behind a quote. The 8-bit index reaches the quote or the end
      if that is at most 255 characters away. */
  function TextToken(s: string): Option<Lexed> {
    var n := BeforeQuote(s);
    if n > 255 then Some(Lexed(Hangs, NoToken, None, s))
    else if n < |s| then Some(Lexed(Ok, StringToken, Some(Text(s[..n])), s[n + 1..]))
    else None
  }

  function DigitsToken(s: string): Option<Lexed> {
    var n := LeadingDigits(s);
    if n > 255 then Some(Lexed(Hangs, NoToken, None, s))
    else if n >= 1 then Some(Lexed(Ok, NumberToken, Some(Number(Atoi(s[..n]))), s[n..]))
    else None
  }

  function SymbolToken(s: string): Lexed {
    if s == [] then Lexed(BadFormat, NoToken, None, s)
    else
      match s[0]
      case ' ' => Lexed(Skip, NoToken, None, s[1..])
      case '\\' => Lexed(Skip, NoToken, None, s[1..])
      case '{' => Lexed(Ok, LeftBrace, None, s[1..])
      case '}' => Lexed(Ok, RightBrace, None, s[1..])
      case ',' => Lexed(Ok, Comma, None, s[1..])
      case ':' => Lexed(Ok, Colon, None, s[1..])
      case _ => Lexed(BadFormat, NoToken, None, s)
  }

  /** lex_core. A quote without a partner is passed over, and what follows it is read. */
  function CoreToken(s: string): (r: Lexed)
    ensures |r.rest| <= |s|
    ensures r.status == Ok || r.status == Skip ==> |r.rest| < |s|
  {
    if s == [] then Lexed(NoMoreTokens, NoToken, None, s)
    else
      var quoted := if s[0] == '"' then TextToken(s[1..]) else None;
      if quoted.Some? then quoted.value
      else
        var t := if s[0] == '"' then s[1..] else s;
        match DigitsToken(t)
        case Some(r) => r
        case None => SymbolToken(t)
  }

  /** LEXER_nextToken; input of at most 255 characters never hangs it. */
  function NextToken(s: string): (r: Lexed)
    ensures r.status != Skip && |r.rest| <= |s|
    ensures r.status == Ok ==> |r.rest| < |s|
    ensures |s| <= 255 ==> r.status != Hangs
    decreases |s|
  {
    var r := CoreToken(s);
    if r.status == Skip then NextToken(r.rest) else r
  }

  // ----- what is printed is read back -----

  lemma {:induction false} QuoteAt(text: string, rest: string)
    requires '"' !in text
    ensures BeforeQuote(text + "\"" + rest) == |text|
  {
    var s := text + "\"" + rest;
    assert s[|text|] == '"';
    assert forall i | 0 <= i < |text| :: s[i] == text[i];
  }

  /** A quoted text without quotes, of any length up to 255, is one token. */
  lemma {:induction false} ReadsText(text: string, rest: string)
    requires '"' !in text && |text| <= 255
    ensures NextToken("\"" + text + "\"" + rest) == Lexed(Ok, StringToken, Some(Text(text)), rest)
  {
    var s := "\"" + text + "\"" + rest;
    var t := text + "\"" + rest;
    assert s[0] == '"' && s[1..] == t;
    QuoteAt(text, rest);
    assert t[..|text|] == text && t[|text| + 1..] == rest;
  }

  lemma {:induction false} ReadsNumber(digits: string, rest: string)
    requires 1 <= |digits| <= 255 && forall i | 0 <= i < |digits| :: IsDigit(digits[i])
    requires rest != [] ==> !IsDigit(rest[0])
    ensures NextToken(digits + rest) == Lexed(Ok, NumberToken, Some(Number(Atoi(digits))), rest)
  {
    var s := digits + rest;
    assert s[0] == digits[0] && s[0] != '"';
    assert forall i | 0 <= i < |digits| :: s[i] == digits[i];
    if rest != [] { assert s[|digits|] == rest[0]; }
    assert s[..|digits|] == digits && s[|digits|..] == rest;
  }

  lemma ReadsSymbol(c: char, rest: string)
    requires c in "{},:"
    ensures var kind := match c case '{' => LeftBrace case '}' => RightBrace case ',' => Comma case _ => Colon;
            NextToken([c] + rest) == Lexed(Ok, kind, None, rest)
  {
    var s := [c] + rest;
    assert s[0] == c && s[1..] == rest;
    assert LeadingDigits(s) == 0;
  }

  // ----- what is not printed -----

  predicate Blanks(row: string) {
    forall i | 0 <= i < |row| :: row[i] == ' ' || row[i] == '\\'
  }

  /** Spaces and backslashes before a token, any number of them, change nothing. */
  lemma {:induction false} SkipsBlanks(row: string, s: string)
    requires Blanks(row)
    ensures NextToken(row + s) == NextToken(s)
  {
    if row == [] {
      assert row + s == s;
    } else {
      var t := row + s;
      assert t[0] == row[0] && t[1..] == row[1..] + s;
      assert LeadingDigits(t) == 0;
      SkipsBlanks(row[1..], s);
    }
  }

  predicate Starts(c: char) {
    c in "{},: \\\"" || IsDigit(c)
  }

  /** Nothing else is a token, and behind the last one there is none. */
  lemma NoOtherToken(row: string, s: string)
    requires Blanks(row)
    ensures s == [] ==> NextToken(row + s).status == NoMoreTokens
    ensures s != [] && !Starts(s[0]) ==> NextToken(row + s) == Lexed(BadFormat, NoToken, None, s)
  {
    SkipsBlanks(row, s);
    if s != [] && !Starts(s[0]) { assert LeadingDigits(s) == 0; }
  }

  /** A quote without a partner is passed over: what follows it is read as if it were not there, unless
      nothing follows. */
  lemma LoneQuote(s: string)
    requires '"' !in s && |s| <= 255
    ensures NextToken("\"" + s) == if s == [] then Lexed(BadFormat, NoToken, None, s) else NextToken(s)
  {
    var t := "\"" + s;
    assert t[0] == '"' && t[1..] == s;
    assert BeforeQuote(s) == |s| && TextToken(s) == None;
    hide BeforeQuote, TextToken, LeadingDigits, DigitsToken, SymbolToken;
    assert s != [] ==> CoreToken(t) == CoreToken(s);
    assert s == [] ==> CoreToken(t) == Lexed(BadFormat, NoToken, None, s) by { NoSymbolAtEnd(); }
    hide CoreToken;
  }

  lemma NoSymbolAtEnd()
    ensures DigitsToken([]) == None && SymbolToken([]) == Lexed(BadFormat, NoToken, None, [])
  {}

  /** A text or a number of more than 255 characters is never left. */
  lemma TooLong(s: string)
    requires |s| > 255
    ensures (forall i | 0 <= i < 256 :: s[i] != '"') ==> NextToken("\"" + s).status == Hangs
    ensures (forall i | 0 <= i < 256 :: IsDigit(s[i])) ==> NextToken(s).status == Hangs
  {
    var t := "\"" + s;
    assert t[0] == '"' && t[1..] == s;
  }

  // ----- the code over its buffer -----

  function Strlen(s: string): (n: nat)
    requires NUL in s
    ensures n < |s| && s[n] == NUL && forall i | 0 <= i < n :: s[i] != NUL
  {
    if s[0] == NUL then 0 else 1 + Strlen(s[1..])
  }

  /** The C string at `start`. */
  function CString(s: string, start: nat): string
    requires start < |s| && NUL in s[start..]
  {
    s[start..start + Strlen(s[start..])]
  }

  lemma CStringIs(s: string, start: nat, end: nat)
    requires start <= end < |s| && s[end] == NUL && forall i | start <= i < end :: s[i] != NUL
    ensures NUL in s[start..] && CString(s, start) == s[start..end]
  {
    var t := s[start..];
    assert t[end - start] == NUL;
    StrlenIs(t, end - start);
  }

  /** Ending the text at `start` early leaves its beginning and, behind the new end, its rest. */
  lemma CutText(b: string, start: nat, s: string, n: nat)
    requires start + |s| < |b| && b[start..start + |s|] == s && NUL !in s && b[start + |s|] == NUL && n < |s|
    ensures var c := b[start + n := NUL];
            && c[..start] == b[..start]
            && NUL in c[start..start + n + 1] && NUL in c[start..] && CString(c, start) == s[..n]
            && NUL in c[start + n + 1..] && CString(c, start + n + 1) == s[n + 1..]
  {
    hide Strlen, CString;
    var c := b[start + n := NUL];
    assert c[start..start + n + 1][n] == NUL;
    assert forall i | start <= i < start + |s| :: b[i] == s[i - start];
    CStringIs(c, start, start + n);
    CStringIs(c, start + n + 1, start + |s|);
    assert c[start..start + n] == s[..n] && c[start + n + 1..start + |s|] == s[n + 1..];
  }

  /** Ending the text at `start` after `n` characters for a while. */
  lemma BorrowedText(b: string, start: nat, s: string, n: nat)
    requires start + |s| < |b| && b[start..start + |s|] == s && NUL !in s && n <= |s|
    ensures var c := b[start + n := NUL];
            && NUL in c[start..] && CString(c, start) == s[..n]
            && c[start + n := b[start + n]] == b
  {
    hide Strlen, CString;
    var c := b[start + n := NUL];
    assert forall i | start <= i < start + |s| :: b[i] == s[i - start];
    CStringIs(c, start, start + n);
    assert c[start..start + n] == s[..n];
  }

  lemma StrlenIs(t: string, k: nat)
    requires k < |t| && t[k] == NUL && forall i | 0 <= i < k :: t[i] != NUL
    ensures Strlen(t) == k
  {
  }

  predicate Quoted(s: string) {
    s != [] && s[0] == '"'
  }

  /** What lex_string does on any input. */
  function StringOf(s: string): Option<Lexed> {
    if Quoted(s) then TextToken(s[1..]) else None
  }

  lemma ShorterPrefix(a: string, b: string, n: nat)
    requires n <= |a| == |b| && a[..n] == b[..n]
    ensures forall k | 0 <= k <= n :: a[..k] == b[..k]
  {
    forall k | 0 <= k <= n ensures a[..k] == b[..k] { assert a[..k] == a[..n][..k]; }
  }

  lemma TextTokenIs(s: string, n: nat)
    requires n == BeforeQuote(s) <= 255
    ensures TextToken(s) ==
            if n < |s| then Some(Lexed(Ok, StringToken, Some(Text(s[..n])), s[n + 1..])) else None
  {}

  class Lexer {
    var buffer: array<char>
    var position: nat

    ghost predicate Valid()
      reads this, buffer
    {
      position < buffer.Length && NUL in buffer[position..]
    }

    /** The input that is left: up to the terminator. */
    function Rest(): (r: string)
      requires Valid()
      reads this, buffer
      ensures position + |r| < buffer.Length && buffer[position + |r|] == NUL
      ensures forall i | 0 <= i < |r| :: r[i] == buffer[position + i] != NUL
    {
      CString(buffer[..], position)
    }

    constructor (text: array<char>)
      requires NUL in text[..]
      ensures Valid() && buffer == text && position == 0 && Rest() == CString(text[..], 0)
    {
      buffer := text;
      position := 0;
      new;
      assert buffer[..] == buffer[0..];
    }

    /** Moves over `n` characters. */
    method Move(n: nat)
      requires Valid() && n <= |Rest()|
      modifies this`position
      ensures Valid() && position == old(position) + n && Rest() == old(Rest())[n..]
    {
      hide Strlen, CString;
      ghost var s, end := Rest(), position + |Rest()|;
      assert s == buffer[position..end];
      CStringIs(buffer[..], position + n, end);
      assert s[n..] == buffer[position + n..end];
      position := position + n;
    }

    /** Ends the text at `position` after `n` characters and moves behind it. */
    method TakeText(n: nat)
      requires Valid() && n < |Rest()|
      modifies this`position, buffer
      ensures Valid() && position == old(position) + n + 1 && Rest() == old(Rest())[n + 1..]
      ensures buffer[..old(position)] == old(buffer[..position])
      ensures NUL in buffer[old(position)..position] && CString(buffer[..], old(position)) == old(Rest())[..n]
    {
      hide Strlen, CString;
      ghost var s, before := Rest(), buffer[..];
      assert before[position..position + |s|] == s;
      CutText(before, position, s, n);
      buffer[position + n] := NUL;
      position := position + n + 1;
      assert buffer[..] == before[position - 1 := NUL];
    }

    /** The loop of lex_string, with its 8-bit index. */
    method FindQuote() returns (found: bool, i: Byte)
      requires Valid() && BeforeQuote(Rest()) <= 255
      ensures i == BeforeQuote(Rest()) && (found <==> i < |Rest()|)
    {
      hide Strlen, CString, BeforeQuote;
      i := 0;
      while i < |Rest()|
        invariant i <= BeforeQuote(Rest())
        decreases |Rest()| - i
      {
        if buffer[position + i] == '"' {
          assert Rest()[i] == '"';
          return true, i;
        }
        i := ToByte(i + 1);
      }
      return false, i;
    }

    method SkipQuote() returns (quoted: bool)
      requires Valid()
      modifies this`position
      ensures Valid() && position >= old(position) && quoted == Quoted(old(Rest()))
      ensures Rest() == if quoted then old(Rest())[1..] else old(Rest())
    {
      quoted := buffer[position] == '"';
      if quoted {
        Move(1);
      }
    }

    /** ... behind its opening quote */
    method LexText() returns (found: bool, start: nat)
      requires Valid() && (TextToken(Rest()).Some? ==> TextToken(Rest()).value.status != Hangs)
      modifies this`position, buffer
      ensures Valid() && start == old(position) <= position && (found ==> start < position)
      ensures buffer[..start] == old(buffer[..position])
      ensures found <==> TextToken(old(Rest())).Some?
      ensures !found ==> buffer[..] == old(buffer[..]) && Rest() == old(Rest())
      ensures found ==> Rest() == TextToken(old(Rest())).value.rest && NUL in buffer[start..position]
      ensures found ==> TextToken(old(Rest())).value ==
                        Lexed(Ok, StringToken, Some(Text(CString(buffer[..], start))), Rest())
    {
      hide Strlen, CString, BeforeQuote, Rest, Valid;
      ghost var s := Rest();
      start := position;
      var i: Byte;
      found, i := FindQuote();
      TextTokenIs(s, i);
      hide TextToken;
      if found {
        TakeText(i);
      }
    }

    /** lex_string: on success the text at `start` is terminated in place of its closing quote. */
    method LexString() returns (found: bool, start: nat)
      requires Valid() && (StringOf(Rest()).Some? ==> StringOf(Rest()).value.status != Hangs)
      modifies this`position, buffer
      ensures Valid() && position >= old(position) && buffer[..old(position)] == old(buffer[..position])
      ensures found <==> StringOf(old(Rest())).Some?
      ensures !found ==> buffer[..] == old(buffer[..])
      ensures !found ==> Rest() == if Quoted(old(Rest())) then old(Rest())[1..] else old(Rest())
      ensures found ==> Rest() == StringOf(old(Rest())).value.rest && start < position && NUL in buffer[start..position]
      ensures found ==> StringOf(old(Rest())).value ==
                        Lexed(Ok, StringToken, Some(Text(CString(buffer[..], start))), Rest())
    {
      hide Strlen, CString, TextToken, Rest, Valid;
      found, start := false, 0;
      var quoted := SkipQuote();
      if quoted {
        ghost var before := buffer[..];
        found, start := LexText();
        ShorterPrefix(before, buffer[..], start);
      }
    }

    /** The loop of lex_number. */
    method CountDigits() returns (n: nat)
      requires Valid() && LeadingDigits(Rest()) <= 255
      ensures n == LeadingDigits(Rest())
    {
      hide Strlen, CString, LeadingDigits;
      n := 0;
      var i: Byte := 0;
      while i < |Rest()|
        invariant i <= LeadingDigits(Rest()) && n == i
        decreases |Rest()| - i
      {
        if !IsDigit(buffer[position + i]) {
          assert !IsDigit(Rest()[i]);
          return;
        }
        assert IsDigit(Rest()[i]);
        n := n + 1;
        i := ToByte(i + 1);
      }
    }

    /** The first `n` characters are terminated for atoi and the character after them is put back. */
    method Convert(n: nat) returns (value: nat)
      requires Valid() && n <= |Rest()| && forall i | 0 <= i < n :: IsDigit(Rest()[i])
      modifies buffer
      ensures buffer[..] == old(buffer[..]) && value == Atoi(old(Rest())[..n])
      ensures Valid() && Rest() == old(Rest())
    {
      hide Strlen, CString, Atoi;
      ghost var s, before := Rest(), buffer[..];
      assert before[position..position + |s|] == s;
      BorrowedText(before, position, s, n);
      var temp := buffer[position + n];
      buffer[position + n] := NUL;
      assert buffer[..] == before[position + n := NUL];
      value := Atoi(CString(buffer[..], position));
      buffer[position + n] := temp;
      assert buffer[..] == before;
    }

    /** lex_number */
    method LexNumber() returns (found: bool, value: nat)
      requires Valid() && LeadingDigits(Rest()) <= 255
      modifies this`position, buffer
      ensures Valid() && position >= old(position) && buffer[..] == old(buffer[..])
      ensures found <==> DigitsToken(old(Rest())).Some?
      ensures !found ==> Rest() == old(Rest())
      ensures found ==> DigitsToken(old(Rest())).value == Lexed(Ok, NumberToken, Some(Number(value)), Rest())
    {
      hide Strlen, LeadingDigits, Atoi, CString, Rest;
      var n := CountDigits();
      value := 0;
      found := n >= 1;
      if found {
        value := Convert(n);
        Move(n);
      }
    }

    /** The token that the buffer holds after a call: a text by its position, a number by value. */
    ghost predicate Holds(r: Lexed, status: Status, kind: TokenType, start: nat, value: nat)
      requires Valid()
      reads this, buffer
    {
      && status == r.status && Rest() == r.rest
      && (status == Ok ==>
            && kind == r.kind
            && (kind == StringToken ==>
                  && start < position && NUL in buffer[start..position]
                  && r.contents == Some(Text(CString(buffer[..], start))))
            && (kind == NumberToken ==> r.contents == Some(Number(value)))
            && (kind != StringToken && kind != NumberToken ==> r.contents == None))
    }

    /** The switch of lex_core. */
    method LexSymbol() returns (status: Status, kind: TokenType)
      requires Valid()
      modifies this`position
      ensures Valid() && position >= old(position)
      ensures kind != StringToken && kind != NumberToken
      ensures Holds(SymbolToken(old(Rest())), status, kind, 0, 0)
    {
      hide Strlen, CString;
      kind := NoToken;
      match buffer[position] {
        case ' ' => status := Skip;
        case '\\' => status := Skip;
        case '{' => status, kind := Ok, LeftBrace;
        case '}' => status, kind := Ok, RightBrace;
        case ',' => status, kind := Ok, Comma;
        case ':' => status, kind := Ok, Colon;
        case _ => return BadFormat, NoToken;
      }
      Move(1);
    }

    method LexCore() returns (status: Status, kind: TokenType, start: nat, value: nat)
      requires Valid() && CoreToken(Rest()).status != Hangs
      modifies this`position, buffer
      ensures Valid() && position >= old(position) && buffer[..old(position)] == old(buffer[..position])
      ensures Holds(CoreToken(old(Rest())), status, kind, start, value)
    {
      hide Strlen, CString, LeadingDigits, BeforeQuote, SymbolToken;
      ghost var s := Rest();
      status, kind, start, value := NoMoreTokens, NoToken, 0, 0;
      if |Rest()| != 0 {
        var found: bool;
        found, start := LexString();
        if found {
          assert CoreToken(s) == StringOf(s).value;
          return Ok, StringToken, start, value;
        }
        ghost var t := Rest();
        found, value := LexNumber();
        if found {
          assert CoreToken(s) == DigitsToken(t).value;
          return Ok, NumberToken, start, value;
        }
        assert CoreToken(s) == SymbolToken(t);
        status, kind := LexSymbol();
      }
    }

    /** LEXER_nextToken: a text that was read earlier stays where it is. */
    method ReadToken() returns (status: Status, kind: TokenType, start: nat, value: nat)
      requires Valid() && NextToken(Rest()).status != Hangs
      modifies this`position, buffer
      ensures Valid() && position >= old(position) && buffer[..old(position)] == old(buffer[..position])
      ensures Holds(NextToken(old(Rest())), status, kind, start, value)
    {
      hide Strlen, CString, CoreToken;
      status, kind, start, value := LexCore();
      while status == Skip
        invariant Valid() && position >= old(position) && buffer[..old(position)] == old(buffer[..position])
        invariant status == Skip ==> NextToken(old(Rest())) == NextToken(Rest())
        invariant status != Skip ==> Holds(NextToken(old(Rest())), status, kind, start, value)
        decreases |Rest()|, status == Skip
      {
        status, kind, start, value := LexCore();
      }
    }
  }
}
