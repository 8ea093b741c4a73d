/** The lexer of matcher expressions. Offsets and columns count runes. */
module MatcherLexer {
  import opened Basics

  datatype Kind =
    | EOF | OpenBrace | CloseBrace | Comma | Equals | NotEquals | Matches | NotMatches | Quoted | Unquoted

  datatype Position = Position(offsetStart: nat, offsetEnd: nat, columnStart: nat, columnEnd: nat)

  datatype Token = Token(kind: Kind, value: string, position: Position)

  datatype LexError =
    | Expected(position: Position, expected: string)
    | InvalidInput(position: Position)
    | Unterminated(position: Position)

  datatype Lexed = Tok(token: Token) | End | Bad(error: LexError)

  const NO_TOKEN := Token(EOF, "", Position(0, 0, 0, 0))

  /** Unicode white space. */
  predicate IsSpace(c: char) {
    || '\t' <= c <= '\r' || c == ' ' || c == '\U{85}' || c == '\U{A0}' || c == '\U{1680}'
    || '\U{2000}' <= c <= '\U{200A}' || c == '\U{2028}' || c == '\U{2029}' || c == '\U{202F}'
    || c == '\U{205F}' || c == '\U{3000}'
  }

  predicate IsReserved(c: char) { IsSpace(c) || c in "{}!=~,\\\"'`" }

  // ---------------------------------------------------------------- tokens of a string

  function Span(i: nat, j: nat): Position { Position(i, j, i, j) }

  /** The first position from i on that is not white space, or the end. */
  function AfterSpace(input: string, i: nat): (j: nat)
    requires i <= |input|
    ensures i <= j <= |input| && (j < |input| ==> !IsSpace(input[j]))
    ensures forall k :: i <= k < j ==> IsSpace(input[k])
    decreases |input| - i
  {
    if i < |input| && IsSpace(input[i]) then AfterSpace(input, i + 1) else i
  }

  /** The closing quote: the first quote from i on that is not escaped, or the end. */
  function EndQuote(input: string, i: nat, escaped: bool): (j: nat)
    requires i <= |input|
    ensures i <= j <= |input| && (j < |input| ==> input[j] == '\"')
    decreases |input| - i
  {
    if i == |input| then i
    else if escaped then EndQuote(input, i + 1, false)
    else if input[i] == '\\' then EndQuote(input, i + 1, true)
    else if input[i] == '\"' then i
    else EndQuote(input, i + 1, false)
  }

  /** The first reserved rune from i on, or the end. */
  function EndWord(input: string, i: nat): (j: nat)
    requires i <= |input|
    ensures i <= j <= |input| && (j < |input| ==> IsReserved(input[j]))
    ensures forall k :: i <= k < j ==> !IsReserved(input[k])
    decreases |input| - i
  {
    if i < |input| && !IsReserved(input[i]) then EndWord(input, i + 1) else i
  }

  function Make(input: string, kind: Kind, i: nat, j: nat): Lexed
    requires i <= j <= |input|
  {
    Tok(Token(kind, input[i..j], Span(i, j)))
  }

  predicate At(input: string, i: nat, c: char) { i < |input| && input[i] == c }

  function LexOperator(input: string, j: nat): Lexed
    requires j <= |input|
  {
    if At(input, j, '!') then
      if At(input, j + 1, '=') then Make(input, NotEquals, j, j + 2)
      else if At(input, j + 1, '~') then Make(input, NotMatches, j, j + 2)
      else Bad(Expected(Span(j, j + 1), "=~"))
    else if At(input, j, '=') then
      if At(input, j + 1, '~') then Make(input, Matches, j, j + 2) else Make(input, Equals, j, j + 1)
    else Bad(Expected(Span(j, j), "!="))
  }

  function LexQuoted(input: string, j: nat): Lexed
    requires j <= |input|
  {
    if !At(input, j, '\"') then Bad(Expected(Span(j, j), "\""))
    else
      var q := EndQuote(input, j + 1, false);
      if q < |input| then Make(input, Quoted, j, q + 1) else Bad(Unterminated(Span(j, q)))
  }

  /** What starts at j, which is not white space. */
  function LexAt(input: string, j: nat): Lexed
    requires j < |input|
  {
    var c := input[j];
    if c == '{' then Make(input, OpenBrace, j, j + 1)
    else if c == '}' then Make(input, CloseBrace, j, j + 1)
    else if c == ',' then Make(input, Comma, j, j + 1)
    else if c == '=' || c == '!' then LexOperator(input, j)
    else if c == '\"' then LexQuoted(input, j)
    else if !IsReserved(c) then Make(input, Unquoted, j, EndWord(input, j))
    else Bad(InvalidInput(Span(j, j + 1)))
  }

  /** The token after position i. */
  function Lex(input: string, i: nat): Lexed
    requires i <= |input|
  {
    var j := AfterSpace(input, i);
    if j == |input| then End else LexAt(input, j)
  }

  /** A token lies ahead, is not empty, is the text it spans, and only white space precedes it. */
  lemma TokenInPlace(input: string, i: nat)
    requires i <= |input|
    ensures Lex(input, i).Tok? ==>
      var t := Lex(input, i).token;
      && i <= t.position.offsetStart < t.position.offsetEnd <= |input|
      && t.value == input[t.position.offsetStart..t.position.offsetEnd] && t.kind != EOF
      && (forall k :: i <= k < t.position.offsetStart ==> IsSpace(input[k]))
    ensures Lex(input, i).End? <==> forall k :: i <= k < |input| ==> IsSpace(input[k])
  {
  }

  predicate IsQuoted(text: string) { text != "" && text[0] == '\"' }

  predicate IsWord(text: string) {
    text != "" && forall k :: 0 <= k < |text| ==> !IsSpace(text[k]) && text[k] !in "{}!=~,\\\"'`"
  }

  /** The kind of a token is what its text says. */
  predicate KindFits(kind: Kind, text: string) {
    && (kind == OpenBrace <==> text == "{") && (kind == CloseBrace <==> text == "}") && (kind == Comma <==> text == ",")
    && (kind == Equals <==> text == "=") && (kind == NotEquals <==> text == "!=")
    && (kind == Matches <==> text == "=~") && (kind == NotMatches <==> text == "!~")
    && (kind == Quoted <==> IsQuoted(text)) && (kind == Unquoted <==> IsWord(text))
  }

  lemma MarkFits(kind: Kind, text: string)
    requires (kind, text) in {(OpenBrace, "{"), (CloseBrace, "}"), (Comma, ","), (Equals, "="), (NotEquals, "!="),
                              (Matches, "=~"), (NotMatches, "!~")}
    ensures KindFits(kind, text)
  {
    assert text[0] in "{}!=~," && !IsWord(text);
  }

  lemma QuotedFits(input: string, j: nat)
    requires j < |input| && LexQuoted(input, j).Tok?
    ensures KindFits(LexQuoted(input, j).token.kind, LexQuoted(input, j).token.value)
  {
    assert LexQuoted(input, j).token.value[0] == '\"';
  }

  lemma WordFits(input: string, j: nat)
    requires j < |input| && !IsReserved(input[j])
    ensures KindFits(Unquoted, input[j..EndWord(input, j)])
  {
    var text := input[j..EndWord(input, j)];
    assert text[0] == input[j];
    assert IsWord(text);
  }

  lemma OperatorFits(input: string, j: nat)
    requires j < |input| && LexOperator(input, j).Tok?
    ensures KindFits(LexOperator(input, j).token.kind, LexOperator(input, j).token.value)
  {
    var t := LexOperator(input, j).token;
    assert t.value == if |t.value| == 1 then [input[j]] else [input[j], input[j + 1]];
    MarkFits(t.kind, t.value);
  }

  /** Which kind every token has. */
  lemma KindByText(input: string, i: nat)
    requires i <= |input| && Lex(input, i).Tok?
    ensures KindFits(Lex(input, i).token.kind, Lex(input, i).token.value)
  {
    var j := AfterSpace(input, i);
    var c := input[j];
    if c == '=' || c == '!' {
      OperatorFits(input, j);
    } else if c == '\"' {
      QuotedFits(input, j);
    } else if c == '{' || c == '}' || c == ',' {
      assert input[j..j + 1] == [c];
      MarkFits(Lex(input, i).token.kind, [c]);
    } else {
      WordFits(input, j);
    }
  }

  /** How many backslashes stand directly before position k, from `from` on. */
  function Slashes(input: string, from: nat, k: nat): nat
    requires from <= k <= |input|
  {
    if k == from || input[k - 1] != '\\' then 0 else Slashes(input, from, k - 1) + 1
  }

  /** The rune at k is escaped: an odd number of backslashes stands before it. */
  predicate IsEscaped(input: string, from: nat, k: nat)
    requires from <= k <= |input|
  {
    Slashes(input, from, k) % 2 == 1
  }

  lemma {:induction false} EndQuoteExactly(input: string, from: nat, i: nat, escaped: bool)
    requires from <= i <= |input| && (escaped <==> IsEscaped(input, from, i))
    ensures var j := EndQuote(input, i, escaped);
      && (forall k :: i <= k < j && input[k] == '\"' ==> IsEscaped(input, from, k))
      && (j < |input| ==> input[j] == '\"' && !IsEscaped(input, from, j))
    decreases |input| - i
  {
    if i < |input| && (escaped || input[i] != '\"') {
      EndQuoteExactly(input, from, i + 1, !escaped && input[i] == '\\');
    }
  }

  /** A quoted token runs from a quote to the next one that is not escaped; without one it is
      unterminated. */
  lemma QuotedExactly(input: string, j: nat)
    requires At(input, j, '\"')
    ensures LexQuoted(input, j).Tok? ==>
      var e := LexQuoted(input, j).token.position.offsetEnd;
      && j + 2 <= e <= |input| && input[e - 1] == '\"' && !IsEscaped(input, j + 1, e - 1)
      && forall k :: j < k < e - 1 && input[k] == '\"' ==> IsEscaped(input, j + 1, k)
    ensures LexQuoted(input, j).Bad? <==> forall k :: j < k < |input| && input[k] == '\"' ==> IsEscaped(input, j + 1, k)
  {
    EndQuoteExactly(input, j + 1, j + 1, false);
  }

  /** Reserved runes that start nothing, a lonely exclamation mark, and a quote that is not closed:
      what the lexer fails on, at the first rune that is not white space. */
  predicate Fails(input: string, j: nat) {
    && j < |input|
    && (|| input[j] in "~\\'`"
        || (input[j] == '!' && !At(input, j + 1, '=') && !At(input, j + 1, '~'))
        || (input[j] == '\"' && forall k :: j < k < |input| && input[k] == '\"' ==> IsEscaped(input, j + 1, k)))
  }

  lemma FailsExactlyWhen(input: string, i: nat, j: nat)
    requires i <= j <= |input| && (forall k :: i <= k < j ==> IsSpace(input[k]))
    requires j < |input| ==> !IsSpace(input[j])
    ensures Lex(input, i).Bad? <==> Fails(input, j)
  {
    assert AfterSpace(input, i) == j;
    if j < |input| && input[j] == '\"' { QuotedExactly(input, j); }
  }

  /** The tokens from position i on up to the end or the first error, and that error. */
  function Scanned(input: string, i: nat): (seq<Token>, Option<LexError>)
    requires i <= |input|
    decreases |input| - i
  {
    match Lex(input, i)
    case Bad(e) => ([], Some(e))
    case End => ([], None)
    case Tok(t) =>
      TokenInPlace(input, i);
      var (ts, e) := Scanned(input, t.position.offsetEnd);
      ([t] + ts, e)
  }

  /** The tokens from position i on, unless the lexer fails somewhere. */
  function Tokens(input: string, i: nat): Option<seq<Token>>
    requires i <= |input|
  {
    var (ts, e) := Scanned(input, i);
    if e.None? then Some(ts) else None
  }

  predicate AllSpace(s: string) { forall k :: 0 <= k < |s| ==> IsSpace(s[k]) }

  /** Where the last of the tokens ends. */
  function EndAfter(i: nat, ts: seq<Token>): nat {
    if ts == [] then i else ts[|ts| - 1].position.offsetEnd
  }

  /** The tokens tile the text from i to where the last one ends: each is the text it spans, in
      order, and everything before and between them is white space. */
  predicate Tiles(input: string, i: nat, ts: seq<Token>)
    decreases |ts|
  {
    i <= |input| &&
    (ts != [] ==>
       var p := ts[0].position;
       && i <= p.offsetStart < p.offsetEnd <= |input|
       && AllSpace(input[i..p.offsetStart]) && ts[0].value == input[p.offsetStart..p.offsetEnd]
       && Tiles(input, p.offsetEnd, ts[1..]))
  }

  lemma ErrorInPlace(input: string, i: nat)
    requires i <= |input| && Lex(input, i).Bad?
    ensures var p := Lex(input, i).error.position;
      i <= p.offsetStart < p.offsetEnd <= |input| && AllSpace(input[i..p.offsetStart])
  {
  }

  /** For every text: the tokens before the end or the first error tile it up to there. After them
      comes nothing but white space, or white space and then the place the error names. */
  lemma {:induction false} TokensTile(input: string, i: nat)
    requires i <= |input|
    ensures var (ts, e) := Scanned(input, i);
      && Tiles(input, i, ts) && i <= EndAfter(i, ts) <= |input|
      && (e.None? ==> AllSpace(input[EndAfter(i, ts)..]))
      && (e.Some? ==>
            && EndAfter(i, ts) <= e.value.position.offsetStart < e.value.position.offsetEnd <= |input|
            && AllSpace(input[EndAfter(i, ts)..e.value.position.offsetStart]))
    decreases |input| - i
  {
    TokenInPlace(input, i);
    match Lex(input, i)
    case Bad(e) => ErrorInPlace(input, i);
    case End =>
    case Tok(t) =>
      var (rest, e) := Scanned(input, t.position.offsetEnd);
      TokensTile(input, t.position.offsetEnd);
      assert ([t] + rest)[1..] == rest;
      assert EndAfter(i, [t] + rest) == EndAfter(t.position.offsetEnd, rest);
  }

  // ---------------------------------------------------------------- the lexer

  class Lexer {
    const input: string
    var err: Option<LexError>
    var start: nat
    var pos: nat
    var width: nat
    var column: nat
    var cols: nat

    constructor (input: string)
      ensures this.input == input && Fresh() && pos == 0
    {
      this.input := input;
      err, start, pos, width, column, cols := None, 0, 0, 0, 0, 0;
    }

    predicate Valid()
      reads this
    {
      start <= pos <= |input| && column == start && cols == pos
    }

    /** Between two tokens. */
    predicate Fresh()
      reads this
    {
      Valid() && err.None? && start == pos
    }

    method Next() returns (r: Option<char>)
      requires Valid()
      modifies this`pos, this`width, this`cols
      ensures Valid()
      ensures old(pos) == |input| ==> r == None && pos == old(pos) && width == 0
      ensures old(pos) < |input| ==> r == Some(input[old(pos)]) && pos == old(pos) + 1 && width == 1
    {
      if pos >= |input| {
        width := 0;
        return None;
      }
      r := Some(input[pos]);
      width, pos, cols := 1, pos + 1, cols + 1;
    }

    method Rewind()
      requires Valid() && width <= 1 && start + width <= pos
      modifies this`pos, this`cols
      ensures Valid() && pos == old(pos) - width
    {
      pos := pos - width;
      if width > 0 { cols := cols - 1; }
    }

    function Here(): Position
      reads this
    {
      Position(start, pos, column, cols)
    }

    method Accept(valid: string) returns (ok: bool)
      requires Valid()
      modifies this`pos, this`width, this`cols
      ensures Valid()
      ensures ok <==> old(pos) < |input| && input[old(pos)] in valid
      ensures pos == if ok then old(pos) + 1 else old(pos)
    {
      var r := Next();
      if r.Some? && r.value in valid { return true; }
      Rewind();
      return false;
    }

    method Expect(valid: string) returns (e: Option<LexError>)
      requires Valid()
      modifies this`pos, this`width, this`cols
      ensures Valid()
      ensures e == if old(pos) < |input| && input[old(pos)] in valid then None else Some(Expected(Here(), valid))
      ensures pos == if e.None? then old(pos) + 1 else old(pos)
    {
      var ok := Accept(valid);
      return if ok then None else Some(Expected(Here(), valid));
    }

    method Emit(kind: Kind) returns (t: Token)
      requires Valid()
      modifies this`start, this`column
      ensures Valid() && start == pos && Tok(t) == Make(input, kind, old(start), pos)
    {
      t := Token(kind, input[start..pos], Here());
      start, column := pos, cols;
    }

    method Skip()
      requires Valid()
      modifies this`start, this`column
      ensures Valid() && start == pos
    {
      start, column := pos, cols;
    }

    method ScanOperator() returns (r: Lexed)
      requires Valid() && err.None? && start == pos
      modifies this
      ensures Valid() && err.None? && r == LexOperator(input, old(pos))
      ensures r.Tok? ==> start == pos == r.token.position.offsetEnd
    {
      var bang := Accept("!");
      if bang {
        var equals := Accept("=");
        if equals {
          var t := Emit(NotEquals);
          return Tok(t);
        }
        var tilde := Accept("~");
        if tilde {
          var t := Emit(NotMatches);
          return Tok(t);
        }
        return Bad(Expected(Here(), "=~"));
      }
      var equals := Accept("=");
      if equals {
        var tilde := Accept("~");
        var t := Emit(if tilde then Matches else Equals);
        return Tok(t);
      }
      return Bad(Expected(Here(), "!="));
    }

    method ScanQuoted() returns (r: Lexed)
      requires Valid() && err.None? && start == pos
      modifies this
      ensures Valid() && err.None? && r == LexQuoted(input, old(pos))
      ensures r.Tok? ==> start == pos == r.token.position.offsetEnd
    {
      var e := Expect("\"");
      if e.Some? { return Bad(e.value); }
      var isEscaped := false;
      var c := Next();
      while c != None
        invariant Valid() && err.None? && start == old(pos) && width <= 1 && start + 1 <= pos
        invariant c.None? ==> width == 0 && pos == |input| == EndQuote(input, old(pos) + 1, false)
        invariant c.Some? ==> start + 2 <= pos && width == 1 && input[pos - 1] == c.value
        invariant c.Some? ==> EndQuote(input, pos - 1, isEscaped) == EndQuote(input, old(pos) + 1, false)
        decreases |input| - pos, c.Some?
      {
        if isEscaped {
          isEscaped := false;
        } else if c.value == '\\' {
          isEscaped := true;
        } else if c.value == '\"' {
          Rewind();
          break;
        }
        c := Next();
      }
      e := Expect("\"");
      if e.Some? { return Bad(Unterminated(Here())); }
      var t := Emit(Quoted);
      return Tok(t);
    }

    method ScanUnquoted() returns (t: Token)
      requires Valid() && err.None? && start == pos
      modifies this
      ensures Valid() && err.None? && Tok(t) == Make(input, Unquoted, old(pos), EndWord(input, old(pos)))
      ensures start == pos == t.position.offsetEnd
    {
      var c := Next();
      while c != None
        invariant Valid() && err.None? && start == old(pos) && width <= 1
        invariant c.None? ==> width == 0 && pos == |input| == EndWord(input, old(pos))
        invariant c.Some? ==> start + 1 <= pos && width == 1 && input[pos - 1] == c.value
        invariant c.Some? ==> EndWord(input, pos - 1) == EndWord(input, old(pos))
        decreases |input| - pos, c.Some?
      {
        if IsReserved(c.value) {
          Rewind();
          break;
        }
        c := Next();
      }
      t := Emit(Unquoted);
    }

    /** Whatever starts with rune c, which was just read and is no white space. */
    method ScanFrom(c: char) returns (r: Lexed)
      requires Valid() && err.None? && start + 1 == pos && width == 1 && input[start] == c && !IsSpace(c)
      modifies this
      ensures Valid() && err.None? && r == LexAt(input, old(start))
      ensures r.Tok? ==> start == pos == r.token.position.offsetEnd
    {
      if c == '{' || c == '}' || c == ',' {
        var t := Emit(if c == '{' then OpenBrace else if c == '}' then CloseBrace else Comma);
        return Tok(t);
      }
      if c == '=' || c == '!' {
        Rewind();
        r := ScanOperator();
        return;
      }
      if c == '\"' {
        Rewind();
        r := ScanQuoted();
        return;
      }
      if !IsReserved(c) {
        Rewind();
        var t := ScanUnquoted();
        return Tok(t);
      }
      return Bad(InvalidInput(Here()));
    }

    /** Scans the next token. A lexer that failed keeps failing with the same error. */
    method Scan() returns (t: Token, e: Option<LexError>)
      requires Valid() && (err.None? ==> start == pos)
      modifies this
      ensures Valid() && e == err
      ensures old(err).Some? ==> err == old(err) && t == NO_TOKEN && pos == old(pos) && start == old(start)
      ensures old(err).None? ==>
        match Lex(input, old(pos))
        case Bad(error) => e == Some(error) && t == NO_TOKEN
        case End => Fresh() && t == NO_TOKEN && pos == |input|
        case Tok(token) => Fresh() && t == token && pos == token.position.offsetEnd
    {
      if err.Some? { return NO_TOKEN, err; }
      var c := Next();
      while c != None
        invariant Valid() && err.None?
        invariant c.None? ==> start == pos == |input| && AfterSpace(input, old(pos)) == |input|
        invariant c.Some? ==> start + 1 == pos && width == 1 && input[start] == c.value
        invariant c.Some? ==> AfterSpace(input, start) == AfterSpace(input, old(pos))
        decreases |input| - pos, c.Some?
      {
        if !IsSpace(c.value) {
          var r := ScanFrom(c.value);
          if r.Bad? { err := Some(r.error); }
          return if r.Tok? then r.token else NO_TOKEN, err;
        }
        Skip();
        c := Next();
      }
      return NO_TOKEN, err;
    }

    /** Looks at the next token without moving, except that an error sticks. */
    method Peek() returns (t: Token, e: Option<LexError>)
      requires Valid() && (err.None? ==> start == pos)
      modifies this
      ensures Valid() && e == err && pos == old(pos) && start == old(start)
      ensures old(err).Some? ==> err == old(err) && t == NO_TOKEN
      ensures old(err).None? ==>
        match Lex(input, pos)
        case Bad(error) => e == Some(error) && t == NO_TOKEN
        case End => Fresh() && t == NO_TOKEN
        case Tok(token) => Fresh() && t == token
    {
      var start0, pos0, width0, column0, cols0 := start, pos, width, column, cols;
      t, e := Scan();
      start, pos, width, column, cols := start0, pos0, width0, column0, cols0;
    }
  }
}
