/** The parser of matcher expressions: a finite automaton driven by the lexer. */
module MatcherParser {
  import opened Basics
  import opened Labels
  import L = MatcherLexer

  type Kind = L.Kind

  /** Unquoting of a quoted token, and the regular expressions. */
  datatype Env = Env(unquote: string -> Option<string>, rx: Regexes)

  datatype ParseError =
    | Lexical(error: L.LexError)
    | EndOfInput
    | Unexpected(token: L.Token)
    | NoOpenBrace
    | NoCloseBrace(cause: ParseError)
    | NoLabelName(cause: ParseError)
    | NoOperator(cause: ParseError)
    | NoLabelValue(cause: ParseError)
    | BadText(token: L.Token)
    | BadMatcher(m: Matcher)
    | ExpectedCommaOrCloseBrace(cause: ParseError)
    | ExpectedComma(cause: ParseError)
    | ExpectedMatcherOrCloseBrace(cause: ParseError)
    | ExpectedEOF(cause: ParseError)

  datatype Result<+T> = Ok(value: T) | Err(error: ParseError)

  /** The parse functions. */
  datatype Fn = OpenBrace | CloseBrace | OneMatcher | EndOfMatcher | Comma | Eof

  datatype Config = Config(fn: Fn, pos: nat, matchers: seq<Matcher>, braced: bool)

  const TEXT: set<Kind> := {L.Quoted, L.Unquoted}
  const OPERATOR: set<Kind> := {L.Equals, L.NotEquals, L.Matches, L.NotMatches}

  // ---------------------------------------------------------------- one step of the automaton

  /** The next token if it is of one of the kinds. */
  function ExpectPeek(input: string, pos: nat, kinds: set<Kind>): Result<L.Token>
    requires pos <= |input|
  {
    match L.Lex(input, pos)
    case Bad(error) => Err(Lexical(error))
    case End => Err(EndOfInput)
    case Tok(t) => if t.kind in kinds then Ok(t) else Err(Unexpected(t))
  }

  function EndOf(t: L.Token): nat { t.position.offsetEnd }

  function TextOf(env: Env, t: L.Token): Option<string> {
    if t.kind == L.Quoted then env.unquote(t.value) else Some(t.value)
  }

  function TypeOf(k: Kind): MatchType
    requires k in OPERATOR
  {
    match k
    case Equals => MatchEqual
    case NotEquals => MatchNotEqual
    case Matches => MatchRegexp
    case NotMatches => MatchNotRegexp
  }

  function ParseMatcher(env: Env, input: string, pos: nat): (r: Result<(Matcher, nat)>)
    requires pos <= |input|
    ensures r.Ok? ==> pos < r.value.1 <= |input|
  {
    L.TokenInPlace(input, pos);
    var name := ExpectPeek(input, pos, TEXT);
    if name.Err? then Err(NoLabelName(name.error))
    else if TextOf(env, name.value).None? then Err(BadText(name.value))
    else
      L.TokenInPlace(input, EndOf(name.value));
      var op := ExpectPeek(input, EndOf(name.value), OPERATOR);
      if op.Err? then Err(NoOperator(op.error))
      else
        L.TokenInPlace(input, EndOf(op.value));
        var value := ExpectPeek(input, EndOf(op.value), TEXT);
        if value.Err? then Err(NoLabelValue(value.error))
        else if TextOf(env, value.value).None? then Err(BadText(value.value))
        else
          var m := Matcher(TypeOf(op.value.kind), TextOf(env, name.value).value, TextOf(env, value.value).value);
          if Compiles(env.rx, m) then Ok((m, EndOf(value.value))) else Err(BadMatcher(m))
  }

  /** One call of a parse function: the next configuration, or None at the end. */
  function Step(env: Env, input: string, c: Config): (r: Result<Option<Config>>)
    requires c.pos <= |input|
    ensures r.Ok? && r.value.Some? ==> Before(input, r.value.value, c)
  {
    L.TokenInPlace(input, c.pos);
    var next := L.Lex(input, c.pos);
    match c.fn
    case OpenBrace =>
      (match next
       case Bad(error) => Err(Lexical(error))
       case End => Ok(Some(c.(fn := Eof, braced := false)))
       case Tok(t) =>
         var pos := if t.kind == L.OpenBrace then EndOf(t) else c.pos;
         (match L.Lex(input, pos)
          case Bad(error) => Err(Lexical(error))
          case End => Ok(Some(c.(fn := CloseBrace, pos := pos, braced := t.kind == L.OpenBrace)))
          case Tok(t2) =>
            Ok(Some(c.(fn := if t2.kind == L.CloseBrace then CloseBrace else OneMatcher,
                       pos := pos, braced := t.kind == L.OpenBrace)))))
    case CloseBrace =>
      var t := ExpectPeek(input, c.pos, {L.CloseBrace});
      if c.braced then
        if t.Ok? then Ok(Some(c.(fn := Eof, pos := EndOf(t.value)))) else Err(NoCloseBrace(t.error))
      else if t.Ok? then Err(NoOpenBrace) else Ok(Some(c.(fn := Eof)))
    case OneMatcher =>
      var m := ParseMatcher(env, input, c.pos);
      if m.Err? then Err(m.error)
      else Ok(Some(c.(fn := EndOfMatcher, pos := m.value.1, matchers := c.matchers + [m.value.0])))
    case EndOfMatcher =>
      var t := ExpectPeek(input, c.pos, {L.Comma, L.CloseBrace});
      if t.Ok? then Ok(Some(c.(fn := if t.value.kind == L.Comma then Comma else CloseBrace)))
      else if t.error.EndOfInput? then Ok(Some(c.(fn := CloseBrace)))
      else Err(ExpectedCommaOrCloseBrace(t.error))
    case Comma =>
      var t := ExpectPeek(input, c.pos, {L.Comma});
      if t.Err? then Err(ExpectedComma(t.error))
      else
        var t2 := ExpectPeek(input, EndOf(t.value), {L.CloseBrace, L.Unquoted, L.Quoted});
        if t2.Ok? then
          Ok(Some(c.(fn := if t2.value.kind == L.CloseBrace then CloseBrace else OneMatcher, pos := EndOf(t.value))))
        else if t2.error.EndOfInput? then Ok(Some(c.(fn := CloseBrace, pos := EndOf(t.value))))
        else Err(ExpectedMatcherOrCloseBrace(t2.error))
    case Eof =>
      (match next
       case Bad(error) => Err(ExpectedEOF(Lexical(error)))
       case End => Ok(None)
       case Tok(t) => Err(ExpectedEOF(Unexpected(t))))
  }

  function Rank(fn: Fn): nat {
    match fn
    case OpenBrace => 4
    case OneMatcher => 3
    case EndOfMatcher => 3
    case Comma => 2
    case CloseBrace => 1
    case Eof => 0
  }

  /** What decreases with every step: the input ahead, then the rank of the parse function. */
  predicate Before(input: string, c: Config, d: Config) {
    d.pos <= c.pos <= |input| && (d.pos < c.pos || Rank(c.fn) < Rank(d.fn))
  }

  /** The automaton run to its end. */
  function Run(env: Env, input: string, c: Config): Result<seq<Matcher>>
    requires c.pos <= |input|
    decreases |input| - c.pos, Rank(c.fn)
  {
    var r := Step(env, input, c);
    if r.Err? then Err(r.error)
    else if r.value.None? then Ok(c.matchers)
    else Run(env, input, r.value.value)
  }

  const START := Config(OpenBrace, 0, [], false)

  function Parse(env: Env, input: string): Result<seq<Matcher>> { Run(env, input, START) }

  // ---------------------------------------------------------------- the parser

  class Parser {
    const env: Env
    const lexer: L.Lexer
    var matchers: seq<Matcher>
    var hasOpenBrace: bool

    constructor (env: Env, input: string)
      ensures this.env == env && lexer.input == input && Ready() && fresh(lexer)
      ensures matchers == [] && !hasOpenBrace && lexer.pos == 0
    {
      this.env := env;
      lexer := new L.Lexer(input);
      matchers, hasOpenBrace := [], false;
    }

    /** The lexer stands between tokens, or has failed on the very next one. */
    predicate Ready()
      reads lexer
    {
      && lexer.Valid() && (lexer.err.None? ==> lexer.start == lexer.pos)
      && (lexer.err.Some? ==> L.Lex(lexer.input, lexer.pos) == L.Bad(lexer.err.value))
    }

    function Now(fn: Fn): Config
      reads this, lexer
    {
      Config(fn, lexer.pos, matchers, hasOpenBrace)
    }

    /** The parser did what the step says. */
    predicate Did(r: Result<Option<Fn>>, step: Result<Option<Config>>)
      reads this, lexer
    {
      match step
      case Err(error) => r == Err(error)
      case Ok(None) => r == Ok(None)
      case Ok(Some(c)) => r == Ok(Some(c.fn)) && Now(c.fn) == c && Ready()
    }

    method ExpectPeeked(kinds: set<Kind>) returns (r: Result<L.Token>)
      requires Ready()
      modifies lexer
      ensures r == ExpectPeek(lexer.input, old(lexer.pos), kinds) && Ready() && lexer.pos == old(lexer.pos)
    {
      var t, e := lexer.Peek();
      if e.Some? { return Err(Lexical(e.value)); }
      L.TokenInPlace(lexer.input, lexer.pos);
      if t.kind == L.EOF { return Err(EndOfInput); }
      if t.kind !in kinds { return Err(Unexpected(t)); }
      return Ok(t);
    }

    /** A token that was peeked at is the one then scanned, and scanning it cannot fail. */
    method Expect(kinds: set<Kind>) returns (r: Result<L.Token>)
      requires Ready()
      modifies lexer
      ensures r == ExpectPeek(lexer.input, old(lexer.pos), kinds) && Ready()
      ensures lexer.pos == if r.Ok? then EndOf(r.value) else old(lexer.pos)
    {
      r := ExpectPeeked(kinds);
      if r.Ok? {
        var t, e := lexer.Scan();
        assert e.None? && t == r.value;
      }
    }

    /** The next token as acceptPeek sees it: whether it is of that kind, or the end, or an error. */
    method AcceptPeeked(kind: Kind) returns (r: Result<bool>)
      requires Ready()
      modifies lexer
      ensures Ready() && lexer.pos == old(lexer.pos)
      ensures match L.Lex(lexer.input, lexer.pos)
              case Bad(error) => r == Err(Lexical(error))
              case End => r == Err(EndOfInput)
              case Tok(t) => r == Ok(t.kind == kind)
    {
      var t, e := lexer.Peek();
      if e.Some? { return Err(Lexical(e.value)); }
      L.TokenInPlace(lexer.input, lexer.pos);
      if t.kind == L.EOF { return Err(EndOfInput); }
      return Ok(t.kind == kind);
    }

    method ParseOpenBrace() returns (r: Result<Option<Fn>>)
      requires Ready()
      modifies this, lexer
      ensures Did(r, Step(env, lexer.input, old(Now(OpenBrace))))
    {
      var open := AcceptPeeked(L.OpenBrace);
      hasOpenBrace := open.Ok? && open.value;
      if open.Err? { return if open.error.EndOfInput? then Ok(Some(Eof)) else Err(open.error); }
      if open.value {
        var t, e := lexer.Scan();
        assert e.None?;
      }
      var close := AcceptPeeked(L.CloseBrace);
      if close.Err? { return if close.error.EndOfInput? then Ok(Some(CloseBrace)) else Err(close.error); }
      return Ok(Some(if close.value then CloseBrace else OneMatcher));
    }

    method ParseCloseBrace() returns (r: Result<Option<Fn>>)
      requires Ready()
      modifies this, lexer
      ensures Did(r, Step(env, lexer.input, old(Now(CloseBrace))))
    {
      var t := Expect({L.CloseBrace});
      if hasOpenBrace {
        if t.Err? { return Err(NoCloseBrace(t.error)); }
      } else {
        if t.Ok? { return Err(NoOpenBrace); }
      }
      return Ok(Some(Eof));
    }

    method ParseOneMatcher() returns (r: Result<Option<Fn>>)
      requires Ready()
      modifies this, lexer
      ensures Did(r, Step(env, lexer.input, old(Now(OneMatcher))))
    {
      var name := Expect(TEXT);
      if name.Err? { return Err(NoLabelName(name.error)); }
      if TextOf(env, name.value).None? { return Err(BadText(name.value)); }
      var op := Expect(OPERATOR);
      if op.Err? { return Err(NoOperator(op.error)); }
      var value := Expect(TEXT);
      if value.Err? { return Err(NoLabelValue(value.error)); }
      if TextOf(env, value.value).None? { return Err(BadText(value.value)); }
      var m := Matcher(TypeOf(op.value.kind), TextOf(env, name.value).value, TextOf(env, value.value).value);
      if !Compiles(env.rx, m) { return Err(BadMatcher(m)); }
      matchers := matchers + [m];
      return Ok(Some(EndOfMatcher));
    }

    method ParseEndOfMatcher() returns (r: Result<Option<Fn>>)
      requires Ready()
      modifies this, lexer
      ensures Did(r, Step(env, lexer.input, old(Now(EndOfMatcher))))
    {
      var t := ExpectPeeked({L.Comma, L.CloseBrace});
      if t.Err? {
        return if t.error.EndOfInput? then Ok(Some(CloseBrace)) else Err(ExpectedCommaOrCloseBrace(t.error));
      }
      return Ok(Some(if t.value.kind == L.Comma then Comma else CloseBrace));
    }

    method ParseComma() returns (r: Result<Option<Fn>>)
      requires Ready()
      modifies this, lexer
      ensures Did(r, Step(env, lexer.input, old(Now(Comma))))
    {
      var t := Expect({L.Comma});
      if t.Err? { return Err(ExpectedComma(t.error)); }
      var t2 := ExpectPeeked({L.CloseBrace, L.Unquoted, L.Quoted});
      if t2.Err? {
        return if t2.error.EndOfInput? then Ok(Some(CloseBrace)) else Err(ExpectedMatcherOrCloseBrace(t2.error));
      }
      return Ok(Some(if t2.value.kind == L.CloseBrace then CloseBrace else OneMatcher));
    }

    method ParseEof() returns (r: Result<Option<Fn>>)
      requires Ready()
      modifies this, lexer
      ensures Did(r, Step(env, lexer.input, old(Now(Eof)))) && matchers == old(matchers)
    {
      L.TokenInPlace(lexer.input, lexer.pos);
      var t, e := lexer.Scan();
      if e.Some? { return Err(ExpectedEOF(Lexical(e.value))); }
      if t.kind != L.EOF { return Err(ExpectedEOF(Unexpected(t))); }
      return Ok(None);
    }

    method CallFn(fn: Fn) returns (r: Result<Option<Fn>>)
      requires Ready()
      modifies this, lexer
      ensures Did(r, Step(env, lexer.input, old(Now(fn)))) && (r == Ok(None) ==> matchers == old(matchers))
    {
      match fn
      case OpenBrace => r := ParseOpenBrace();
      case CloseBrace => r := ParseCloseBrace();
      case OneMatcher => r := ParseOneMatcher();
      case EndOfMatcher => r := ParseEndOfMatcher();
      case Comma => r := ParseComma();
      case Eof => r := ParseEof();
    }

    /** Calls parse functions until one returns none: it terminates, with the automaton's result. */
    method ParseAll() returns (r: Result<seq<Matcher>>)
      requires Ready()
      modifies this, lexer
      ensures r == Run(env, lexer.input, old(Now(OpenBrace)))
    {
      var fn := OpenBrace;
      while true
        invariant Ready() && Run(env, lexer.input, Now(fn)) == Run(env, lexer.input, old(Now(OpenBrace)))
        decreases |lexer.input| - lexer.pos, Rank(fn)
      {
        var next := CallFn(fn);
        if next.Err? { return Err(next.error); }
        if next.value.None? { break; }
        fn := next.value.value;
      }
      return Ok(matchers);
    }
  }
}
