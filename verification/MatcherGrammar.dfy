/** The language of matcher expressions, as sentences written out, and the parser's automaton
    as exactly its recogniser. */
module MatcherGrammar {
  import opened Basics
  import opened Labels
  import opened MatcherParser

  /** The text of a token. Sentences are made of texts alone; nothing is said of token kinds. */
  type Lexeme = string

  function Strip(ts: seq<L.Token>): seq<Lexeme> { seq(|ts|, i requires 0 <= i < |ts| => ts[i].value) }

  /** The text from position i on, as lexemes, unless the lexer fails. */
  function Lexemes(input: string, i: nat): Option<seq<Lexeme>>
    requires i <= |input|
  {
    var ts := L.Tokens(input, i);
    if ts.None? then None else Some(Strip(ts.value))
  }

  // ---------------------------------------------------------------- sentences

  /** A matcher: a name, an operator and a value. */
  datatype Item = Item(name: Lexeme, op: Lexeme, value: Lexeme)

  /** A quoted text, or one without reserved runes. */
  predicate IsText(x: Lexeme) { L.IsQuoted(x) || L.IsWord(x) }

  /** How each type of matcher is written. */
  function Operator(ty: MatchType): Lexeme {
    match ty
    case MatchEqual => "="
    case MatchNotEqual => "!="
    case MatchRegexp => "=~"
    case MatchNotRegexp => "!~"
  }

  function ItemLexemes(it: Item): seq<Lexeme> { [it.name, it.op, it.value] }

  /** Matchers separated by commas. */
  function Separated(items: seq<Item>): seq<Lexeme> {
    if items == [] then []
    else if |items| == 1 then ItemLexemes(items[0])
    else ItemLexemes(items[0]) + [","] + Separated(items[1..])
  }

  function If(b: bool, x: Lexeme): seq<Lexeme> { if b then [x] else [] }

  /** Matchers separated by commas, perhaps a trailing comma, in braces or not. */
  function Sentence(items: seq<Item>, trailing: bool, braced: bool): seq<Lexeme> {
    If(braced, "{") + Rest(items, trailing, braced)
  }

  /** A sentence after its opening brace. */
  function Rest(items: seq<Item>, trailing: bool, braced: bool): seq<Lexeme> {
    Separated(items) + If(trailing, ",") + If(braced, "}")
  }

  /** What a name or value says: quoted texts are unquoted. */
  function Text(env: Env, x: Lexeme): Option<string> { if L.IsQuoted(x) then env.unquote(x) else Some(x) }

  /** The item stands for matcher m. */
  predicate StandsFor(env: Env, it: Item, m: Matcher) {
    && IsText(it.name) && it.op == Operator(m.ty) && IsText(it.value) && Compiles(env.rx, m)
    && Text(env, it.name) == Some(m.name) && Text(env, it.value) == Some(m.value)
  }

  predicate AllStandFor(env: Env, items: seq<Item>, ms: seq<Matcher>) {
    |ms| == |items| && forall i :: 0 <= i < |items| ==> StandsFor(env, items[i], ms[i])
  }

  /** The text is such a sentence, with these matchers in this order; a comma needs a matcher before it. */
  predicate Reads(env: Env, input: string, items: seq<Item>, trailing: bool, braced: bool, ms: seq<Matcher>) {
    && Lexemes(input, 0) == Some(Sentence(items, trailing, braced))
    && (items == [] ==> !trailing) && AllStandFor(env, items, ms)
  }

  // ---------------------------------------------------------------- lexemes one by one

  lemma HeadLexeme(input: string, i: nat)
    requires i <= |input|
    ensures L.Lex(input, i).Bad? ==> Lexemes(input, i) == None
    ensures L.Lex(input, i).End? <==> Lexemes(input, i) == Some([])
    ensures L.Lex(input, i).Tok? ==>
      var t := L.Lex(input, i).token;
      && i < EndOf(t) <= |input|
      && Lexemes(input, i) == (if Lexemes(input, EndOf(t)).None? then None
                               else Some([t.value] + Lexemes(input, EndOf(t)).value))
  {
    L.TokenInPlace(input, i);
    assert L.Lex(input, i).End? ==> Strip(L.Tokens(input, i).value) == [];
    if L.Lex(input, i).Tok? {
      var t := L.Lex(input, i).token;
      var rest := L.Tokens(input, EndOf(t));
      if rest.Some? { assert Strip([t] + rest.value) == [t.value] + Strip(rest.value); }
    }
  }

  /** The text from i on starts with lexeme x. */
  lemma Starts(input: string, i: nat, x: Lexeme, rest: seq<Lexeme>)
    requires i <= |input| && Lexemes(input, i) == Some([x] + rest)
    ensures L.Lex(input, i).Tok? && L.Lex(input, i).token.value == x
    ensures i < EndOf(L.Lex(input, i).token) <= |input|
    ensures Lexemes(input, EndOf(L.Lex(input, i).token)) == Some(rest)
  {
    HeadLexeme(input, i);
    assert [x] + rest != [];
    var t := L.Lex(input, i).token;
    assert ([x] + rest)[0] == x && ([x] + rest)[1..] == rest;
    assert ([t.value] + Lexemes(input, EndOf(t)).value)[1..] == Lexemes(input, EndOf(t)).value;
  }

  /** The kinds of the tokens that are written one way only, and of names and values. */
  lemma KindOfMark(input: string, i: nat, kind: Kind, text: Lexeme)
    requires i <= |input| && L.Lex(input, i).Tok?
    requires (kind, text) in {(L.OpenBrace, "{"), (L.CloseBrace, "}"), (L.Comma, ",")}
    ensures L.Lex(input, i).token.kind == kind <==> L.Lex(input, i).token.value == text
  {
    L.KindByText(input, i);
  }

  lemma KindOfText(input: string, i: nat)
    requires i <= |input| && L.Lex(input, i).Tok?
    ensures L.Lex(input, i).token.kind in TEXT <==> IsText(L.Lex(input, i).token.value)
  {
    L.KindByText(input, i);
  }

  // ---------------------------------------------------------------- one matcher

  lemma TokenThen(input: string, i: nat, t: L.Token, rest: seq<Lexeme>)
    requires i <= |input| && L.Lex(input, i) == L.Tok(t)
    requires EndOf(t) <= |input| && Lexemes(input, EndOf(t)) == Some(rest)
    ensures Lexemes(input, i) == Some([t.value] + rest)
  {
    HeadLexeme(input, i);
  }

  /** Three tokens in a row, a name, an operator and a value, are the lexemes of an item. */
  lemma ThreeLexemes(input: string, i: nat, name: L.Token, op: L.Token, value: L.Token, rest: seq<Lexeme>)
    requires i <= |input| && L.Lex(input, i) == L.Tok(name)
    requires EndOf(name) <= |input| && L.Lex(input, EndOf(name)) == L.Tok(op)
    requires EndOf(op) <= |input| && L.Lex(input, EndOf(op)) == L.Tok(value)
    requires EndOf(value) <= |input| && Lexemes(input, EndOf(value)) == Some(rest)
    ensures Lexemes(input, i) == Some(ItemLexemes(Item(name.value, op.value, value.value)) + rest)
  {
    TokenThen(input, EndOf(op), value, rest);
    TokenThen(input, EndOf(name), op, [value.value] + rest);
    TokenThen(input, i, name, [op.value] + ([value.value] + rest));
    assert [name.value] + ([op.value] + ([value.value] + rest)) == [name.value, op.value, value.value] + rest;
  }

  lemma OperatorsFit(op: L.Token, ty: MatchType)
    requires L.KindFits(op.kind, op.value)
    ensures op.value == Operator(ty) <==> op.kind in OPERATOR && TypeOf(op.kind) == ty
  {
  }

  /** Three tokens stand for a matcher exactly when the parser makes that matcher of them. */
  lemma TokensStandFor(env: Env, input: string, i: nat, j: nat, k: nat, m: Matcher)
    requires i <= |input| && j <= |input| && k <= |input|
    requires L.Lex(input, i).Tok? && L.Lex(input, j).Tok? && L.Lex(input, k).Tok?
    ensures var name, op, value := L.Lex(input, i).token, L.Lex(input, j).token, L.Lex(input, k).token;
      StandsFor(env, Item(name.value, op.value, value.value), m) <==>
      && name.kind in TEXT && op.kind in OPERATOR && value.kind in TEXT && Compiles(env.rx, m)
      && TextOf(env, name) == Some(m.name) && TypeOf(op.kind) == m.ty && TextOf(env, value) == Some(m.value)
  {
    SameText(env, input, i);
    SameText(env, input, k);
    L.KindByText(input, j);
    OperatorsFit(L.Lex(input, j).token, m.ty);
  }

  lemma SameText(env: Env, input: string, i: nat)
    requires i <= |input| && L.Lex(input, i).Tok?
    ensures var t := L.Lex(input, i).token;
      (t.kind in TEXT <==> IsText(t.value)) && TextOf(env, t) == Text(env, t.value)
  {
    L.KindByText(input, i);
  }

  lemma MatcherIsRead(env: Env, input: string, i: nat) returns (it: Item)
    requires i <= |input| && ParseMatcher(env, input, i).Ok?
    ensures StandsFor(env, it, ParseMatcher(env, input, i).value.0)
    ensures var rest := Lexemes(input, ParseMatcher(env, input, i).value.1);
      rest.Some? ==> Lexemes(input, i) == Some(ItemLexemes(it) + rest.value)
  {
    var name := L.Lex(input, i).token;
    var op := L.Lex(input, EndOf(name)).token;
    var value := L.Lex(input, EndOf(op)).token;
    it := Item(name.value, op.value, value.value);
    var rest := Lexemes(input, EndOf(value));
    if rest.Some? { ThreeLexemes(input, i, name, op, value, rest.value); }
    TokensStandFor(env, input, i, EndOf(name), EndOf(op), ParseMatcher(env, input, i).value.0);
  }

  lemma MatcherReads(env: Env, input: string, i: nat, it: Item, m: Matcher, rest: seq<Lexeme>)
    requires i <= |input| && StandsFor(env, it, m) && Lexemes(input, i) == Some(ItemLexemes(it) + rest)
    ensures ParseMatcher(env, input, i).Ok? && ParseMatcher(env, input, i).value.0 == m
    ensures Lexemes(input, ParseMatcher(env, input, i).value.1) == Some(rest)
  {
    assert ItemLexemes(it) + rest == [it.name] + ([it.op] + ([it.value] + rest));
    Starts(input, i, it.name, [it.op] + ([it.value] + rest));
    var name := L.Lex(input, i).token;
    Starts(input, EndOf(name), it.op, [it.value] + rest);
    var op := L.Lex(input, EndOf(name)).token;
    Starts(input, EndOf(op), it.value, rest);
    TokensStandFor(env, input, i, EndOf(name), EndOf(op), m);
  }

  // ---------------------------------------------------------------- faults

  /** The next token has one of the texts, */
  predicate IsNext(input: string, i: nat, texts: set<Lexeme>)
    requires i <= |input|
  {
    L.Lex(input, i).Tok? && L.Lex(input, i).token.value in texts
  }

  /** or is a name or a value. */
  predicate IsTextNext(input: string, i: nat)
    requires i <= |input|
  {
    L.Lex(input, i).Tok? && IsText(L.Lex(input, i).token.value)
  }

  /** Where the next token ends. */
  function AfterNext(input: string, i: nat): (j: nat)
    requires i <= |input| && L.Lex(input, i).Tok?
    ensures i < j <= |input|
  {
    L.TokenInPlace(input, i);
    EndOf(L.Lex(input, i).token)
  }

  const OPERATORS: set<Lexeme> := {"=", "!=", "=~", "!~"}

  lemma OperatorNext(input: string, i: nat)
    requires i <= |input|
    ensures ExpectPeek(input, i, OPERATOR).Ok? <==> IsNext(input, i, OPERATORS)
  {
    if L.Lex(input, i).Tok? { L.KindByText(input, i); }
  }

  lemma TextNext(env: Env, input: string, i: nat)
    requires i <= |input|
    ensures ExpectPeek(input, i, TEXT).Ok? <==> IsTextNext(input, i)
    ensures IsTextNext(input, i) ==> TextOf(env, L.Lex(input, i).token) == Text(env, L.Lex(input, i).token.value)
  {
    if L.Lex(input, i).Tok? { SameText(env, input, i); }
  }

  /** The fault reported for a matcher is its first one: no name, a name that cannot be unquoted, no
      operator, no value, a value that cannot be unquoted, a regular expression that does not compile. */
  lemma FirstFault(env: Env, input: string, i: nat)
    requires i <= |input|
    ensures var r := ParseMatcher(env, input, i);
      if !IsTextNext(input, i) then r.Err? && r.error.NoLabelName?
      else
        var name, j := L.Lex(input, i).token, AfterNext(input, i);
        if Text(env, name.value).None? then r == Err(BadText(name))
        else if !IsNext(input, j, OPERATORS) then r.Err? && r.error.NoOperator?
        else
          var k := AfterNext(input, j);
          if !IsTextNext(input, k) then r.Err? && r.error.NoLabelValue?
          else
            var value := L.Lex(input, k).token;
            if Text(env, value.value).None? then r == Err(BadText(value))
            else r.Ok? || (r.error.BadMatcher? && !Compiles(env.rx, r.error.m))
  {
    TextNext(env, input, i);
    if IsTextNext(input, i) {
      var j := AfterNext(input, i);
      OperatorNext(input, j);
      if IsNext(input, j, OPERATORS) { TextNext(env, input, AfterNext(input, j)); }
    }
  }

  /** Outside matchers: a brace that is missing on either side, something other than a comma or a brace
      after a matcher, something other than a matcher or a brace after a comma, and text after the
      end. */
  lemma OtherFaults(env: Env, input: string, c: Config)
    requires c.pos <= |input|
    ensures var r, ends := Step(env, input, c), L.Lex(input, c.pos).End?;
      && (c.fn == CloseBrace ==>
            && (r.Err? <==> c.braced != IsNext(input, c.pos, {"}"}))
            && (r.Err? ==> if c.braced then r.error.NoCloseBrace? else r.error == NoOpenBrace))
      && (c.fn == EndOfMatcher ==>
            && (r.Err? <==> !ends && !IsNext(input, c.pos, {",", "}"}))
            && (r.Err? ==> r.error.ExpectedCommaOrCloseBrace?))
      && (c.fn == Eof ==> (r.Err? <==> !ends) && (r.Err? ==> r.error.ExpectedEOF?))
      && (c.fn == Comma ==>
            if !IsNext(input, c.pos, {","}) then r.Err? && r.error.ExpectedComma?
            else
              var j := AfterNext(input, c.pos);
              && (r.Err? <==> !L.Lex(input, j).End? && !IsNext(input, j, {"}"}) && !IsTextNext(input, j))
              && (r.Err? ==> r.error.ExpectedMatcherOrCloseBrace?))
  {
    if L.Lex(input, c.pos).Tok? {
      KindOfMark(input, c.pos, L.CloseBrace, "}");
      KindOfMark(input, c.pos, L.Comma, ",");
      var j := AfterNext(input, c.pos);
      if L.Lex(input, j).Tok? {
        KindOfMark(input, j, L.CloseBrace, "}");
        KindOfText(input, j);
      }
    }
  }

  // ---------------------------------------------------------------- the end

  lemma EndsExactly(env: Env, input: string, c: Config)
    requires c.pos <= |input| && c.fn == Eof
    ensures Run(env, input, c).Ok? <==> Lexemes(input, c.pos) == Some([])
    ensures Run(env, input, c).Ok? ==> Run(env, input, c).value == c.matchers
  {
    HeadLexeme(input, c.pos);
  }

  /** From the closing brace on: exactly the brace if one was opened, and nothing else. */
  lemma ClosesExactly(env: Env, input: string, c: Config)
    requires c.pos <= |input| && c.fn == CloseBrace
    ensures Run(env, input, c).Ok? <==> Lexemes(input, c.pos) == Some(If(c.braced, "}"))
    ensures Run(env, input, c).Ok? ==> Run(env, input, c).value == c.matchers
  {
    HeadLexeme(input, c.pos);
    if L.Lex(input, c.pos).Tok? { KindOfMark(input, c.pos, L.CloseBrace, "}"); }
    if c.braced {
      var t := ExpectPeek(input, c.pos, {L.CloseBrace});
      assert ["}"] + [] == ["}"];
      if t.Ok? {
        EndsExactly(env, input, c.(fn := Eof, pos := EndOf(t.value)));
      }
      if Lexemes(input, c.pos) == Some(["}"]) { Starts(input, c.pos, "}", []); }
    } else {
      EndsExactly(env, input, c.(fn := Eof));
    }
  }

  // ---------------------------------------------------------------- the list

  predicate NextIs(input: string, i: nat, kinds: set<Kind>)
    requires i <= |input|
  {
    ExpectPeek(input, i, kinds).Ok?
  }

  predicate NextCloses(input: string, i: nat)
    requires i <= |input|
  {
    L.Lex(input, i).End? || NextIs(input, i, {L.CloseBrace})
  }

  /** What follows a matcher: nothing more, a trailing comma, or a comma and another matcher. */
  datatype Follow = Closing | Trailing(after: nat) | Another(after: nat) | Neither

  function FollowAt(input: string, i: nat): (f: Follow)
    requires i <= |input|
    ensures f.Trailing? || f.Another? ==> i < f.after <= |input|
  {
    HeadLexeme(input, i);
    if NextCloses(input, i) then Closing
    else if NextIs(input, i, {L.Comma}) then
      var j := EndOf(L.Lex(input, i).token);
      if NextCloses(input, j) then Trailing(j) else if NextIs(input, j, TEXT) then Another(j) else Neither
    else Neither
  }

  function To(c: Config, fn: Fn, pos: nat): Config { Config(fn, pos, c.matchers, c.braced) }

  lemma Follows(env: Env, input: string, c: Config)
    requires c.pos <= |input| && c.fn == EndOfMatcher
    ensures var f := FollowAt(input, c.pos);
      && (f.Closing? ==> Run(env, input, c) == Run(env, input, To(c, CloseBrace, c.pos)))
      && (f.Trailing? ==> Run(env, input, c) == Run(env, input, To(c, CloseBrace, f.after)))
      && (f.Another? ==> Run(env, input, c) == Run(env, input, To(c, OneMatcher, f.after)))
      && (f.Neither? ==> Run(env, input, c).Err?)
  {
    HeadLexeme(input, c.pos);
    if !NextCloses(input, c.pos) && NextIs(input, c.pos, {L.Comma}) {
      var d := To(c, Comma, c.pos);
      assert Run(env, input, c) == Run(env, input, d);
      var r := Step(env, input, d);
      assert Run(env, input, d) == if r.Err? then Err(r.error) else Run(env, input, r.value.value);
    }
  }

  lemma CommaAt(input: string, i: nat)
    requires i <= |input| && NextIs(input, i, {L.Comma})
    ensures var rest := Lexemes(input, EndOf(L.Lex(input, i).token));
      rest.Some? ==> Lexemes(input, i) == Some([","] + rest.value)
  {
    HeadLexeme(input, i);
    KindOfMark(input, i, L.Comma, ",");
  }

  lemma RestOfOne(it: Item, braced: bool)
    ensures Rest([it], false, braced) == ItemLexemes(it) + If(braced, "}")
    ensures Rest([it], true, braced) == ItemLexemes(it) + ([","] + If(braced, "}"))
  {
  }

  lemma RestOfMore(it: Item, more: seq<Item>, trailing: bool, braced: bool)
    requires more != []
    ensures Rest([it] + more, trailing, braced) == ItemLexemes(it) + ([","] + Rest(more, trailing, braced))
  {
  }

  /** One matcher more in front. */
  lemma Prepend(env: Env, it: Item, m: Matcher, more: seq<Item>, rest: seq<Matcher>, before: seq<Matcher>)
    requires StandsFor(env, it, m) && AllStandFor(env, more, rest)
    ensures AllStandFor(env, [it] + more, [m] + rest) && before + [m] + rest == before + ([m] + rest)
  {
  }

  /** The configuration after a matcher. */
  function After(env: Env, input: string, c: Config): Config
    requires c.pos <= |input| && ParseMatcher(env, input, c.pos).Ok?
  {
    var m := ParseMatcher(env, input, c.pos).value;
    Config(EndOfMatcher, m.1, c.matchers + [m.0], c.braced)
  }

  lemma MatcherRuns(env: Env, input: string, c: Config)
    requires c.pos <= |input| && c.fn == OneMatcher
    ensures ParseMatcher(env, input, c.pos).Err? ==> Run(env, input, c).Err?
    ensures ParseMatcher(env, input, c.pos).Ok? ==> Run(env, input, c) == Run(env, input, After(env, input, c))
  {
  }

  /** What was accepted after the last matcher. */
  lemma LastIsRead(env: Env, input: string, e: Config, it: Item) returns (trailing: bool)
    requires e.pos <= |input| && e.fn == EndOfMatcher && Run(env, input, e).Ok? && !FollowAt(input, e.pos).Another?
    ensures Run(env, input, e).value == e.matchers
    ensures Lexemes(input, e.pos).Some?
    ensures ItemLexemes(it) + Lexemes(input, e.pos).value == Rest([it], trailing, e.braced)
  {
    Follows(env, input, e);
    RestOfOne(it, e.braced);
    var f := FollowAt(input, e.pos);
    trailing := f.Trailing?;
    if trailing {
      ClosesExactly(env, input, To(e, CloseBrace, f.after));
      CommaAt(input, e.pos);
    } else {
      ClosesExactly(env, input, To(e, CloseBrace, e.pos));
    }
  }

  /** If the automaton accepts from a matcher on, what it read is a list of matchers. */
  lemma {:induction false} ListIsRead(env: Env, input: string, c: Config)
      returns (items: seq<Item>, trailing: bool, added: seq<Matcher>)
    requires c.pos <= |input| && c.fn == OneMatcher && Run(env, input, c).Ok?
    ensures items != [] && AllStandFor(env, items, added)
    ensures Run(env, input, c).value == c.matchers + added
    ensures Lexemes(input, c.pos) == Some(Rest(items, trailing, c.braced))
    decreases |input| - c.pos
  {
    MatcherRuns(env, input, c);
    var it := MatcherIsRead(env, input, c.pos);
    var m, e := ParseMatcher(env, input, c.pos).value.0, After(env, input, c);
    var f := FollowAt(input, e.pos);
    if f.Another? {
      CommaAt(input, e.pos);
      Follows(env, input, e);
      var more, t, rest := ListIsRead(env, input, To(e, OneMatcher, f.after));
      items, trailing, added := [it] + more, t, [m] + rest;
      RestOfMore(it, more, t, c.braced);
      Prepend(env, it, m, more, rest, c.matchers);
    } else {
      trailing := LastIsRead(env, input, e, it);
      items, added := [it], [m];
    }
  }

  lemma CommaReads(input: string, i: nat, rest: seq<Lexeme>)
    requires i <= |input| && Lexemes(input, i) == Some([","] + rest)
    ensures NextIs(input, i, {L.Comma}) && EndOf(L.Lex(input, i).token) <= |input|
    ensures Lexemes(input, EndOf(L.Lex(input, i).token)) == Some(rest)
    ensures !NextCloses(input, i)
  {
    Starts(input, i, ",", rest);
    KindOfMark(input, i, L.Comma, ",");
  }

  lemma CloseReads(input: string, i: nat, braced: bool)
    requires i <= |input| && Lexemes(input, i) == Some(If(braced, "}"))
    ensures NextCloses(input, i)
  {
    HeadLexeme(input, i);
    if braced {
      assert ["}"] == ["}"] + [];
      Starts(input, i, "}", []);
      KindOfMark(input, i, L.CloseBrace, "}");
    }
  }

  /** The last matcher of a list, with or without a comma after it. */
  lemma LastReads(env: Env, input: string, e: Config, trailing: bool)
    requires e.pos <= |input| && e.fn == EndOfMatcher
    requires Lexemes(input, e.pos) == Some(if trailing then [","] + If(e.braced, "}")
                                           else If(e.braced, "}"))
    ensures Run(env, input, e) == Ok(e.matchers)
  {
    Follows(env, input, e);
    if trailing {
      CommaReads(input, e.pos, If(e.braced, "}"));
      var j := EndOf(L.Lex(input, e.pos).token);
      CloseReads(input, j, e.braced);
      ClosesExactly(env, input, To(e, CloseBrace, j));
    } else {
      CloseReads(input, e.pos, e.braced);
      ClosesExactly(env, input, To(e, CloseBrace, e.pos));
    }
  }

  /** A matcher that is not the last. */
  lemma AnotherReads(env: Env, input: string, e: Config, next: Lexeme, rest: seq<Lexeme>)
    requires e.pos <= |input| && e.fn == EndOfMatcher && IsText(next)
    requires Lexemes(input, e.pos) == Some([","] + ([next] + rest))
    ensures FollowAt(input, e.pos).Another?
    ensures Lexemes(input, FollowAt(input, e.pos).after) == Some([next] + rest)
  {
    CommaReads(input, e.pos, [next] + rest);
    Starts(input, EndOf(L.Lex(input, e.pos).token), next, rest);
    KindOfText(input, EndOf(L.Lex(input, e.pos).token));
  }

  /** The first matcher of several is read, and the next one is up. */
  lemma FirstReads(env: Env, input: string, c: Config, it: Item, m: Matcher, more: seq<Item>, trailing: bool)
      returns (d: Config)
    requires c.pos <= |input| && c.fn == OneMatcher && StandsFor(env, it, m) && more != [] && IsText(more[0].name)
    requires Lexemes(input, c.pos) == Some(Rest([it] + more, trailing, c.braced))
    ensures d.fn == OneMatcher && d.pos <= |input| && d.matchers == c.matchers + [m] && d.braced == c.braced
    ensures Run(env, input, c) == Run(env, input, d)
    ensures Lexemes(input, d.pos) == Some(Rest(more, trailing, c.braced))
  {
    RestOfMore(it, more, trailing, c.braced);
    var rest := Rest(more, trailing, c.braced);
    MatcherReads(env, input, c.pos, it, m, [","] + rest);
    MatcherRuns(env, input, c);
    var e := After(env, input, c);
    FirstOfRest(more, trailing, c.braced);
    AnotherReads(env, input, e, more[0].name, rest[1..]);
    Follows(env, input, e);
    d := To(e, OneMatcher, FollowAt(input, e.pos).after);
  }

  /** The only matcher. */
  lemma OnlyReads(env: Env, input: string, c: Config, it: Item, m: Matcher, trailing: bool)
    requires c.pos <= |input| && c.fn == OneMatcher && StandsFor(env, it, m)
    requires Lexemes(input, c.pos) == Some(Rest([it], trailing, c.braced))
    ensures Run(env, input, c) == Ok(c.matchers + [m])
  {
    RestOfOne(it, c.braced);
    var tail := if trailing then [","] + If(c.braced, "}") else If(c.braced, "}");
    MatcherReads(env, input, c.pos, it, m, tail);
    MatcherRuns(env, input, c);
    LastReads(env, input, After(env, input, c), trailing);
  }

  lemma Uncons(env: Env, items: seq<Item>, ms: seq<Matcher>, before: seq<Matcher>)
    requires items != [] && AllStandFor(env, items, ms)
    ensures items == [items[0]] + items[1..] && before + [ms[0]] + ms[1..] == before + ms
    ensures StandsFor(env, items[0], ms[0]) && AllStandFor(env, items[1..], ms[1..])
    ensures |items| == 1 ==> items == [items[0]] && before + [ms[0]] == before + ms
    ensures |items| > 1 ==> StandsFor(env, items[1..][0], ms[1])
  {
  }

  /** Every list of matchers is accepted from the first matcher on. */
  lemma {:induction false} ListReads(
      env: Env, input: string, c: Config, items: seq<Item>, trailing: bool, ms: seq<Matcher>)
    requires c.pos <= |input| && c.fn == OneMatcher && items != [] && AllStandFor(env, items, ms)
    requires Lexemes(input, c.pos) == Some(Rest(items, trailing, c.braced))
    ensures Run(env, input, c) == Ok(c.matchers + ms)
    decreases |items|
  {
    Uncons(env, items, ms, c.matchers);
    if |items| == 1 {
      OnlyReads(env, input, c, items[0], ms[0], trailing);
    } else {
      var d := FirstReads(env, input, c, items[0], ms[0], items[1..], trailing);
      ListReads(env, input, d, items[1..], trailing, ms[1..]);
    }
  }

  lemma FirstOfRest(items: seq<Item>, trailing: bool, braced: bool)
    requires items != []
    ensures var r := Rest(items, trailing, braced); r != [] && r[0] == items[0].name && r == [items[0].name] + r[1..]
  {
  }

  // ---------------------------------------------------------------- whole expressions

  /** Where the opening brace ends, if there is one. */
  function Inside(input: string): (i: nat)
    ensures i <= |input|
  {
    HeadLexeme(input, 0);
    if NextIs(input, 0, {L.OpenBrace}) then EndOf(L.Lex(input, 0).token) else 0
  }

  function Braced(input: string): bool { NextIs(input, 0, {L.OpenBrace}) }

  lemma Opens(env: Env, input: string)
    ensures L.Lex(input, 0).End? ==> Parse(env, input) == Ok([])
    ensures L.Lex(input, 0).Bad? || L.Lex(input, Inside(input)).Bad? ==> Parse(env, input).Err?
    ensures L.Lex(input, 0).Tok? && NextCloses(input, Inside(input)) ==>
      Parse(env, input) == Run(env, input, Config(CloseBrace, Inside(input), [], Braced(input)))
    ensures L.Lex(input, 0).Tok? && L.Lex(input, Inside(input)).Tok? && !NextCloses(input, Inside(input)) ==>
      Parse(env, input) == Run(env, input, Config(OneMatcher, Inside(input), [], Braced(input)))
  {
    HeadLexeme(input, 0);
    if L.Lex(input, 0).End? { EndsExactly(env, input, Config(Eof, 0, [], false)); }
  }

  lemma InsideLexemes(input: string, rest: seq<Lexeme>)
    requires Lexemes(input, Inside(input)) == Some(rest)
    ensures Lexemes(input, 0) == Some(If(Braced(input), "{") + rest)
  {
    HeadLexeme(input, 0);
    if L.Lex(input, 0).Tok? { KindOfMark(input, 0, L.OpenBrace, "{"); }
    assert [] + rest == rest;
  }

  /** Whatever the parser accepts is a sentence of the language, and the matchers it returns
      are those of the sentence, in order. */
  lemma AcceptsOnlySentences(env: Env, input: string) returns (items: seq<Item>, trailing: bool, braced: bool)
    requires Parse(env, input).Ok?
    ensures Reads(env, input, items, trailing, braced, Parse(env, input).value)
  {
    Opens(env, input);
    braced := Braced(input);
    var i := Inside(input);
    if L.Lex(input, 0).End? {
      HeadLexeme(input, 0);
      items, trailing := [], false;
      assert Sentence(items, trailing, braced) == [];
    } else if NextCloses(input, i) {
      ClosesExactly(env, input, Config(CloseBrace, i, [], braced));
      items, trailing := [], false;
      InsideLexemes(input, If(braced, "}"));
      assert If(braced, "{") + If(braced, "}") == Sentence(items, trailing, braced);
    } else {
      var added;
      items, trailing, added := ListIsRead(env, input, Config(OneMatcher, i, [], braced));
      assert [] + added == added;
      InsideLexemes(input, Rest(items, trailing, braced));
    }
  }

  /** Reading past the opening brace of a sentence. */
  lemma OpeningReads(input: string, braced: bool, rest: seq<Lexeme>)
    requires Lexemes(input, 0) == Some(If(braced, "{") + rest)
    requires rest == [] || (rest[0] != "{")
    ensures Braced(input) == braced && Lexemes(input, Inside(input)) == Some(rest)
  {
    HeadLexeme(input, 0);
    if L.Lex(input, 0).Tok? { KindOfMark(input, 0, L.OpenBrace, "{"); }
    if braced {
      Starts(input, 0, "{", rest);
    } else {
      assert [] + rest == rest;
      if rest != [] {
        assert rest == [rest[0]] + rest[1..];
        Starts(input, 0, rest[0], rest[1..]);
      }
    }
  }

  /** Every sentence of the language is accepted, with its matchers in order. */
  lemma AcceptsEverySentence(env: Env, input: string, items: seq<Item>, trailing: bool, braced: bool, ms: seq<Matcher>)
    requires Reads(env, input, items, trailing, braced, ms)
    ensures Parse(env, input) == Ok(ms)
  {
    Opens(env, input);
    var i, rest := Inside(input), Rest(items, trailing, braced);
    if items == [] {
      assert rest == If(braced, "}");
      OpeningReads(input, braced, rest);
      HeadLexeme(input, 0);
      CloseReads(input, i, braced);
      ClosesExactly(env, input, Config(CloseBrace, i, [], braced));
    } else {
      FirstOfRest(items, trailing, braced);
      assert StandsFor(env, items[0], ms[0]);
      OpeningReads(input, braced, rest);
      Starts(input, i, items[0].name, rest[1..]);
      KindOfText(input, i);
      HeadLexeme(input, 0);
      ListReads(env, input, Config(OneMatcher, i, [], braced), items, trailing, ms);
      assert [] + ms == ms;
    }
  }
}
