/** Label sets and matchers. Regular expressions are an oracle: which patterns
    compile, and which strings a compiled pattern matches. */
module Labels {

  type LabelSet = map<string, string>

  datatype Regexes = Regexes(compiles: string -> bool, matches: (string, string) -> bool)

  datatype MatchType = MatchEqual | MatchNotEqual | MatchRegexp | MatchNotRegexp

  datatype Matcher = Matcher(ty: MatchType, name: string, value: string)

  function Lookup(l: LabelSet, name: string): string {
    if name in l then l[name] else ""
  }

  function Anchored(pattern: string): string { "^(?:" + pattern + ")$" }

  predicate IsRegexp(m: Matcher) { m.ty.MatchRegexp? || m.ty.MatchNotRegexp? }

  /** NewMatcher succeeds. */
  predicate Compiles(rx: Regexes, m: Matcher) {
    IsRegexp(m) ==> rx.compiles(Anchored(m.value))
  }

  predicate MatcherMatches(rx: Regexes, m: Matcher, v: string) {
    match m.ty
    case MatchEqual => v == m.value
    case MatchNotEqual => v != m.value
    case MatchRegexp => rx.matches(Anchored(m.value), v)
    case MatchNotRegexp => !rx.matches(Anchored(m.value), v)
  }

  /** All matchers of one set hold. */
  predicate AllMatch(rx: Regexes, ms: seq<Matcher>, l: LabelSet) {
    forall i :: 0 <= i < |ms| ==> MatcherMatches(rx, ms[i], Lookup(l, ms[i].name))
  }

  /** At least one matcher set holds. */
  predicate AnySetMatches(rx: Regexes, sets: seq<seq<Matcher>>, l: LabelSet) {
    exists i :: 0 <= i < |sets| && AllMatch(rx, sets[i], l)
  }

  predicate AllCompile(rx: Regexes, sets: seq<seq<Matcher>>) {
    forall i, j :: 0 <= i < |sets| && 0 <= j < |sets[i]| ==> Compiles(rx, sets[i][j])
  }

  // ---------------------------------------------------------------- what they say of a label set

  /** What one matcher says: a label that is missing counts as empty, and a regular expression has to
      match the whole value. */
  lemma OneMatcher(rx: Regexes, m: Matcher, l: LabelSet)
    ensures var v, whole := if m.name in l then l[m.name] else "", "^(?:" + m.value + ")$";
      && (m.ty == MatchEqual ==> (AllMatch(rx, [m], l) <==> v == m.value) && Compiles(rx, m))
      && (m.ty == MatchNotEqual ==> (AllMatch(rx, [m], l) <==> v != m.value) && Compiles(rx, m))
      && (m.ty == MatchRegexp ==>
            (AllMatch(rx, [m], l) <==> rx.matches(whole, v)) && Compiles(rx, m) == rx.compiles(whole))
      && (m.ty == MatchNotRegexp ==>
            (AllMatch(rx, [m], l) <==> !rx.matches(whole, v)) && Compiles(rx, m) == rx.compiles(whole))
  {
    assert [m][0] == m;
  }

  /** A list of matchers says what all of them say. */
  lemma Together(rx: Regexes, ms: seq<Matcher>, more: seq<Matcher>, l: LabelSet)
    ensures AllMatch(rx, ms + more, l) <==> AllMatch(rx, ms, l) && AllMatch(rx, more, l)
    ensures AllMatch(rx, [], l)
  {
    forall i | 0 <= i < |more| ensures (ms + more)[|ms| + i] == more[i] {
    }
    forall i | 0 <= i < |ms| ensures (ms + more)[i] == ms[i] {
    }
  }

  /** Several lists match where one of them does. */
  lemma Either(rx: Regexes, ms: seq<Matcher>, sets: seq<seq<Matcher>>, l: LabelSet)
    ensures AnySetMatches(rx, [ms] + sets, l) <==> AllMatch(rx, ms, l) || AnySetMatches(rx, sets, l)
    ensures !AnySetMatches(rx, [], l)
  {
    assert ([ms] + sets)[0] == ms;
    if AnySetMatches(rx, sets, l) {
      var i :| 0 <= i < |sets| && AllMatch(rx, sets[i], l);
      assert ([ms] + sets)[i + 1] == sets[i];
    }
  }
}
