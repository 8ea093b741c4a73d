/** Which routes an alert is dispatched to, and that amtool shows the same ones. */
module RouteMatching {
  import opened Labels
  import opened RouteTree

  // ---------------------------------------------------------------- what is selected

  /** A route below r, by the positions of the children on the way. */
  predicate IsPath(r: Route, path: seq<nat>)
    decreases |path|
  {
    path != [] ==> path[0] < |r.routes| && IsPath(r.routes[path[0]], path[1..])
  }

  function At(r: Route, path: seq<nat>): Route
    requires IsPath(r, path)
    decreases |path|
  {
    if path == [] then r else At(r.routes[path[0]], path[1..])
  }

  predicate Matches(rx: Regexes, r: Route, l: LabelSet) { AllMatch(rx, r.matchers, l) }

  /** The search reaches the i-th of the routes: every matching one before it continues. */
  predicate Reached(rx: Regexes, rs: seq<Route>, i: nat, l: LabelSet) {
    i < |rs| && forall j :: 0 <= j < i && Matches(rx, rs[j], l) ==> rs[j].continues
  }

  /** The route at the path is selected: it and its ancestors match, the search reaches each
      of them among its siblings, and none of its children matches. */
  predicate Selected(rx: Regexes, r: Route, path: seq<nat>, l: LabelSet)
    decreases |path|
  {
    && Matches(rx, r, l)
    && if path == [] then forall i :: 0 <= i < |r.routes| ==> !Matches(rx, r.routes[i], l)
       else Reached(rx, r.routes, path[0], l) && Selected(rx, r.routes[path[0]], path[1..], l)
  }

  lemma {:induction false} SelectedIsPath(rx: Regexes, r: Route, path: seq<nat>, l: LabelSet)
    requires Selected(rx, r, path, l)
    ensures IsPath(r, path)
    decreases |path|
  {
    if path != [] { SelectedIsPath(rx, r.routes[path[0]], path[1..], l); }
  }

  ghost predicate SelectsBelow(rx: Regexes, r: Route, l: LabelSet, x: Route) {
    exists path :: Selected(rx, r, path, l) && IsPath(r, path) && At(r, path) == x
  }

  ghost predicate SelectsAmong(rx: Regexes, rs: seq<Route>, l: LabelSet, x: Route) {
    exists i: nat :: Reached(rx, rs, i, l) && SelectsBelow(rx, rs[i], l, x)
  }

  /** Something is returned exactly when the route itself matches. */
  lemma {:induction false} MatchIsNonEmpty(rx: Regexes, r: Route, l: LabelSet)
    ensures Match(rx, r, l) != [] <==> Matches(rx, r, l)
  {
  }

  lemma {:induction false} MatchAllEmpty(rx: Regexes, rs: seq<Route>, l: LabelSet)
    ensures MatchAll(rx, rs, l) == [] <==> forall i :: 0 <= i < |rs| ==> !Matches(rx, rs[i], l)
  {
    if rs != [] {
      MatchIsNonEmpty(rx, rs[0], l);
      MatchAllEmpty(rx, rs[1..], l);
      forall i | 1 <= i < |rs| ensures rs[i] == rs[1..][i - 1] {
      }
    }
  }

  lemma SelectsFirst(rx: Regexes, rs: seq<Route>, l: LabelSet, x: Route)
    requires rs != []
    ensures SelectsAmong(rx, rs, l, x) <==>
      || SelectsBelow(rx, rs[0], l, x)
      || ((Matches(rx, rs[0], l) ==> rs[0].continues) && SelectsAmong(rx, rs[1..], l, x))
  {
    if SelectsAmong(rx, rs, l, x) {
      var i: nat :| Reached(rx, rs, i, l) && SelectsBelow(rx, rs[i], l, x);
      if i > 0 {
        assert forall j :: 0 <= j < i - 1 ==> rs[1..][j] == rs[j + 1];
        assert Reached(rx, rs[1..], i - 1, l);
      }
    }
    if SelectsBelow(rx, rs[0], l, x) { assert Reached(rx, rs, 0, l); }
    if (Matches(rx, rs[0], l) ==> rs[0].continues) && SelectsAmong(rx, rs[1..], l, x) {
      var i: nat :| Reached(rx, rs[1..], i, l) && SelectsBelow(rx, rs[1..][i], l, x);
      forall j | 0 <= j < i + 1 && Matches(rx, rs[j], l) ensures rs[j].continues {
        if j > 0 { assert rs[j] == rs[1..][j - 1]; }
      }
      assert Reached(rx, rs, i + 1, l);
    }
  }

  lemma SelectsStep(rx: Regexes, r: Route, l: LabelSet, x: Route)
    requires Matches(rx, r, l)
    ensures SelectsBelow(rx, r, l, x) <==>
      if forall i :: 0 <= i < |r.routes| ==> !Matches(rx, r.routes[i], l) then x == r
      else SelectsAmong(rx, r.routes, l, x)
  {
    if SelectsBelow(rx, r, l, x) {
      var path :| Selected(rx, r, path, l) && IsPath(r, path) && At(r, path) == x;
      if path != [] {
        var child, rest := r.routes[path[0]], path[1..];
        assert Selected(rx, child, rest, l) && IsPath(child, rest) && At(child, rest) == x;
        assert SelectsAmong(rx, r.routes, l, x);
      }
    }
    if SelectsAmong(rx, r.routes, l, x) {
      var i: nat :| Reached(rx, r.routes, i, l) && SelectsBelow(rx, r.routes[i], l, x);
      var rest :| Selected(rx, r.routes[i], rest, l) && IsPath(r.routes[i], rest) && At(r.routes[i], rest) == x;
      var path := [i] + rest;
      assert path[1..] == rest;
      assert Selected(rx, r, path, l);
    }
    if (forall i :: 0 <= i < |r.routes| ==> !Matches(rx, r.routes[i], l)) && x == r {
      assert Selected(rx, r, [], l) && At(r, []) == x;
    }
  }

  /** The routes returned are exactly the selected ones. */
  lemma {:induction false} MatchSelects(rx: Regexes, r: Route, l: LabelSet, x: Route)
    ensures x in Match(rx, r, l) <==> SelectsBelow(rx, r, l, x)
    decreases r
  {
    if Matches(rx, r, l) {
      SelectsStep(rx, r, l, x);
      MatchAllEmpty(rx, r.routes, l);
      MatchAllSelects(rx, r.routes, l, x);
    }
  }

  lemma {:induction false} MatchAllSelects(rx: Regexes, rs: seq<Route>, l: LabelSet, x: Route)
    ensures x in MatchAll(rx, rs, l) <==> SelectsAmong(rx, rs, l, x)
    decreases rs
  {
    if rs != [] {
      MatchSelects(rx, rs[0], l, x);
      MatchIsNonEmpty(rx, rs[0], l);
      MatchAllSelects(rx, rs[1..], l, x);
      SelectsFirst(rx, rs, l, x);
    }
  }

  // ---------------------------------------------------------------- the configuration decides

  /** A configured route below c, by the positions of the children on the way. */
  predicate IsConfigured(c: Config, path: seq<nat>)
    decreases |path|
  {
    path != [] ==> path[0] < |c.routes| && IsConfigured(c.routes[path[0]], path[1..])
  }

  function ConfiguredAt(c: Config, path: seq<nat>): Config
    requires IsConfigured(c, path)
    decreases |path|
  {
    if path == [] then c else ConfiguredAt(c.routes[path[0]], path[1..])
  }

  lemma {:induction false} BuildAllAt(cs: seq<Config>, n: nat, i: nat)
    requires i < |cs|
    ensures |BuildAll(cs, n)| == |cs| && BuildAll(cs, n)[i] == Build(cs[i], n + SizeAll(cs[..i]))
    decreases cs
  {
    if i == 0 {
      if |cs| > 1 { BuildAllAt(cs[1..], n + Size(cs[0]), 0); }
    } else {
      BuildAllAt(cs[1..], n + Size(cs[0]), i - 1);
      assert cs[..i][1..] == cs[1..][..i - 1];
    }
  }

  lemma BuiltChildren(c: Config, n: nat)
    ensures |Build(c, n).routes| == |c.routes|
  {
    if c.routes != [] { BuildAllAt(c.routes, n, 0); }
  }

  /** The tree has the shape of the configuration: the same paths lead to routes, each with the
      matchers, the continue flag and the number of children of the configured route there. */
  lemma {:induction false} BuildHasShape(c: Config, n: nat, path: seq<nat>)
    ensures IsPath(Build(c, n), path) <==> IsConfigured(c, path)
    ensures IsConfigured(c, path) ==>
      var route, configured := At(Build(c, n), path), ConfiguredAt(c, path);
      && route.matchers == configured.matchers && (route.continues <==> configured.continues)
      && |route.routes| == |configured.routes|
    decreases |path|
  {
    BuiltChildren(c, n);
    if path != [] && path[0] < |c.routes| {
      BuildAllAt(c.routes, n, path[0]);
      BuildHasShape(c.routes[path[0]], n + SizeAll(c.routes[..path[0]]), path[1..]);
    }
  }

  /** The configured route at the path is the one to notify: it and its ancestors match, every
      matching sibling before any of them continues, and none of its children matches. */
  predicate IsRoutedTo(rx: Regexes, c: Config, path: seq<nat>, l: LabelSet)
    decreases |path|
  {
    && AllMatch(rx, c.matchers, l)
    && if path == [] then forall i :: 0 <= i < |c.routes| ==> !AllMatch(rx, c.routes[i].matchers, l)
       else && path[0] < |c.routes|
            && (forall j :: 0 <= j < path[0] && AllMatch(rx, c.routes[j].matchers, l) ==> c.routes[j].continues)
            && IsRoutedTo(rx, c.routes[path[0]], path[1..], l)
  }

  lemma ChildrenAlike(rx: Regexes, c: Config, n: nat, l: LabelSet)
    ensures var rs := Build(c, n).routes;
      && |rs| == |c.routes|
      && (forall i :: 0 <= i < |rs| ==>
            && rs[i].continues == c.routes[i].continues
            && (Matches(rx, rs[i], l) <==> AllMatch(rx, c.routes[i].matchers, l)))
  {
    BuiltChildren(c, n);
    forall i | 0 <= i < |c.routes| ensures Build(c, n).routes[i] == Build(c.routes[i], n + SizeAll(c.routes[..i])) {
      BuildAllAt(c.routes, n, i);
    }
  }

  lemma {:induction false} SelectedIffRouted(rx: Regexes, c: Config, n: nat, path: seq<nat>, l: LabelSet)
    ensures Selected(rx, Build(c, n), path, l) <==> IsRoutedTo(rx, c, path, l)
    decreases |path|
  {
    ChildrenAlike(rx, c, n, l);
    if path != [] && path[0] < |c.routes| {
      BuildAllAt(c.routes, n, path[0]);
      SelectedIffRouted(rx, c.routes[path[0]], n + SizeAll(c.routes[..path[0]]), path[1..], l);
    }
  }

  /** Matching in a tree built from a configuration returns exactly the routes at the paths the
      configuration sends the label set to. */
  lemma MatchFollowsConfig(rx: Regexes, c: Config, n: nat, l: LabelSet, x: Route)
    ensures x in Match(rx, Build(c, n), l) <==>
      exists path :: IsRoutedTo(rx, c, path, l) && IsPath(Build(c, n), path) && At(Build(c, n), path) == x
  {
    var r := Build(c, n);
    MatchSelects(rx, r, l, x);
    if x in Match(rx, r, l) {
      var path :| Selected(rx, r, path, l) && IsPath(r, path) && At(r, path) == x;
      SelectedIffRouted(rx, c, n, path, l);
    }
    if path :| IsRoutedTo(rx, c, path, l) && IsPath(r, path) && At(r, path) == x {
      SelectedIffRouted(rx, c, n, path, l);
    }
  }

  // ---------------------------------------------------------------- order

  predicate Ascending(rs: seq<Route>, from: nat, to: nat) {
    && (forall i :: 0 <= i < |rs| ==> from <= rs[i].idx < to)
    && (forall i, j :: 0 <= i < j < |rs| ==> rs[i].idx < rs[j].idx)
  }

  lemma AscendingJoin(a: seq<Route>, b: seq<Route>, n: nat, m: nat, k: nat)
    requires Ascending(a, n, m) && Ascending(b, m, k) && n <= m <= k
    ensures Ascending(a + b, n, k) && Ascending(a, n, k) && Ascending(b, n, k)
  {
  }

  /** In a tree built from a configuration the routes returned have strictly increasing indices. */
  lemma {:induction false} MatchAscends(rx: Regexes, c: Config, n: nat, l: LabelSet)
    ensures Ascending(Match(rx, Build(c, n), l), n, n + Size(c))
    decreases c
  {
    MatchAllAscends(rx, c.routes, n, l);
    OwnAscends(rx, c, n, l);
  }

  lemma OwnAscends(rx: Regexes, c: Config, n: nat, l: LabelSet)
    requires Ascending(MatchAll(rx, BuildAll(c.routes, n), l), n, n + SizeAll(c.routes))
    ensures Ascending(Match(rx, Build(c, n), l), n, n + Size(c))
  {
  }

  lemma {:induction false} MatchAllAscends(rx: Regexes, cs: seq<Config>, n: nat, l: LabelSet)
    ensures Ascending(MatchAll(rx, BuildAll(cs, n), l), n, n + SizeAll(cs))
    decreases cs
  {
    if cs != [] {
      MatchAscends(rx, cs[0], n, l);
      MatchAllAscends(rx, cs[1..], n + Size(cs[0]), l);
      FirstThenRest(rx, Build(cs[0], n), BuildAll(cs[1..], n + Size(cs[0])), l, n, n + Size(cs[0]), n + SizeAll(cs));
    }
  }

  lemma FirstThenRest(rx: Regexes, r: Route, rs: seq<Route>, l: LabelSet, n: nat, m: nat, k: nat)
    requires n <= m <= k && Ascending(Match(rx, r, l), n, m) && Ascending(MatchAll(rx, rs, l), m, k)
    ensures Ascending(MatchAll(rx, [r] + rs, l), n, k)
  {
    assert ([r] + rs)[1..] == rs;
    AscendingJoin(Match(rx, r, l), MatchAll(rx, rs, l), n, m, k);
  }

  // ---------------------------------------------------------------- amtool's tree

  /** A printed branch; a final one is shown with its receiver. */
  datatype Branch = Branch(route: Route, final: bool, branches: seq<Branch>)

  function MatchingBranches(rx: Regexes, rs: seq<Route>, l: LabelSet): seq<Branch> {
    if rs == [] then []
    else if !Matches(rx, rs[0], l) then MatchingBranches(rx, rs[1..], l)
    else [MatchingTree(rx, rs[0], l)] + if rs[0].continues then MatchingBranches(rx, rs[1..], l) else []
  }

  function MatchingTree(rx: Regexes, r: Route, l: LabelSet): Branch {
    var branches := MatchingBranches(rx, r.routes, l);
    Branch(r, branches == [], branches)
  }

  lemma BranchesFrom(rx: Regexes, rs: seq<Route>, l: LabelSet, k: nat)
    requires k < |rs|
    ensures MatchingBranches(rx, rs[k..], l) ==
      if !Matches(rx, rs[k], l) then MatchingBranches(rx, rs[k + 1..], l)
      else [MatchingTree(rx, rs[k], l)] + if rs[k].continues then MatchingBranches(rx, rs[k + 1..], l) else []
  {
  }

  method GetMatchingTree(rx: Regexes, r: Route, l: LabelSet) returns (branch: Branch)
    ensures branch == MatchingTree(rx, r, l)
    decreases r
  {
    var final, branches := AddBranches(rx, r.routes, l);
    return Branch(r, final, branches);
  }

  /** What the branches found so far and those ahead are together, after looking at the k-th child. */
  lemma OneBranch(rx: Regexes, rs: seq<Route>, l: LabelSet, k: nat, before: seq<Branch>)
    requires k < |rs| && before + MatchingBranches(rx, rs[k..], l) == MatchingBranches(rx, rs, l)
    ensures !Matches(rx, rs[k], l) ==> before + MatchingBranches(rx, rs[k + 1..], l) == MatchingBranches(rx, rs, l)
    ensures Matches(rx, rs[k], l) ==>
      before + [MatchingTree(rx, rs[k], l)] + (if rs[k].continues then MatchingBranches(rx, rs[k + 1..], l) else [])
      == MatchingBranches(rx, rs, l)
  {
    BranchesFrom(rx, rs, l, k);
    var rest := if rs[k].continues then MatchingBranches(rx, rs[k + 1..], l) else [];
    Regroup(before, MatchingTree(rx, rs[k], l), rest);
  }

  lemma Regroup(before: seq<Branch>, b: Branch, rest: seq<Branch>)
    ensures before + ([b] + rest) == before + [b] + rest
  {
  }

  /** The loop over the children. */
  method AddBranches(rx: Regexes, rs: seq<Route>, l: LabelSet) returns (final: bool, branches: seq<Branch>)
    ensures branches == MatchingBranches(rx, rs, l) && (final <==> branches == [])
    decreases rs
  {
    final, branches := true, [];
    ghost var rest := MatchingBranches(rx, rs, l);
    for k := 0 to |rs|
      invariant final <==> branches == []
      invariant rest == MatchingBranches(rx, rs[k..], l) && branches + rest == MatchingBranches(rx, rs, l)
    {
      OneBranch(rx, rs, l, k, branches);
      rest := MatchingBranches(rx, rs[k + 1..], l);
      if Matches(rx, rs[k], l) {
        var b := GetMatchingTree(rx, rs[k], l);
        if !rs[k].continues { rest := []; }
        branches, final := branches + [b], false;
        if !rs[k].continues { break; }
      }
    }
  }

  /** The routes of the final branches, as printed from top to bottom. */
  function Finals(b: Branch): seq<Route> { if b.final then [b.route] else FinalsAll(b.branches) }

  function FinalsAll(bs: seq<Branch>): seq<Route> { if bs == [] then [] else Finals(bs[0]) + FinalsAll(bs[1..]) }

  lemma {:induction false} FinalsMatch(rx: Regexes, r: Route, l: LabelSet)
    ensures Finals(MatchingTree(rx, r, l)) != []
    ensures Matches(rx, r, l) ==> Finals(MatchingTree(rx, r, l)) == Match(rx, r, l)
    decreases r
  {
    FinalsAllMatch(rx, r.routes, l);
  }

  lemma {:induction false} FinalsAllMatch(rx: Regexes, rs: seq<Route>, l: LabelSet)
    ensures FinalsAll(MatchingBranches(rx, rs, l)) == MatchAll(rx, rs, l)
    ensures MatchingBranches(rx, rs, l) == [] <==> MatchAll(rx, rs, l) == []
    decreases rs
  {
    if rs != [] {
      FinalsMatch(rx, rs[0], l);
      MatchIsNonEmpty(rx, rs[0], l);
      FinalsAllMatch(rx, rs[1..], l);
    }
  }

  /** The final branches amtool prints are the routes the dispatcher uses if and only if the
      root matches, which a root without matchers always does. */
  lemma AmtoolAgreesIff(rx: Regexes, r: Route, l: LabelSet)
    ensures Finals(MatchingTree(rx, r, l)) == Match(rx, r, l) <==> Matches(rx, r, l)
    ensures r.matchers == [] ==> Matches(rx, r, l)
  {
    FinalsMatch(rx, r, l);
    MatchIsNonEmpty(rx, r, l);
  }
}
