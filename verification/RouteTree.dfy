/** The routing tree: its construction with post-order indices, and matching. */
module RouteTree {
  import opened Basics
  import opened Labels

  /** A configured route: its matchers, whether matching goes on after it, its children. */
  datatype Config = Config(matchers: seq<Matcher>, continues: bool, routes: seq<Config>)

  datatype Route = Route(matchers: seq<Matcher>, continues: bool, routes: seq<Route>, idx: nat)

  // ---------------------------------------------------------------- construction

  function Size(c: Config): nat { SizeAll(c.routes) + 1 }

  function SizeAll(cs: seq<Config>): nat {
    if cs == [] then 0 else Size(cs[0]) + SizeAll(cs[1..])
  }

  /** The tree for c, its children numbered first, from counter n on. */
  function Build(c: Config, n: nat): Route {
    Route(c.matchers, c.continues, BuildAll(c.routes, n), n + SizeAll(c.routes))
  }

  function BuildAll(cs: seq<Config>, n: nat): seq<Route> {
    if cs == [] then [] else [Build(cs[0], n)] + BuildAll(cs[1..], n + Size(cs[0]))
  }

  lemma {:induction false} BuildAllSnoc(cs: seq<Config>, k: nat, n: nat)
    requires k < |cs|
    ensures SizeAll(cs[..k + 1]) == SizeAll(cs[..k]) + Size(cs[k])
    ensures BuildAll(cs[..k + 1], n) == BuildAll(cs[..k], n) + [Build(cs[k], n + SizeAll(cs[..k]))]
    decreases k
  {
    if k == 0 {
      assert cs[..1] == [cs[0]] && cs[..0] == [];
    } else {
      assert cs[..k + 1][1..] == cs[1..][..k] && cs[..k][1..] == cs[1..][..k - 1];
      BuildAllSnoc(cs[1..], k - 1, n + Size(cs[0]));
    }
  }

  /** Creates the route and its children, counting on. */
  method NewRoute(c: Config, counter: nat) returns (route: Route, counter': nat)
    ensures route == Build(c, counter) && counter' == counter + Size(c)
    decreases c
  {
    var routes;
    routes, counter' := NewRoutes(c.routes, counter);
    route := Route(c.matchers, c.continues, routes, counter');
    counter' := counter' + 1;
  }

  method NewRoutes(cs: seq<Config>, counter: nat) returns (routes: seq<Route>, counter': nat)
    ensures routes == BuildAll(cs, counter) && counter' == counter + SizeAll(cs)
    decreases cs
  {
    routes, counter' := [], counter;
    for k := 0 to |cs|
      invariant routes == BuildAll(cs[..k], counter) && counter' == counter + SizeAll(cs[..k])
    {
      BuildAllSnoc(cs, k, counter);
      var r;
      r, counter' := NewRoute(cs[k], counter');
      routes := routes + [r];
    }
    assert cs[..|cs|] == cs;
  }

  /** Children before their parent. */
  function PostOrder(r: Route): seq<Route> { PostOrderAll(r.routes) + [r] }

  function PostOrderAll(rs: seq<Route>): seq<Route> {
    if rs == [] then [] else PostOrder(rs[0]) + PostOrderAll(rs[1..])
  }

  /** The k-th route in post-order has index n + k. */
  predicate Numbered(rs: seq<Route>, n: nat) { forall k :: 0 <= k < |rs| ==> rs[k].idx == n + k }

  lemma {:induction false} BuildNumbers(c: Config, n: nat)
    ensures |PostOrder(Build(c, n))| == Size(c) && Numbered(PostOrder(Build(c, n)), n)
    decreases c
  {
    BuildAllNumbers(c.routes, n);
  }

  lemma {:induction false} BuildAllNumbers(cs: seq<Config>, n: nat)
    ensures |PostOrderAll(BuildAll(cs, n))| == SizeAll(cs) && Numbered(PostOrderAll(BuildAll(cs, n)), n)
    decreases cs
  {
    if cs != [] {
      BuildNumbers(cs[0], n);
      BuildAllNumbers(cs[1..], n + Size(cs[0]));
      assert BuildAll(cs, n)[1..] == BuildAll(cs[1..], n + Size(cs[0]));
    }
  }

  /** The indices of a tree are exactly 0 to the index of the root, in post-order. */
  lemma IndicesAreExactlyThePostOrder(c: Config)
    ensures var root := Build(c, 0);
      |PostOrder(root)| == root.idx + 1 && forall k :: 0 <= k < |PostOrder(root)| ==> PostOrder(root)[k].idx == k
  {
    BuildNumbers(c, 0);
  }

  // ---------------------------------------------------------------- walking

  /** The order in which Walk visits. */
  function WalkOrder(r: Route): seq<Route> { [r] + WalkOrderAll(r.routes) }

  function WalkOrderAll(rs: seq<Route>): seq<Route> {
    if rs == [] then [] else WalkOrder(rs[0]) + WalkOrderAll(rs[1..])
  }

  lemma {:induction false} WalkVisitsOnce(r: Route)
    ensures multiset(WalkOrder(r)) == multiset(PostOrder(r))
    decreases r
  {
    WalkVisitsAllOnce(r.routes);
  }

  lemma {:induction false} WalkVisitsAllOnce(rs: seq<Route>)
    ensures multiset(WalkOrderAll(rs)) == multiset(PostOrderAll(rs))
    decreases rs
  {
    if rs != [] {
      WalkVisitsOnce(rs[0]);
      WalkVisitsAllOnce(rs[1..]);
    }
  }

  /** A parent of the route at position p is visited before it. */
  predicate ParentBefore(walk: seq<Route>, p: nat) {
    p < |walk| && exists q :: 0 <= q < p && walk[p] in walk[q].routes
  }

  lemma ParentBeforeIn(before: seq<Route>, walk: seq<Route>, rest: seq<Route>, p: nat)
    requires ParentBefore(walk, p)
    ensures ParentBefore(before + walk + rest, |before| + p)
  {
    var q :| 0 <= q < p && walk[p] in walk[q].routes;
    assert (before + walk + rest)[|before| + p] in (before + walk + rest)[|before| + q].routes;
  }

  /** Walk begins at the root, and visits every other route after its parent. */
  lemma {:induction false} ParentsComeFirst(r: Route, p: nat)
    requires p < |WalkOrder(r)|
    ensures WalkOrder(r)[0] == r && (p > 0 ==> ParentBefore(WalkOrder(r), p))
    decreases r, 1
  {
    if p > 0 {
      var walk := WalkOrderAll(r.routes);
      ParentsOfAllComeFirst(r.routes, p - 1);
      if walk[p - 1] in r.routes {
        assert WalkOrder(r)[p] in WalkOrder(r)[0].routes;
      } else {
        ParentBeforeIn([r], walk, [], p - 1);
        assert [r] + walk + [] == WalkOrder(r);
      }
    }
  }

  lemma {:induction false} ParentsOfAllComeFirst(rs: seq<Route>, p: nat)
    requires p < |WalkOrderAll(rs)|
    ensures WalkOrderAll(rs)[p] in rs || ParentBefore(WalkOrderAll(rs), p)
    decreases rs, 0
  {
    var first, rest := WalkOrder(rs[0]), WalkOrderAll(rs[1..]);
    if p < |first| {
      ParentsComeFirst(rs[0], p);
      if p > 0 {
        ParentBeforeIn([], first, rest, p);
        assert [] + first + rest == WalkOrderAll(rs);
      }
    } else {
      ParentsOfAllComeFirst(rs[1..], p - |first|);
      if rest[p - |first|] !in rs[1..] {
        ParentBeforeIn(first, rest, [], p - |first|);
        assert first + rest + [] == WalkOrderAll(rs);
      }
    }
  }

  lemma {:induction false} OnceInNumbered(rs: seq<Route>, n: nat, x: Route)
    requires Numbered(rs, n)
    ensures multiset(rs)[x] <= 1 && (x in rs ==> n <= x.idx < n + |rs| && rs[x.idx - n] == x)
    decreases |rs|
  {
    if rs != [] {
      assert rs == [rs[0]] + rs[1..];
      OnceInNumbered(rs[1..], n + 1, x);
    }
  }

  lemma TwiceInSequence(rs: seq<Route>, i: nat, j: nat)
    requires i < j < |rs| && rs[i] == rs[j]
    ensures multiset(rs)[rs[i]] >= 2
  {
    assert rs == rs[..j] + [rs[j]] + rs[j + 1..];
    assert rs[i] in rs[..j];
  }

  predicate VisitsOnce(post: seq<Route>, walk: seq<Route>) {
    && (forall i :: 0 <= i < |walk| ==> walk[i].idx < |post| && walk[i] == post[walk[i].idx])
    && (forall k :: 0 <= k < |post| ==> post[k] in walk)
    && (forall i, j :: 0 <= i < j < |walk| ==> walk[i].idx != walk[j].idx)
  }

  lemma RearrangedVisitsOnce(post: seq<Route>, walk: seq<Route>)
    requires Numbered(post, 0) && multiset(walk) == multiset(post)
    ensures VisitsOnce(post, walk)
  {
    forall i | 0 <= i < |walk| ensures walk[i].idx < |post| && walk[i] == post[walk[i].idx] {
      assert walk[i] in multiset(post);
      OnceInNumbered(post, 0, walk[i]);
    }
    forall k | 0 <= k < |post| ensures post[k] in walk { assert post[k] in multiset(walk); }
    forall i, j | 0 <= i < j < |walk| ensures walk[i].idx != walk[j].idx {
      if walk[i] == walk[j] {
        TwiceInSequence(walk, i, j);
        OnceInNumbered(post, 0, walk[i]);
      }
    }
  }

  /** Walk visits every route of the tree once, so no two visits have the same index, and
      every index is visited. */
  lemma WalkIndices(c: Config)
    ensures VisitsOnce(PostOrder(Build(c, 0)), WalkOrder(Build(c, 0)))
  {
    BuildNumbers(c, 0);
    WalkVisitsOnce(Build(c, 0));
    RearrangedVisitsOnce(PostOrder(Build(c, 0)), WalkOrder(Build(c, 0)));
  }

  /** Writes the slot of each route of the walk; no slot is written twice. */
  method Fill(slots: array<Option<Route>>, walk: seq<Route>, ghost post: seq<Route>)
    requires slots.Length == |post| && (forall k :: 0 <= k < |post| ==> slots[k] == None)
    requires Numbered(post, 0) && VisitsOnce(post, walk)
    modifies slots
    ensures forall k :: 0 <= k < |post| ==> slots[k] == Some(post[k])
  {
    for n := 0 to |walk|
      invariant forall i :: 0 <= i < n ==> slots[walk[i].idx] == Some(walk[i])
      invariant forall i :: n <= i < |walk| ==> slots[walk[i].idx] == None
    {
      assert slots[walk[n].idx] == None;
      slots[walk[n].idx] := Some(walk[n]);
    }
    forall k | 0 <= k < |post| ensures slots[k] == Some(post[k]) {
      var i :| 0 <= i < |walk| && walk[i] == post[k];
      assert slots[walk[i].idx] == Some(walk[i]);
    }
  }

  /** The dispatcher's slots, filled by walking the tree: the k-th holds the route with index k. */
  method FillSlots(c: Config) returns (slots: array<Option<Route>>)
    ensures slots.Length == |PostOrder(Build(c, 0))|
    ensures forall k :: 0 <= k < slots.Length ==> slots[k] == Some(PostOrder(Build(c, 0))[k]) && slots[k].value.idx == k
  {
    var root, _ := NewRoute(c, 0);
    WalkIndices(c);
    BuildNumbers(c, 0);
    slots := new Option<Route>[root.idx + 1](_ => None);
    Fill(slots, WalkOrder(root), PostOrder(root));
  }

  // ---------------------------------------------------------------- matching

  /** Depth first, left to right; a matching child that does not continue ends the search
      among its siblings; a route none of whose children match stands for itself. */
  function Match(rx: Regexes, r: Route, l: LabelSet): seq<Route> {
    if !AllMatch(rx, r.matchers, l) then []
    else
      var all := MatchAll(rx, r.routes, l);
      if all == [] then [r] else all
  }

  function MatchAll(rx: Regexes, rs: seq<Route>, l: LabelSet): seq<Route> {
    if rs == [] then []
    else
      var matches := Match(rx, rs[0], l);
      if matches != [] && !rs[0].continues then matches else matches + MatchAll(rx, rs[1..], l)
  }

  method MatchRoute(rx: Regexes, r: Route, l: LabelSet) returns (all: seq<Route>)
    ensures all == Match(rx, r, l)
    decreases r
  {
    if !AllMatch(rx, r.matchers, l) { return []; }
    all := [];
    var k := 0;
    while k < |r.routes|
      invariant 0 <= k <= |r.routes| && all + MatchAll(rx, r.routes[k..], l) == MatchAll(rx, r.routes, l)
    {
      var matches := MatchRoute(rx, r.routes[k], l);
      assert r.routes[k..][1..] == r.routes[k + 1..];
      all := all + matches;
      k := k + 1;
      if matches != [] && !r.routes[k - 1].continues { break; }
      assert k <= |r.routes|;
    }
    if |all| == 0 { all := [r]; }
  }
}
