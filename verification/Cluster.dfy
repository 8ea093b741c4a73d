/** Peers of a cluster and their positions. */
module Cluster {
  import opened Basics
  import opened Gossip

  type Name = string

  // ---------------------------------------------------------------- positions

  /** Names are ordered lexicographically. */
  predicate Less(a: Name, b: Name) {
    b != [] && (a == [] || a[0] < b[0] || (a[0] == b[0] && Less(a[1..], b[1..])))
  }

  /** The names agree before position k and differ there. */
  predicate DifferFirst(a: Name, b: Name, k: int) {
    0 <= k < |a| && k < |b| && a[..k] == b[..k] && a[k] != b[k]
  }

  ghost predicate SmallerAtFirst(a: Name, b: Name) { exists k :: DifferFirst(a, b, k) && a[k] < b[k] }

  lemma DifferBehind(c: char, a: Name, b: Name, k: nat)
    ensures DifferFirst([c] + a, [c] + b, k + 1) <==> DifferFirst(a, b, k)
  {
    if k <= |a| && k <= |b| {
      var a', b' := [c] + a, [c] + b;
      assert a'[..k + 1] == [c] + a[..k] && b'[..k + 1] == [c] + b[..k];
      assert a'[..k + 1][1..] == a[..k] && b'[..k + 1][1..] == b[..k];
    }
  }

  lemma SmallerBehind(c: char, a: Name, b: Name)
    ensures SmallerAtFirst([c] + a, [c] + b) <==> SmallerAtFirst(a, b)
  {
    if SmallerAtFirst(a, b) {
      var k :| DifferFirst(a, b, k) && a[k] < b[k];
      DifferBehind(c, a, b, k);
    }
    if SmallerAtFirst([c] + a, [c] + b) {
      var k :| DifferFirst([c] + a, [c] + b, k) && ([c] + a)[k] < ([c] + b)[k];
      DifferBehind(c, a, b, k - 1);
    }
  }

  /** One name is a proper beginning of the other, or is smaller where they first differ. */
  lemma {:induction false} LessExactly(a: Name, b: Name)
    ensures Less(a, b) <==> a < b || SmallerAtFirst(a, b)
  {
    if a != [] && b != [] && a[0] == b[0] {
      LessExactly(a[1..], b[1..]);
      assert a == [a[0]] + a[1..] && b == [a[0]] + b[1..];
      SmallerBehind(a[0], a[1..], b[1..]);
    } else if a != [] && b != [] {
      assert DifferFirst(a, b, 0);
      assert forall k :: DifferFirst(a, b, k) ==> k == 0 || a[..k][0] != b[..k][0];
    }
  }

  lemma {:induction false} LessTotal(a: Name, b: Name)
    ensures a == b || Less(a, b) || Less(b, a)
  {
    if a != [] && b != [] && a[0] == b[0] {
      LessTotal(a[1..], b[1..]);
      assert a == [a[0]] + a[1..] && b == [b[0]] + b[1..];
    }
  }

  lemma {:induction false} LessIrreflexive(a: Name)
    ensures !Less(a, a)
  {
    if a != [] { LessIrreflexive(a[1..]); }
  }

  lemma {:induction false} LessTransitive(a: Name, b: Name, c: Name)
    requires Less(a, b) && Less(b, c)
    ensures Less(a, c)
  {
    if a != [] && a[0] == b[0] && b[0] == c[0] { LessTransitive(a[1..], b[1..], c[1..]); }
  }

  function Names(names: seq<Name>): set<Name> {
    set i | 0 <= i < |names| :: names[i]
  }

  /** How many peers come before this one. */
  function Rank(view: set<Name>, self: Name): nat {
    |set n | n in view && Less(n, self)|
  }

  lemma RankMonotone(view: set<Name>, a: Name, b: Name)
    requires a in view && Less(a, b)
    ensures Rank(view, a) < Rank(view, b)
  {
    var below, above := set n | n in view && Less(n, a), set n | n in view && Less(n, b);
    LessIrreflexive(a);
    forall n | n in below ensures n in above - {a} { LessTransitive(n, a, b); }
    assert above == (above - {a}) + {a};
    Smaller(below, above - {a});
  }

  /** Distinct peers of one view have distinct ranks. */
  lemma RanksDistinct(view: set<Name>, a: Name, b: Name)
    requires a in view && b in view && a != b
    ensures Rank(view, a) != Rank(view, b)
  {
    LessTotal(a, b);
    if Less(a, b) { RankMonotone(view, a, b); } else { RankMonotone(view, b, a); }
  }

  /** The members between two names. */
  function Between(view: set<Name>, a: Name, b: Name): set<Name> {
    set n | n in view && Less(a, n) && Less(n, b)
  }

  lemma RanksApart(view: set<Name>, a: Name, b: Name)
    requires a in view && b in view && Less(a, b)
    ensures Rank(view, b) == Rank(view, a) + |Between(view, a, b)| + 1
  {
    var below, above := set n | n in view && Less(n, a), set n | n in view && Less(n, b);
    var between := Between(view, a, b);
    LessIrreflexive(a);
    forall n | n in view ensures n in above <==> n in below + {a} + between {
      LessTotal(n, a);
      if Less(n, a) { LessTransitive(n, a, b); }
    }
    forall n | n in below ensures n !in between { if Less(a, n) { LessTransitive(a, n, a); } }
    assert above == below + {a} + between;
  }

  predicate Ascending(names: seq<Name>) {
    forall i, j :: 0 <= i < j < |names| ==> Less(names[i], names[j])
  }

  function Insert(names: seq<Name>, n: Name): (r: seq<Name>)
    ensures multiset(r) == multiset(names) + multiset{n}
  {
    if names == [] || !Less(names[0], n) then [n] + names
    else
      assert names == [names[0]] + names[1..];
      [names[0]] + Insert(names[1..], n)
  }

  /** The member list sorted by name. */
  function Sorted(names: seq<Name>): (r: seq<Name>)
    ensures multiset(r) == multiset(names)
  {
    if names == [] then []
    else
      assert names == names[..|names| - 1] + [names[|names| - 1]];
      Insert(Sorted(names[..|names| - 1]), names[|names| - 1])
  }

  lemma {:induction false} InsertAscending(names: seq<Name>, n: Name)
    requires Ascending(names) && n !in names
    ensures Ascending(Insert(names, n))
  {
    if names != [] {
      if Less(names[0], n) {
        InsertAscending(names[1..], n);
        var rest := Insert(names[1..], n);
        forall j | 0 <= j < |rest| ensures Less(names[0], rest[j]) {
          assert rest[j] in multiset(rest);
          if rest[j] != n {
            assert rest[j] in names[1..];
            var i :| 0 <= i < |names[1..]| && names[1..][i] == rest[j];
            assert names[i + 1] == rest[j];
          }
        }
      } else {
        LessTotal(names[0], n);
        forall i | 0 <= i < |names| ensures Less(n, names[i]) {
          if i > 0 { LessTransitive(n, names[0], names[i]); }
        }
      }
    }
  }

  lemma {:induction false} SortedAscending(names: seq<Name>)
    requires NoDuplicates(names)
    ensures Ascending(Sorted(names))
  {
    if names != [] {
      var init, last := names[..|names| - 1], names[|names| - 1];
      SortedAscending(init);
      assert last in multiset(Sorted(init)) <==> last in multiset(init);
      InsertAscending(Sorted(init), last);
    }
  }

  /** Sort the members, then count the names before one's own. */
  method Position(members: seq<Name>, self: Name) returns (k: nat)
    requires NoDuplicates(members)
    ensures self in members ==> k == Rank(Names(members), self)
    ensures self !in members ==> k == |members|
  {
    var all := Sorted(members);
    SortedAscending(members);
    SortedMembers(members);
    k := 0;
    while k < |all| && all[k] != self
      invariant k <= |all| && self !in all[..k]
    {
      assert all[..k + 1] == all[..k] + [all[k]];
      k := k + 1;
    }
    if k < |all| { PositionIsRank(all, k); } else { assert all[..k] == all; }
  }

  lemma SortedMembers(names: seq<Name>)
    ensures |Sorted(names)| == |names|
    ensures forall n :: n in Sorted(names) <==> n in names
    ensures Names(Sorted(names)) == Names(names)
  {
    assert |multiset(Sorted(names))| == |multiset(names)|;
    forall n ensures n in Sorted(names) <==> n in names {
      assert n in multiset(Sorted(names)) <==> n in multiset(names);
    }
    forall n ensures n in Names(Sorted(names)) <==> n in Names(names) {
      assert n in Sorted(names) <==> n in names;
    }
  }

  /** How long a peer waits before it consults the log. */
  function WaitTime(position: nat, timeout: int): int { position * timeout }

  lemma {:induction false} PrefixSize(names: seq<Name>, k: nat)
    requires Ascending(names) && k <= |names|
    ensures |set i | 0 <= i < k :: names[i]| == k
  {
    if k > 0 {
      PrefixSize(names, k - 1);
      var before := set i | 0 <= i < k - 1 :: names[i];
      forall i | 0 <= i < k - 1 ensures names[i] != names[k - 1] { LessIrreflexive(names[i]); }
      assert (set i | 0 <= i < k :: names[i]) == before + {names[k - 1]};
    }
  }

  lemma PositionIsRank(names: seq<Name>, k: nat)
    requires Ascending(names) && k < |names|
    ensures k == Rank(Names(names), names[k])
  {
    var view := Names(names);
    var below := set n | n in view && Less(n, names[k]);
    var prefix := set i | 0 <= i < k :: names[i];
    forall i | k <= i < |names| ensures !Less(names[i], names[k]) {
      LessIrreflexive(names[k]);
      if k < i && Less(names[i], names[k]) { LessTransitive(names[k], names[i], names[k]); }
    }
    assert below == prefix;
    PrefixSize(names, k);
  }
}
