/** Rendering route labels that refer to each other: a recursive resolver with a memo, a set
    of labels in progress and a stack of their names. */
module RouteLabelResolver {

  /** A template as far as it matters here: literal text and references to route labels. */
  datatype Piece = Lit(text: string) | Ref(name: string)

  /** The raw label values and how a template is read. */
  datatype Labels = Labels(raw: map<string, string>, parse: string -> seq<Piece>) {
    function Pieces(name: string): seq<Piece>
      requires name in raw
    {
      parse(raw[name])
    }
  }

  datatype Rendering = Text(text: string) | Cycle(path: seq<string>)

  function Names(stack: seq<string>): set<string> { set n | n in stack }

  function Free(l: Labels, stack: seq<string>): set<string> { l.raw.Keys - Names(stack) }

  lemma FreeShrinks(l: Labels, stack: seq<string>, name: string)
    requires name in l.raw && name !in stack
    ensures Free(l, stack + [name]) + {name} == Free(l, stack) && name !in Free(l, stack + [name])
    ensures |Free(l, stack + [name])| == |Free(l, stack)| - 1
  {
  }

  /** Resolution without a memo. */
  function Plain(l: Labels, stack: seq<string>, name: string): Rendering
    decreases |Free(l, stack)|, 0
  {
    if name !in l.raw then Text("")
    else if name in stack then Cycle(stack + [name])
    else FreeShrinks(l, stack, name); PlainAll(l, stack + [name], l.Pieces(name))
  }

  function PlainAll(l: Labels, stack: seq<string>, pieces: seq<Piece>): Rendering
    decreases |Free(l, stack)|, |pieces| + 1
  {
    if pieces == [] then Text("")
    else Join(if pieces[0].Lit? then Text(pieces[0].text) else Plain(l, stack, pieces[0].name),
              PlainAll(l, stack, pieces[1..]))
  }

  /** One after the other; the first failure counts. */
  function Join(a: Rendering, b: Rendering): Rendering {
    if a.Cycle? then a else if b.Cycle? then b else Text(a.text + b.text)
  }

  // ---------------------------------------------------------------- what it means

  /** Every chain of references from name ends within d steps. */
  predicate Grounded(l: Labels, name: string, d: nat)
    decreases d
  {
    name in l.raw ==> d > 0 && forall p :: p in l.Pieces(name) && p.Ref? ==> Grounded(l, p.name, d - 1)
  }

  /** What a label that is grounded stands for: its template with every reference replaced by
      what the label referred to stands for; an unknown label stands for nothing. */
  function Meaning(l: Labels, name: string, d: nat): string
    requires Grounded(l, name, d)
    decreases d, 0
  {
    if name in l.raw then MeaningAll(l, l.Pieces(name), d - 1) else ""
  }

  function MeaningAll(l: Labels, pieces: seq<Piece>, d: nat): string
    requires forall p :: p in pieces && p.Ref? ==> Grounded(l, p.name, d)
    decreases d, |pieces| + 1
  {
    if pieces == [] then ""
    else (if pieces[0].Lit? then pieces[0].text else Meaning(l, pieces[0].name, d)) + MeaningAll(l, pieces[1..], d)
  }

  /** Each label of the walk refers to the next. */
  predicate IsWalk(l: Labels, p: seq<string>) {
    forall i :: 0 <= i < |p| - 1 ==> p[i] in l.raw && Ref(p[i + 1]) in l.Pieces(p[i])
  }

  /** A walk from name that comes back to a label it was at. */
  predicate IsCyclicWalk(l: Labels, name: string, p: seq<string>) {
    && |p| > 1 && p[0] == name && IsWalk(l, p) && p[|p| - 1] in p[..|p| - 1]
  }

  // ---------------------------------------------------------------- grounded means acyclic

  lemma {:induction false} GroundedAlong(l: Labels, p: seq<string>, d: nat, k: nat) returns (e: nat)
    requires IsWalk(l, p) && k < |p| && Grounded(l, p[0], d)
    ensures Grounded(l, p[k], e)
    decreases k
  {
    if k == 0 {
      e := d;
    } else {
      e := GroundedAlong(l, p, d, k - 1);
      assert Grounded(l, Ref(p[k]).name, e - 1);
      e := e - 1;
    }
  }

  lemma {:induction false} NoWayBack(l: Labels, p: seq<string>, d: nat)
    requires IsWalk(l, p) && |p| > 1 && p[0] == p[|p| - 1]
    ensures !Grounded(l, p[0], d)
    decreases d
  {
    if Grounded(l, p[0], d) {
      assert Grounded(l, Ref(p[1]).name, d - 1);
      var q := p[1..] + [p[1]];
      forall i | 0 <= i < |q| - 1 ensures q[i] in l.raw && Ref(q[i + 1]) in l.Pieces(q[i]) {
        assert i < |p| - 2 ==> q[i] == p[i + 1] && q[i + 1] == p[i + 2];
      }
      NoWayBack(l, q, d - 1);
    }
  }

  lemma GroundedIsAcyclic(l: Labels, name: string, d: nat, p: seq<string>)
    requires Grounded(l, name, d)
    ensures !IsCyclicWalk(l, name, p)
  {
    if IsCyclicWalk(l, name, p) {
      var i :| 0 <= i < |p| - 1 && p[i] == p[|p| - 1];
      var e := GroundedAlong(l, p, d, i);
      NoWayBack(l, p[i..], e);
    }
  }

  /** How deep does not matter. */
  lemma {:induction false} GroundedDeeper(l: Labels, name: string, d: nat, e: nat)
    requires Grounded(l, name, d) && d <= e
    ensures Grounded(l, name, e) && Meaning(l, name, e) == Meaning(l, name, d)
    decreases d, 0
  {
    if name in l.raw {
      MeaningDeeper(l, l.Pieces(name), d - 1, e - 1);
      forall p | p in l.Pieces(name) && p.Ref? ensures Grounded(l, p.name, e - 1) {
        GroundedDeeper(l, p.name, d - 1, e - 1);
      }
    }
  }

  lemma {:induction false} MeaningDeeper(l: Labels, pieces: seq<Piece>, d: nat, e: nat)
    requires (forall p :: p in pieces && p.Ref? ==> Grounded(l, p.name, d)) && d <= e
    ensures forall p :: p in pieces && p.Ref? ==> Grounded(l, p.name, e)
    ensures MeaningAll(l, pieces, d) == MeaningAll(l, pieces, e)
    decreases d, |pieces| + 1
  {
    if pieces != [] {
      if pieces[0].Ref? { GroundedDeeper(l, pieces[0].name, d, e); }
      MeaningDeeper(l, pieces[1..], d, e);
    }
  }

  // ---------------------------------------------------------------- resolution is the meaning

  /** The labels being rendered, each referred to by the one before. */
  predicate IsStack(l: Labels, stack: seq<string>, name: string) { IsWalk(l, stack + [name]) }

  lemma StackExtends(l: Labels, stack: seq<string>, name: string, next: string)
    requires IsStack(l, stack, name) && name in l.raw && Ref(next) in l.Pieces(name)
    ensures IsStack(l, stack + [name], next)
  {
  }

  /** A grounded label resolves to its meaning, whatever is in progress. */
  lemma {:induction false} GroundedResolves(l: Labels, stack: seq<string>, name: string, d: nat)
    requires IsStack(l, stack, name) && Grounded(l, name, d)
    ensures Plain(l, stack, name) == Text(Meaning(l, name, d))
    decreases d, 0
  {
    if name in l.raw {
      if name in stack {
        var i :| 0 <= i < |stack| && stack[i] == name;
        NoWayBack(l, (stack + [name])[i..], d);
      }
      GroundedAllResolve(l, stack + [name], l.Pieces(name), d - 1);
    }
  }

  lemma {:induction false} GroundedAllResolve(l: Labels, stack: seq<string>, pieces: seq<Piece>, d: nat)
    requires forall p :: p in pieces && p.Ref? ==> IsStack(l, stack, p.name) && Grounded(l, p.name, d)
    ensures PlainAll(l, stack, pieces) == Text(MeaningAll(l, pieces, d))
    decreases d, |pieces| + 1
  {
    if pieces != [] {
      if pieces[0].Ref? { GroundedResolves(l, stack, pieces[0].name, d); }
      GroundedAllResolve(l, stack, pieces[1..], d);
    }
  }

  /** What resolves is grounded; what does not has found a cyclic walk. */
  lemma {:induction false} ResolvesGrounded(l: Labels, stack: seq<string>, name: string)
    requires IsStack(l, stack, name)
    ensures Plain(l, stack, name).Text? ==> Grounded(l, name, |Free(l, stack)|)
    ensures Plain(l, stack, name).Cycle? ==> FoundCycle(l, stack + [name], Plain(l, stack, name).path)
    decreases |Free(l, stack)|, 0
  {
    if name in l.raw && name !in stack {
      FreeShrinks(l, stack, name);
      forall p | p in l.Pieces(name) && p.Ref? ensures IsStack(l, stack + [name], p.name) {
        StackExtends(l, stack, name, p.name);
      }
      AllResolveGrounded(l, stack + [name], l.Pieces(name));
    }
  }

  predicate FoundCycle(l: Labels, stack: seq<string>, path: seq<string>) {
    stack <= path && IsWalk(l, path) && |path| > 1 && path[|path| - 1] in path[..|path| - 1]
  }

  lemma {:induction false} AllResolveGrounded(l: Labels, stack: seq<string>, pieces: seq<Piece>)
    requires forall p :: p in pieces && p.Ref? ==> IsStack(l, stack, p.name)
    ensures PlainAll(l, stack, pieces).Text? ==>
      forall p :: p in pieces && p.Ref? ==> Grounded(l, p.name, |Free(l, stack)|)
    ensures PlainAll(l, stack, pieces).Cycle? ==> FoundCycle(l, stack, PlainAll(l, stack, pieces).path)
    decreases |Free(l, stack)|, |pieces| + 1
  {
    if pieces != [] {
      if pieces[0].Ref? {
        ResolvesGrounded(l, stack, pieces[0].name);
        assert stack <= stack + [pieces[0].name];
      }
      AllResolveGrounded(l, stack, pieces[1..]);
    }
  }

  /** A label whose chains of references all end, and what it stands for. */
  predicate IsGrounded(l: Labels, name: string) { Grounded(l, name, |l.raw|) }

  function MeaningOf(l: Labels, name: string): string
    requires IsGrounded(l, name)
  {
    Meaning(l, name, |l.raw|)
  }

  lemma FreeWithin(l: Labels, stack: seq<string>)
    ensures |Free(l, stack)| <= |l.raw|
  {
  }

  lemma GroundedGivesMeaning(l: Labels, stack: seq<string>, name: string)
    requires IsStack(l, stack, name) && IsGrounded(l, name)
    ensures Plain(l, stack, name) == Text(MeaningOf(l, name))
  {
    GroundedResolves(l, stack, name, |l.raw|);
  }

  /** Whatever is in progress, a label resolves to its meaning if it is grounded, and fails otherwise. */
  lemma ResolvesExactly(l: Labels, stack: seq<string>, name: string)
    requires IsStack(l, stack, name)
    ensures Plain(l, stack, name).Text? <==> IsGrounded(l, name)
    ensures IsGrounded(l, name) ==> Plain(l, stack, name) == Text(MeaningOf(l, name))
  {
    if Plain(l, stack, name).Text? {
      ResolvesGrounded(l, stack, name);
      FreeWithin(l, stack);
      GroundedDeeper(l, name, |Free(l, stack)|, |l.raw|);
    }
    if IsGrounded(l, name) { GroundedGivesMeaning(l, stack, name); }
  }

  /** At the top level: an error exactly when a cyclic walk starts at the label, and the error
      names such a walk. */
  lemma FailsExactlyOnCycles(l: Labels, name: string)
    ensures Plain(l, [], name).Cycle? <==> exists p :: IsCyclicWalk(l, name, p)
    ensures Plain(l, [], name).Cycle? ==> IsCyclicWalk(l, name, Plain(l, [], name).path)
  {
    ResolvesGrounded(l, [], name);
    if Plain(l, [], name).Cycle? {
      var path := Plain(l, [], name).path;
      assert path[0] == ([] + [name])[0];
      assert IsCyclicWalk(l, name, path);
    } else {
      forall p ensures !IsCyclicWalk(l, name, p) { GroundedIsAcyclic(l, name, |Free(l, [])|, p); }
    }
  }

  predicate MemoOk(l: Labels, memo: map<string, string>) {
    forall n :: n in memo ==> IsGrounded(l, n) && memo[n] == MeaningOf(l, n)
  }

  predicate RefsFit(l: Labels, stack: seq<string>, pieces: seq<Piece>) {
    forall p :: p in pieces && p.Ref? ==> IsStack(l, stack, p.name)
  }

  lemma StackGrows(l: Labels, stack: seq<string>, name: string)
    requires IsStack(l, stack, name) && name in l.raw && name !in stack
    ensures RefsFit(l, stack + [name], l.Pieces(name))
    ensures |Free(l, stack + [name])| < |Free(l, stack)|
    ensures (stack + [name])[..|stack|] == stack
    ensures Names(stack + [name]) == Names(stack) + {name} && Names(stack) == Names(stack) + {name} - {name}
  {
    FreeShrinks(l, stack, name);
    forall p | p in l.Pieces(name) && p.Ref? ensures IsStack(l, stack + [name], p.name) {
      StackExtends(l, stack, name, p.name);
    }
  }

  class Resolver {
    const labels: Labels
    const rendered: bool
    var memo: map<string, string>
    var inProgress: set<string>
    var stack: seq<string>

    constructor (labels: Labels, rendered: bool)
      ensures Valid() && stack == [] && this.labels == labels && this.rendered == rendered
    {
      this.labels, this.rendered := labels, rendered;
      memo, inProgress, stack := map[], {}, [];
    }

    predicate Valid()
      reads this
    {
      inProgress == Names(stack) && MemoOk(labels, memo)
    }

    /** The memo changes nothing: the answer is that of plain resolution (or the raw value if
        the values are rendered already), and stack and labels in progress are restored, on
        success and on failure. */
    method Resolve(name: string) returns (r: Rendering)
      requires Valid() && IsStack(labels, stack, name)
      modifies this
      ensures Valid() && stack == old(stack) && inProgress == old(inProgress)
      ensures rendered ==> r == Text(if name in labels.raw then labels.raw[name] else "")
      ensures !rendered ==> r == Plain(labels, stack, name)
      decreases |Free(labels, stack)|, 1
    {
      if name !in labels.raw { return Text(""); }
      if rendered { return Text(labels.raw[name]); }
      if name in memo {
        GroundedGivesMeaning(labels, stack, name);
        return Text(memo[name]);
      }
      if name in inProgress { return Cycle(stack + [name]); }
      r := Render(name);
      if r.Text? {
        ResolvesExactly(labels, stack, name);
        memo := memo[name := r.text];
      }
    }

    method Render(name: string) returns (r: Rendering)
      requires Valid() && !rendered && IsStack(labels, stack, name) && name in labels.raw && name !in stack
      modifies this
      ensures Valid() && stack == old(stack) && inProgress == old(inProgress)
      ensures r == Plain(labels, stack, name)
      decreases |Free(labels, stack)|, 0
    {
      StackGrows(labels, stack, name);
      Enter(name);
      r := Exec(labels.Pieces(name));
      Leave(name);
    }

    /** The label is being rendered, */
    method Enter(name: string)
      requires Valid()
      modifies this`inProgress, this`stack
      ensures Valid() && stack == old(stack) + [name]
    {
      inProgress := inProgress + {name};
      stack := stack + [name];
    }

    /** and no longer is. */
    method Leave(name: string)
      requires Valid() && |stack| > 0 && stack[|stack| - 1] == name && name !in stack[..|stack| - 1]
      modifies this`inProgress, this`stack
      ensures Valid() && stack == old(stack)[..|old(stack)| - 1]
    {
      stack := stack[..|stack| - 1];
      inProgress := inProgress - {name};
    }

    method Exec(pieces: seq<Piece>) returns (r: Rendering)
      requires Valid() && !rendered
      requires RefsFit(labels, stack, pieces)
      modifies this
      ensures Valid() && stack == old(stack) && inProgress == old(inProgress)
      ensures r == PlainAll(labels, stack, pieces)
      decreases |Free(labels, stack)|, |pieces| + 2
    {
      var buf := "";
      for i := 0 to |pieces|
        invariant Valid() && stack == old(stack) && inProgress == old(inProgress)
        invariant PlainAll(labels, stack, pieces) == Join(Text(buf), PlainAll(labels, stack, pieces[i..]))
      {
        var piece := Text("");
        if pieces[i].Lit? {
          piece := Text(pieces[i].text);
        } else {
          piece := Resolve(pieces[i].name);
        }
        AllFrom(labels, stack, pieces, i);
        JoinOnto(buf, piece, PlainAll(labels, stack, pieces[i + 1..]));
        if piece.Cycle? { return piece; }
        buf := buf + piece.text;
      }
      return Text(buf);
    }
  }

  lemma JoinOnto(buf: string, piece: Rendering, rest: Rendering)
    ensures Join(Text(buf), Join(piece, rest)) == if piece.Cycle? then piece else Join(Text(buf + piece.text), rest)
  {
    if piece.Text? && rest.Text? { assert buf + (piece.text + rest.text) == buf + piece.text + rest.text; }
  }

  lemma AllFrom(l: Labels, stack: seq<string>, pieces: seq<Piece>, i: nat)
    requires i < |pieces|
    ensures PlainAll(l, stack, pieces[i..])
         == Join(if pieces[i].Lit? then Text(pieces[i].text) else Plain(l, stack, pieces[i].name),
                 PlainAll(l, stack, pieces[i + 1..]))
  {
  }

  /** Rendering every label of a route through one shared resolver, in any order, renders
      exactly the labels no cycle can be reached from, each to its own meaning. */
  method RenderAll(labels: Labels) returns (all: map<string, string>)
    ensures all.Keys == set n | n in labels.raw && IsGrounded(labels, n)
    ensures forall n :: n in all ==> all[n] == MeaningOf(labels, n)
  {
    all := map[];
    var resolver := new Resolver(labels, false);
    var todo := labels.raw.Keys;
    while todo != {}
      invariant resolver.Valid() && resolver.stack == [] && resolver.labels == labels && !resolver.rendered
      invariant fresh(resolver) && todo <= labels.raw.Keys
      invariant all.Keys == set n | n in labels.raw - todo && IsGrounded(labels, n)
      invariant forall n :: n in all ==> all[n] == MeaningOf(labels, n)
      decreases |todo|
    {
      var name: string :| name in todo;
      todo := todo - {name};
      var r := resolver.Resolve(name);
      ResolvesExactly(labels, [], name);
      if r.Text? { all := all[name := r.text]; }
    }
  }
}
