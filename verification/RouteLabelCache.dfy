/** The lock-free cache of a group's rendered route labels: renders are tagged with a
    generation that is bumped after every change of the alert set. The generation is a machine
    word with `words` values. */
module RouteLabelCache {
  import opened Basics
  import opened AlertStore

  type LabelSet = map<string, string>

  datatype Rendered = Rendered(gen: nat, labels: LabelSet)

  /** A goroutine that changed the alert set and has yet to bump the generation. */
  datatype Writer = AtRest | Changed(change: nat)

  /** Where a call of RouteLabels stands; `start` is the generation when the call began. */
  datatype Reader =
    | Outside
    | Entered(start: nat)
    | LoadedCache(start: nat, cached: Option<Rendered>)
    | LoadedGen(start: nat, gen: nat)
    | HasRendered(start: nat, gen: nat, labels: LabelSet)
    | Returned(start: nat, labels: LabelSet)

  /** `history` holds the alert set after each change, `bumps` the changes whose bump has
      completed, in that order: its length, as a word, is the generation. */
  datatype State = State(
    history: seq<AlertMap>, bumps: seq<nat>, cached: Option<Rendered>, writers: seq<Writer>, readers: seq<Reader>)

  datatype Step =
    | Change(w: nat, alerts: AlertMap)
    | Bump(w: nat)
    | Enter(r: nat)
    | LoadCache(r: nat)
    | LoadGen(r: nat)
    | Render(r: nat)
    | Store(r: nat)
    | Leave(r: nat)

  predicate Init(s: State) {
    && |s.history| == 1 && s.bumps == [] && s.cached == None
    && (forall i :: 0 <= i < |s.writers| ==> s.writers[i] == AtRest)
    && (forall i :: 0 <= i < |s.readers| ==> s.readers[i] == Outside)
  }

  /** An empty set is not rendered. */
  function LabelsOf(render: AlertMap -> LabelSet, alerts: AlertMap): LabelSet {
    if alerts == map[] then map[] else render(alerts)
  }

  predicate Enabled(s: State, step: Step) {
    && s.history != []
    && match step
       case Change(w, _) => w < |s.writers| && s.writers[w].AtRest?
       case Bump(w) => w < |s.writers| && s.writers[w].Changed?
       case Enter(r) => r < |s.readers| && s.readers[r].Outside?
       case LoadCache(r) => r < |s.readers| && s.readers[r].Entered?
       case LoadGen(r) => r < |s.readers| && s.readers[r].LoadedCache?
       case Render(r) => r < |s.readers| && s.readers[r].LoadedGen?
       case Store(r) => r < |s.readers| && s.readers[r].HasRendered?
       case Leave(r) => r < |s.readers| && s.readers[r].Returned?
  }

  function Generation(s: State, words: nat): nat
    requires 0 < words
  {
    |s.bumps| % words
  }

  function Next(render: AlertMap -> LabelSet, words: nat, s: State, step: Step): State
    requires 0 < words && Enabled(s, step)
  {
    match step
    case Change(w, alerts) => s.(history := s.history + [alerts], writers := s.writers[w := Changed(|s.history|)])
    case Bump(w) => s.(bumps := s.bumps + [s.writers[w].change], writers := s.writers[w := AtRest])
    case Enter(r) => s.(readers := s.readers[r := Entered(|s.bumps|)])
    case LoadCache(r) => s.(readers := s.readers[r := LoadedCache(s.readers[r].start, s.cached)])
    case LoadGen(r) =>
      var start, cached := s.readers[r].start, s.readers[r].cached;
      s.(readers := s.readers[r := if cached.Some? && cached.value.gen == Generation(s, words)
                                   then Returned(start, cached.value.labels)
                                   else LoadedGen(start, Generation(s, words))])
    case Render(r) =>
      var labels := LabelsOf(render, s.history[|s.history| - 1]);
      s.(readers := s.readers[r := HasRendered(s.readers[r].start, s.readers[r].gen, labels)])
    case Store(r) =>
      s.(cached := Some(Rendered(s.readers[r].gen, s.readers[r].labels)),
         readers := s.readers[r := Returned(s.readers[r].start, s.readers[r].labels)])
    case Leave(r) => s.(readers := s.readers[r := Outside])
  }

  /** The alert set after change v includes the first n changes to be announced. */
  predicate Includes(s: State, v: nat, n: nat) {
    v < |s.history| && n <= |s.bumps| && forall i :: 0 <= i < n ==> s.bumps[i] <= v
  }

  /** The labels were rendered from an alert set that includes the first n changes announced. */
  ghost predicate Fresh(render: AlertMap -> LabelSet, s: State, labels: LabelSet, n: nat) {
    exists v: nat :: Includes(s, v, n) && labels == LabelsOf(render, s.history[v])
  }

  ghost predicate CacheOk(render: AlertMap -> LabelSet, s: State, cached: Option<Rendered>) {
    cached.Some? ==> Fresh(render, s, cached.value.labels, cached.value.gen)
  }

  ghost predicate ReaderOk(render: AlertMap -> LabelSet, s: State, r: Reader) {
    match r
    case Outside => true
    case Entered(start) => start <= |s.bumps|
    case LoadedCache(start, cached) => start <= |s.bumps| && CacheOk(render, s, cached)
    case LoadedGen(start, gen) => start <= gen <= |s.bumps|
    case HasRendered(start, gen, labels) => start <= gen && Fresh(render, s, labels, gen)
    case Returned(start, labels) => Fresh(render, s, labels, start)
  }

  ghost predicate Inv(render: AlertMap -> LabelSet, s: State) {
    && s.history != []
    && (forall i :: 0 <= i < |s.bumps| ==> s.bumps[i] < |s.history|)
    && (forall w :: 0 <= w < |s.writers| && s.writers[w].Changed? ==> s.writers[w].change < |s.history|)
    && CacheOk(render, s, s.cached)
    && (forall r :: 0 <= r < |s.readers| ==> ReaderOk(render, s, s.readers[r]))
  }

  /** What is fresh stays so as long as nothing already announced is forgotten. */
  lemma FreshStays(render: AlertMap -> LabelSet, s: State, s': State, labels: LabelSet, n: nat)
    requires Fresh(render, s, labels, n) && s.history <= s'.history && s.bumps <= s'.bumps
    ensures Fresh(render, s', labels, n)
  {
  }

  lemma ReaderStaysOk(render: AlertMap -> LabelSet, s: State, s': State, r: Reader)
    requires ReaderOk(render, s, r) && s.history <= s'.history && s.bumps <= s'.bumps
    ensures ReaderOk(render, s', r)
  {
  }

  /** What the reader that takes a step becomes. */
  lemma MovedReaderOk(render: AlertMap -> LabelSet, words: nat, s: State, step: Step)
    requires Inv(render, s) && Enabled(s, step) && !step.Change? && !step.Bump? && |s.bumps| < words
    ensures ReaderOk(render, s, Next(render, words, s, step).readers[step.r])
  {
    NoWrap(|s.bumps|, words);
  }

  lemma NoWrap(n: nat, words: nat)
    requires n < words
    ensures n % words == n
  {
  }

  lemma StepKeepsInv(render: AlertMap -> LabelSet, words: nat, s: State, step: Step)
    requires Inv(render, s) && Enabled(s, step) && |s.bumps| < words
    ensures Inv(render, Next(render, words, s, step))
  {
    var s' := Next(render, words, s, step);
    if !step.Change? && !step.Bump? {
      MovedReaderOk(render, words, s, step);
      assert step.Store? ==> ReaderOk(render, s, s.readers[step.r]);
    }
    forall r | 0 <= r < |s'.readers| ensures ReaderOk(render, s', s'.readers[r]) {
      assert ReaderOk(render, s, s'.readers[r]);
      ReaderStaysOk(render, s, s', s'.readers[r]);
    }
    if s'.cached.Some? { FreshStays(render, s, s', s'.cached.value.labels, s'.cached.value.gen); }
  }

  ghost predicate Run(render: AlertMap -> LabelSet, words: nat, states: seq<State>, steps: seq<Step>) {
    && 0 < words && |states| == |steps| + 1 && Init(states[0])
    && forall n :: 0 <= n < |steps| ==>
         Enabled(states[n], steps[n]) && states[n + 1] == Next(render, words, states[n], steps[n])
  }

  lemma {:induction false} RunKeepsInv(
      render: AlertMap -> LabelSet, words: nat, states: seq<State>, steps: seq<Step>, n: nat)
    requires Run(render, words, states, steps) && n <= |steps| && |states[n].bumps| < words
    ensures Inv(render, states[n])
  {
    if n > 0 {
      assert |states[n - 1].bumps| <= |states[n].bumps|;
      RunKeepsInv(render, words, states, steps, n - 1);
      StepKeepsInv(render, words, states[n - 1], steps[n - 1]);
    }
  }

  /** In every interleaving, a call returns labels rendered from the alert set after some
      change v, and every change whose bump had completed when the call began is among the
      first v, as long as the generation has not wrapped around. */
  lemma NeverServesStale(
      render: AlertMap -> LabelSet, words: nat, states: seq<State>, steps: seq<Step>, n: nat, r: nat) returns (v: nat)
    requires Run(render, words, states, steps) && n <= |steps| && |states[n].bumps| < words
    requires r < |states[n].readers| && states[n].readers[r].Returned?
    ensures v < |states[n].history|
    ensures states[n].readers[r].labels == if states[n].history[v] == map[] then map[] else render(states[n].history[v])
    ensures states[n].readers[r].start <= |states[n].bumps|
    ensures forall i :: 0 <= i < states[n].readers[r].start ==> states[n].bumps[i] <= v
  {
    RunKeepsInv(render, words, states, steps, n);
    var s := states[n];
    assert ReaderOk(render, s, s.readers[r]);
    v :| Includes(s, v, s.readers[r].start) && s.readers[r].labels == LabelsOf(render, s.history[v]);
  }

  // ---------------------------------------------------------------- after a wrap-around

  lemma OneStep(render: AlertMap -> LabelSet, words: nat, states: seq<State>, steps: seq<Step>, step: Step)
      returns (states': seq<State>, steps': seq<Step>)
    requires Run(render, words, states, steps) && Enabled(states[|steps|], step)
    ensures Run(render, words, states', steps') && states'[|steps'|] == Next(render, words, states[|steps|], step)
  {
    states', steps' := states + [Next(render, words, states[|steps|], step)], steps + [step];
    forall n | 0 <= n < |steps'|
      ensures Enabled(states'[n], steps'[n]) && states'[n + 1] == Next(render, words, states'[n], steps'[n])
    {
      if n < |steps| {
        assert Enabled(states[n], steps[n]) && states[n + 1] == Next(render, words, states[n], steps[n]);
      }
    }
  }

  /** The labels of the first alert set are cached, and the set has become `later` n times. */
  predicate Aged(render: AlertMap -> LabelSet, s: State, first: AlertMap, later: AlertMap, n: nat) {
    && |s.history| == n + 1 && (forall i :: 1 <= i <= n ==> s.history[i] == later)
    && |s.bumps| == n && (n > 0 ==> s.bumps[n - 1] == n)
    && s.cached == Some(Rendered(0, LabelsOf(render, first)))
    && s.writers == [AtRest] && s.readers == [Outside]
  }

  lemma FirstCall(render: AlertMap -> LabelSet, words: nat, first: AlertMap, later: AlertMap)
      returns (states: seq<State>, steps: seq<Step>)
    requires 0 < words
    ensures Run(render, words, states, steps) && Aged(render, states[|steps|], first, later, 0)
  {
    states, steps := [State([first], [], None, [AtRest], [Outside])], [];
    states, steps := OneStep(render, words, states, steps, Enter(0));
    states, steps := OneStep(render, words, states, steps, LoadCache(0));
    states, steps := OneStep(render, words, states, steps, LoadGen(0));
    states, steps := OneStep(render, words, states, steps, Render(0));
    states, steps := OneStep(render, words, states, steps, Store(0));
    states, steps := OneStep(render, words, states, steps, Leave(0));
  }

  lemma {:induction false} Age(render: AlertMap -> LabelSet, words: nat, first: AlertMap, later: AlertMap, n: nat)
      returns (states: seq<State>, steps: seq<Step>)
    requires 0 < words
    ensures Run(render, words, states, steps) && Aged(render, states[|steps|], first, later, n)
  {
    if n == 0 {
      states, steps := FirstCall(render, words, first, later);
    } else {
      states, steps := Age(render, words, first, later, n - 1);
      states, steps := OneStep(render, words, states, steps, Change(0, later));
      states, steps := OneStep(render, words, states, steps, Bump(0));
    }
  }

  /** After as many changes as the generation has values, a call returns labels older than them all. */
  lemma WrapServesStale(render: AlertMap -> LabelSet, words: nat, first: AlertMap, later: AlertMap)
      returns (states: seq<State>, steps: seq<Step>)
    requires 0 < words && LabelsOf(render, first) != LabelsOf(render, later)
    ensures Run(render, words, states, steps) && |states[|steps|].bumps| == words
    ensures var s := states[|steps|];
      && |s.readers| == 1 && s.readers[0].Returned? && s.readers[0].start == words
      && !Fresh(render, s, s.readers[0].labels, s.readers[0].start)
  {
    states, steps := Age(render, words, first, later, words);
    states, steps := OneStep(render, words, states, steps, Enter(0));
    states, steps := OneStep(render, words, states, steps, LoadCache(0));
    states, steps := OneStep(render, words, states, steps, LoadGen(0));
    var s := states[|steps|];
    forall v: nat | Includes(s, v, words) ensures s.history[v] == later { assert s.bumps[words - 1] <= v; }
  }

  ghost predicate ServesFresh(render: AlertMap -> LabelSet, words: nat, most: nat) {
    forall states: seq<State>, steps: seq<Step>, n: nat, r: nat ::
      Run(render, words, states, steps) && n <= |steps| && |states[n].bumps| <= most
      && r < |states[n].readers| && states[n].readers[r].Returned? ==>
        Fresh(render, states[n], states[n].readers[r].labels, states[n].readers[r].start)
  }

  /** If two alert sets render differently, no run with up to `most` changes serves stale labels if
      and only if the generation has more values than that. */
  lemma FreshIffBelowWrap(render: AlertMap -> LabelSet, words: nat, most: nat, first: AlertMap, later: AlertMap)
    requires 0 < words && LabelsOf(render, first) != LabelsOf(render, later)
    ensures ServesFresh(render, words, most) <==> most < words
  {
    if most < words {
      forall states: seq<State>, steps: seq<Step>, n: nat, r: nat |
        Run(render, words, states, steps) && n <= |steps| && |states[n].bumps| <= most
        && r < |states[n].readers| && states[n].readers[r].Returned?
        ensures Fresh(render, states[n], states[n].readers[r].labels, states[n].readers[r].start)
      {
        RunKeepsInv(render, words, states, steps, n);
        assert ReaderOk(render, states[n], states[n].readers[r]);
      }
    } else {
      var states, steps := WrapServesStale(render, words, first, later);
      assert Run(render, words, states, steps) && |steps| <= |steps| && states[|steps|].readers[0].Returned?;
    }
  }
}
