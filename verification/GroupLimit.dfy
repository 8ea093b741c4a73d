/** The dispatcher's group counter and the limit it enforces. */
module GroupLimit {
  import opened AlertStore
  import opened Basics
  import opened Dispatcher

  function One(b: bool): nat { if b then 1 else 0 }

  /** How many workers stand at a place of a certain kind. */
  function Tally(workers: seq<Pc>, kind: Pc -> bool): nat {
    if workers == [] then 0 else One(kind(workers[0])) + Tally(workers[1..], kind)
  }

  lemma {:induction false} TallyMove(workers: seq<Pc>, w: nat, pc: Pc, kind: Pc -> bool)
    requires w < |workers|
    ensures Tally(workers[w := pc], kind) + One(kind(workers[w])) == Tally(workers, kind) + One(kind(pc))
  {
    if w == 0 {
      assert workers[w := pc][1..] == workers[1..];
    } else {
      assert workers[w := pc][1..] == workers[1..][w - 1 := pc];
      TallyMove(workers[1..], w - 1, pc, kind);
    }
  }

  /** Workers of two exclusive kinds and one of neither are distinct workers. */
  lemma {:induction false} TallyShare(workers: seq<Pc>, kind: Pc -> bool, other: Pc -> bool, w: nat)
    requires forall pc :: !(kind(pc) && other(pc))
    requires w < |workers| ==> !kind(workers[w]) && !other(workers[w])
    ensures Tally(workers, kind) + Tally(workers, other) <= |workers| - One(w < |workers|)
  {
    if workers != [] { TallyShare(workers[1..], kind, other, if w == 0 then |workers| else w - 1); }
  }

  lemma {:induction false} TallyIdle(w: nat, kind: Pc -> bool)
    requires !kind(Idle)
    ensures Tally(seq(w, i => Idle), kind) == 0
  {
    if w > 0 {
      assert seq(w, i => Idle)[1..] == seq(w - 1, i => Idle);
      TallyIdle(w - 1, kind);
    }
  }

  /** Stored its group, not yet counted it. */
  const UNCOUNTED: Pc -> bool := (pc: Pc) => pc.Counting?

  /** Passed the limit check, has not stored its group. */
  const ADMITTED: Pc -> bool := (pc: Pc) => pc.Trying? || pc.Found?

  /** The counter is the number of mapped groups, up to increments and decrements in flight. */
  predicate Counted(s: State) {
    s.counter == |s.slots| + One(s.maintenance.Discounting?) - Tally(s.workers, UNCOUNTED)
  }

  predicate Bounded(limit: int, s: State) {
    0 < limit ==> |s.slots| + Tally(s.workers, ADMITTED) <= limit + |s.workers| - 1
  }

  /** What a step of worker w does to the books. */
  predicate Balanced(s: State, s': State, w: nat) {
    && w < |s.workers| == |s'.workers|
    && s'.workers == s.workers[w := s'.workers[w]] && s'.maintenance == s.maintenance
    && s'.counter - s.counter == |s'.slots| - |s.slots| - One(UNCOUNTED(s'.workers[w])) + One(UNCOUNTED(s.workers[w]))
  }

  predicate Admits(s: State, s': State, w: nat)
    requires w < |s.workers| == |s'.workers|
  {
    |s'.slots| + One(ADMITTED(s'.workers[w])) > |s.slots| + One(ADMITTED(s.workers[w]))
  }

  /** A step with which the books balance keeps the count, and the bound if it admits nobody. */
  lemma BooksBalance(limit: int, s: State, s': State, w: nat)
    requires Counted(s) && Balanced(s, s', w)
    ensures Counted(s')
    ensures Bounded(limit, s) && !Admits(s, s', w) ==> Bounded(limit, s')
  {
    TallyMove(s.workers, w, s'.workers[w], UNCOUNTED);
    TallyMove(s.workers, w, s'.workers[w], ADMITTED);
  }

  /** Admission: whoever passes the check leaves room for every worker but one. */
  lemma AdmissionBounded(limit: int, s: State, w: nat)
    requires Counted(s) && Enabled(s, Check(w)) && limit > s.counter
    ensures |s.slots| + Tally(s.workers, ADMITTED) + 1 <= limit + |s.workers| - 1
  {
    TallyShare(s.workers, UNCOUNTED, ADMITTED, w);
  }

  lemma AttemptBooks(s: State, w: nat)
    requires Structure(s) && Enabled(s, Try(w))
    ensures Balanced(s, Attempt(s, w), w) && !Admits(s, Attempt(s, w), w)
  {
  }

  lemma WorkerStepBooks(limit: int, s: State, step: Step)
    requires Enabled(s, step)
    requires step.Begin? || step.Insert? || step.Check? || step.InsertFound? || step.Count? || step.LookAtState? ||
      step.Launch?
    ensures Balanced(s, Next(limit, s, step), step.w)
    ensures Admits(s, Next(limit, s, step), step.w) ==> step.Check? && !(0 < limit <= s.counter)
    ensures Next(limit, s, step).slots == s.slots
  {
  }

  lemma WorkerStepCounts(limit: int, s: State, step: Step)
    requires Structure(s) && Enabled(s, step) && Counted(s) && Bounded(limit, s)
    requires step.Begin? || step.Insert? || step.Check? || step.InsertFound? || step.Count? || step.LookAtState? ||
      step.Launch?
             || step.Try?
    ensures Counted(Next(limit, s, step)) && Bounded(limit, Next(limit, s, step))
  {
    var s' := Next(limit, s, step);
    if step.Try? { AttemptBooks(s, step.w); } else { WorkerStepBooks(limit, s, step); }
    BooksBalance(limit, s, s', step.w);
    if step.Check? && 0 < limit && s.counter < limit {
      AdmissionBounded(limit, s, step.w);
      TallyMove(s.workers, step.w, s'.workers[step.w], ADMITTED);
    }
  }

  lemma DeleteCounts(limit: int, s: State)
    requires Enabled(s, Delete) && Counted(s) && Bounded(limit, s)
    ensures Counted(Next(limit, s, Delete)) && Bounded(limit, Next(limit, s, Delete))
  {
  }

  lemma OtherStepCounts(limit: int, s: State, step: Step)
    requires Enabled(s, step) && Counted(s) && Bounded(limit, s)
    requires step.StartSweep? || step.Visit? || step.StartFlush? || step.EndFlush? || step.LookAtGroup? ||
      step.Discount?
    ensures Counted(Next(limit, s, step)) && Bounded(limit, Next(limit, s, step))
  {
  }

  lemma StepCounts(limit: int, s: State, step: Step)
    requires Structure(s) && Enabled(s, step) && Counted(s) && Bounded(limit, s)
    ensures Counted(Next(limit, s, step)) && Bounded(limit, Next(limit, s, step))
  {
    if step.StartSweep? || step.Visit? || step.StartFlush? || step.EndFlush? || step.LookAtGroup? || step.Discount? {
      OtherStepCounts(limit, s, step);
    } else if step.Delete? {
      DeleteCounts(limit, s);
    } else {
      WorkerStepCounts(limit, s, step);
    }
  }

  lemma {:induction false} RunCounts(limit: int, w: nat, states: seq<State>, steps: seq<Step>, n: nat)
    requires Run(limit, w, states, steps) && n <= |steps| && 0 < w
    ensures Counted(states[n]) && Bounded(limit, states[n])
  {
    if n == 0 {
      TallyIdle(w, UNCOUNTED);
      TallyIdle(w, ADMITTED);
    } else {
      RunCounts(limit, w, states, steps, n - 1);
      RunOk(limit, w, states, steps, n - 1);
      StepCounts(limit, states[n - 1], steps[n - 1]);
    }
  }

  /** In every interleaving the number of groups stays below the limit plus the number of
      workers. */
  lemma SoftLimit(limit: int, w: nat, states: seq<State>, steps: seq<Step>, n: nat)
    requires Run(limit, w, states, steps) && n <= |steps| && 0 < w && 0 < limit
    ensures |states[n].slots| <= limit + w - 1
  {
    RunCounts(limit, w, states, steps, n);
    RunOk(limit, w, states, steps, n);
  }

  /** With nothing in flight the counter is exactly the number of groups. */
  lemma CounterExactAtRest(limit: int, w: nat, states: seq<State>, steps: seq<Step>, n: nat)
    requires Run(limit, w, states, steps) && n <= |steps| && 0 < w
    requires forall i :: 0 <= i < |states[n].workers| ==> !states[n].workers[i].Counting?
    requires !states[n].maintenance.Discounting?
    ensures states[n].counter == |states[n].slots|
  {
    RunCounts(limit, w, states, steps, n);
    TallyNone(states[n].workers, UNCOUNTED);
  }

  lemma {:induction false} TallyNone(workers: seq<Pc>, kind: Pc -> bool)
    requires forall i :: 0 <= i < |workers| ==> !kind(workers[i])
    ensures Tally(workers, kind) == 0
  {
    if workers != [] { TallyNone(workers[1..], kind); }
  }

  // ---------------------------------------------------------------- the bound is reached

  /** The keys used below: n of them. */
  function Keys(n: nat): set<Key> {
    if n == 0 then {} else Keys(n - 1) + {(0, n - 1)}
  }

  lemma {:induction false} KeysExactly(n: nat)
    ensures |Keys(n)| == n && forall k: Key :: k in Keys(n) <==> k.0 == 0 && k.1 < n
  {
    if n > 0 { KeysExactly(n - 1); }
  }

  /** n groups are stored and counted, and the dispatcher has not started. */
  predicate Stands(s: State, w: nat, n: nat) {
    |s.workers| == w && s.counter == n && s.slots.Keys == Keys(n) && s.sweep == None
  }

  predicate AllIdle(s: State) { forall i :: 0 <= i < |s.workers| ==> s.workers[i] == Idle }

  /** The first i workers have passed the check, each for a key of its own. */
  predicate Admitted(s: State, a: Alert, n: nat, i: nat) {
    && i <= |s.workers|
    && (forall j :: 0 <= j < i ==> IsAdmitted(s, a, n, j))
    && (forall j :: i <= j < |s.workers| ==> s.workers[j] == Idle)
  }

  predicate IsAdmitted(s: State, a: Alert, n: nat, j: nat)
    requires j < |s.workers|
  {
    var pc := s.workers[j];
    pc.Trying? && pc.k == (0, n + j) && pc.a == a && pc.stale == None && pc.own < |s.groups|
  }

  /** One more group, stored and counted by worker 0. */
  lemma FillOne(limit: int, w: nat, a: Alert, n: nat, states: seq<State>, steps: seq<Step>)
      returns (states': seq<State>, steps': seq<Step>)
    requires Run(limit, w, states, steps) && 0 < w && n < limit
    requires Stands(states[|steps|], w, n) && AllIdle(states[|steps|])
    ensures Run(limit, w, states', steps') && Stands(states'[|steps'|], w, n + 1) && AllIdle(states'[|steps'|])
  {
    var k := (0, n);
    KeysExactly(n);
    states', steps' := OneStep(limit, w, states, steps, Begin(0, k, a));
    states', steps' := OneStep(limit, w, states', steps', Check(0));
    states', steps' := OneStep(limit, w, states', steps', Try(0));
    states', steps' := OneStep(limit, w, states', steps', Count(0));
    states', steps' := OneStep(limit, w, states', steps', LookAtState(0));
  }

  lemma OneStep(limit: int, w: nat, states: seq<State>, steps: seq<Step>, step: Step)
      returns (states': seq<State>, steps': seq<Step>)
    requires Run(limit, w, states, steps) && Enabled(states[|steps|], step)
    ensures Run(limit, w, states', steps') && states'[|steps'|] == Next(limit, states[|steps|], step)
  {
    Extend(limit, w, states, steps, step, Next(limit, states[|steps|], step));
    states', steps' := states + [Next(limit, states[|steps|], step)], steps + [step];
  }

  lemma {:induction false} Fill(limit: int, w: nat, a: Alert, n: nat) returns (states: seq<State>, steps: seq<Step>)
    requires 0 < w && n <= limit
    ensures Run(limit, w, states, steps) && Stands(states[|steps|], w, n) && AllIdle(states[|steps|])
  {
    if n == 0 {
      states, steps := [Init(w)], [];
    } else {
      states, steps := Fill(limit, w, a, n - 1);
      states, steps := FillOne(limit, w, a, n - 1, states, steps);
    }
  }

  /** Worker i finds no group at its key, */
  lemma BeginOne(limit: int, s: State, w: nat, a: Alert, n: nat, i: nat)
    requires Stands(s, w, n) && Admitted(s, a, n, i) && i < w
    ensures Enabled(s, Begin(i, (0, n + i), a))
    ensures Next(limit, s, Begin(i, (0, n + i), a)) == Move(s, i, Checking((0, n + i), a, None))
  {
    KeysExactly(n);
  }

  /** and passes the check. */
  lemma CheckOne(limit: int, s: State, w: nat, a: Alert, n: nat, i: nat)
    requires Stands(s, w, n) && Admitted(s, a, n, i) && i < w && n < limit
    ensures var s' := Move(s, i, Checking((0, n + i), a, None));
      && Enabled(s', Check(i))
      && Stands(Next(limit, s', Check(i)), w, n) && Admitted(Next(limit, s', Check(i)), a, n, i + 1)
  {
    var s' := Next(limit, Move(s, i, Checking((0, n + i), a, None)), Check(i));
    forall j | 0 <= j < i ensures IsAdmitted(s', a, n, j) { assert IsAdmitted(s, a, n, j); }
  }

  lemma AdmitOne(limit: int, w: nat, a: Alert, n: nat, i: nat, states: seq<State>, steps: seq<Step>)
      returns (states': seq<State>, steps': seq<Step>)
    requires Run(limit, w, states, steps) && i < w && n < limit
    requires Stands(states[|steps|], w, n) && Admitted(states[|steps|], a, n, i)
    ensures Run(limit, w, states', steps')
    ensures Stands(states'[|steps'|], w, n) && Admitted(states'[|steps'|], a, n, i + 1)
  {
    BeginOne(limit, states[|steps|], w, a, n, i);
    CheckOne(limit, states[|steps|], w, a, n, i);
    states', steps' := OneStep(limit, w, states, steps, Begin(i, (0, n + i), a));
    states', steps' := OneStep(limit, w, states', steps', Check(i));
  }

  lemma {:induction false} AdmitAll(limit: int, w: nat, a: Alert, n: nat, i: nat)
      returns (states: seq<State>, steps: seq<Step>)
    requires 0 < w && n < limit && i <= w
    ensures Run(limit, w, states, steps) && Stands(states[|steps|], w, n) && Admitted(states[|steps|], a, n, i)
  {
    if i == 0 {
      states, steps := Fill(limit, w, a, n);
    } else {
      states, steps := AdmitAll(limit, w, a, n, i - 1);
      states, steps := AdmitOne(limit, w, a, n, i - 1, states, steps);
    }
  }

  /** The workers from i on are still admitted, the others have stored their groups. */
  predicate Stored(s: State, w: nat, a: Alert, n: nat, i: nat) {
    |s.workers| == w && s.slots.Keys == Keys(n + i) && forall j :: i <= j < w ==> IsAdmitted(s, a, n, j)
  }

  lemma StoreOne(s: State, w: nat, a: Alert, n: nat, i: nat)
    requires Stored(s, w, a, n, i) && i < w
    ensures Enabled(s, Try(i)) && Stored(Attempt(s, i), w, a, n, i + 1)
  {
    assert IsAdmitted(s, a, n, i);
    KeysExactly(n + i);
    forall j | i + 1 <= j < w ensures IsAdmitted(Attempt(s, i), a, n, j) { assert IsAdmitted(s, a, n, j); }
  }

  lemma {:induction false} StoreAll(limit: int, w: nat, a: Alert, n: nat, i: nat)
      returns (states: seq<State>, steps: seq<Step>)
    requires 0 < w && n < limit && i <= w
    ensures Run(limit, w, states, steps) && Stored(states[|steps|], w, a, n, i)
  {
    if i == 0 {
      states, steps := AdmitAll(limit, w, a, n, w);
    } else {
      states, steps := StoreAll(limit, w, a, n, i - 1);
      StoreOne(states[|steps|], w, a, n, i - 1);
      states, steps := OneStep(limit, w, states, steps, Try(i - 1));
    }
  }

  /** The bound is reached, for every limit and every number of workers: the groups are filled up
      to one below the limit, then every worker passes the check before any has stored its group. */
  lemma SoftLimitIsReached(limit: int, w: nat, a: Alert) returns (states: seq<State>, steps: seq<Step>)
    requires 0 < limit && 0 < w
    ensures Run(limit, w, states, steps) && |states[|steps|].slots| == limit + w - 1
  {
    states, steps := StoreAll(limit, w, a, limit - 1, w);
    KeysExactly(limit - 1 + w);
    var s := states[|steps|];
    assert |s.slots| == |s.slots.Keys|;
  }

  ghost predicate NeverExceeds(limit: int, w: nat, most: int) {
    forall states: seq<State>, steps: seq<Step>, n: nat ::
      Run(limit, w, states, steps) && 0 <= n <= |steps| ==> |states[n].slots| <= most
  }

  /** The least bound on the number of groups is the limit plus the workers minus one. */
  lemma BoundIsTight(limit: int, w: nat, most: int)
    requires 0 < limit && 0 < w
    ensures NeverExceeds(limit, w, most) <==> limit + w - 1 <= most
  {
    if limit + w - 1 <= most {
      forall states: seq<State>, steps: seq<Step>, n: nat | Run(limit, w, states, steps) && 0 <= n <= |steps|
        ensures |states[n].slots| <= most
      {
        SoftLimit(limit, w, states, steps, n);
      }
    } else {
      var states, steps := SoftLimitIsReached(limit, w, Alert(0, 0, 0));
      assert Run(limit, w, states, steps) && |states[|steps|].slots| > most;
    }
  }

  /** The limit itself is never exceeded if and only if there is one worker. */
  lemma LimitHoldsIffOneWorker(limit: int, w: nat)
    requires 0 < limit && 0 < w
    ensures NeverExceeds(limit, w, limit) <==> w == 1
  {
    BoundIsTight(limit, w, limit);
  }
}
