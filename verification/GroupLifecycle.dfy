/** What a whole call does to the groups when nothing comes in between: adding an alert, a flush
    that ends, and the maintenance of a group. */
module GroupLifecycle {
  import opened AlertStore
  import opened Basics
  import opened Dispatcher
  import opened NoAlertLost

  /** The steps can be taken one after the other, and lead to s'. */
  predicate Leads(limit: int, s: State, steps: seq<Step>, s': State)
    decreases steps
  {
    if steps == [] then s == s'
    else Enabled(s, steps[0]) && Leads(limit, Next(limit, s, steps[0]), steps[1..], s')
  }

  lemma {:induction false} LeadsOn(limit: int, s: State, first: seq<Step>, s1: State, second: seq<Step>, s2: State)
    requires Leads(limit, s, first, s1) && Leads(limit, s1, second, s2)
    ensures Leads(limit, s, first + second, s2)
    decreases first
  {
    if first == [] {
      assert first + second == second;
    } else {
      LeadsOn(limit, Next(limit, s, first[0]), first[1..], s1, second, s2);
      assert (first + second)[1..] == first[1..] + second;
    }
  }

  lemma LeadsOne(limit: int, s: State, step: Step)
    requires Enabled(s, step)
    ensures Leads(limit, s, [step], Next(limit, s, step))
  {
    assert [step][1..] == [];
  }

  lemma LeadsTwo(limit: int, s: State, step: Step, step': Step)
    requires Enabled(s, step) && Enabled(Next(limit, s, step), step')
    ensures Leads(limit, s, [step, step'], Next(limit, Next(limit, s, step), step'))
  {
    LeadsOne(limit, Next(limit, s, step), step');
    assert [step, step'][1..] == [step'];
  }

  // ---------------------------------------------------------------- adding an alert

  predicate IsIdle(s: State, w: nat) { w < |s.workers| && s.workers[w] == Idle }

  /** No room for another group. */
  predicate IsFull(limit: int, s: State) { 0 < limit && limit <= s.counter }

  /** An alert for a live group goes into it, whatever the limit; nothing else changes. */
  lemma AlertJoinsGroup(limit: int, s: State, w: nat, k: Key, a: Alert) returns (s': State)
    requires Structure(s) && IsIdle(s, w) && k in s.slots && !s.groups[s.slots[k]].destroyed
    ensures Leads(limit, s, [Begin(w, k, a), Insert(w)], s')
    ensures s' == s.(groups := s'.groups) && |s'.groups| == |s.groups|
    ensures forall g :: 0 <= g < |s.groups| && g != s.slots[k] ==> s'.groups[g] == s.groups[g]
    ensures s'.groups[s.slots[k]] == s.groups[s.slots[k]].(alerts := s.groups[s.slots[k]].alerts[a.fp := a])
  {
    LeadsTwo(limit, s, Begin(w, k, a), Insert(w));
    s' := Next(limit, Next(limit, s, Begin(w, k, a)), Insert(w));
    assert s'.workers == s.workers;
  }

  /** The call looks for a group: there is none, */
  lemma NoneFound(limit: int, s: State, w: nat, k: Key, a: Alert)
    requires Structure(s) && IsIdle(s, w) && k !in s.slots
    ensures var s' := Move(s, w, Checking(k, a, None));
      Leads(limit, s, [Begin(w, k, a)], s') && Structure(s')
  {
    LeadsOne(limit, s, Begin(w, k, a));
    MoveOk(s, w, Checking(k, a, None));
  }

  /** or it is destroyed. */
  lemma DestroyedFound(limit: int, s: State, w: nat, k: Key, a: Alert)
    requires Structure(s) && IsIdle(s, w) && k in s.slots && s.groups[s.slots[k]].destroyed
    ensures var s' := Move(s, w, Checking(k, a, Some(s.slots[k])));
      Leads(limit, s, [Begin(w, k, a), Insert(w)], s') && Structure(s')
  {
    LeadsTwo(limit, s, Begin(w, k, a), Insert(w));
    assert Next(limit, Next(limit, s, Begin(w, k, a)), Insert(w)) == Move(s, w, Checking(k, a, Some(s.slots[k])));
    MoveOk(s, w, Checking(k, a, Some(s.slots[k])));
  }

  /** The steps with which a call gets to the limit. */
  function Asking(s: State, w: nat, k: Key, a: Alert): seq<Step> {
    if k in s.slots then [Begin(w, k, a), Insert(w)] else [Begin(w, k, a)]
  }

  /** Without a live group for its key an alert is refused when there is no room, and nothing changes. */
  lemma AlertIsRefused(limit: int, s: State, w: nat, k: Key, a: Alert)
    requires Structure(s) && IsIdle(s, w) && IsFull(limit, s) && (k in s.slots ==> s.groups[s.slots[k]].destroyed)
    ensures Leads(limit, s, Asking(s, w, k, a) + [Check(w)], s)
  {
    if k in s.slots { DestroyedFound(limit, s, w, k, a); } else { NoneFound(limit, s, w, k, a); }
    var s1 := Move(s, w, Checking(k, a, if k in s.slots then Some(s.slots[k]) else None));
    LeadsOne(limit, s1, Check(w));
    assert Next(limit, s1, Check(w)) == s;
    LeadsOn(limit, s, Asking(s, w, k, a), s1, [Check(w)], s);
  }

  /** A new group with one alert, started if the dispatcher is. */
  function Fresh(k: Key, a: Alert, started: bool): Group {
    Group(k, map[a.fp := a], false, true, started, if started then 1 else 0, None)
  }

  /** The state with a new group mapped at k. */
  predicate HasNewGroup(s: State, s': State, k: Key, a: Alert) {
    && s'.groups == s.groups + [Fresh(k, a, s.sweep.Some?)] && s'.slots == s.slots[k := |s.groups|]
    && s'.workers == s.workers && s'.maintenance == s.maintenance && s'.sweep == Shown(s.sweep, |s.groups|)
  }

  /** A sweep in progress may come across the group. */
  function Shown(sweep: Option<Sweep>, g: Gid): Option<Sweep> {
    if sweep.None? then None else Some(Sweep(sweep.value.todo, sweep.value.seen + {g}))
  }

  /** What is left to do once a worker has put its group into the map: start it if the dispatcher is
      running. */
  function Start(s: State, w: nat): seq<Step> {
    if s.sweep.Some? then [LookAtState(w), Launch(w)] else [LookAtState(w)]
  }

  lemma StartLeads(limit: int, s: State, w: nat, k: Key, a: Alert, g: Gid) returns (s': State)
    requires w < |s.workers| && s.workers[w] == Starting(k, a, g) && g < |s.groups| && !s.groups[g].running
    ensures Leads(limit, s, Start(s, w), s')
    ensures s' == s.(groups := s'.groups, workers := s.workers[w := Idle])
    ensures s'.groups == if s.sweep.None? then s.groups
                         else s.groups[g := s.groups[g].(running := true, launches := s.groups[g].launches + 1)]
  {
    if s.sweep.Some? {
      LeadsTwo(limit, s, LookAtState(w), Launch(w));
      s' := Next(limit, Next(limit, s, LookAtState(w)), Launch(w));
    } else {
      LeadsOne(limit, s, LookAtState(w));
      s' := Next(limit, s, LookAtState(w));
    }
  }

  /** The own group of the worker is put in, in place of `stale` or where there is none. */
  lemma TryLeads(limit: int, s: State, w: nat, k: Key, a: Alert, stale: Option<Gid>) returns (s': State)
    requires Structure(s) && w < |s.workers| && s.workers[w] == Checking(k, a, stale) && !IsFull(limit, s)
    requires if stale.Some? then k in s.slots && s.slots[k] == stale.value else k !in s.slots
    ensures Leads(limit, s, [Check(w), Try(w)], s')
    ensures s' == s.(groups := s.groups + [Fresh(k, a, false)], slots := s.slots[k := |s.groups|],
                     sweep := Shown(s.sweep, |s.groups|), workers := s'.workers)
    ensures s'.workers == s.workers[w := if stale.Some? then Starting(k, a, |s.groups|) else Counting(k, a, |s.groups|)]
  {
    LeadsTwo(limit, s, Check(w), Try(w));
    s' := Next(limit, Next(limit, s, Check(w)), Try(w));
    assert s'.groups == s.groups + [Fresh(k, a, false)];
  }

  /** The steps of a call for a key without a group, and for one whose group is destroyed. */
  function Creating(s: State, w: nat, k: Key, a: Alert): seq<Step> {
    [Begin(w, k, a)] + ([Check(w), Try(w)] + ([Count(w)] + Start(s, w)))
  }

  function Replacing(s: State, w: nat, k: Key, a: Alert): seq<Step> {
    [Begin(w, k, a), Insert(w)] + ([Check(w), Try(w)] + Start(s, w))
  }

  lemma CountLeads(limit: int, s: State, w: nat, k: Key, a: Alert, g: Gid) returns (s': State)
    requires w < |s.workers| && s.workers[w] == Counting(k, a, g) && g < |s.groups| && !s.groups[g].running
    ensures Leads(limit, s, [Count(w)] + Start(s, w), s')
    ensures s' == s.(groups := s'.groups, counter := s.counter + 1, workers := s.workers[w := Idle])
    ensures s'.groups == if s.sweep.None? then s.groups
                         else s.groups[g := s.groups[g].(running := true, launches := s.groups[g].launches + 1)]
  {
    LeadsOne(limit, s, Count(w));
    var s1 := Next(limit, s, Count(w));
    s' := StartLeads(limit, s1, w, k, a, g);
    LeadsOn(limit, s, [Count(w)], s1, Start(s, w), s');
  }

  /** Where there is room, an alert for a key without a group makes one, which is counted. */
  lemma AlertCreatesGroup(limit: int, s: State, w: nat, k: Key, a: Alert) returns (s': State)
    requires Structure(s) && IsIdle(s, w) && k !in s.slots && !IsFull(limit, s)
    ensures Leads(limit, s, Creating(s, w, k, a), s')
    ensures HasNewGroup(s, s', k, a) && s'.counter == s.counter + 1
  {
    NoneFound(limit, s, w, k, a);
    var s1 := Move(s, w, Checking(k, a, None));
    var s2 := TryLeads(limit, s1, w, k, a, None);
    s' := CountLeads(limit, s2, w, k, a, |s.groups|);
    var rest := [Count(w)] + Start(s, w);
    LeadsOn(limit, s1, [Check(w), Try(w)], s2, rest, s');
    LeadsOn(limit, s, [Begin(w, k, a)], s1, [Check(w), Try(w)] + rest, s');
    assert s'.workers == s.workers;
  }

  /** An alert for a key whose group is destroyed makes a new one in its place, and the count
      stays. */
  lemma AlertReplacesGroup(limit: int, s: State, w: nat, k: Key, a: Alert) returns (s': State)
    requires Structure(s) && IsIdle(s, w) && k in s.slots && s.groups[s.slots[k]].destroyed && !IsFull(limit, s)
    ensures Leads(limit, s, Replacing(s, w, k, a), s')
    ensures HasNewGroup(s, s', k, a) && s'.counter == s.counter
  {
    DestroyedFound(limit, s, w, k, a);
    var s1 := Move(s, w, Checking(k, a, Some(s.slots[k])));
    var s2 := TryLeads(limit, s1, w, k, a, Some(s.slots[k]));
    s' := StartLeads(limit, s2, w, k, a, |s.groups|);
    LeadsOn(limit, s1, [Check(w), Try(w)], s2, Start(s, w), s');
    LeadsOn(limit, s, [Begin(w, k, a), Insert(w)], s1, [Check(w), Try(w)] + Start(s, w), s');
    assert s'.workers == s.workers;
  }

  /** The group the worker wants to replace is no longer mapped. */
  predicate FindsOther(s: State, pc: Pc)
    requires pc.Trying?
  {
    pc.stale.Some? && !IsMapped(s.slots, pc.k, pc.stale.value)
  }

  /** An attempt that fails is made again, up to a hundred times; then the alert is given up. */
  lemma AttemptFails(limit: int, s: State, step: Step)
    requires Structure(s) && Enabled(s, step)
    requires || (step.Try? && FindsOther(s, s.workers[step.w]))
             || (step.InsertFound? && s.groups[s.workers[step.w].g].destroyed)
    ensures var pc, s' := s.workers[step.w], Next(limit, s, step);
      && s' == s.(workers := s.workers[step.w := s'.workers[step.w]])
      && if pc.retries >= 100 then s'.workers[step.w] == Idle
         else s'.workers[step.w] == Trying(pc.k, pc.a, if step.Try? then None else Some(pc.g), pc.own, pc.retries + 1)
  {
  }

  // ---------------------------------------------------------------- flush and maintenance

  /** A flush that notified destroys its group if and only if it saw all its alerts resolved, and
      changes nothing but its group. */
  lemma FlushDestroysIff(limit: int, s: State, g: Gid, notified: bool)
    requires Structure(s) && Enabled(s, EndFlush(g, notified)) && !s.groups[g].destroyed
    ensures var s' := Next(limit, s, EndFlush(g, notified));
      && s' == s.(groups := s.groups[g := s'.groups[g]]) && s'.groups[g].flush.None?
      && (s'.groups[g].destroyed <==>
            notified && forall fp :: fp in s.groups[g].alerts ==> SawResolved(s.groups[g], fp))
  {
    var gr := s.groups[g];
    assert GroupOk(gr);
    forall fp | fp in gr.alerts
      ensures fp !in Flushed(gr, notified).alerts <==> notified && SawResolved(gr, fp)
    {
      FlushRemovesExactly(gr, notified, fp);
    }
    RemainingShrinks(gr.alerts, Resolved(gr.flush.value));
    if Flushed(gr, notified).alerts != map[] {
      var fp :| fp in Flushed(gr, notified).alerts;
      assert fp in gr.alerts;
    }
  }

  const COLLECT: Gid -> seq<Step> := (g: Gid) => [LookAtGroup(g), Delete] + [Discount]

  /** Maintenance of a destroyed group that is still mapped takes it out of the map and counts it
      off, and changes nothing else. */
  lemma MaintenanceCollects(limit: int, s: State, g: Gid, k: Key) returns (s': State)
    requires Structure(s) && s.maintenance.Resting? && k in s.slots && s.slots[k] == g && s.groups[g].destroyed
    ensures Leads(limit, s, COLLECT(g), s')
    ensures s'.slots == s.slots - {k} && s'.counter == s.counter - 1
    ensures s' == s.(slots := s'.slots, counter := s'.counter, sweep := s'.sweep)
    ensures s'.sweep.Some? <==> s.sweep.Some?
    ensures s.sweep.Some? ==> s'.sweep.value == Sweep(s.sweep.value.todo - {k}, s.sweep.value.seen)
  {
    LeadsTwo(limit, s, LookAtGroup(g), Delete);
    var s2 := Next(limit, Next(limit, s, LookAtGroup(g)), Delete);
    LeadsOne(limit, s2, Discount);
    s' := Next(limit, s2, Discount);
    LeadsOn(limit, s, [LookAtGroup(g), Delete], s2, [Discount], s');
  }

  /** It leaves a live group alone, and a group that took the place of a destroyed one meanwhile. */
  lemma MaintenanceLeaves(limit: int, s: State, g: Gid)
    ensures Enabled(s, LookAtGroup(g)) && !s.groups[g].destroyed ==> Next(limit, s, LookAtGroup(g)) == s
    ensures Enabled(s, Delete) && !IsMapped(s.slots, s.groups[s.maintenance.g].key, s.maintenance.g) ==>
      Next(limit, s, Delete) == s.(maintenance := Resting)
  {
  }

  /** A key that is refused because the limit is reached is accepted once a destroyed group has been
      collected. */
  lemma RoomAgain(limit: int, s: State, g: Gid, k: Key, w: nat, k': Key, a: Alert) returns (s': State)
    requires Structure(s) && s.maintenance.Resting? && k in s.slots && s.slots[k] == g && s.groups[g].destroyed
    requires 0 < limit == s.counter && IsIdle(s, w) && k' !in s.slots
    ensures Leads(limit, s, [Begin(w, k', a)] + [Check(w)], s)
    ensures Leads(limit, s, COLLECT(g) + Creating(s, w, k', a), s')
    ensures s'.slots == (s.slots - {k})[k' := |s.groups|] && s'.counter == s.counter
    ensures s'.groups == s.groups + [Fresh(k', a, s.sweep.Some?)] && s'.workers == s.workers
  {
    AlertIsRefused(limit, s, w, k', a);
    var s1 := MaintenanceCollects(limit, s, g, k);
    StepsKeepStructure(limit, s, COLLECT(g), s1);
    s' := AlertCreatesGroup(limit, s1, w, k', a);
    LeadsOn(limit, s, COLLECT(g), s1, Creating(s, w, k', a), s');
  }

  lemma {:induction false} StepsKeepStructure(limit: int, s: State, steps: seq<Step>, s': State)
    requires Structure(s) && Leads(limit, s, steps, s')
    ensures Structure(s')
    decreases steps
  {
    if steps != [] {
      StepOk(limit, s, steps[0]);
      StepsKeepStructure(limit, Next(limit, s, steps[0]), steps[1..], s');
    }
  }

  // ---------------------------------------------------------------- a run

  lemma {:induction false} RunLeads(
      limit: int, w: nat, states: seq<State>, steps: seq<Step>, more: seq<Step>, s': State)
      returns (states': seq<State>)
    requires Run(limit, w, states, steps) && Leads(limit, states[|steps|], more, s')
    ensures Run(limit, w, states', steps + more) && states'[|steps + more|] == s' && states <= states'
    decreases more
  {
    if more == [] {
      states' := states;
      assert steps + more == steps;
    } else {
      var next := Next(limit, states[|steps|], more[0]);
      Extend(limit, w, states, steps, more[0], next);
      states' := RunLeads(limit, w, states + [next], steps + [more[0]], more[1..], s');
      assert steps + [more[0]] + more[1..] == steps + more;
    }
  }

  /** The only group allowed has been emptied by a flush, but is not collected yet. */
  predicate IsSpent(s: State, k: Key) {
    && |s.groups| == 1 && s.groups[0].destroyed && s.slots == map[k := 0] && s.counter == 1
    && s.workers == [Idle] && s.maintenance == Resting && s.sweep.Some?
  }

  lemma Emptied(s: State, k: Key, a: Alert, now: Time) returns (s': State)
    requires Structure(s) && s.groups == [Fresh(k, a, true)] && ResolvedAt(a, now)
    ensures Leads(1, s, [StartFlush(0, [a], now), EndFlush(0, true)], s')
    ensures s' == s.(groups := s'.groups) && |s'.groups| == 1 && s'.groups[0].destroyed
  {
    assert a.fp in s.groups[0].alerts;
    var s1 := Next(1, s, StartFlush(0, [a], now));
    LeadsTwo(1, s, StartFlush(0, [a], now), EndFlush(0, true));
    s' := Next(1, s1, EndFlush(0, true));
    StepOk(1, s, StartFlush(0, [a], now));
    assert a in s1.groups[0].flush.value.seen && SawResolved(s1.groups[0], a.fp);
    FlushDestroysIff(1, s1, 0, true);
  }

  lemma Spent(k: Key, a: Alert, now: Time) returns (states: seq<State>, steps: seq<Step>)
    requires ResolvedAt(a, now)
    ensures Run(1, 1, states, steps) && IsSpent(states[|steps|], k)
  {
    var s0 := Next(1, Init(1), StartSweep);
    Extend(1, 1, [Init(1)], [], StartSweep, s0);
    states, steps := [Init(1)] + [s0], [] + [StartSweep];
    RunOk(1, 1, states, steps, 1);
    assert s0.workers == [Idle] && s0.slots == map[];
    var s1 := AlertCreatesGroup(1, s0, 0, k, a);
    states := RunLeads(1, 1, states, steps, Creating(s0, 0, k, a), s1);
    steps := steps + Creating(s0, 0, k, a);
    assert s1.groups == [Fresh(k, a, true)] && s1.slots == map[k := 0];
    RunOk(1, 1, states, steps, |steps|);
    var s2 := Emptied(s1, k, a, now);
    states := RunLeads(1, 1, states, steps, [StartFlush(0, [a], now), EndFlush(0, true)], s2);
    steps := steps + [StartFlush(0, [a], now), EndFlush(0, true)];
  }

  /** Such a run, with a limit of one group: the group of the first key empties and is collected, and
      the second key, refused before, gets its group. */
  lemma SecondKeyGetsIn(k: Key, k': Key, a: Alert, b: Alert, now: Time)
      returns (states: seq<State>, steps: seq<Step>, n: nat)
    requires k != k' && ResolvedAt(a, now)
    ensures Run(1, 1, states, steps) && n + 2 <= |steps|
    ensures steps[n..n + 2] == [Begin(0, k', b), Check(0)] && states[n + 2] == states[n] && k' !in states[n].slots
    ensures states[|steps|].slots == map[k' := 1]
    ensures |states[|steps|].groups| == 2 && states[|steps|].groups[1].alerts == map[b.fp := b]
  {
    states, steps := Spent(k, a, now);
    n := |steps|;
    var s := states[n];
    RunOk(1, 1, states, steps, n);
    var s' := SpentMakesRoom(s, k, k', b);
    states, steps := AskThen(states, steps, [Begin(0, k', b)] + [Check(0)], COLLECT(0) + Creating(s, 0, k', b), s');
  }

  lemma SpentMakesRoom(s: State, k: Key, k': Key, b: Alert) returns (s': State)
    requires Structure(s) && IsSpent(s, k) && k != k'
    ensures k' !in s.slots && Leads(1, s, [Begin(0, k', b)] + [Check(0)], s)
    ensures Leads(1, s, COLLECT(0) + Creating(s, 0, k', b), s')
    ensures s'.slots == map[k' := 1] && |s'.groups| == 2 && s'.groups[1].alerts == map[b.fp := b]
  {
    s' := RoomAgain(1, s, 0, k, 0, k', b);
  }

  /** Two continuations of a run, the first of which changes nothing. */
  lemma AskThen(states: seq<State>, steps: seq<Step>, ask: seq<Step>, more: seq<Step>, s': State)
      returns (states': seq<State>, steps': seq<Step>)
    requires Run(1, 1, states, steps) && Leads(1, states[|steps|], ask, states[|steps|])
    requires Leads(1, states[|steps|], more, s')
    ensures Run(1, 1, states', steps') && |steps'| == |steps| + |ask| + |more|
    ensures steps'[|steps|..|steps| + |ask|] == ask && states'[|steps|] == states'[|steps| + |ask|] == states[|steps|]
    ensures states'[|steps'|] == s'
  {
    var both := RunLeads(1, 1, states, steps, ask, states[|steps|]);
    states' := RunLeads(1, 1, both, steps + ask, more, s');
    steps' := steps + ask + more;
  }
}
