/** The dispatcher's aggregation groups as a state machine: ingest workers, group flushes,
    the maintenance loop and the start sweep interleave on a concurrent map of groups, one
    atomic map, counter or store operation at a time. */
module Dispatcher {
  import opened Basics
  import opened AlertStore

  /** A route and the fingerprint of the group labels. */
  type Key = (nat, nat)

  /** The identity of a group: its position in order of creation. */
  type Gid = nat

  /** A snapshot a flush took of the store, and the time it goes by. */
  datatype Flush = Flush(seen: seq<Alert>, now: Time)

  /** `published` records that the group was put into the map, `launches` how often its run
      loop was started. */
  datatype Group = Group(
    key: Key, alerts: AlertMap, destroyed: bool, published: bool, running: bool, launches: nat, flush: Option<Flush>)

  /** Where an ingest worker stands in adding alert a to the group at key k. */
  datatype Pc =
    | Idle
    | Inserting(k: Key, a: Alert, g: Gid)
    | Checking(k: Key, a: Alert, stale: Option<Gid>)
    | Trying(k: Key, a: Alert, stale: Option<Gid>, own: Gid, retries: nat)
    | Found(k: Key, a: Alert, g: Gid, own: Gid, retries: nat)
    | Counting(k: Key, a: Alert, own: Gid)
    | Starting(k: Key, a: Alert, own: Gid)
    | Launching(k: Key, a: Alert, own: Gid)

  datatype Maintenance = Resting | Deleting(g: Gid) | Discounting

  /** The start sweep: the keys it still has to visit because they were mapped ever since it
      began, and every group that was mapped at some moment since then. */
  datatype Sweep = Sweep(todo: set<Key>, seen: set<Gid>)

  /** The dispatcher is waiting to start as long as `sweep` is None, then running. */
  datatype State = State(
    groups: seq<Group>, slots: map<Key, Gid>, counter: int, sweep: Option<Sweep>, workers: seq<Pc>,
    maintenance: Maintenance)

  datatype Step =
    | Begin(w: nat, k: Key, a: Alert)
    | Insert(w: nat)
    | Check(w: nat)
    | Try(w: nat)
    | InsertFound(w: nat)
    | Count(w: nat)
    | LookAtState(w: nat)
    | Launch(w: nat)
    | StartSweep
    | Visit(g: Gid)
    | StartFlush(g: Gid, seen: seq<Alert>, now: Time)
    | EndFlush(g: Gid, notified: bool)
    | LookAtGroup(g: Gid)
    | Delete
    | Discount

  const MAX_RETRIES := 100

  function Init(w: nat): State { State([], map[], 0, None, seq(w, i => Idle), Resting) }

  /** Whether a step can be taken; everything a thread reads it reads in the step itself. */
  predicate Enabled(s: State, step: Step) {
    match step
    case Begin(w, _, _) => w < |s.workers| && s.workers[w].Idle?
    case Insert(w) => w < |s.workers| && s.workers[w].Inserting? && s.workers[w].g < |s.groups|
    case Check(w) => w < |s.workers| && s.workers[w].Checking?
    case Try(w) => w < |s.workers| && s.workers[w].Trying? && s.workers[w].own < |s.groups|
    case InsertFound(w) => w < |s.workers| && s.workers[w].Found? && s.workers[w].g < |s.groups|
    case Count(w) => w < |s.workers| && s.workers[w].Counting?
    case LookAtState(w) => w < |s.workers| && s.workers[w].Starting?
    case Launch(w) => w < |s.workers| && s.workers[w].Launching? && s.workers[w].own < |s.groups|
    case StartSweep => s.sweep.None?
    case Visit(g) => s.sweep.Some? && g in s.sweep.value.seen && g < |s.groups|
    case StartFlush(g, seen, _) =>
      && g < |s.groups| && s.groups[g].running && s.groups[g].flush.None? && s.groups[g].alerts != map[]
      && (forall a :: a in seen ==> a.fp in s.groups[g].alerts && s.groups[g].alerts[a.fp] == a)
      && (forall fp :: fp in s.groups[g].alerts ==> s.groups[g].alerts[fp] in seen)
    case EndFlush(g, _) => g < |s.groups| && s.groups[g].flush.Some?
    case LookAtGroup(g) => s.maintenance.Resting? && g < |s.groups| && s.groups[g].published
    case Delete => s.maintenance.Deleting? && s.maintenance.g < |s.groups|
    case Discount => s.maintenance.Discounting?
  }

  // ---------------------------------------------------------------- what a step does

  function Move(s: State, w: nat, pc: Pc): State
    requires w < |s.workers|
  {
    s.(workers := s.workers[w := pc])
  }

  function Put(s: State, g: Gid, gr: Group): State
    requires g < |s.groups|
  {
    s.(groups := s.groups[g := gr])
  }

  function Inserted(gr: Group, a: Alert): Group {
    if gr.destroyed then gr else gr.(alerts := gr.alerts[a.fp := a])
  }

  /** Starting the run loop, once. */
  function Launched(gr: Group): Group {
    if gr.running then gr else gr.(running := true, launches := gr.launches + 1)
  }

  function NewGroup(k: Key, a: Alert): Group { Group(k, map[a.fp := a], false, false, false, 0, None) }

  /** Group own takes over key k; a key the sweep has to visit stays one. */
  function Publish(s: State, k: Key, own: Gid): State
    requires own < |s.groups|
  {
    s.(groups := s.groups[own := s.groups[own].(published := true)], slots := s.slots[k := own],
       sweep := if s.sweep.None? then None else Some(s.sweep.value.(seen := s.sweep.value.seen + {own})))
  }

  /** A key that is deleted is no longer one the sweep has to visit. */
  function Unmap(s: State, k: Key): State {
    s.(slots := s.slots - {k},
       sweep := if s.sweep.None? then None else Some(s.sweep.value.(todo := s.sweep.value.todo - {k})))
  }

  function Retry(pc: Pc): Pc
    requires pc.Trying? || pc.Found?
  {
    if pc.retries + 1 > MAX_RETRIES then Idle
    else if pc.Trying? then Trying(pc.k, pc.a, None, pc.own, pc.retries + 1)
    else Trying(pc.k, pc.a, Some(pc.g), pc.own, pc.retries + 1)
  }

  /** One attempt to get the worker's own group into the map: swap it for the group found
      destroyed, or store it where there is none. */
  function Attempt(s: State, w: nat): State
    requires Enabled(s, Try(w))
  {
    var pc := s.workers[w];
    if pc.stale.Some? then
      if pc.k in s.slots && s.slots[pc.k] == pc.stale.value
      then Move(Publish(s, pc.k, pc.own), w, Starting(pc.k, pc.a, pc.own))
      else Move(s, w, Retry(pc))
    else if pc.k in s.slots then Move(s, w, Found(pc.k, pc.a, s.slots[pc.k], pc.own, pc.retries))
    else Move(Publish(s, pc.k, pc.own), w, Counting(pc.k, pc.a, pc.own))
  }

  function Resolved(f: Flush): (r: seq<Alert>)
    ensures forall a :: a in r <==> a in f.seen && ResolvedAt(a, f.now)
  {
    Those(f.seen, f.now)
  }

  function Those(seen: seq<Alert>, now: Time): (r: seq<Alert>)
    ensures forall a :: a in r <==> a in seen && ResolvedAt(a, now)
  {
    if seen == [] then []
    else (if ResolvedAt(seen[0], now) then [seen[0]] else []) + Those(seen[1..], now)
  }

  /** The end of a flush: after a successful notification the resolved alerts it saw go,
      unless modified since, and an empty group is destroyed. */
  function Flushed(gr: Group, notified: bool): Group
    requires gr.flush.Some?
  {
    if notified then
      var left := Remaining(gr.alerts, Resolved(gr.flush.value));
      gr.(alerts := left, destroyed := gr.destroyed || left == map[], flush := None)
    else gr.(flush := None)
  }

  /** `limit` is the maximum number of groups, none if not positive. */
  function Next(limit: int, s: State, step: Step): State
    requires Enabled(s, step)
  {
    match step
    case Begin(w, k, a) => Move(s, w, if k in s.slots then Inserting(k, a, s.slots[k]) else Checking(k, a, None))
    case Insert(w) =>
      var pc := s.workers[w];
      var gr := s.groups[pc.g];
      Move(Put(s, pc.g, Inserted(gr, pc.a)), w, if gr.destroyed then Checking(pc.k, pc.a, Some(pc.g)) else Idle)
    case Check(w) =>
      var pc := s.workers[w];
      if 0 < limit <= s.counter then Move(s, w, Idle)
      else Move(s.(groups := s.groups + [NewGroup(pc.k, pc.a)]), w, Trying(pc.k, pc.a, pc.stale, |s.groups|, 0))
    case Try(w) => Attempt(s, w)
    case InsertFound(w) =>
      var pc := s.workers[w];
      var gr := s.groups[pc.g];
      Move(Put(s, pc.g, Inserted(gr, pc.a)), w, if gr.destroyed then Retry(pc) else Idle)
    case Count(w) =>
      var pc := s.workers[w];
      Move(s.(counter := s.counter + 1), w, Starting(pc.k, pc.a, pc.own))
    case LookAtState(w) =>
      var pc := s.workers[w];
      Move(s, w, if s.sweep.None? then Idle else Launching(pc.k, pc.a, pc.own))
    case Launch(w) =>
      var g := s.workers[w].own;
      Move(Put(s, g, Launched(s.groups[g])), w, Idle)
    case StartSweep => s.(sweep := Some(Sweep(s.slots.Keys, s.slots.Values)))
    case Visit(g) =>
      var gr := s.groups[g];
      Put(s, g, Launched(gr)).(sweep := Some(s.sweep.value.(todo := s.sweep.value.todo - {gr.key})))
    case StartFlush(g, seen, now) => Put(s, g, s.groups[g].(flush := Some(Flush(seen, now))))
    case EndFlush(g, notified) => Put(s, g, Flushed(s.groups[g], notified))
    case LookAtGroup(g) => if s.groups[g].destroyed then s.(maintenance := Deleting(g)) else s
    case Delete =>
      var g := s.maintenance.g;
      var k := s.groups[g].key;
      if k in s.slots && s.slots[k] == g
      then Unmap(s, k).(maintenance := Discounting)
      else s.(maintenance := Resting)
    case Discount => s.(counter := s.counter - 1, maintenance := Resting)
  }

  // ---------------------------------------------------------------- the structural invariant

  predicate GroupOk(gr: Group) {
    && (gr.destroyed ==> gr.alerts == map[] && gr.running)
    && (gr.running ==> gr.published)
    && (gr.flush.Some? ==> gr.running)
    && gr.launches == (if gr.running then 1 else 0)
    && (forall fp :: fp in gr.alerts ==> gr.alerts[fp].fp == fp)
  }

  predicate IsPublished(groups: seq<Group>, g: Gid, k: Key) {
    g < |groups| && groups[g].key == k && groups[g].published
  }

  predicate IsMapped(slots: map<Key, Gid>, k: Key, g: Gid) { k in slots && slots[k] == g }

  /** A group leaves the map only destroyed. */
  predicate SlotsOk(groups: seq<Group>, slots: map<Key, Gid>) {
    && (forall k :: k in slots ==> IsPublished(groups, slots[k], k))
    && (forall g :: 0 <= g < |groups| && groups[g].published ==>
          groups[g].destroyed || IsMapped(slots, groups[g].key, g))
  }

  predicate IsGone(groups: seq<Group>, stale: Option<Gid>, k: Key) {
    stale.Some? ==> IsPublished(groups, stale.value, k) && groups[stale.value].destroyed
  }

  /** A worker's own group before it is published. */
  predicate IsOwn(groups: seq<Group>, g: Gid, k: Key, a: Alert) {
    g < |groups| && groups[g] == NewGroup(k, a)
  }

  predicate PcOk(groups: seq<Group>, pc: Pc) {
    match pc
    case Idle => true
    case Inserting(k, _, g) => IsPublished(groups, g, k)
    case Checking(k, _, stale) => IsGone(groups, stale, k)
    case Trying(k, a, stale, own, _) => IsGone(groups, stale, k) && IsOwn(groups, own, k, a)
    case Found(k, a, g, own, _) => IsPublished(groups, g, k) && IsOwn(groups, own, k, a)
    case Counting(k, _, own) => IsPublished(groups, own, k)
    case Starting(k, _, own) => IsPublished(groups, own, k)
    case Launching(k, _, own) => IsPublished(groups, own, k)
  }

  function OwnOf(pc: Pc): Option<Gid> {
    if pc.Trying? || pc.Found? then Some(pc.own) else None
  }

  predicate OwnersDistinct(workers: seq<Pc>) {
    forall i, j :: 0 <= i < j < |workers| && OwnOf(workers[i]).Some? ==> OwnOf(workers[i]) != OwnOf(workers[j])
  }

  predicate MaintenanceOk(groups: seq<Group>, m: Maintenance) {
    m.Deleting? ==> m.g < |groups| && groups[m.g].published && groups[m.g].destroyed
  }

  predicate GroupsOk(groups: seq<Group>) { forall g :: 0 <= g < |groups| ==> GroupOk(groups[g]) }

  predicate WorkersOk(groups: seq<Group>, workers: seq<Pc>) {
    forall i :: 0 <= i < |workers| ==> PcOk(groups, workers[i])
  }

  predicate SeenOk(groups: seq<Group>, sweep: Option<Sweep>) {
    sweep.Some? ==> forall g :: g in sweep.value.seen ==> g < |groups| && groups[g].published
  }

  predicate Structure(s: State) {
    && GroupsOk(s.groups) && SlotsOk(s.groups, s.slots)
    && WorkersOk(s.groups, s.workers) && OwnersDistinct(s.workers) && MaintenanceOk(s.groups, s.maintenance)
    && SeenOk(s.groups, s.sweep)
  }

  /** How groups develop: nothing is unpublished or revived, and a group nobody published
      stays as it is, but for `except`. */
  predicate Develop(groups: seq<Group>, groups': seq<Group>, except: Option<Gid>) {
    && |groups| <= |groups'|
    && forall g :: 0 <= g < |groups| ==>
         && groups'[g].key == groups[g].key
         && (groups[g].published ==> groups'[g].published)
         && (groups[g].destroyed ==> groups'[g].destroyed)
         && (groups[g].published || Some(g) == except || groups'[g] == groups[g])
  }

  lemma WorkersStayOk(groups: seq<Group>, groups': seq<Group>, except: Option<Gid>, workers: seq<Pc>)
    requires WorkersOk(groups, workers) && Develop(groups, groups', except)
    requires forall i :: 0 <= i < |workers| && OwnOf(workers[i]).Some? ==> OwnOf(workers[i]) != except
    ensures WorkersOk(groups', workers)
  {
  }

  /** Changing one published group. */
  lemma PutOk(s: State, g: Gid, gr: Group)
    requires Structure(s) && g < |s.groups| && s.groups[g].published && GroupOk(gr)
    requires gr.key == s.groups[g].key && gr.published && (s.groups[g].destroyed ==> gr.destroyed)
    ensures Structure(Put(s, g, gr))
  {
    WorkersStayOk(s.groups, s.groups[g := gr], None, s.workers);
  }

  /** A worker moves on, keeping or dropping its own group. */
  lemma MoveOk(s: State, w: nat, pc: Pc)
    requires Structure(s) && w < |s.workers| && PcOk(s.groups, pc)
    requires OwnOf(pc).None? || OwnOf(pc) == OwnOf(s.workers[w])
             || forall i :: 0 <= i < |s.workers| && i != w ==> OwnOf(s.workers[i]) != OwnOf(pc)
    ensures Structure(Move(s, w, pc))
  {
  }

  /** A worker creates its own group. */
  lemma CreateOk(s: State, w: nat, k: Key, a: Alert, stale: Option<Gid>)
    requires Structure(s) && w < |s.workers| && IsGone(s.groups, stale, k)
    ensures Structure(Move(s.(groups := s.groups + [NewGroup(k, a)]), w, Trying(k, a, stale, |s.groups|, 0)))
  {
  }

  /** A worker puts its own group where there is none, or in place of a destroyed one. */
  lemma PublishOk(s: State, w: nat, pc: Pc)
    requires Structure(s) && w < |s.workers| && s.workers[w].Trying?
    requires s.workers[w].k in s.slots ==> s.groups[s.slots[s.workers[w].k]].destroyed
    requires pc == Counting(s.workers[w].k, s.workers[w].a, s.workers[w].own)
             || pc == Starting(s.workers[w].k, s.workers[w].a, s.workers[w].own)
    ensures PcOk(s.groups, s.workers[w])
    ensures Structure(Move(Publish(s, s.workers[w].k, s.workers[w].own), w, pc))
  {
    var k, own := s.workers[w].k, s.workers[w].own;
    assert PcOk(s.groups, s.workers[w]);
    MoveOk(s, w, Idle);
    var s1 := Move(s, w, Idle);
    forall i | 0 <= i < |s1.workers| ensures OwnOf(s1.workers[i]) != Some(own) {
      if i < w { assert OwnOf(s.workers[i]).Some? ==> OwnOf(s.workers[i]) != OwnOf(s.workers[w]); }
      if w < i { assert OwnOf(s.workers[w]) != OwnOf(s.workers[i]); }
    }
    var s2 := Publish(s1, k, own);
    WorkersStayOk(s1.groups, s2.groups, Some(own), s1.workers);
    PublishSlotsOk(s.groups, s.slots, k, own, s.workers[w].a);
    MoveOk(s2, w, pc);
    assert Move(s2, w, pc) == Move(Publish(s, k, own), w, pc);
  }

  lemma PublishSlotsOk(groups: seq<Group>, slots: map<Key, Gid>, k: Key, own: Gid, a: Alert)
    requires SlotsOk(groups, slots) && IsOwn(groups, own, k, a)
    requires k in slots ==> groups[slots[k]].destroyed
    ensures SlotsOk(groups[own := groups[own].(published := true)], slots[k := own])
  {
  }

  /** Deleting a destroyed group from the map. */
  lemma UnmapOk(s: State, k: Key)
    requires Structure(s) && k in s.slots && s.groups[s.slots[k]].destroyed
    ensures Structure(Unmap(s, k))
  {
  }

  lemma FlushedOk(gr: Group, notified: bool)
    requires GroupOk(gr) && gr.flush.Some?
    ensures GroupOk(Flushed(gr, notified))
  {
    var gone := Resolved(gr.flush.value);
    forall fp | fp in Remaining(gr.alerts, gone)
      ensures fp in gr.alerts && Remaining(gr.alerts, gone)[fp] == gr.alerts[fp]
    {
      RemainingShrinks(gr.alerts, gone);
      RemainingExactly(gr.alerts, gone, fp);
    }
    RemainingShrinks(gr.alerts, gone);
  }

  lemma AttemptOk(s: State, w: nat)
    requires Structure(s) && Enabled(s, Try(w))
    ensures Structure(Attempt(s, w))
  {
    var pc := s.workers[w];
    assert PcOk(s.groups, pc);
    if pc.stale.Some? {
      if IsMapped(s.slots, pc.k, pc.stale.value) {
        PublishOk(s, w, Starting(pc.k, pc.a, pc.own));
      } else {
        MoveOk(s, w, Retry(pc));
      }
    } else if pc.k in s.slots {
      MoveOk(s, w, Found(pc.k, pc.a, s.slots[pc.k], pc.own, pc.retries));
    } else {
      PublishOk(s, w, Counting(pc.k, pc.a, pc.own));
    }
  }

  /** A worker inserts into a published group and moves on accordingly. */
  lemma InsertOk(s: State, w: nat, g: Gid, pc: Pc)
    requires Structure(s) && w < |s.workers| && g < |s.groups| && s.groups[g].published
    requires s.workers[w].Inserting? || s.workers[w].Found?
    requires PcOk(s.groups, pc) && (OwnOf(pc).None? || OwnOf(pc) == OwnOf(s.workers[w]))
    ensures Structure(Move(Put(s, g, Inserted(s.groups[g], s.workers[w].a)), w, pc))
  {
    MoveOk(s, w, pc);
    PutOk(Move(s, w, pc), g, Inserted(s.groups[g], s.workers[w].a));
    assert Move(Put(s, g, Inserted(s.groups[g], s.workers[w].a)), w, pc)
        == Put(Move(s, w, pc), g, Inserted(s.groups[g], s.workers[w].a));
  }

  /** A worker's steps that leave the groups alone, but for starting one. */
  lemma MovingStepOk(limit: int, s: State, step: Step)
    requires Structure(s) && Enabled(s, step) && (step.Begin? || step.Count? || step.LookAtState? || step.Launch?)
    ensures Structure(Next(limit, s, step))
  {
    var pc := s.workers[step.w];
    assert PcOk(s.groups, pc);
    match step
    case Begin(w, k, a) => MoveOk(s, w, if k in s.slots then Inserting(k, a, s.slots[k]) else Checking(k, a, None));
    case Count(w) => MoveOk(s.(counter := s.counter + 1), w, Starting(pc.k, pc.a, pc.own));
    case LookAtState(w) => MoveOk(s, w, if s.sweep.None? then Idle else Launching(pc.k, pc.a, pc.own));
    case Launch(w) =>
      PutOk(s, pc.own, Launched(s.groups[pc.own]));
      MoveOk(Put(s, pc.own, Launched(s.groups[pc.own])), w, Idle);
  }

  /** A worker's steps that insert an alert or create a group. */
  lemma InsertingStepOk(limit: int, s: State, step: Step)
    requires Structure(s) && Enabled(s, step) && (step.Insert? || step.Check? || step.InsertFound?)
    ensures Structure(Next(limit, s, step))
  {
    var pc := s.workers[step.w];
    assert PcOk(s.groups, pc);
    match step
    case Insert(w) => InsertOk(s, w, pc.g, if s.groups[pc.g].destroyed then Checking(pc.k, pc.a, Some(pc.g)) else Idle);
    case Check(w) =>
      if 0 < limit <= s.counter { MoveOk(s, w, Idle); } else { CreateOk(s, w, pc.k, pc.a, pc.stale); }
    case InsertFound(w) => InsertOk(s, w, pc.g, if s.groups[pc.g].destroyed then Retry(pc) else Idle);
  }

  lemma OtherStepOk(limit: int, s: State, step: Step)
    requires Structure(s) && Enabled(s, step)
    requires step.StartSweep? || step.Visit? || step.StartFlush? || step.EndFlush?
             || step.LookAtGroup? || step.Delete? || step.Discount?
    ensures Structure(Next(limit, s, step))
  {
    match step
    case StartSweep =>
    case Visit(g) => PutOk(s, g, Launched(s.groups[g]));
    case StartFlush(g, seen, now) => PutOk(s, g, s.groups[g].(flush := Some(Flush(seen, now))));
    case EndFlush(g, notified) =>
      FlushedOk(s.groups[g], notified);
      PutOk(s, g, Flushed(s.groups[g], notified));
    case LookAtGroup(g) =>
    case Delete =>
      var k := s.groups[s.maintenance.g].key;
      if IsMapped(s.slots, k, s.maintenance.g) { UnmapOk(s, k); }
    case Discount =>
  }

  lemma StepOk(limit: int, s: State, step: Step)
    requires Structure(s) && Enabled(s, step)
    ensures Structure(Next(limit, s, step))
  {
    if step.Try? {
      AttemptOk(s, step.w);
    } else if step.StartSweep? || step.Visit? || step.StartFlush? || step.EndFlush?
           || step.LookAtGroup? || step.Delete? || step.Discount? {
      OtherStepOk(limit, s, step);
    } else if step.Insert? || step.Check? || step.InsertFound? {
      InsertingStepOk(limit, s, step);
    } else {
      MovingStepOk(limit, s, step);
    }
  }

  // ---------------------------------------------------------------- runs

  /** A run of the dispatcher with w ingest workers, as the states it passes through. */
  ghost predicate Run(limit: int, w: nat, states: seq<State>, steps: seq<Step>) {
    && |states| == |steps| + 1 && states[0] == Init(w)
    && forall n :: 0 <= n < |steps| ==>
         Enabled(states[n], steps[n]) && states[n + 1] == Next(limit, states[n], steps[n])
  }

  lemma Extend(limit: int, w: nat, states: seq<State>, steps: seq<Step>, step: Step, next: State)
    requires Run(limit, w, states, steps) && Enabled(states[|steps|], step)
    requires next == Next(limit, states[|steps|], step)
    ensures Run(limit, w, states + [next], steps + [step])
  {
  }

  lemma {:induction false} RunOk(limit: int, w: nat, states: seq<State>, steps: seq<Step>, n: nat)
    requires Run(limit, w, states, steps) && n <= |steps|
    ensures Structure(states[n]) && |states[n].workers| == w
  {
    if n > 0 {
      RunOk(limit, w, states, steps, n - 1);
      StepOk(limit, states[n - 1], steps[n - 1]);
    }
  }

  /** No group is ever started twice, only a started group is destroyed (so maintenance never
      waits for a run loop that was never launched), and a destroyed group is empty for good. */
  lemma NoGroupStartsTwice(limit: int, w: nat, states: seq<State>, steps: seq<Step>, n: nat, g: Gid)
    requires Run(limit, w, states, steps) && n <= |steps| && g < |states[n].groups|
    ensures states[n].groups[g].launches <= 1
    ensures states[n].groups[g].destroyed ==> states[n].groups[g].launches == 1 && states[n].groups[g].alerts == map[]
  {
    RunOk(limit, w, states, steps, n);
    assert GroupOk(states[n].groups[g]);
  }
}
