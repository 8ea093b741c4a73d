/** No alert the dispatcher accepts is lost before a flush has notified about it. */
module NoAlertLost {
  import opened Basics
  import opened AlertStore
  import opened Dispatcher

  /** Some version of the alert is in the live group mapped at its key. */
  predicate Held(s: State, k: Key, fp: Fingerprint) {
    && k in s.slots && s.slots[k] < |s.groups|
    && !s.groups[s.slots[k]].destroyed && fp in s.groups[s.slots[k]].alerts
  }

  /** The flush in progress saw the stored version of the alert, and saw it resolved. */
  predicate SawResolved(gr: Group, fp: Fingerprint)
    requires gr.flush.Some? && fp in gr.alerts
  {
    exists a ::
      && a in gr.flush.value.seen && a.fp == fp && a.updatedAt == gr.alerts[fp].updatedAt
      && ResolvedAt(a, gr.flush.value.now)
  }

  /** A flush of the mapped group, successfully notified, had seen this version resolved. */
  predicate NotifiedResolved(s: State, step: Step, k: Key, fp: Fingerprint)
    requires Held(s, k, fp)
  {
    && step == EndFlush(s.slots[k], true) && s.groups[s.slots[k]].flush.Some?
    && SawResolved(s.groups[s.slots[k]], fp)
  }

  /** What a flush leaves: an alert is missing exactly when the flush notified and had seen
      its stored version resolved. */
  lemma FlushRemovesExactly(gr: Group, notified: bool, fp: Fingerprint)
    requires GroupOk(gr) && gr.flush.Some? && fp in gr.alerts
    ensures fp !in Flushed(gr, notified).alerts <==> notified && SawResolved(gr, fp)
    ensures fp in Flushed(gr, notified).alerts ==> !Flushed(gr, notified).destroyed
    ensures fp in Flushed(gr, notified).alerts ==> Flushed(gr, notified).alerts[fp] == gr.alerts[fp]
  {
    RemainingExactly(gr.alerts, Resolved(gr.flush.value), fp);
  }

  lemma FlushKeepsHeld(limit: int, s: State, g: Gid, notified: bool, k: Key, fp: Fingerprint)
    requires Structure(s) && Enabled(s, EndFlush(g, notified)) && Held(s, k, fp)
    ensures !Held(Next(limit, s, EndFlush(g, notified)), k, fp) <==> NotifiedResolved(s, EndFlush(g, notified), k, fp)
  {
    if g == s.slots[k] {
      assert GroupOk(s.groups[g]);
      FlushRemovesExactly(s.groups[g], notified, fp);
    }
  }

  lemma AttemptKeepsHeld(s: State, w: nat, k: Key, fp: Fingerprint)
    requires Structure(s) && Enabled(s, Try(w)) && Held(s, k, fp)
    ensures Held(Attempt(s, w), k, fp)
  {
  }

  /** No step takes an alert away but such a flush, and such a flush does. */
  lemma HeldUntilNotified(limit: int, s: State, step: Step, k: Key, fp: Fingerprint)
    requires Structure(s) && Enabled(s, step) && Held(s, k, fp)
    ensures !Held(Next(limit, s, step), k, fp) <==> NotifiedResolved(s, step, k, fp)
  {
    if step.EndFlush? {
      FlushKeepsHeld(limit, s, step.g, step.notified, k, fp);
    } else if step.Try? {
      AttemptKeepsHeld(s, step.w, k, fp);
    }
  }

  // ---------------------------------------------------------------- accepting an alert

  /** The step that puts alert a into a live group for key k. */
  predicate Accepts(s: State, step: Step, k: Key, a: Alert)
    requires Enabled(s, step)
  {
    match step
    case Insert(w) => s.workers[w].k == k && s.workers[w].a == a && !s.groups[s.workers[w].g].destroyed
    case InsertFound(w) => s.workers[w].k == k && s.workers[w].a == a && !s.groups[s.workers[w].g].destroyed
    case Try(w) =>
      && s.workers[w].k == k && s.workers[w].a == a
      && (if s.workers[w].stale.Some? then IsMapped(s.slots, k, s.workers[w].stale.value) else k !in s.slots)
    case _ => false
  }

  /** The group it went into is live and mapped, and holds exactly this version. */
  lemma AcceptHolds(limit: int, s: State, step: Step, k: Key, a: Alert)
    requires Structure(s) && Enabled(s, step) && Accepts(s, step, k, a)
    ensures Held(Next(limit, s, step), k, a.fp)
    ensures var s' := Next(limit, s, step); s'.groups[s'.slots[k]].alerts[a.fp] == a
  {
  }

  /** The step with which the call for alert a at key k returns, not refused and not given up. */
  predicate Returns(s: State, step: Step, k: Key, a: Alert)
    requires Enabled(s, step)
  {
    match step
    case Insert(w) => Accepts(s, step, k, a)
    case InsertFound(w) => Accepts(s, step, k, a)
    case LookAtState(w) => s.workers[w].k == k && s.workers[w].a == a && s.sweep.None?
    case Launch(w) => s.workers[w].k == k && s.workers[w].a == a
    case _ => false
  }

  predicate HasPublished(pc: Pc) { pc.Counting? || pc.Starting? || pc.Launching? }

  lemma PublishedInStep(limit: int, s: State, step: Step, i: nat)
    requires Enabled(s, step) && i < |s.workers| && HasPublished(Next(limit, s, step).workers[i])
    ensures var pc := Next(limit, s, step).workers[i];
      (HasPublished(s.workers[i]) && s.workers[i].k == pc.k && s.workers[i].a == pc.a) || Accepts(s, step, pc.k, pc.a)
  {
  }

  /** A worker that has published its group for (k, a) accepted a at an earlier step. */
  lemma {:induction false} PublishedAccepted(limit: int, w: nat, states: seq<State>, steps: seq<Step>, n: nat, i: nat)
      returns (m: nat)
    requires Run(limit, w, states, steps) && n <= |steps|
    requires i < |states[n].workers| && HasPublished(states[n].workers[i])
    ensures m < n && Accepts(states[m], steps[m], states[n].workers[i].k, states[n].workers[i].a)
  {
    assert n > 0;
    PublishedInStep(limit, states[n - 1], steps[n - 1], i);
    m := n - 1;
    if !Accepts(states[m], steps[m], states[n].workers[i].k, states[n].workers[i].a) {
      m := PublishedAccepted(limit, w, states, steps, n - 1, i);
    }
  }

  /** Held at every later state, up to the first flush that notified its version resolved. */
  lemma {:induction false} HeldSince(
      limit: int, w: nat, states: seq<State>, steps: seq<Step>, m: nat, n: nat, k: Key, fp: Fingerprint)
    requires Run(limit, w, states, steps) && m <= n <= |steps| && Held(states[m], k, fp)
    ensures Held(states[n], k, fp)
            || exists j :: m <= j < n && Held(states[j], k, fp) && NotifiedResolved(states[j], steps[j], k, fp)
    decreases n - m
  {
    if m < n && !Held(states[n], k, fp) {
      RunOk(limit, w, states, steps, m);
      HeldUntilNotified(limit, states[m], steps[m], k, fp);
      if Held(states[m + 1], k, fp) { HeldSince(limit, w, states, steps, m + 1, n, k, fp); }
    }
  }

  /** If the call for alert a at key k returns at step n, then a was put into the live mapped
      group at some step m <= n; and in every later state of the run, whatever workers,
      flushes and maintenance do, some version of the alert is in the live mapped group, or a
      flush that had seen the stored version resolved has notified successfully. */
  lemma NothingIsLost(limit: int, w: nat, states: seq<State>, steps: seq<Step>, n: nat, k: Key, a: Alert, later: nat)
      returns (m: nat)
    requires Run(limit, w, states, steps) && n < |steps| && Returns(states[n], steps[n], k, a) && n < later <= |steps|
    ensures m <= n && Accepts(states[m], steps[m], k, a)
    ensures Held(states[m + 1], k, a.fp) && states[m + 1].groups[states[m + 1].slots[k]].alerts[a.fp] == a
    ensures Held(states[later], k, a.fp)
            || exists j :: m < j < later && Held(states[j], k, a.fp) && NotifiedResolved(states[j], steps[j], k, a.fp)
  {
    m := n;
    if !Accepts(states[n], steps[n], k, a) {
      m := PublishedAccepted(limit, w, states, steps, n, steps[n].w);
    }
    RunOk(limit, w, states, steps, m);
    AcceptHolds(limit, states[m], steps[m], k, a);
    HeldSince(limit, w, states, steps, m + 1, later, k, a.fp);
  }

  // ---------------------------------------------------------------- versions

  ghost predicate GroupHoldsOnly(gr: Group, known: iset<Alert>) {
    && (forall fp :: fp in gr.alerts ==> gr.alerts[fp] in known)
    && (gr.flush.Some? ==> forall a :: a in gr.flush.value.seen ==> a in known)
  }

  /** Every version a state holds, anywhere. */
  ghost predicate HoldsOnly(s: State, known: iset<Alert>) {
    && (forall g :: 0 <= g < |s.groups| ==> GroupHoldsOnly(s.groups[g], known))
    && (forall i :: 0 <= i < |s.workers| ==> s.workers[i].Idle? || s.workers[i].a in known)
  }

  predicate IsIngested(steps: seq<Step>, a: Alert) {
    exists n :: 0 <= n < |steps| && steps[n].Begin? && steps[n].a == a
  }

  ghost function Ingested(steps: seq<Step>): iset<Alert> { iset a | IsIngested(steps, a) }

  /** The update time tells the versions of an alert apart. */
  ghost predicate Identified(known: iset<Alert>) {
    forall a, b :: a in known && b in known && a.fp == b.fp && a.updatedAt == b.updatedAt ==> a == b
  }

  lemma FlushHoldsOnly(limit: int, s: State, g: Gid, notified: bool, known: iset<Alert>)
    requires HoldsOnly(s, known) && Enabled(s, EndFlush(g, notified))
    ensures HoldsOnly(Next(limit, s, EndFlush(g, notified)), known)
  {
    var gr := s.groups[g];
    assert GroupHoldsOnly(gr, known);
    var gone := Resolved(gr.flush.value);
    RemainingShrinks(gr.alerts, gone);
    forall fp | fp in Remaining(gr.alerts, gone) ensures Remaining(gr.alerts, gone)[fp] in known {
      RemainingExactly(gr.alerts, gone, fp);
    }
  }

  /** A worker inserts its alert into group g and moves on. */
  lemma InsertHoldsOnly(s: State, w: nat, g: Gid, pc: Pc, known: iset<Alert>)
    requires HoldsOnly(s, known) && w < |s.workers| && g < |s.groups| && !s.workers[w].Idle?
    requires pc.Idle? || pc.a in known
    ensures HoldsOnly(Move(Put(s, g, Inserted(s.groups[g], s.workers[w].a)), w, pc), known)
  {
    assert GroupHoldsOnly(s.groups[g], known);
  }

  lemma StepHoldsOnly(limit: int, s: State, step: Step, known: iset<Alert>)
    requires HoldsOnly(s, known) && Enabled(s, step) && (step.Begin? ==> step.a in known)
    ensures HoldsOnly(Next(limit, s, step), known)
  {
    match step
    case EndFlush(g, notified) => FlushHoldsOnly(limit, s, g, notified, known);
    case Insert(w) => InsertHoldsOnly(s, w, s.workers[w].g, Next(limit, s, step).workers[w], known);
    case InsertFound(w) => InsertHoldsOnly(s, w, s.workers[w].g, Next(limit, s, step).workers[w], known);
    case StartFlush(g, _, _) => assert GroupHoldsOnly(s.groups[g], known);
    case _ =>
  }

  lemma {:induction false} RunHoldsOnly(limit: int, w: nat, states: seq<State>, steps: seq<Step>, n: nat)
    requires Run(limit, w, states, steps) && n <= |steps|
    ensures HoldsOnly(states[n], Ingested(steps))
  {
    if n > 0 {
      RunHoldsOnly(limit, w, states, steps, n - 1);
      StepHoldsOnly(limit, states[n - 1], steps[n - 1], Ingested(steps));
    }
  }

  /** If update times tell versions apart, the version a flush takes away is one it saw, and
      that was resolved: a firing alert is never taken away. */
  lemma OnlyResolvedAreTaken(limit: int, w: nat, states: seq<State>, steps: seq<Step>, n: nat, k: Key, fp: Fingerprint)
    requires Run(limit, w, states, steps) && n < |steps| && Identified(Ingested(steps))
    requires Held(states[n], k, fp) && !Held(states[n + 1], k, fp)
    ensures steps[n] == EndFlush(states[n].slots[k], true)
    ensures var gr := states[n].groups[states[n].slots[k]];
      gr.flush.Some? && gr.alerts[fp] in gr.flush.value.seen && ResolvedAt(gr.alerts[fp], gr.flush.value.now)
  {
    RunOk(limit, w, states, steps, n);
    RunHoldsOnly(limit, w, states, steps, n);
    HeldUntilNotified(limit, states[n], steps[n], k, fp);
    var gr := states[n].groups[states[n].slots[k]];
    var a :| a in gr.flush.value.seen && a.fp == fp
      && a.updatedAt == gr.alerts[fp].updatedAt && ResolvedAt(a, gr.flush.value.now);
    assert GroupOk(gr);
    assert GroupHoldsOnly(gr, Ingested(steps));
    assert a in Ingested(steps) && gr.alerts[fp] in Ingested(steps);
  }

  /** A run in which the only worker brings in an alert, whose group is then started. */
  lemma FirstAlert(k: Key, a: Alert) returns (states: seq<State>, steps: seq<Step>)
    ensures Run(0, 1, states, steps)
    ensures var s := states[|steps|];
      && s.groups == [Group(k, map[a.fp := a], false, true, true, 1, None)]
      && s.slots == map[k := 0] && s.workers == [Idle]
  {
    states, steps := Published(k, a);
    var s3 := states[|steps|];
    var s4 := s3.(counter := 1, workers := [Starting(k, a, 0)]);
    Extend(0, 1, states, steps, Count(0), s4);
    var s5 := s4.(sweep := Some(Sweep(s4.slots.Keys, s4.slots.Values)));
    Extend(0, 1, states + [s4], steps + [Count(0)], StartSweep, s5);
    var s6 := s5.(workers := [Launching(k, a, 0)]);
    Extend(0, 1, states + [s4] + [s5], steps + [Count(0)] + [StartSweep], LookAtState(0), s6);
    var s7 := s6.(groups := [Launched(s6.groups[0])], workers := [Idle]);
    Extend(0, 1, states + [s4] + [s5] + [s6], steps + [Count(0)] + [StartSweep] + [LookAtState(0)], Launch(0), s7);
    states := states + [s4] + [s5] + [s6] + [s7];
    steps := steps + [Count(0)] + [StartSweep] + [LookAtState(0)] + [Launch(0)];
  }

  lemma Published(k: Key, a: Alert) returns (states: seq<State>, steps: seq<Step>)
    ensures Run(0, 1, states, steps)
    ensures states[|steps|] ==
      State([NewGroup(k, a).(published := true)], map[k := 0], 0, None, [Counting(k, a, 0)], Resting)
  {
    var s0 := Init(1);
    assert s0.workers == [Idle];
    var s1 := s0.(workers := [Checking(k, a, None)]);
    Extend(0, 1, [s0], [], Begin(0, k, a), s1);
    var s2 := s1.(groups := [NewGroup(k, a)], workers := [Trying(k, a, None, 0, 0)]);
    Extend(0, 1, [s0] + [s1], [] + [Begin(0, k, a)], Check(0), s2);
    var s3 := State([NewGroup(k, a).(published := true)], map[k := 0], 0, None, [Counting(k, a, 0)], Resting);
    Extend(0, 1, [s0] + [s1] + [s2], [] + [Begin(0, k, a)] + [Check(0)], Try(0), s3);
    states, steps := [s0] + [s1] + [s2] + [s3], [] + [Begin(0, k, a)] + [Check(0)] + [Try(0)];
  }

  /** Without that premise it fails: a flush sees an alert resolved, the alert fires again
      with the same update time while the flush notifies, and the firing version is taken.
      All alerts of one request get the same update time. */
  lemma SameUpdateTimeLosesFiring() returns (states: seq<State>, steps: seq<Step>, n: nat, k: Key, fp: Fingerprint)
    ensures Run(0, 1, states, steps) && n < |steps|
    ensures Held(states[n], k, fp)
    ensures var gr := states[n].groups[states[n].slots[k]];
      gr.flush.Some? && gr.flush.value.now < gr.alerts[fp].endsAt
    ensures !Held(states[n + 1], k, fp)
  {
    k, fp := (0, 0), 7;
    var ended, firing := Alert(fp, 5, 6), Alert(fp, 5, 100);
    states, steps := FirstAlert(k, ended);
    var s := states[|steps|];
    assert fp in s.groups[0].alerts;
    var s1 := Put(s, 0, s.groups[0].(flush := Some(Flush([ended], 9))));
    Extend(0, 1, states, steps, StartFlush(0, [ended], 9), s1);
    states, steps := states + [s1], steps + [StartFlush(0, [ended], 9)];
    var s2 := Move(s1, 0, Inserting(k, firing, 0));
    Extend(0, 1, states, steps, Begin(0, k, firing), s2);
    states, steps := states + [s2], steps + [Begin(0, k, firing)];
    var s3 := Move(Put(s2, 0, Inserted(s2.groups[0], firing)), 0, Idle);
    Extend(0, 1, states, steps, Insert(0), s3);
    states, steps := states + [s3], steps + [Insert(0)];
    n := |steps|;
    var s4 := Put(s3, 0, Flushed(s3.groups[0], true));
    FlushRemovesExactly(s3.groups[0], true, fp);
    Extend(0, 1, states, steps, EndFlush(0, true), s4);
    states, steps := states + [s4], steps + [EndFlush(0, true)];
  }
}
