/** Inhibition rules: a cache of source alerts and an index with one source alert for each
    combination of equal labels. */
module Inhibition {
  import opened Basics
  import opened Labels

  type Fingerprint = nat

  /** Regular expressions and the fingerprint of a label set. */
  datatype Env = Env(rx: Regexes, fp: LabelSet -> Fingerprint)

  datatype Alert = Alert(labels: LabelSet, endsAt: Time)

  datatype Rule = Rule(source: seq<Matcher>, target: seq<Matcher>, equal: set<string>)

  /** A rule's cache of source alerts and its index of them. */
  datatype State = State(cache: map<Fingerprint, Alert>, index: map<Fingerprint, Fingerprint>)

  const EMPTY := State(map[], map[])

  predicate ResolvedAt(a: Alert, now: Time) { !IsZero(a.endsAt) && a.endsAt <= now }

  function EqualLabels(rule: Rule, l: LabelSet): LabelSet {
    map n | n in rule.equal :: if n in rule.equal then Lookup(l, n) else ""
  }

  function KeyOf(env: Env, rule: Rule, l: LabelSet): Fingerprint { env.fp(EqualLabels(rule, l)) }

  /** Point the index at a, unless it points at an alert that ends later. */
  function Reindexed(env: Env, rule: Rule, s: State, a: Alert): State {
    var fp, key := env.fp(a.labels), KeyOf(env, rule, a.labels);
    if key !in s.index then s.(index := s.index[key := fp])
    else if s.index[key] == fp then s
    else if s.index[key] !in s.cache then s.(index := s.index[key := fp])
    else if ResolvedAt(s.cache[s.index[key]], a.endsAt) then s.(index := s.index[key := fp])
    else s
  }

  function Process(env: Env, rule: Rule, s: State, a: Alert): State {
    if AllMatch(env.rx, rule.source, a.labels)
    then Reindexed(env, rule, s.(cache := s.cache[env.fp(a.labels) := a]), a)
    else s
  }

  /** The alerts a collection at now removes. */
  predicate Removes(s: State, now: Time, fp: Fingerprint) { fp in s.cache && ResolvedAt(s.cache[fp], now) }

  /** Collection takes the resolved alerts out of the cache; */
  function Removed(s: State, now: Time): State {
    s.(cache := s.cache - (set fp | fp in s.cache && Removes(s, now, fp)))
  }

  predicate KeyAmong(env: Env, rule: Rule, alerts: seq<Alert>, key: Fingerprint) {
    exists a :: a in alerts && KeyOf(env, rule, a.labels) == key
  }

  /** and its callback, some time later, deletes the index entry for the key of each. */
  function WithoutKeys(env: Env, rule: Rule, s: State, alerts: seq<Alert>): State {
    s.(index := s.index - (set key | key in s.index && KeyAmong(env, rule, alerts, key)))
  }

  /** The source alert the index gives for a label set, unless it is resolved. */
  function Find(env: Env, rule: Rule, s: State, l: LabelSet, now: Time): Option<Alert> {
    var key := KeyOf(env, rule, l);
    if key in s.index && s.index[key] in s.cache && !ResolvedAt(s.cache[s.index[key]], now)
    then Some(s.cache[s.index[key]]) else None
  }

  /** The inhibitor of a label set under one rule. */
  function InhibitedBy(env: Env, rule: Rule, s: State, l: LabelSet, now: Time): Option<Alert> {
    if !AllMatch(env.rx, rule.target, l) then None
    else
      var found := Find(env, rule, s, l, now);
      if found.Some? && AllMatch(env.rx, rule.source, l) && AllMatch(env.rx, rule.target, found.value.labels)
      then None else found
  }

  // ---------------------------------------------------------------- soundness, in all runs

  ghost predicate Injective(env: Env) {
    forall l, m :: env.fp(l) == env.fp(m) ==> l == m
  }

  /** The index entry is the fingerprint of a label set with that key. */
  ghost predicate EntryOk(env: Env, rule: Rule, key: Fingerprint, fp: Fingerprint) {
    forall l :: env.fp(l) == fp ==> KeyOf(env, rule, l) == key
  }

  ghost predicate Sound(env: Env, rule: Rule, s: State) {
    && (forall fp :: fp in s.cache ==>
          env.fp(s.cache[fp].labels) == fp && AllMatch(env.rx, rule.source, s.cache[fp].labels))
    && (forall key :: key in s.index ==> EntryOk(env, rule, key, s.index[key]))
  }

  datatype Step = DoProcess(a: Alert) | DoRemove(now: Time) | DoDrop(alerts: seq<Alert>)

  function Apply(env: Env, rule: Rule, s: State, step: Step): State {
    match step
    case DoProcess(a) => Process(env, rule, s, a)
    case DoRemove(now) => Removed(s, now)
    case DoDrop(alerts) => WithoutKeys(env, rule, s, alerts)
  }

  function After(env: Env, rule: Rule, steps: seq<Step>): State {
    if steps == [] then EMPTY else Apply(env, rule, After(env, rule, steps[..|steps| - 1]), steps[|steps| - 1])
  }

  lemma ProcessSound(env: Env, rule: Rule, s: State, a: Alert)
    requires Injective(env) && Sound(env, rule, s)
    ensures Sound(env, rule, Process(env, rule, s, a))
  {
  }

  lemma {:induction false} AlwaysSound(env: Env, rule: Rule, steps: seq<Step>)
    requires Injective(env)
    ensures Sound(env, rule, After(env, rule, steps))
  {
    if steps != [] {
      AlwaysSound(env, rule, steps[..|steps| - 1]);
      StepSound(env, rule, After(env, rule, steps[..|steps| - 1]), steps[|steps| - 1]);
    }
  }

  predicate SameEquals(rule: Rule, l: LabelSet, m: LabelSet) {
    forall n :: n in rule.equal ==> Lookup(l, n) == Lookup(m, n)
  }

  lemma SameKeySameEquals(env: Env, rule: Rule, l: LabelSet, m: LabelSet)
    requires Injective(env)
    ensures KeyOf(env, rule, l) == KeyOf(env, rule, m) <==> SameEquals(rule, l, m)
  {
    if SameEquals(rule, l, m) { assert EqualLabels(rule, l) == EqualLabels(rule, m); }
    if KeyOf(env, rule, l) == KeyOf(env, rule, m) {
      forall n | n in rule.equal ensures Lookup(l, n) == Lookup(m, n) {
        assert EqualLabels(rule, l)[n] == EqualLabels(rule, m)[n];
      }
    }
  }

  /** In every run, a reported inhibitor is in the cache, matches the source side, is not
      resolved, and has the same equal labels; and no alert is reported to inhibit itself. */
  lemma InhibitorsAreGenuine(env: Env, rule: Rule, steps: seq<Step>, l: LabelSet, now: Time)
    requires Injective(env) && InhibitedBy(env, rule, After(env, rule, steps), l, now).Some?
    ensures var s, a := After(env, rule, steps), InhibitedBy(env, rule, After(env, rule, steps), l, now).value;
      && env.fp(a.labels) in s.cache && s.cache[env.fp(a.labels)] == a && !ResolvedAt(a, now)
      && AllMatch(env.rx, rule.source, a.labels) && SameEquals(rule, a.labels, l) && a.labels != l
  {
    AlwaysSound(env, rule, steps);
    var s, key := After(env, rule, steps), KeyOf(env, rule, l);
    var a := InhibitedBy(env, rule, s, l, now).value;
    assert EntryOk(env, rule, key, s.index[key]);
    SameKeySameEquals(env, rule, a.labels, l);
  }

  /** Under one rule no two alerts inhibit each other, whatever happened between the calls. */
  lemma NoMutualInhibition(
      env: Env, rule: Rule, steps: seq<Step>, steps': seq<Step>, a: Alert, b: Alert, now: Time, now': Time)
    requires Injective(env) && InhibitedBy(env, rule, After(env, rule, steps), a.labels, now) == Some(b)
    ensures InhibitedBy(env, rule, After(env, rule, steps'), b.labels, now') != Some(a)
  {
    InhibitorsAreGenuine(env, rule, steps, a.labels, now);
    if InhibitedBy(env, rule, After(env, rule, steps'), b.labels, now') == Some(a) {
      InhibitorsAreGenuine(env, rule, steps', b.labels, now');
      assert false;
    }
  }

  // ---------------------------------------------------------------- the index against a scan

  /** A linear scan of the cache finds an unresolved alert with the same equal labels. */
  predicate ScanFinds(rule: Rule, s: State, l: LabelSet, now: Time) {
    exists fp :: fp in s.cache && !ResolvedAt(s.cache[fp], now) && SameEquals(rule, s.cache[fp].labels, l)
  }

  ghost predicate Exact(env: Env, rule: Rule, s: State) {
    forall l, now :: Find(env, rule, s, l, now).Some? <==> ScanFinds(rule, s, l, now)
  }

  /** At some time an alert ending at f is resolved and one ending at e is not. */
  predicate Outlives(e: Time, f: Time) { !IsZero(f) && (IsZero(e) || f < e) }

  /** The index has, for the key of the cached alert, one that it does not outlive. */
  predicate Covers(env: Env, rule: Rule, s: State, fp: Fingerprint)
    requires fp in s.cache
  {
    var key := KeyOf(env, rule, s.cache[fp].labels);
    key in s.index && s.index[key] in s.cache && !Outlives(s.cache[fp].endsAt, s.cache[s.index[key]].endsAt)
  }

  predicate Aligned(env: Env, rule: Rule, s: State) {
    forall fp :: fp in s.cache ==> Covers(env, rule, s, fp)
  }

  /** What the index gives for a key has that key. */
  lemma IndexedHasKey(env: Env, rule: Rule, s: State, key: Fingerprint)
    requires Sound(env, rule, s) && key in s.index && s.index[key] in s.cache
    ensures KeyOf(env, rule, s.cache[s.index[key]].labels) == key
  {
  }

  lemma FoundByScan(env: Env, rule: Rule, s: State, l: LabelSet, now: Time)
    requires Injective(env) && Sound(env, rule, s) && Find(env, rule, s, l, now).Some?
    ensures ScanFinds(rule, s, l, now)
  {
    var key := KeyOf(env, rule, l);
    IndexedHasKey(env, rule, s, key);
    SameKeySameEquals(env, rule, s.cache[s.index[key]].labels, l);
  }

  lemma ScannedIsFound(env: Env, rule: Rule, s: State, l: LabelSet, now: Time, fp: Fingerprint)
    requires fp in s.cache && !ResolvedAt(s.cache[fp], now)
    requires KeyOf(env, rule, s.cache[fp].labels) == KeyOf(env, rule, l)
    requires Covers(env, rule, s, fp)
    ensures Find(env, rule, s, l, now).Some?
  {
  }

  lemma AlignedFinds(env: Env, rule: Rule, s: State, l: LabelSet, now: Time)
    requires Injective(env) && Sound(env, rule, s) && Aligned(env, rule, s)
    ensures Find(env, rule, s, l, now).Some? <==> ScanFinds(rule, s, l, now)
  {
    if Find(env, rule, s, l, now).Some? { FoundByScan(env, rule, s, l, now); }
    if ScanFinds(rule, s, l, now) { ScanIsFound(env, rule, s, l, now); }
  }

  lemma ScanIsFound(env: Env, rule: Rule, s: State, l: LabelSet, now: Time)
    requires Injective(env) && Aligned(env, rule, s) && ScanFinds(rule, s, l, now)
    ensures Find(env, rule, s, l, now).Some?
  {
    var fp :| fp in s.cache && !ResolvedAt(s.cache[fp], now) && SameEquals(rule, s.cache[fp].labels, l);
    SameKeySameEquals(env, rule, s.cache[fp].labels, l);
    ScannedIsFound(env, rule, s, l, now, fp);
  }

  lemma ExactCovers(env: Env, rule: Rule, s: State, fp: Fingerprint)
    requires Exact(env, rule, s) && fp in s.cache
    ensures Covers(env, rule, s, fp)
  {
    var a := s.cache[fp];
    assert ScanFinds(rule, s, a.labels, a.endsAt - 1);
    assert Find(env, rule, s, a.labels, a.endsAt - 1).Some?;
    var e := s.cache[s.index[KeyOf(env, rule, a.labels)]].endsAt;
    assert Outlives(a.endsAt, e) ==> ScanFinds(rule, s, a.labels, e);
    assert Find(env, rule, s, a.labels, e).Some? ==> !Outlives(a.endsAt, e);
  }

  lemma ExactIffAligned(env: Env, rule: Rule, s: State)
    requires Injective(env) && Sound(env, rule, s)
    ensures Exact(env, rule, s) <==> Aligned(env, rule, s)
  {
    if Aligned(env, rule, s) {
      forall l, now ensures Find(env, rule, s, l, now).Some? <==> ScanFinds(rule, s, l, now) {
        AlignedFinds(env, rule, s, l, now);
      }
    }
    if Exact(env, rule, s) {
      forall fp | fp in s.cache ensures Covers(env, rule, s, fp) { ExactCovers(env, rule, s, fp); }
    }
  }

  predicate SameKey(env: Env, rule: Rule, s: State, fp: Fingerprint, key: Fingerprint) {
    fp in s.cache && KeyOf(env, rule, s.cache[fp].labels) == key
  }

  /** The update leaves the index pointing at the wrong alert: the indexed alert now ends
      before another one, or an alert without an end is compared by its unset end time. */
  predicate Misindexes(env: Env, rule: Rule, s: State, a: Alert) {
    var fp, key := env.fp(a.labels), KeyOf(env, rule, a.labels);
    && AllMatch(env.rx, rule.source, a.labels) && key in s.index
    && if s.index[key] == fp
       then exists q ::
              q in s.cache && q != fp && SameKey(env, rule, s, q, key) && Outlives(s.cache[q].endsAt, a.endsAt)
       else s.index[key] in s.cache && IsZero(a.endsAt) && ZERO_TIME < s.cache[s.index[key]].endsAt
  }

  /** The callback deletes the index entry of an alert that is in the cache. */
  predicate Orphans(env: Env, rule: Rule, s: State, alerts: seq<Alert>) {
    exists q :: q in s.cache && KeyAmong(env, rule, alerts, KeyOf(env, rule, s.cache[q].labels))
  }

  /** An alert with another key is covered as before. */
  lemma OtherKeyCovered(env: Env, rule: Rule, s: State, a: Alert, q: Fingerprint)
    requires AllMatch(env.rx, rule.source, a.labels) && q in s.cache && Covers(env, rule, s, q)
    requires KeyOf(env, rule, s.cache[q].labels) != KeyOf(env, rule, a.labels) && q != env.fp(a.labels)
    requires s.index[KeyOf(env, rule, s.cache[q].labels)] != env.fp(a.labels)
    ensures Covers(env, rule, Process(env, rule, s, a), q)
  {
  }

  /** An alert with the same key is covered unless the indexed alert now ends before it. */
  lemma SameKeyCovered(env: Env, rule: Rule, s: State, a: Alert, q: Fingerprint)
    requires AllMatch(env.rx, rule.source, a.labels) && q in s.cache && Covers(env, rule, s, q)
    requires KeyOf(env, rule, s.cache[q].labels) == KeyOf(env, rule, a.labels) && q != env.fp(a.labels)
    ensures Covers(env, rule, Process(env, rule, s, a), q)
       <==> !(s.index[KeyOf(env, rule, a.labels)] == env.fp(a.labels) && Outlives(s.cache[q].endsAt, a.endsAt))
  {
  }

  /** The new alert itself is covered unless it has no end and the indexed one has. */
  lemma NewCovered(env: Env, rule: Rule, s: State, a: Alert)
    requires AllMatch(env.rx, rule.source, a.labels)
    ensures env.fp(a.labels) in Process(env, rule, s, a).cache
    ensures Covers(env, rule, Process(env, rule, s, a), env.fp(a.labels))
       <==> var key := KeyOf(env, rule, a.labels);
            !(key in s.index && s.index[key] != env.fp(a.labels) && s.index[key] in s.cache
              && IsZero(a.endsAt) && ZERO_TIME < s.cache[s.index[key]].endsAt)
  {
  }

  /** The update leaves the cached alert q to an index entry that q outlives. */
  predicate Exposes(env: Env, rule: Rule, s: State, a: Alert, q: Fingerprint) {
    var key := KeyOf(env, rule, a.labels);
    && SameKey(env, rule, s, q, key) && key in s.index && s.index[key] == env.fp(a.labels)
    && Outlives(s.cache[q].endsAt, a.endsAt)
  }

  lemma AlignedUnlessExposed(env: Env, rule: Rule, s: State, a: Alert)
    requires AllMatch(env.rx, rule.source, a.labels)
    requires forall q :: q in s.cache && q != env.fp(a.labels) ==>
               && q in Process(env, rule, s, a).cache
               && (Covers(env, rule, Process(env, rule, s, a), q) <==> !Exposes(env, rule, s, a, q))
    ensures Aligned(env, rule, Process(env, rule, s, a)) <==> !Misindexes(env, rule, s, a)
  {
    var fp, key, s' := env.fp(a.labels), KeyOf(env, rule, a.labels), Process(env, rule, s, a);
    NewCovered(env, rule, s, a);
    assert s'.cache.Keys == s.cache.Keys + {fp};
    if exists q :: q in s.cache && q != fp && Exposes(env, rule, s, a, q) {
      var q :| q in s.cache && q != fp && Exposes(env, rule, s, a, q);
      assert SameKey(env, rule, s, q, key);
    }
  }

  lemma ProcessAligned(env: Env, rule: Rule, s: State, a: Alert)
    requires Injective(env) && Sound(env, rule, s) && Aligned(env, rule, s) && AllMatch(env.rx, rule.source, a.labels)
    ensures Aligned(env, rule, Process(env, rule, s, a)) <==> !Misindexes(env, rule, s, a)
  {
    forall q | q in s.cache && q != env.fp(a.labels)
      ensures q in Process(env, rule, s, a).cache
      ensures Covers(env, rule, Process(env, rule, s, a), q) <==> !Exposes(env, rule, s, a, q)
    {
      CoveredIff(env, rule, s, a, q);
    }
    AlignedUnlessExposed(env, rule, s, a);
  }

  lemma CoveredIff(env: Env, rule: Rule, s: State, a: Alert, q: Fingerprint)
    requires Injective(env) && Sound(env, rule, s) && AllMatch(env.rx, rule.source, a.labels)
    requires q in s.cache && q != env.fp(a.labels) && Covers(env, rule, s, q)
    ensures q in Process(env, rule, s, a).cache
    ensures Covers(env, rule, Process(env, rule, s, a), q) <==> !Exposes(env, rule, s, a, q)
  {
    var key := KeyOf(env, rule, s.cache[q].labels);
    if key == KeyOf(env, rule, a.labels) {
      SameKeyCovered(env, rule, s, a, q);
    } else {
      IndexedHasKey(env, rule, s, key);
      OtherKeyCovered(env, rule, s, a, q);
    }
  }

  /** Removing resolved alerts never leaves the index behind: what it points at for the key of a
      surviving alert survives too. */
  lemma RemovedAligned(env: Env, rule: Rule, s: State, now: Time)
    requires Aligned(env, rule, s)
    ensures Aligned(env, rule, Removed(s, now))
  {
    forall q | q in Removed(s, now).cache ensures Covers(env, rule, Removed(s, now), q) {
      assert Covers(env, rule, s, q);
    }
  }

  lemma DroppedAligned(env: Env, rule: Rule, s: State, alerts: seq<Alert>)
    requires Aligned(env, rule, s)
    ensures Aligned(env, rule, WithoutKeys(env, rule, s, alerts)) <==> !Orphans(env, rule, s, alerts)
  {
    forall q | q in s.cache
      ensures Covers(env, rule, WithoutKeys(env, rule, s, alerts), q)
         <==> !KeyAmong(env, rule, alerts, KeyOf(env, rule, s.cache[q].labels))
    {
      assert Covers(env, rule, s, q);
    }
  }

  predicate Disturbs(env: Env, rule: Rule, s: State, step: Step) {
    match step
    case DoProcess(a) => Misindexes(env, rule, s, a)
    case DoRemove(_) => false
    case DoDrop(alerts) => Orphans(env, rule, s, alerts)
  }

  lemma StaysAlignedIff(env: Env, rule: Rule, s: State, step: Step)
    requires Injective(env) && Sound(env, rule, s) && Aligned(env, rule, s)
    ensures Aligned(env, rule, Apply(env, rule, s, step)) <==> !Disturbs(env, rule, s, step)
  {
    match step
    case DoProcess(a) => if AllMatch(env.rx, rule.source, a.labels) { ProcessAligned(env, rule, s, a); }
    case DoRemove(now) => RemovedAligned(env, rule, s, now);
    case DoDrop(alerts) => DroppedAligned(env, rule, s, alerts);
  }

  lemma StepSound(env: Env, rule: Rule, s: State, step: Step)
    requires Injective(env) && Sound(env, rule, s)
    ensures Sound(env, rule, Apply(env, rule, s, step))
  {
    if step.DoProcess? { ProcessSound(env, rule, s, step.a); }
  }

  /** As long as the index agrees with a scan, a step keeps it so if and only if it does not
      disturb it in one of those ways. */
  lemma StaysExactIff(env: Env, rule: Rule, s: State, step: Step)
    requires Injective(env) && Sound(env, rule, s) && Exact(env, rule, s)
    ensures Sound(env, rule, Apply(env, rule, s, step))
    ensures Exact(env, rule, Apply(env, rule, s, step)) <==> !Disturbs(env, rule, s, step)
  {
    StepSound(env, rule, s, step);
    ExactIffAligned(env, rule, s);
    StaysAlignedIff(env, rule, s, step);
    ExactIffAligned(env, rule, Apply(env, rule, s, step));
  }

  // ---------------------------------------------------------------- steady runs

  /** Alerts with an end, no cached alert's end moving back, removal of resolved alerts, and no
      callback that deletes the entry of a cached alert. */
  predicate Steady(env: Env, rule: Rule, s: State, step: Step) {
    match step
    case DoProcess(a) =>
      && ZERO_TIME < a.endsAt
      && (env.fp(a.labels) in s.cache ==> s.cache[env.fp(a.labels)].endsAt <= a.endsAt)
    case DoRemove(_) => true
    case DoDrop(alerts) => !Orphans(env, rule, s, alerts)
  }

  predicate SteadyRun(env: Env, rule: Rule, steps: seq<Step>) {
    steps != [] ==>
      && SteadyRun(env, rule, steps[..|steps| - 1])
      && Steady(env, rule, After(env, rule, steps[..|steps| - 1]), steps[|steps| - 1])
  }

  predicate AllEnd(s: State) { forall fp :: fp in s.cache ==> ZERO_TIME < s.cache[fp].endsAt }

  lemma SteadyDoesNotMisindex(env: Env, rule: Rule, s: State, a: Alert)
    requires Aligned(env, rule, s) && AllEnd(s) && Steady(env, rule, s, DoProcess(a))
    ensures !Misindexes(env, rule, s, a)
  {
  }

  lemma SteadyKeepsEnds(env: Env, rule: Rule, s: State, step: Step)
    requires AllEnd(s) && Steady(env, rule, s, step)
    ensures AllEnd(Apply(env, rule, s, step))
  {
  }

  lemma {:induction false} SteadyRunAligned(env: Env, rule: Rule, steps: seq<Step>)
    requires Injective(env) && SteadyRun(env, rule, steps)
    ensures Aligned(env, rule, After(env, rule, steps)) && AllEnd(After(env, rule, steps))
  {
    if steps != [] {
      var before, step := steps[..|steps| - 1], steps[|steps| - 1];
      SteadyRunAligned(env, rule, before);
      AlwaysSound(env, rule, before);
      SteadyKeepsEnds(env, rule, After(env, rule, before), step);
      if step.DoProcess? { SteadyDoesNotMisindex(env, rule, After(env, rule, before), step.a); }
      StaysAlignedIff(env, rule, After(env, rule, before), step);
    }
  }

  lemma SteadyRunIsExact(env: Env, rule: Rule, steps: seq<Step>)
    requires Injective(env) && SteadyRun(env, rule, steps)
    ensures Exact(env, rule, After(env, rule, steps))
  {
    AlwaysSound(env, rule, steps);
    SteadyRunAligned(env, rule, steps);
    ExactIffAligned(env, rule, After(env, rule, steps));
  }

  // ---------------------------------------------------------------- the answer against a scan

  /** The source alert inhibits the label set: it fires, has the same equal labels, and not both of
      them match both sides of the rule. */
  predicate Inhibits(env: Env, rule: Rule, a: Alert, l: LabelSet, now: Time) {
    && AllMatch(env.rx, rule.target, l) && !ResolvedAt(a, now) && SameEquals(rule, a.labels, l)
    && !(AllMatch(env.rx, rule.source, l) && AllMatch(env.rx, rule.target, a.labels))
  }

  /** A linear scan of the cache finds an inhibitor. */
  predicate ScanInhibits(env: Env, rule: Rule, s: State, l: LabelSet, now: Time) {
    exists fp :: fp in s.cache && Inhibits(env, rule, s.cache[fp], l, now)
  }

  /** The alert the index gives for a label set that matches both sides matches both sides too,
      and another one does not. */
  predicate TwoSidedHides(env: Env, rule: Rule, s: State, l: LabelSet, now: Time) {
    && AllMatch(env.rx, rule.source, l) && Find(env, rule, s, l, now).Some?
    && AllMatch(env.rx, rule.target, Find(env, rule, s, l, now).value.labels)
    && ScanInhibits(env, rule, s, l, now)
  }

  /** What is reported would be found by the scan. */
  lemma ReportedByScan(env: Env, rule: Rule, s: State, l: LabelSet, now: Time)
    requires Injective(env) && Sound(env, rule, s) && InhibitedBy(env, rule, s, l, now).Some?
    ensures ScanInhibits(env, rule, s, l, now)
  {
    var key := KeyOf(env, rule, l);
    IndexedHasKey(env, rule, s, key);
    SameKeySameEquals(env, rule, s.cache[s.index[key]].labels, l);
    assert Inhibits(env, rule, s.cache[s.index[key]], l, now);
  }

  /** While the index agrees with a scan, the answer for a label set is that of a scan if and only
      if no one-sided source is hidden by a two-sided one. */
  lemma AnswersLikeAScanIff(env: Env, rule: Rule, s: State, l: LabelSet, now: Time)
    requires Injective(env) && Sound(env, rule, s) && Exact(env, rule, s)
    ensures (InhibitedBy(env, rule, s, l, now).Some? <==> ScanInhibits(env, rule, s, l, now))
       <==> !TwoSidedHides(env, rule, s, l, now)
  {
    if InhibitedBy(env, rule, s, l, now).Some? { ReportedByScan(env, rule, s, l, now); }
    if ScanInhibits(env, rule, s, l, now) {
      var fp :| fp in s.cache && Inhibits(env, rule, s.cache[fp], l, now);
      assert ScanFinds(rule, s, l, now);
    }
  }

  /** In such runs every label set is inhibited exactly when a scan of the cache finds an
      inhibitor, up to that case; so it is if it does not match the source side. */
  lemma InhibitsLikeAScan(env: Env, rule: Rule, steps: seq<Step>, l: LabelSet, now: Time)
    requires Injective(env) && SteadyRun(env, rule, steps)
    ensures var s := After(env, rule, steps);
      && ((InhibitedBy(env, rule, s, l, now).Some? <==> ScanInhibits(env, rule, s, l, now))
          <==> !TwoSidedHides(env, rule, s, l, now))
      && (!AllMatch(env.rx, rule.source, l) ==>
            (InhibitedBy(env, rule, s, l, now).Some? <==> ScanInhibits(env, rule, s, l, now)))
  {
    AlwaysSound(env, rule, steps);
    SteadyRunIsExact(env, rule, steps);
    AnswersLikeAScanIff(env, rule, After(env, rule, steps), l, now);
  }

  // ---------------------------------------------------------------- where the index goes wrong

  /** Alerts with label s inhibit alerts with label t, whatever their other labels. */
  const RULE := Rule([Matcher(MatchEqual, "s", "1")], [Matcher(MatchEqual, "t", "1")], {})
  const TARGET: LabelSet := map["t" := "1"]
  const P: LabelSet := map["s" := "1", "alert" := "p"]
  const Q: LabelSet := map["s" := "1", "alert" := "q"]

  lemma Setting(env: Env)
    requires Injective(env)
    ensures AllMatch(env.rx, RULE.source, P) && AllMatch(env.rx, RULE.source, Q)
    ensures AllMatch(env.rx, RULE.target, TARGET) && !AllMatch(env.rx, RULE.source, TARGET)
    ensures KeyOf(env, RULE, P) == KeyOf(env, RULE, Q) == KeyOf(env, RULE, TARGET) && env.fp(P) != env.fp(Q)
  {
    assert P["alert"] != Q["alert"];
    SameKeySameEquals(env, RULE, P, TARGET);
    SameKeySameEquals(env, RULE, Q, TARGET);
    assert !MatcherMatches(env.rx, RULE.source[0], Lookup(TARGET, "s"));
  }

  lemma OneSource(env: Env, p: Time)
    requires Injective(env)
    ensures After(env, RULE, [DoProcess(Alert(P, p))]) ==
      State(map[env.fp(P) := Alert(P, p)], map[KeyOf(env, RULE, TARGET) := env.fp(P)])
  {
    Setting(env);
    AfterOneMore(env, RULE, [], DoProcess(Alert(P, p)));
    assert [] + [DoProcess(Alert(P, p))] == [DoProcess(Alert(P, p))];
  }

  /** Two sources have been processed; the index has the one that ends later. */
  lemma TwoSources(env: Env, p: Time, q: Time)
    requires Injective(env) && 0 < p && 0 < q
    ensures var s := After(env, RULE, [DoProcess(Alert(P, p)), DoProcess(Alert(Q, q))]);
      && s.cache == map[env.fp(P) := Alert(P, p), env.fp(Q) := Alert(Q, q)]
      && s.index == map[KeyOf(env, RULE, TARGET) := if p <= q then env.fp(Q) else env.fp(P)]
  {
    Setting(env);
    OneSource(env, p);
    AfterOneMore(env, RULE, [DoProcess(Alert(P, p))], DoProcess(Alert(Q, q)));
    assert [DoProcess(Alert(P, p))] + [DoProcess(Alert(Q, q))] == [DoProcess(Alert(P, p)), DoProcess(Alert(Q, q))];
  }

  lemma AfterOneMore(env: Env, rule: Rule, steps: seq<Step>, step: Step)
    ensures After(env, rule, steps + [step]) == Apply(env, rule, After(env, rule, steps), step)
  {
    assert (steps + [step])[..|steps|] == steps;
  }

  /** Collection can hide a firing inhibitor: two sources share their equal labels, the one that
      is not indexed is resolved and removed, and the entry of the other goes with it. */
  lemma CollectionHidesInhibitor(env: Env) returns (rule: Rule, steps: seq<Step>, gone: Alert, l: LabelSet, now: Time)
    requires Injective(env)
    ensures !AllMatch(env.rx, rule.source, l) && Removes(After(env, rule, steps), now, env.fp(gone.labels))
    ensures After(env, rule, steps).cache[env.fp(gone.labels)] == gone
    ensures InhibitedBy(env, rule, After(env, rule, steps), l, now).Some?
    ensures var s := After(env, rule, steps + [DoRemove(now)] + [DoDrop([gone])]);
      InhibitedBy(env, rule, s, l, now).None? && ScanFinds(rule, s, l, now)
  {
    rule, steps, gone, l, now := RULE, [DoProcess(Alert(P, 5)), DoProcess(Alert(Q, 9))], Alert(P, 5), TARGET, 6;
    Setting(env);
    TwoSources(env, 5, 9);
    AfterOneMore(env, rule, steps, DoRemove(now));
    AfterOneMore(env, rule, steps + [DoRemove(now)], DoDrop([gone]));
    assert gone in [gone] && KeyOf(env, rule, gone.labels) == KeyOf(env, rule, l);
    var s := After(env, rule, steps + [DoRemove(now)] + [DoDrop([gone])]);
    assert env.fp(Q) in s.cache && SameEquals(rule, s.cache[env.fp(Q)].labels, l);
  }

  /** Resolving the indexed alert hides the other: its end moves before the end of a source with
      the same equal labels, the index still points at it, and the other is not found. */
  lemma EarlierEndHidesInhibitor(env: Env) returns (rule: Rule, steps: seq<Step>, resolve: Step, l: LabelSet, now: Time)
    requires Injective(env)
    ensures resolve.DoProcess? && !AllMatch(env.rx, rule.source, l)
    ensures InhibitedBy(env, rule, After(env, rule, steps), l, now).Some?
    ensures InhibitedBy(env, rule, After(env, rule, steps + [resolve]), l, now).None?
    ensures ScanFinds(rule, After(env, rule, steps + [resolve]), l, now)
  {
    rule, steps, resolve, l, now :=
      RULE, [DoProcess(Alert(P, 100)), DoProcess(Alert(Q, 50))], DoProcess(Alert(P, 10)), TARGET, 20;
    Setting(env);
    TwoSources(env, 100, 50);
    AfterOneMore(env, rule, steps, resolve);
    var after := After(env, rule, steps + [resolve]);
    assert env.fp(Q) in after.cache && SameEquals(rule, after.cache[env.fp(Q)].labels, l);
  }

  /** An alert without an end does not take the entry of one that has one: when that ends, the
      alert that still fires is not found. Alerts posted to the API get an end if they have none,
      so this takes an alert that comes another way. */
  lemma NoEndHidesInhibitor(env: Env) returns (rule: Rule, steps: seq<Step>, endless: Step, l: LabelSet, now: Time)
    requires Injective(env)
    ensures endless.DoProcess? && IsZero(endless.a.endsAt) && !AllMatch(env.rx, rule.source, l)
    ensures InhibitedBy(env, rule, After(env, rule, steps + [endless]), l, now).None?
    ensures ScanFinds(rule, After(env, rule, steps + [endless]), l, now)
  {
    rule, steps, endless, l, now := RULE, [DoProcess(Alert(P, 5))], DoProcess(Alert(Q, ZERO_TIME)), TARGET, 6;
    Setting(env);
    OneSource(env, 5);
    AfterOneMore(env, rule, steps, endless);
    var after := After(env, rule, steps + [endless]);
    assert env.fp(Q) in after.cache && SameEquals(rule, after.cache[env.fp(Q)].labels, l);
  }

  const BOTH: LabelSet := map["s" := "1", "t" := "1"]

  lemma BothSides(env: Env)
    requires Injective(env)
    ensures AllMatch(env.rx, RULE.source, BOTH) && AllMatch(env.rx, RULE.target, BOTH)
    ensures AllMatch(env.rx, RULE.source, Q) && !AllMatch(env.rx, RULE.target, Q)
    ensures KeyOf(env, RULE, BOTH) == KeyOf(env, RULE, Q) && env.fp(BOTH) != env.fp(Q)
  {
    assert "alert" in Q && "alert" !in BOTH;
    SameKeySameEquals(env, RULE, BOTH, Q);
    assert !MatcherMatches(env.rx, RULE.target[0], Lookup(Q, "t"));
  }

  /** An alert that matches both sides hides the inhibitor of such alerts: it takes the index entry
      of a source that matches one side, and is then disregarded. */
  lemma TwoSidedHidesInhibitor(env: Env)
    returns (rule: Rule, steps: seq<Step>, both: Step, l: LabelSet, now: Time)
    requires Injective(env)
    ensures both.DoProcess? && SteadyRun(env, rule, steps + [both])
    ensures InhibitedBy(env, rule, After(env, rule, steps), l, now).Some?
    ensures InhibitedBy(env, rule, After(env, rule, steps + [both]), l, now).None?
    ensures ScanInhibits(env, rule, After(env, rule, steps + [both]), l, now)
  {
    rule, steps, both, l, now := RULE, [DoProcess(Alert(Q, 50))], DoProcess(Alert(BOTH, 100)), BOTH, 20;
    BothSides(env);
    assert steps == [] + [DoProcess(Alert(Q, 50))] && steps[..0] == [];
    AfterOneMore(env, rule, [], steps[0]);
    AfterOneMore(env, rule, steps, both);
    assert SteadyRun(env, rule, steps) && (steps + [both])[..1] == steps;
    assert Inhibits(env, rule, After(env, rule, steps + [both]).cache[env.fp(Q)], l, now);
  }
}
