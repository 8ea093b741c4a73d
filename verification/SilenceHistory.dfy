/** Local edits never rewrite history: which silences muted a label set at a past instant
    is the same before and after a Set, an Expire or a garbage collection. */
module SilenceHistory {
  import opened Basics
  import opened Labels
  import opened SilenceStore
  import opened SilenceCache
  import opened SilenceRuns

  /** Every stored silence carries its own ID and the retention of this process. */
  predicate Stamped(cfg: Config, s: Store) {
    forall id :: id in s.st ==>
      s.st[id].silence.id == id && s.st[id].expiresAt == s.st[id].silence.endsAt + cfg.retention
  }

  predicate IsLocal(step: Step) { step.DoSet? || step.DoExpire? || step.DoGC? }

  function LocalApply(cfg: Config, s: Store, step: Step): Store {
    match step
    case DoSet(sil, uid, now, now2, now3) => Set(cfg, s, sil, uid, now, now2, now3)
    case DoExpire(id, now) => Expire(cfg, s, id, now)
    case DoGC(now) => GC(s, now)
    case _ => s
  }

  predicate FreshId(s: Store, step: Step) { step.DoSet? ==> step.uid !in s.st }

  /** For everything before `start` and after `since`, s' has the history of s. */
  ghost predicate SameHistory(cfg: Config, s: Store, s': Store, since: Time, start: Time) {
    forall l: LabelSet, t: Time :: since < t < start ==> FullScan(cfg, s', l, t) == FullScan(cfg, s, l, t)
  }

  /** The stored silence of an ID, replaced by another with the same past. */
  ghost predicate SamePast(a: Silence, b: Silence, start: Time) {
    && a.matcherSets == b.matcherSets
    && forall t :: t < start ==> (GetState(a, t).Active? <==> GetState(b, t).Active?)
  }

  lemma HistoryTransitive(cfg: Config, s0: Store, s1: Store, s2: Store, since: Time, start: Time)
    requires SameHistory(cfg, s0, s1, since, start) && SameHistory(cfg, s1, s2, since, start)
    ensures SameHistory(cfg, s0, s2, since, start)
  {
  }

  lemma EntryKeepsHistory(cfg: Config, s: Store, e: MeshSilence, now: Time, since: Time, start: Time)
    requires if e.silence.id in s.st then SamePast(s.st[e.silence.id].silence, e.silence, start)
             else start <= e.silence.startsAt
    ensures SameHistory(cfg, s, MergeEntry(cfg, s, e, now), since, start)
  {
  }

  lemma ExpireKeepsHistory(cfg: Config, s: Store, id: Id, now: Time, since: Time, start: Time)
    requires Stamped(cfg, s) && start <= now
    ensures SameHistory(cfg, s, Expire(cfg, s, id, now), since, start)
    ensures Stamped(cfg, Expire(cfg, s, id, now))
    ensures Expire(cfg, s, id, now).st.Keys == s.st.Keys
  {
  }

  /** An update that Set may do in place: the start of an active silence is untouched. */
  predicate KeepsStart(a: Silence, b: Silence, now: Time) {
    GetState(a, now).Active? ==> a.startsAt == b.startsAt
  }

  lemma InPlaceKeepsPast(a: Silence, b: Silence, now: Time)
    requires CanUpdate(a, b, now) && KeepsStart(a, b, now)
    ensures SamePast(a, b, now)
  {
  }

  lemma SetKeepsHistory(cfg: Config, s: Store, sil: Silence, uid: Id, now: Time, now2: Time, now3: Time, since: Time)
    requires Stamped(cfg, s) && uid !in s.st && now <= now2 <= now3
    requires sil.id in s.st && CanUpdate(s.st[sil.id].silence, sil, now) ==> KeepsStart(s.st[sil.id].silence, sil, now)
    ensures SameHistory(cfg, s, SetStored(cfg, s, sil, uid, now, now2, now3), since, now)
    ensures Stamped(cfg, SetStored(cfg, s, sil, uid, now, now2, now3))
  {
    if sil.id in s.st && CanUpdate(s.st[sil.id].silence, sil, now) {
      InPlaceKeepsPast(s.st[sil.id].silence, sil, now);
      EntryKeepsHistory(cfg, s, ToMesh(cfg, sil.(updatedAt := now)), now, since, now);
    } else {
      var s1 := WithoutOld(cfg, s, sil.id, now2, now3);
      ExpireKeepsHistory(cfg, s, sil.id, now3, since, now);
      EntryKeepsHistory(cfg, s1, ToMesh(cfg, Renewed(sil, uid, now)), now, since, now);
      HistoryTransitive(cfg, s, s1, SetStored(cfg, s, sil, uid, now, now2, now3), since, now);
    }
  }

  lemma GCKeepsHistory(cfg: Config, s: Store, now: Time, start: Time)
    requires Stamped(cfg, s) && 0 < now
    ensures SameHistory(cfg, s, GC(s, now), now - cfg.retention, start)
    ensures Stamped(cfg, GC(s, now))
  {
    var s' := GC(s, now);
    forall l: LabelSet, t: Time | now - cfg.retention < t ensures FullScan(cfg, s', l, t) == FullScan(cfg, s, l, t) {
      forall id | id in FullScan(cfg, s, l, t) ensures id in s'.st {
        CollectedExactly(s.st, now, s.vi, |s.vi|, id);
      }
    }
  }

  /** A Set that updates a silence in place leaves the start of an active one alone. */
  predicate LeavesStart(s: Store, step: Step) {
    step.DoSet? ==>
      var sil := WithStart(step.sil, step.now);
      sil.id in s.st && CanUpdate(s.st[sil.id].silence, sil, step.now) ==>
        KeepsStart(s.st[sil.id].silence, sil, step.now)
  }

  /** One local step keeps the past within the retention window, and the invariant. */
  lemma StepKeepsHistory(cfg: Config, s: Store, clock: Time, step: Step)
    requires Stamped(cfg, s) && 0 < clock
    requires IsLocal(step) && ClockMovesOn(clock, step) && FreshId(s, step) && LeavesStart(s, step)
    ensures SameHistory(cfg, s, LocalApply(cfg, s, step), Clock(clock, step) - cfg.retention, clock)
    ensures Stamped(cfg, LocalApply(cfg, s, step))
  {
    match step
    case DoSet(sil, uid, now, now2, now3) =>
      if SetAnswer(cfg, s, WithStart(sil, now), uid, now).Stored? {
        SetKeepsHistory(cfg, s, WithStart(sil, now), uid, now, now2, now3, now3 - cfg.retention);
      }
    case DoExpire(id, now) =>
      ExpireKeepsHistory(cfg, s, id, now, now - cfg.retention, now);
    case DoGC(now) =>
      GCKeepsHistory(cfg, s, now, clock);
  }

  /** The store before the i-th local step, and the clock. */
  function LocalBefore(cfg: Config, s: Store, clock: Time, steps: seq<Step>, i: nat): (Store, Time)
    requires i <= |steps|
    decreases steps
  {
    if i == 0 then (s, clock)
    else LocalBefore(cfg, LocalApply(cfg, s, steps[0]), Clock(clock, steps[0]), steps[1..], i - 1)
  }

  /** A run of local steps in which no update in place moves the start of an active silence. */
  predicate LocalRun(cfg: Config, s: Store, clock: Time, steps: seq<Step>)
    decreases steps
  {
    steps != [] ==>
      && IsLocal(steps[0]) && ClockMovesOn(clock, steps[0]) && FreshId(s, steps[0]) && LeavesStart(s, steps[0])
      && LocalRun(cfg, LocalApply(cfg, s, steps[0]), Clock(clock, steps[0]), steps[1..])
  }

  /** Over every such run, what the last step shows of any instant before the run began and
      within its retention window is what was recorded when the run began. */
  lemma {:induction false} HistoryIsNeverRewritten(cfg: Config, s: Store, clock: Time, steps: seq<Step>, n: nat)
    requires Stamped(cfg, s) && 0 < clock
    requires LocalRun(cfg, s, clock, steps) && n <= |steps|
    ensures var (s', clock') := LocalBefore(cfg, s, clock, steps, n);
            clock <= clock' && SameHistory(cfg, s, s', clock' - cfg.retention, clock)
    decreases steps
  {
    if n > 0 {
      var s1, clock1 := LocalApply(cfg, s, steps[0]), Clock(clock, steps[0]);
      StepKeepsHistory(cfg, s, clock, steps[0]);
      HistoryIsNeverRewritten(cfg, s1, clock1, steps[1..], n - 1);
      var (s2, clock2) := LocalBefore(cfg, s, clock, steps, n);
      HistoryTransitive(cfg, s, s1, s2, clock2 - cfg.retention, clock);
    }
  }

  // ---------------------------------------------------------------- whole seconds

  predicate WholeSecond(t: Time) { t % NANOS_PER_SECOND == 0 }

  predicate WholeStarts(s: Store) {
    forall id :: id in s.st ==> WholeSecond(s.st[id].silence.startsAt)
  }

  /** Times are read and given in whole seconds. */
  predicate WholeReadings(step: Step) {
    match step
    case DoSet(sil, _, now, now2, now3) => WholeSecond(sil.startsAt) && WholeSecond(now) && WholeSecond(now3)
    case DoExpire(_, now) => WholeSecond(now)
    case _ => true
  }

  predicate WholeRun(cfg: Config, s: Store, clock: Time, steps: seq<Step>)
    decreases steps
  {
    steps != [] ==>
      && IsLocal(steps[0]) && ClockMovesOn(clock, steps[0]) && FreshId(s, steps[0]) && WholeReadings(steps[0])
      && WholeRun(cfg, LocalApply(cfg, s, steps[0]), Clock(clock, steps[0]), steps[1..])
  }

  lemma WholeStepLeavesStart(cfg: Config, s: Store, step: Step)
    requires WholeStarts(s) && WholeReadings(step)
    ensures LeavesStart(s, step)
    ensures WholeStarts(LocalApply(cfg, s, step))
  {
  }

  /** With whole-second times comparing starts by the second is enough: history is never
      rewritten. */
  lemma {:induction false} WholeRunIsLocal(cfg: Config, s: Store, clock: Time, steps: seq<Step>)
    requires WholeStarts(s) && WholeRun(cfg, s, clock, steps)
    ensures LocalRun(cfg, s, clock, steps)
    decreases steps
  {
    if steps != [] {
      WholeStepLeavesStart(cfg, s, steps[0]);
      WholeRunIsLocal(cfg, LocalApply(cfg, s, steps[0]), Clock(clock, steps[0]), steps[1..]);
    }
  }

  // ---------------------------------------------------------------- times below a second

  /** Which update Set makes in place. */
  predicate UpdatesInPlace(cfg: Config, s: Store, sil: Silence, uid: Id, now: Time) {
    && SetAnswer(cfg, s, WithStart(sil, now), uid, now).Stored?
    && sil.id in s.st && CanUpdate(s.st[sil.id].silence, WithStart(sil, now), now)
  }

  /** The update is dropped: what is stored is not older, or the new version is past its retention. */
  predicate Dropped(cfg: Config, s: Store, sil: Silence, now: Time)
    requires sil.id in s.st
  {
    now <= s.st[sil.id].silence.updatedAt || sil.endsAt + cfg.retention < now
  }

  ghost predicate SamePastOf(cfg: Config, s: Store, s': Store, l: LabelSet, now: Time) {
    forall t :: t < now ==> FullScan(cfg, s', l, t) == FullScan(cfg, s, l, t)
  }

  /** A Set that updates in place leaves the past of an alert it silences alone if and only if
      it is dropped, keeps the start, or both starts still lie ahead. Comparing starts by the
      second, as canUpdate does, does not guarantee that. */
  lemma InPlaceKeepsHistoryIff(
      cfg: Config, s: Store, sil: Silence, uid: Id, l: LabelSet, now: Time, now2: Time, now3: Time)
    requires UpdatesInPlace(cfg, s, sil, uid, now) && AnySetMatches(cfg.rx, sil.matcherSets, l)
    ensures var a, b := s.st[sil.id].silence, WithStart(sil, now);
            SamePastOf(cfg, s, Set(cfg, s, sil, uid, now, now2, now3), l, now)
            <==> Dropped(cfg, s, sil, now) || a.startsAt == b.startsAt || now <= Min(a.startsAt, b.startsAt)
  {
    var a, b := s.st[sil.id].silence, WithStart(sil, now);
    var s' := Set(cfg, s, sil, uid, now, now2, now3);
    if !Dropped(cfg, s, sil, now) {
      var m := Min(a.startsAt, b.startsAt);
      if a.startsAt == b.startsAt || now <= m {
        forall t | t < now ensures FullScan(cfg, s', l, t) == FullScan(cfg, s, l, t) {
        }
      } else {
        assert sil.id in FullScan(cfg, s', l, m) <==> sil.id !in FullScan(cfg, s, l, m);
      }
    }
  }

  const SECOND := NANOS_PER_SECOND

  /** Such an update: a silence that began 1.1 s into the day is set to begin at 1.5 s, at 1.9 s;
      from then on it never was active at 1.2 s. */
  lemma UpdateWithinSecondRewritesHistory(cfg: Config) returns (s: Store, sil: Silence, l: LabelSet, now: Time, t: Time)
    requires cfg.maxSize <= 0 && cfg.validName("job") && cfg.validValue("api") && 0 <= cfg.retention
    ensures UpdatesInPlace(cfg, s, sil, "", now) && t < now
    ensures sil.id in FullScan(cfg, s, l, t) && sil.id !in FullScan(cfg, Set(cfg, s, sil, "", now, now, now), l, t)
  {
    l, now, t := ALERT, 19 * SECOND / 10, 12 * SECOND / 10;
    var a := Silence("a", MATCHERS, 11 * SECOND / 10, 5 * SECOND, SECOND);
    s := Store(map["a" := ToMesh(cfg, a)], map["a" := MATCHERS], [SilenceVersion("a", 1)], 1);
    sil := a.(startsAt := 15 * SECOND / 10);
    assert AllMatch(cfg.rx, MATCHERS[0], ALERT);
    assert !MatchesEmpty(cfg, MATCHERS[0][0]);
  }
}
