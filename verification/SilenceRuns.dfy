/** Runs of a silence store with its Silencer cache. Each operation is one atomic step
    carrying its own clock readings. */
module SilenceRuns {
  import opened Basics
  import opened Labels
  import opened SilenceStore
  import opened SilenceCache

  /** Merge carries decoded entries in the order in which the map iteration yields them;
      Forget is the callback after alerts were garbage collected. */
  datatype Step =
    | DoSet(sil: Silence, uid: Id, now: Time, now2: Time, now3: Time)
    | DoExpire(id: Id, now: Time)
    | DoGC(now: Time)
    | DoMerge(entries: seq<MeshSilence>, now: Time)
    | DoMutes(l: LabelSet, t: Readings)
    | DoForget(fps: set<Fingerprint>)

  /** What surrounds a run: configuration, the matchers of each ID, and fingerprints. */
  datatype World = World(cfg: Config, mo: MatchersOf, fp: LabelSet -> Fingerprint)

  ghost predicate InjectiveFingerprints(w: World) {
    forall l1: LabelSet, l2: LabelSet :: w.fp(l1) == w.fp(l2) ==> l1 == l2
  }

  function MergeAll(cfg: Config, s: Store, es: seq<MeshSilence>, now: Time): Store
    decreases es
  {
    if es == [] then s else MergeAll(cfg, MergeEntry(cfg, s, es[0], now), es[1..], now)
  }

  /** How many of the entries are taken. */
  function AcceptedIn(cfg: Config, s: Store, es: seq<MeshSilence>, now: Time): nat
    decreases es
  {
    if es == [] then 0
    else (if Accepts(s.st, es[0], now) then 1 else 0) + AcceptedIn(cfg, MergeEntry(cfg, s, es[0], now), es[1..], now)
  }

  function Apply(w: World, y: System, step: Step): System {
    match step
    case DoSet(sil, uid, now, now2, now3) => y.(store := Set(w.cfg, y.store, sil, uid, now, now2, now3))
    case DoExpire(id, now) => y.(store := Expire(w.cfg, y.store, id, now))
    case DoGC(now) => y.(store := GC(y.store, now))
    case DoMerge(es, now) => y.(store := MergeAll(w.cfg, y.store, es, now))
    case DoMutes(l, t) =>
      var e := Entry(y.cache, w.fp(l));
      if FastPath(y.store, e) then y
      else y.(cache := y.cache[w.fp(l) := MutesEntry(w.cfg, y.store, e, l, t)])
    case DoForget(fps) => y.(cache := y.cache - fps)
  }

  /** The clock after a step that started at `clock`. */
  function Clock(clock: Time, step: Step): Time {
    match step
    case DoSet(_, _, _, _, now3) => now3
    case DoExpire(_, now) => now
    case DoGC(now) => now
    case DoMerge(_, now) => now
    case DoMutes(_, t) => t.now
    case DoForget(_) => clock
  }

  predicate ClockMovesOn(clock: Time, step: Step) {
    match step
    case DoSet(_, _, now, now2, now3) => clock <= now <= now2 <= now3
    case DoExpire(_, now) => clock <= now
    case DoGC(now) => clock <= now
    case DoMerge(_, now) => clock <= now
    case DoMutes(_, t) => Ordered(clock, t)
    case DoForget(_) => true
  }

  /** Matchers compile, and equal IDs carry equal matchers. */
  predicate EntryFits(w: World, e: MeshSilence) {
    && e.silence.matcherSets == w.mo(e.silence.id)
    && AllCompile(w.cfg.rx, e.silence.matcherSets)
  }

  /** Accepting e would bring back a silence that is already expired here. */
  predicate Revives(s: Store, e: MeshSilence, now: Time) {
    && Accepts(s.st, e, now)
    && e.silence.id in s.st
    && GetState(s.st[e.silence.id].silence, now).Expired?
    && !GetState(e.silence, now).Expired?
  }

  predicate NoRevival(cfg: Config, s: Store, es: seq<MeshSilence>, now: Time)
    decreases es
  {
    es != [] ==> !Revives(s, es[0], now) && NoRevival(cfg, MergeEntry(cfg, s, es[0], now), es[1..], now)
  }

  /** The premises on one step: compiling, ID-stable matchers, a fresh generated ID, and
      no merge that revives a silence already expired here. */
  predicate Allowed(w: World, y: System, step: Step) {
    match step
    case DoSet(sil, uid, _, _, _) =>
      AllCompile(w.cfg.rx, sil.matcherSets) && uid !in y.store.st && w.mo(uid) == sil.matcherSets
    case DoMerge(es, now) =>
      (forall i :: 0 <= i < |es| ==> EntryFits(w, es[i])) && NoRevival(w.cfg, y.store, es, now)
    case _ => true
  }

  /** The system and the clock before the i-th step. */
  function Before(w: World, y: System, clock: Time, steps: seq<Step>, i: nat): (System, Time)
    requires i <= |steps|
    decreases steps
  {
    if i == 0 then (y, clock)
    else Before(w, Apply(w, y, steps[0]), Clock(clock, steps[0]), steps[1..], i - 1)
  }

  /** A run from y at `clock` that meets the premises step by step. */
  predicate Run(w: World, y: System, clock: Time, steps: seq<Step>)
    decreases steps
  {
    steps != [] ==>
      && ClockMovesOn(clock, steps[0])
      && Allowed(w, y, steps[0])
      && Run(w, Apply(w, y, steps[0]), Clock(clock, steps[0]), steps[1..])
  }

  // ---------------------------------------------------------------- the invariant

  predicate EntryGood(w: World, s: Store, e: CacheEntry, l: LabelSet, clock: Time) {
    EntrySound(w.cfg, w.mo, e, l) && EntryComplete(w.cfg, s, e, l, clock)
  }

  ghost predicate CacheGood(w: World, y: System, clock: Time) {
    forall l: LabelSet :: EntryGood(w, y.store, Entry(y.cache, w.fp(l)), l, clock)
  }

  ghost predicate Good(w: World, y: System, clock: Time) {
    Agrees(y.store) && StableMatchers(y.store, w.mo) && CacheGood(w, y, clock)
  }

  /** From s to s' nothing is lost for a cache: versions do not fall, every index entry
      of s' is old or newer than the version of s, and an unexpired silence under an old
      index entry was unexpired before. */
  predicate Extends(s: Store, s': Store, clock: Time, clock': Time) {
    && s.version <= s'.version
    && clock <= clock'
    && forall sv :: sv in s'.vi && sv.version <= s.version && sv.id in s'.st
         && !GetState(s'.st[sv.id].silence, clock').Expired?
         ==> sv in s.vi && sv.id in s.st && !GetState(s.st[sv.id].silence, clock).Expired?
  }

  lemma ExtendsTransitive(s0: Store, s1: Store, s2: Store, t0: Time, t1: Time, t2: Time)
    requires Agrees(s1) && Extends(s0, s1, t0, t1) && Extends(s1, s2, t1, t2)
    ensures Extends(s0, s2, t0, t2)
  {
  }

  lemma ExtendsKeepsEntry(w: World, s: Store, s': Store, e: CacheEntry, l: LabelSet, clock: Time, clock': Time)
    requires Agrees(s) && StableMatchers(s, w.mo) && StableMatchers(s', w.mo)
    requires Extends(s, s', clock, clock') && EntryGood(w, s, e, l, clock)
    ensures EntryGood(w, s', e, l, clock')
  {
  }

  /** e may be merged into s: it carries the matchers of its ID, and they compile if
      the ID is new. */
  predicate FitsStore(w: World, s: Store, e: MeshSilence) {
    && e.silence.matcherSets == w.mo(e.silence.id)
    && (e.silence.id in s.st || AllCompile(w.cfg.rx, e.silence.matcherSets))
  }

  lemma EntryStable(w: World, s: Store, e: MeshSilence, now: Time)
    requires StableMatchers(s, w.mo) && e.silence.matcherSets == w.mo(e.silence.id)
    ensures StableMatchers(MergeEntry(w.cfg, s, e, now), w.mo)
  {
  }

  lemma AdditionExtends(cfg: Config, s: Store, e: MeshSilence, clock: Time, now: Time)
    requires e.silence.id !in s.st && clock <= now
    requires forall sv :: sv in s.vi ==> sv.id in s.st
    ensures Extends(s, IndexSilence(cfg, s.(st := s.st[e.silence.id := e]), e.silence), clock, now)
  {
  }

  lemma EntryExtendsOnly(cfg: Config, s: Store, e: MeshSilence, clock: Time, now: Time)
    requires forall sv :: sv in s.vi ==> sv.id in s.st
    requires !Revives(s, e, now) && clock <= now
    ensures Extends(s, MergeEntry(cfg, s, e, now), clock, now)
  {
  }

  lemma EntryExtends(w: World, s: Store, e: MeshSilence, clock: Time, now: Time)
    requires Agrees(s) && StableMatchers(s, w.mo) && FitsStore(w, s, e) && !Revives(s, e, now) && clock <= now
    ensures Agrees(MergeEntry(w.cfg, s, e, now)) && StableMatchers(MergeEntry(w.cfg, s, e, now), w.mo)
    ensures Extends(s, MergeEntry(w.cfg, s, e, now), clock, now)
  {
    EntryAgrees(w.cfg, s, e, now);
    EntryStable(w, s, e, now);
    EntryExtendsOnly(w.cfg, s, e, clock, now);
  }

  /** s' is a good successor of s. */
  ghost predicate GoodStep(w: World, s: Store, s': Store, clock: Time, clock': Time) {
    Agrees(s') && StableMatchers(s', w.mo) && Extends(s, s', clock, clock')
  }

  lemma ExpireExtends(w: World, s: Store, id: Id, clock: Time, now: Time)
    requires Agrees(s) && StableMatchers(s, w.mo) && clock <= now
    ensures GoodStep(w, s, Expire(w.cfg, s, id, now), clock, now)
  {
    if id in s.st && !GetState(s.st[id].silence, now).Expired? {
      EntryExtends(w, s, ToMesh(w.cfg, EndedAt(s.st[id].silence, now)), clock, now);
    }
  }

  lemma LaterExtends(s: Store, s': Store, clock: Time, now: Time, later: Time)
    requires Extends(s, s', clock, now) && now <= later
    ensures Extends(s, s', clock, later)
  {
  }

  lemma FreshExtends(w: World, s: Store, e: MeshSilence, now: Time, now3: Time)
    requires Agrees(s) && StableMatchers(s, w.mo) && FitsStore(w, s, e) && e.silence.id !in s.st
    ensures GoodStep(w, s, MergeEntry(w.cfg, s, e, now), now3, now3)
  {
    EntryAgrees(w.cfg, s, e, now);
    EntryStable(w, s, e, now);
    AdditionExtends(w.cfg, s, e, now3, now3);
  }

  lemma ReplaceExtends(w: World, s: Store, s1: Store, e: MeshSilence, clock: Time, now: Time, now3: Time)
    requires Agrees(s) && StableMatchers(s, w.mo)
    requires GoodStep(w, s, s1, clock, now3) && FitsStore(w, s1, e) && e.silence.id !in s1.st
    ensures GoodStep(w, s, MergeEntry(w.cfg, s1, e, now), clock, now3)
  {
    FreshExtends(w, s1, e, now, now3);
    ExtendsTransitive(s, s1, MergeEntry(w.cfg, s1, e, now), clock, now3, now3);
  }

  lemma SetStoredExtends(w: World, s: Store, sil: Silence, uid: Id, clock: Time, now: Time, now2: Time, now3: Time)
    requires Agrees(s) && StableMatchers(s, w.mo) && clock <= now <= now2 <= now3
    requires AllCompile(w.cfg.rx, sil.matcherSets) && uid !in s.st && w.mo(uid) == sil.matcherSets
    ensures GoodStep(w, s, SetStored(w.cfg, s, sil, uid, now, now2, now3), clock, now3)
  {
    if sil.id in s.st && CanUpdate(s.st[sil.id].silence, sil, now) {
      var e := ToMesh(w.cfg, sil.(updatedAt := now));
      EntryExtends(w, s, e, clock, now);
      LaterExtends(s, MergeEntry(w.cfg, s, e, now), clock, now, now3);
    } else {
      ExpireExtends(w, s, sil.id, clock, now3);
      ExpireAgrees(w.cfg, s, sil.id, now3);
      ReplaceExtends(
        w, s, WithoutOld(w.cfg, s, sil.id, now2, now3), ToMesh(w.cfg, Renewed(sil, uid, now)), clock, now, now3);
    }
  }

  lemma ShrinkExtends(s: Store, s': Store, clock: Time, now: Time)
    requires s'.version == s.version && clock <= now
    requires forall sv :: sv in s'.vi ==> sv in s.vi
    requires forall id :: id in s'.st ==> id in s.st && s'.st[id] == s.st[id]
    ensures Extends(s, s', clock, now)
  {
  }

  lemma GCExtends(w: World, s: Store, clock: Time, now: Time)
    requires Agrees(s) && StableMatchers(s, w.mo) && clock <= now
    ensures GoodStep(w, s, GC(s, now), clock, now)
  {
    GCAgrees(s, now);
    forall sv | sv in GC(s, now).vi ensures sv in s.vi {
      CompactMembers(s.st, now, s.vi, sv);
    }
    ShrinkExtends(s, GC(s, now), clock, now);
  }

  lemma {:induction false} MergeExtends(w: World, s: Store, es: seq<MeshSilence>, clock: Time, now: Time)
    requires Agrees(s) && StableMatchers(s, w.mo) && clock <= now
    requires forall i :: 0 <= i < |es| ==> EntryFits(w, es[i])
    requires NoRevival(w.cfg, s, es, now)
    ensures GoodStep(w, s, MergeAll(w.cfg, s, es, now), clock, now)
    decreases es
  {
    if es != [] {
      var s1 := MergeEntry(w.cfg, s, es[0], now);
      EntryExtends(w, s, es[0], clock, now);
      MergeExtends(w, s1, es[1..], now, now);
      ExtendsTransitive(s, s1, MergeAll(w.cfg, s, es, now), clock, now, now);
    }
  }

  /** A step on the store alone keeps every cache entry good. */
  lemma StoreStepKeepsCache(w: World, y: System, s': Store, clock: Time, clock': Time)
    requires Good(w, y, clock) && GoodStep(w, y.store, s', clock, clock')
    ensures Good(w, y.(store := s'), clock')
  {
  }

  lemma EmptyEntryGood(w: World, s: Store, l: LabelSet, clock: Time)
    requires Agrees(s)
    ensures EntryGood(w, s, CacheEntry(0, []), l, clock)
  {
  }

  lemma MutesKeepsCache(w: World, y: System, l: LabelSet, clock: Time, t: Readings)
    requires Good(w, y, clock) && InjectiveFingerprints(w) && Ordered(clock, t)
    ensures Good(w, Apply(w, y, DoMutes(l, t)), t.now)
  {
    var y' := Apply(w, y, DoMutes(l, t));
    forall k: LabelSet ensures EntryGood(w, y.store, Entry(y'.cache, w.fp(k)), k, t.now) {
      var e := Entry(y.cache, w.fp(k));
      assert EntryGood(w, y.store, e, k, clock);
      if k == l {
        MutesKeepsEntry(w.cfg, w.mo, y.store, e, l, clock, t);
      } else {
        assert w.fp(k) != w.fp(l);
        LaterExtends(y.store, y.store, clock, clock, t.now);
        ExtendsKeepsEntry(w, y.store, y.store, e, k, clock, t.now);
      }
    }
  }

  /** Every allowed step keeps the invariant. */
  lemma StepKeepsGood(w: World, y: System, clock: Time, step: Step)
    requires InjectiveFingerprints(w)
    requires Good(w, y, clock) && ClockMovesOn(clock, step) && Allowed(w, y, step)
    ensures Good(w, Apply(w, y, step), Clock(clock, step))
  {
    match step
    case DoSet(sil, uid, now, now2, now3) =>
      SetStoredExtends(w, y.store, WithStart(sil, now), uid, clock, now, now2, now3);
      StoreStepKeepsCache(w, y, Set(w.cfg, y.store, sil, uid, now, now2, now3), clock, now3);
    case DoExpire(id, now) =>
      ExpireExtends(w, y.store, id, clock, now);
      StoreStepKeepsCache(w, y, Expire(w.cfg, y.store, id, now), clock, now);
    case DoGC(now) =>
      GCExtends(w, y.store, clock, now);
      StoreStepKeepsCache(w, y, GC(y.store, now), clock, now);
    case DoMerge(es, now) =>
      MergeExtends(w, y.store, es, clock, now);
      StoreStepKeepsCache(w, y, MergeAll(w.cfg, y.store, es, now), clock, now);
    case DoMutes(l, t) =>
      MutesKeepsCache(w, y, l, clock, t);
    case DoForget(fps) =>
      forall l: LabelSet ensures EntryGood(w, y.store, Entry(y.cache - fps, w.fp(l)), l, clock) {
        EmptyEntryGood(w, y.store, l, clock);
      }
  }

  lemma {:induction false} RunStaysGood(w: World, y: System, clock: Time, steps: seq<Step>, i: nat)
    requires InjectiveFingerprints(w) && Good(w, y, clock) && Run(w, y, clock, steps) && i <= |steps|
    ensures Good(w, Before(w, y, clock, steps, i).0, Before(w, y, clock, steps, i).1)
    ensures i < |steps| ==> ClockMovesOn(Before(w, y, clock, steps, i).1, steps[i])
    decreases steps
  {
    if i > 0 {
      StepKeepsGood(w, y, clock, steps[0]);
      RunStaysGood(w, Apply(w, y, steps[0]), Clock(clock, steps[0]), steps[1..], i - 1);
    }
  }

  lemma StartsGood(w: World, s: Store, clock: Time)
    requires Agrees(s) && StableMatchers(s, w.mo)
    ensures Good(w, System(s, map[]), clock)
  {
  }

  /** Main theorem: in every run from a store whose indices agree and an empty cache,
      every Mutes step marks exactly the IDs a full scan finds, without repetition, and
      answers true exactly when there is one. */
  lemma CacheRefinesFullScan(w: World, s: Store, clock: Time, steps: seq<Step>, i: nat)
    requires InjectiveFingerprints(w) && Agrees(s) && StableMatchers(s, w.mo)
    requires Run(w, System(s, map[]), clock, steps) && i < |steps| && steps[i].DoMutes?
    ensures var y := Before(w, System(s, map[]), clock, steps, i).0;
            var l, t := steps[i].l, steps[i].t;
            var a := MutesAnswer(w.cfg, y.store, Entry(y.cache, w.fp(l)), l, t);
            && (a.muted <==> FullScan(w.cfg, y.store, l, t.now) != {})
            && (forall id :: id in a.marked <==> id in FullScan(w.cfg, y.store, l, t.now))
            && NoDuplicates(a.marked)
  {
    StartsGood(w, s, clock);
    RunStaysGood(w, System(s, map[]), clock, steps, i);
    var (y, c) := Before(w, System(s, map[]), clock, steps, i);
    var e := Entry(y.cache, w.fp(steps[i].l));
    assert EntryGood(w, y.store, e, steps[i].l, c);
    MutesCallExact(w.cfg, w.mo, y.store, e, steps[i].l, c, steps[i].t);
  }

  /** Over the same runs the three indices agree before and after every step. */
  lemma IndicesAlwaysAgree(w: World, s: Store, clock: Time, steps: seq<Step>, i: nat)
    requires InjectiveFingerprints(w) && Agrees(s) && StableMatchers(s, w.mo)
    requires Run(w, System(s, map[]), clock, steps) && i <= |steps|
    ensures Agrees(Before(w, System(s, map[]), clock, steps, i).0.store)
  {
    StartsGood(w, s, clock);
    RunStaysGood(w, System(s, map[]), clock, steps, i);
  }

  // ---------------------------------------------------------------- without the no-revival premise

  /** A merge at `now` would hide e from the cache entry ce of l until t: e replaces a
      silence that is indexed at a version ce has seen but that ce no longer lists, and
      at t e is active and matches. */
  predicate Hides(w: World, s: Store, ce: CacheEntry, e: MeshSilence, l: LabelSet, now: Time, t: Time) {
    && Accepts(s.st, e, now)
    && e.silence.id in s.st
    && e.silence.id !in ce.ids
    && (exists sv :: sv in s.vi && sv.id == e.silence.id && sv.version <= ce.version)
    && GetState(e.silence, t).Active?
    && AnySetMatches(w.cfg.rx, e.silence.matcherSets, l)
  }

  lemma MergedCoverage(w: World, s: Store, ce: CacheEntry, e: MeshSilence, l: LabelSet, now: Time, t: Time)
    requires Agrees(s) && Accepts(s.st, e, now) && ce.version <= s.version
    requires GetState(e.silence, t).Active? && AnySetMatches(w.cfg.rx, e.silence.matcherSets, l)
    ensures Covered(MergeEntry(w.cfg, s, e, now), ce, e.silence.id) <==> !Hides(w, s, ce, e, l, now, t)
  {
  }

  lemma OtherCoverage(
      w: World, s: Store, ce: CacheEntry, e: MeshSilence, l: LabelSet, clock: Time, now: Time, t: Time, id: Id)
    requires Agrees(s) && EntryGood(w, s, ce, l, clock) && StableMatchers(s, w.mo) && clock <= t
    requires id in FullScan(w.cfg, MergeEntry(w.cfg, s, e, now), l, t)
    requires id != e.silence.id || !Accepts(s.st, e, now)
    ensures Covered(MergeEntry(w.cfg, s, e, now), ce, id)
  {
    var s' := MergeEntry(w.cfg, s, e, now);
    assert id in s.st && s'.st[id] == s.st[id];
    assert Interesting(w.cfg, s, id, l, t);
    CompleteCovers(w.cfg, s, ce, l, clock, t, id);
    forall sv | sv in s'.vi && sv.id == id ensures sv in s.vi {
    }
  }

  /** Merging one entry and then asking: the answer is that of a full scan if and only
      if the merge did not hide the entry from the cache. */
  lemma ExactUnlessHidden(
      w: World, s: Store, ce: CacheEntry, e: MeshSilence, l: LabelSet, clock: Time, now: Time, t: Readings)
    requires Agrees(s) && StableMatchers(s, w.mo) && EntryGood(w, s, ce, l, clock)
    requires FitsStore(w, s, e) && clock <= now && Ordered(now, t)
    ensures var s' := MergeEntry(w.cfg, s, e, now);
            (forall id :: id in MutesAnswer(w.cfg, s', ce, l, t).marked <==> id in FullScan(w.cfg, s', l, t.now))
            <==> !Hides(w, s, ce, e, l, now, t.now)
  {
    var s' := MergeEntry(w.cfg, s, e, now);
    EntryAgrees(w.cfg, s, e, now);
    EntryStable(w, s, e, now);
    MutesMarksCovered(w.cfg, w.mo, s', ce, l, t);
    forall id | id in FullScan(w.cfg, s', l, t.now)
      ensures Covered(s', ce, id) <==> !(id == e.silence.id && Hides(w, s, ce, e, l, now, t.now))
    {
      if id == e.silence.id && Accepts(s.st, e, now) {
        MergedCoverage(w, s, ce, e, l, now, t.now);
      } else {
        OtherCoverage(w, s, ce, e, l, clock, now, t.now, id);
      }
    }
    if Hides(w, s, ce, e, l, now, t.now) {
      assert e.silence.id in FullScan(w.cfg, s', l, t.now);
    }
  }

  const MATCHERS: seq<seq<Matcher>> := [[Matcher(MatchEqual, "job", "api")]]
  const ENDED := MeshSilence(Silence("a", MATCHERS, 1, 10, 1), 100)
  const REVIVED := MeshSilence(Silence("a", MATCHERS, 1, 50, 5), 100)
  const ALERT: LabelSet := map["job" := "api"]

  const NEW := Silence("", MATCHERS, 5, 50, 0)

  /** The store after that silence was set. */
  function WithNew(uid: Id): Store {
    Store(map[uid := MeshSilence(Silence(uid, MATCHERS, 10, 50, 10), 50)], map[uid := MATCHERS],
          [SilenceVersion(uid, 1)], 1)
  }

  lemma NewIsStored(w: World, uid: Id)
    requires w.cfg.retention == 0 && w.cfg.maxSilences <= 0 && w.cfg.maxSize <= 0
    requires w.cfg.validName("job") && w.cfg.validValue("api")
    ensures Set(w.cfg, EMPTY_STORE, NEW, uid, 10, 10, 10) == WithNew(uid)
  {
    assert !MatchesEmpty(w.cfg, MATCHERS[0][0]);
    assert SetAnswer(w.cfg, EMPTY_STORE, WithStart(NEW, 10), uid, 10).Stored?;
  }

  /** A run that meets every premise: a silence is set, and an alert it matches is muted by it. */
  lemma SetThenMuted(w: World, uid: Id) returns (steps: seq<Step>)
    requires w.cfg.retention == 0 && w.cfg.maxSilences <= 0 && w.cfg.maxSize <= 0
    requires w.cfg.validName("job") && w.cfg.validValue("api") && w.mo(uid) == MATCHERS
    ensures |steps| == 2 && Run(w, System(EMPTY_STORE, map[]), 0, steps) && steps[1].DoMutes?
    ensures var y := Before(w, System(EMPTY_STORE, map[]), 0, steps, 1).0;
      MutesAnswer(w.cfg, y.store, Entry(y.cache, w.fp(steps[1].l)), steps[1].l, steps[1].t) == MuteAnswer(true, [uid])
  {
    steps := [DoSet(NEW, uid, 10, 10, 10), DoMutes(ALERT, Readings(20, 20, 20))];
    NewIsStored(w, uid);
    var s := WithNew(uid);
    assert steps[1..] == [steps[1]] && [steps[1]][1..] == [];
    assert AllMatch(w.cfg.rx, MATCHERS[0], ALERT);
    assert FirstAfter(s.vi, 0) == 0 && s.vi[0..] == s.vi;
    assert Scan(w.cfg, s, s.vi, ALERT, 20, 0) == Found([]);
    assert Scan(w.cfg, s, s.vi, ALERT, 20, 1) == Found([s.st[uid].silence]);
    assert Candidates(w.cfg, s, CacheEntry(0, []), ALERT, Readings(20, 20, 20)).0 == [s.st[uid].silence];
    assert Classify([s.st[uid].silence], 20, {Active}, 0) == [];
  }

  lemma EndedIsForgotten(w: World)
    requires w.mo("a") == MATCHERS
    ensures var s := MergeAll(w.cfg, EMPTY_STORE, [ENDED], 2);
            && s.st == map["a" := ENDED] && s.vi == [SilenceVersion("a", 1)] && s.version == 1
            && MutesEntry(w.cfg, s, CacheEntry(0, []), ALERT, Readings(11, 11, 11)) == CacheEntry(1, [])
  {
    var s := MergeEntry(w.cfg, EMPTY_STORE, ENDED, 2);
    assert MergeAll(w.cfg, EMPTY_STORE, [ENDED], 2) == MergeAll(w.cfg, s, [], 2) == s;
    assert FirstAfter(s.vi, 0) == 0 && s.vi[0..] == s.vi;
    assert Scan(w.cfg, s, s.vi, ALERT, 11, 0) == Found([]);
    assert Scan(w.cfg, s, s.vi, ALERT, 11, 1) == Found([]);
  }

  lemma RevivedKeepsVersion(w: World, s: Store)
    requires s.st == map["a" := ENDED] && s.vi == [SilenceVersion("a", 1)] && s.version == 1
    ensures var s' := MergeAll(w.cfg, s, [REVIVED], 12);
      && s' == MergeEntry(w.cfg, s, REVIVED, 12)
      && s'.st == map["a" := REVIVED] && s'.vi == s.vi && s'.version == 1
  {
    var s' := MergeEntry(w.cfg, s, REVIVED, 12);
    assert MergeAll(w.cfg, s, [REVIVED], 12) == MergeAll(w.cfg, s', [], 12) == s';
  }

  /** A run that meets every premise but the last: a silence ends, an alert is checked, a
      peer's newer copy prolongs the silence, and the alert is still reported as not
      silenced. */
  lemma RevivedSilenceIsMissed(w: World)
    requires w.mo("a") == MATCHERS
    ensures var y0 := System(EMPTY_STORE, map[]);
            var y1 := Apply(w, y0, DoMerge([ENDED], 2));
            var y2 := Apply(w, y1, DoMutes(ALERT, Readings(11, 11, 11)));
            var y3 := Apply(w, y2, DoMerge([REVIVED], 12));
            && EntryFits(w, ENDED) && EntryFits(w, REVIVED)
            && Revives(y2.store, REVIVED, 12)
            && "a" in FullScan(w.cfg, y3.store, ALERT, 13)
            && !MutesAnswer(w.cfg, y3.store, Entry(y3.cache, w.fp(ALERT)), ALERT, Readings(13, 13, 13)).muted
  {
    EndedIsForgotten(w);
    var s1 := MergeAll(w.cfg, EMPTY_STORE, [ENDED], 2);
    var s3 := MergeAll(w.cfg, s1, [REVIVED], 12);
    RevivedKeepsVersion(w, s1);
    assert AllMatch(w.cfg.rx, MATCHERS[0], ALERT);
    assert FastPath(s3, CacheEntry(1, []));
  }
}
