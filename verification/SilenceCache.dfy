/** Queries over the silence store and the per-alert cache of silence IDs that the
    Silencer keeps on top of them: what one call answers, and what entry it leaves behind. */
module SilenceCache {
  import opened Basics
  import opened Labels
  import opened SilenceStore

  type Fingerprint = int

  datatype CacheEntry = CacheEntry(version: int, ids: seq<Id>)

  datatype System = System(store: Store, cache: map<Fingerprint, CacheEntry>)

  datatype MuteAnswer = MuteAnswer(muted: bool, marked: seq<Id>)

  /** Clock readings of one call to Mutes: in the two queries, then when classifying. */
  datatype Readings = Readings(first: Time, second: Time, now: Time)

  // ---------------------------------------------------------------- queries

  /** Active or pending silences among the given IDs, in the given order. */
  function QueryIds(s: Store, ids: seq<Id>, now: Time, n: nat): seq<Silence>
    requires n <= |ids|
  {
    if n == 0 then []
    else
      QueryIds(s, ids, now, n - 1) +
      (if ids[n - 1] in s.st && !GetState(s.st[ids[n - 1]].silence, now).Expired?
       then [s.st[ids[n - 1]].silence] else [])
  }

  /** Failed: the matcher index misses a scanned silence. Crashed: the state map does,
      and the scan dereferences a missing entry. */
  datatype QueryResult = Found(sils: seq<Silence>) | Failed | Crashed

  /** Scanning the first n of the given index entries. */
  function Scan(cfg: Config, s: Store, svs: seq<SilenceVersion>, l: LabelSet, now: Time, n: nat): QueryResult
    requires n <= |svs|
  {
    if n == 0 then Found([])
    else
      var rest := Scan(cfg, s, svs, l, now, n - 1);
      var id := svs[n - 1].id;
      if !rest.Found? then rest
      else if id !in s.st then Crashed
      else if GetState(s.st[id].silence, now).Expired? then rest
      else if id !in s.mi then Failed
      else if AnySetMatches(cfg.rx, s.mi[id], l) then Found(rest.sils + [s.st[id].silence])
      else rest
  }

  /** Position of the first index entry newer than v. */
  function FirstAfter(vi: seq<SilenceVersion>, v: int): (k: nat)
    ensures k <= |vi|
    ensures forall i :: 0 <= i < k ==> vi[i].version <= v
    ensures k < |vi| ==> vi[k].version > v
  {
    if vi == [] || vi[0].version > v then 0 else 1 + FirstAfter(vi[1..], v)
  }

  lemma {:induction false} FirstAfterUnique(vi: seq<SilenceVersion>, v: int, k: nat)
    requires k <= |vi|
    requires forall i :: 0 <= i < k ==> vi[i].version <= v
    requires k < |vi| ==> vi[k].version > v
    ensures k == FirstAfter(vi, v)
  {
  }

  function QuerySince(cfg: Config, s: Store, v: int, l: LabelSet, now: Time): QueryResult {
    var svs := s.vi[FirstAfter(s.vi, v)..];
    Scan(cfg, s, svs, l, now, |svs|)
  }

  predicate Interesting(cfg: Config, s: Store, id: Id, l: LabelSet, now: Time) {
    && id in s.st && id in s.mi
    && !GetState(s.st[id].silence, now).Expired?
    && AnySetMatches(cfg.rx, s.mi[id], l)
  }

  lemma {:induction false} QueryIdsExact(s: Store, ids: seq<Id>, now: Time, n: nat, sil: Silence)
    requires n <= |ids|
    ensures sil in QueryIds(s, ids, now, n) <==>
            exists i :: 0 <= i < n && ids[i] in s.st && sil == s.st[ids[i]].silence && !GetState(sil, now).Expired?
  {
    if n > 0 { QueryIdsExact(s, ids, now, n - 1, sil); }
  }

  lemma {:induction false} ScanExact(
      cfg: Config, s: Store, svs: seq<SilenceVersion>, l: LabelSet, now: Time, n: nat, sil: Silence)
    requires n <= |svs|
    requires forall i :: 0 <= i < |svs| ==> svs[i].id in s.st && svs[i].id in s.mi
    ensures Scan(cfg, s, svs, l, now, n).Found?
    ensures sil in Scan(cfg, s, svs, l, now, n).sils <==>
            exists i :: 0 <= i < n && sil == s.st[svs[i].id].silence && Interesting(cfg, s, svs[i].id, l, now)
  {
    if n > 0 { ScanExact(cfg, s, svs, l, now, n - 1, sil); }
  }

  lemma SuffixIsNewer(vi: seq<SilenceVersion>, v: int, sv: SilenceVersion)
    requires Sorted(vi)
    ensures sv in vi[FirstAfter(vi, v)..] <==> sv in vi && sv.version > v
  {
  }

  predicate NewerMatch(cfg: Config, s: Store, v: int, l: LabelSet, now: Time, sv: SilenceVersion) {
    sv in s.vi && sv.version > v && Interesting(cfg, s, sv.id, l, now)
  }

  lemma QuerySinceFinds(cfg: Config, s: Store, v: int, l: LabelSet, now: Time, sv: SilenceVersion)
    requires Agrees(s) && NewerMatch(cfg, s, v, l, now, sv)
    ensures QuerySince(cfg, s, v, l, now).Found? && s.st[sv.id].silence in QuerySince(cfg, s, v, l, now).sils
  {
    var svs := s.vi[FirstAfter(s.vi, v)..];
    SuffixIsNewer(s.vi, v, sv);
    ScanExact(cfg, s, svs, l, now, |svs|, s.st[sv.id].silence);
    var i :| 0 <= i < |svs| && svs[i] == sv;
  }

  /** A query since version v never fails and returns exactly the unexpired matching
      silences indexed after v. */
  lemma QuerySinceExact(cfg: Config, s: Store, v: int, l: LabelSet, now: Time, sil: Silence)
    requires Agrees(s)
    ensures QuerySince(cfg, s, v, l, now).Found?
    ensures sil in QuerySince(cfg, s, v, l, now).sils <==>
            exists sv :: NewerMatch(cfg, s, v, l, now, sv) && sil == s.st[sv.id].silence
  {
    var svs := s.vi[FirstAfter(s.vi, v)..];
    ScanExact(cfg, s, svs, l, now, |svs|, sil);
    if sil in QuerySince(cfg, s, v, l, now).sils {
      var i :| 0 <= i < |svs| && sil == s.st[svs[i].id].silence && Interesting(cfg, s, svs[i].id, l, now);
      SuffixIsNewer(s.vi, v, svs[i]);
      assert NewerMatch(cfg, s, v, l, now, svs[i]);
    }
    forall sv | NewerMatch(cfg, s, v, l, now, sv) && sil == s.st[sv.id].silence
      ensures sil in QuerySince(cfg, s, v, l, now).sils
    {
      QuerySinceFinds(cfg, s, v, l, now, sv);
    }
  }

  // ---------------------------------------------------------------- Mutes

  function Entry(cache: map<Fingerprint, CacheEntry>, fp: Fingerprint): CacheEntry {
    if fp in cache then cache[fp] else CacheEntry(0, [])
  }

  predicate Listed(sils: seq<Silence>, id: Id) {
    exists i :: 0 <= i < |sils| && sils[i].id == id
  }

  /** IDs of the first n silences that satisfy `want` at `now`, each silence counted
      where its ID first occurs. */
  function Classify(sils: seq<Silence>, now: Time, want: set<SilenceState>, n: nat): seq<Id>
    requires n <= |sils|
  {
    if n == 0 then []
    else
      Classify(sils, now, want, n - 1) +
      (if !Listed(sils[..n - 1], sils[n - 1].id) && GetState(sils[n - 1], now) in want
       then [sils[n - 1].id] else [])
  }

  /** The silences Mutes looks at again, and the version its view is then based on. */
  function Candidates(cfg: Config, s: Store, e: CacheEntry, l: LabelSet, t: Readings): (seq<Silence>, int) {
    var known := QueryIds(s, e.ids, t.first, |e.ids|);
    if e.version == s.version then (known, e.version)
    else
      var newer := QuerySince(cfg, s, e.version, l, t.second);
      (known + (if newer.Found? then newer.sils else []), s.version)
  }

  predicate FastPath(s: Store, e: CacheEntry) { e.version == s.version && e.ids == [] }

  function MutesEntry(cfg: Config, s: Store, e: CacheEntry, l: LabelSet, t: Readings): CacheEntry
  {
    var (sils, v) := Candidates(cfg, s, e, l, t);
    if FastPath(s, e) then e else CacheEntry(v, Classify(sils, t.now, {Pending, Active}, |sils|))
  }

  function MutesAnswer(cfg: Config, s: Store, e: CacheEntry, l: LabelSet, t: Readings): MuteAnswer
  {
    var sils := Candidates(cfg, s, e, l, t).0;
    var active := Classify(sils, t.now, {Active}, |sils|);
    if FastPath(s, e) then MuteAnswer(false, []) else MuteAnswer(active != [], active)
  }

  /** The answer by definition: the active silences whose own matchers match. */
  function FullScan(cfg: Config, s: Store, l: LabelSet, now: Time): set<Id> {
    set id |
      id in s.st && GetState(s.st[id].silence, now).Active? && AnySetMatches(cfg.rx, s.st[id].silence.matcherSets, l)
  }

  lemma {:induction false} ClassifyExact(sils: seq<Silence>, now: Time, want: set<SilenceState>, n: nat, id: Id)
    requires n <= |sils|
    requires forall i, j :: 0 <= i < j < |sils| && sils[i].id == sils[j].id ==> sils[i] == sils[j]
    ensures id in Classify(sils, now, want, n) <==>
            exists i :: 0 <= i < n && sils[i].id == id && GetState(sils[i], now) in want
  {
    if n > 0 {
      ClassifyExact(sils, now, want, n - 1, id);
      if sils[n - 1].id == id && Listed(sils[..n - 1], id) {
        var i :| 0 <= i < n - 1 && sils[..n - 1][i].id == id;
        assert sils[i] == sils[n - 1];
      }
    }
  }

  lemma {:induction false} ClassifyDistinct(sils: seq<Silence>, now: Time, want: set<SilenceState>, n: nat)
    requires n <= |sils|
    ensures NoDuplicates(Classify(sils, now, want, n))
    ensures forall id :: id in Classify(sils, now, want, n) ==> Listed(sils[..n], id)
  {
    if n > 0 {
      ClassifyDistinct(sils, now, want, n - 1);
      forall id | Listed(sils[..n - 1], id) || id == sils[n - 1].id ensures Listed(sils[..n], id) {
        if Listed(sils[..n - 1], id) {
          var i :| 0 <= i < n - 1 && sils[..n - 1][i].id == id;
          assert sils[..n][i].id == id;
        } else {
          assert sils[..n][n - 1].id == id;
        }
      }
    }
  }

  // ---------------------------------------------------------------- what a cache entry means

  /** The matchers every replica has for an ID. */
  type MatchersOf = Id -> seq<seq<Matcher>>

  /** Equal IDs carry equal matchers. */
  predicate StableMatchers(s: Store, mo: MatchersOf) {
    && (forall id :: id in s.st ==> s.st[id].silence.matcherSets == mo(id))
    && (forall id :: id in s.mi ==> s.mi[id] == mo(id))
  }

  /** Every cached ID belongs to matchers that match the alert. */
  predicate EntrySound(cfg: Config, mo: MatchersOf, e: CacheEntry, l: LabelSet) {
    forall id :: id in e.ids ==> AnySetMatches(cfg.rx, mo(id), l)
  }

  /** Every unexpired matching silence indexed up to the entry's version is cached. */
  predicate EntryComplete(cfg: Config, s: Store, e: CacheEntry, l: LabelSet, now: Time) {
    && e.version <= s.version
    && forall sv :: sv in s.vi && sv.version <= e.version && Interesting(cfg, s, sv.id, l, now) ==> sv.id in e.ids
  }

  predicate Ordered(clock: Time, t: Readings) { clock <= t.first <= t.second <= t.now }

  lemma HasEntry(s: Store, id: Id) returns (sv: SilenceVersion)
    requires Agrees(s) && id in s.st
    ensures sv in s.vi && sv.id == id
  {
    assert HasId(s.vi, id);
    var i :| 0 <= i < |s.vi| && s.vi[i].id == id;
    sv := s.vi[i];
  }

  lemma CandidateIsMatch(cfg: Config, mo: MatchersOf, s: Store, e: CacheEntry, l: LabelSet, t: Readings, sil: Silence)
    requires Agrees(s) && StableMatchers(s, mo) && EntrySound(cfg, mo, e, l)
    requires sil in Candidates(cfg, s, e, l, t).0
    ensures sil.id in s.st && sil == s.st[sil.id].silence && AnySetMatches(cfg.rx, mo(sil.id), l)
  {
    QueryIdsExact(s, e.ids, t.first, |e.ids|, sil);
    QuerySinceExact(cfg, s, e.version, l, t.second, sil);
  }

  lemma StaysInteresting(cfg: Config, s: Store, id: Id, l: LabelSet, t: Time, now: Time)
    requires t <= now && Interesting(cfg, s, id, l, now)
    ensures Interesting(cfg, s, id, l, t)
  {
  }

  lemma CachedIsQueried(cfg: Config, s: Store, e: CacheEntry, l: LabelSet, t: Time, id: Id)
    requires id in e.ids && Interesting(cfg, s, id, l, t)
    ensures s.st[id].silence in QueryIds(s, e.ids, t, |e.ids|)
  {
    var i :| 0 <= i < |e.ids| && e.ids[i] == id;
    QueryIdsExact(s, e.ids, t, |e.ids|, s.st[id].silence);
  }

  lemma NewerIsQueried(cfg: Config, s: Store, v: int, l: LabelSet, t: Time, sv: SilenceVersion)
    requires Agrees(s) && sv in s.vi && v < sv.version && Interesting(cfg, s, sv.id, l, t)
    ensures v < s.version
    ensures QuerySince(cfg, s, v, l, t).Found?
    ensures s.st[sv.id].silence in QuerySince(cfg, s, v, l, t).sils
  {
    assert sv.version <= s.version;
    QuerySinceFinds(cfg, s, v, l, t, sv);
  }

  /** The entry still knows id, or has yet to see it: id is not indexed at a version the
      entry already covers, unless it is cached. */
  predicate Covered(s: Store, e: CacheEntry, id: Id) {
    forall sv :: sv in s.vi && sv.id == id && sv.version <= e.version ==> id in e.ids
  }

  lemma MatchIsCandidate(cfg: Config, s: Store, e: CacheEntry, l: LabelSet, t: Readings, id: Id)
    requires Agrees(s) && Covered(s, e, id) && Ordered(t.first, t)
    requires Interesting(cfg, s, id, l, t.now)
    ensures s.st[id].silence in Candidates(cfg, s, e, l, t).0
  {
    var sv := HasEntry(s, id);
    StaysInteresting(cfg, s, id, l, t.first, t.now);
    StaysInteresting(cfg, s, id, l, t.second, t.now);
    if sv.version <= e.version {
      CachedIsQueried(cfg, s, e, l, t.first, id);
    } else {
      NewerIsQueried(cfg, s, e.version, l, t.second, sv);
    }
  }

  lemma CandidateIsCovered(cfg: Config, s: Store, e: CacheEntry, l: LabelSet, t: Readings, sil: Silence)
    requires Agrees(s) && sil in Candidates(cfg, s, e, l, t).0
    ensures Covered(s, e, sil.id)
  {
    if sil in QueryIds(s, e.ids, t.first, |e.ids|) {
      QueryIdsExact(s, e.ids, t.first, |e.ids|, sil);
    } else {
      QuerySinceExact(cfg, s, e.version, l, t.second, sil);
      var sv :| NewerMatch(cfg, s, e.version, l, t.second, sv) && sil == s.st[sv.id].silence;
      forall sv' | sv' in s.vi && sv'.id == sil.id ensures sv' == sv {
        SameIdSameEntry(s, sv, sv');
      }
    }
  }

  lemma SameIdSameEntry(s: Store, sv: SilenceVersion, sv': SilenceVersion)
    requires DistinctIds(s.vi) && sv in s.vi && sv' in s.vi && sv.id == sv'.id
    ensures sv == sv'
  {
  }

  /** A call on a sound entry. */
  predicate SoundCall(cfg: Config, mo: MatchersOf, s: Store, e: CacheEntry, l: LabelSet, t: Readings) {
    && Agrees(s) && StableMatchers(s, mo) && Ordered(t.first, t)
    && EntrySound(cfg, mo, e, l)
  }

  lemma ClassifiedExactly(
      cfg: Config, mo: MatchersOf, s: Store, e: CacheEntry, l: LabelSet, t: Readings,
      want: set<SilenceState>, id: Id)
    requires SoundCall(cfg, mo, s, e, l, t) && Expired !in want
    ensures var sils := Candidates(cfg, s, e, l, t).0;
            id in Classify(sils, t.now, want, |sils|) <==>
            Interesting(cfg, s, id, l, t.now) && GetState(s.st[id].silence, t.now) in want && Covered(s, e, id)
  {
    var sils := Candidates(cfg, s, e, l, t).0;
    forall sil | sil in sils
      ensures sil.id in s.st && sil == s.st[sil.id].silence && AnySetMatches(cfg.rx, mo(sil.id), l)
      ensures Covered(s, e, sil.id)
    {
      CandidateIsMatch(cfg, mo, s, e, l, t, sil);
      CandidateIsCovered(cfg, s, e, l, t, sil);
    }
    ClassifyExact(sils, t.now, want, |sils|, id);
    if Interesting(cfg, s, id, l, t.now) && Covered(s, e, id) {
      MatchIsCandidate(cfg, s, e, l, t, id);
      var i :| 0 <= i < |sils| && sils[i] == s.st[id].silence;
    }
  }

  lemma FastPathHasNoCandidates(cfg: Config, s: Store, e: CacheEntry, l: LabelSet, t: Readings)
    requires FastPath(s, e)
    ensures Candidates(cfg, s, e, l, t).0 == []
  {
  }

  /** What one call to Mutes marks on any sound entry: exactly the silences a full scan
      finds and the entry covers. */
  lemma MutesMarksCovered(cfg: Config, mo: MatchersOf, s: Store, e: CacheEntry, l: LabelSet, t: Readings)
    requires SoundCall(cfg, mo, s, e, l, t)
    ensures NoDuplicates(MutesAnswer(cfg, s, e, l, t).marked)
    ensures forall id :: id in MutesAnswer(cfg, s, e, l, t).marked <==>
      id in FullScan(cfg, s, l, t.now) && Covered(s, e, id)
    ensures MutesAnswer(cfg, s, e, l, t).muted <==> MutesAnswer(cfg, s, e, l, t).marked != []
  {
    var sils := Candidates(cfg, s, e, l, t).0;
    var active := Classify(sils, t.now, {Active}, |sils|);
    forall id ensures id in active <==> id in FullScan(cfg, s, l, t.now) && Covered(s, e, id) {
      ClassifiedExactly(cfg, mo, s, e, l, t, {Active}, id);
    }
    ClassifyDistinct(sils, t.now, {Active}, |sils|);
    if FastPath(s, e) { FastPathHasNoCandidates(cfg, s, e, l, t); }
  }

  lemma CompleteCovers(cfg: Config, s: Store, e: CacheEntry, l: LabelSet, clock: Time, now: Time, id: Id)
    requires EntryComplete(cfg, s, e, l, clock) && clock <= now && Interesting(cfg, s, id, l, now)
    ensures Covered(s, e, id)
  {
  }

  /** One call to Mutes on a sound and complete entry answers like the full scan. */
  lemma MutesCallExact(cfg: Config, mo: MatchersOf, s: Store, e: CacheEntry, l: LabelSet, clock: Time, t: Readings)
    requires SoundCall(cfg, mo, s, e, l, t) && EntryComplete(cfg, s, e, l, clock) && clock <= t.first
    ensures NoDuplicates(MutesAnswer(cfg, s, e, l, t).marked)
    ensures forall id :: id in MutesAnswer(cfg, s, e, l, t).marked <==> id in FullScan(cfg, s, l, t.now)
    ensures MutesAnswer(cfg, s, e, l, t).muted <==> FullScan(cfg, s, l, t.now) != {}
  {
    MutesMarksCovered(cfg, mo, s, e, l, t);
    forall id | id in FullScan(cfg, s, l, t.now) ensures Covered(s, e, id) {
      CompleteCovers(cfg, s, e, l, clock, t.now, id);
    }
    var marked := MutesAnswer(cfg, s, e, l, t).marked;
    assert marked != [] ==> marked[0] in marked;
  }

  /** One call to Mutes leaves a sound and complete entry. */
  lemma MutesKeepsEntry(cfg: Config, mo: MatchersOf, s: Store, e: CacheEntry, l: LabelSet, clock: Time, t: Readings)
    requires SoundCall(cfg, mo, s, e, l, t) && EntryComplete(cfg, s, e, l, clock) && clock <= t.first
    ensures EntrySound(cfg, mo, MutesEntry(cfg, s, e, l, t), l)
    ensures EntryComplete(cfg, s, MutesEntry(cfg, s, e, l, t), l, t.now)
  {
    var sils := Candidates(cfg, s, e, l, t).0;
    var all := Classify(sils, t.now, {Pending, Active}, |sils|);
    forall id ensures id in all <==> Interesting(cfg, s, id, l, t.now) {
      ClassifiedExactly(cfg, mo, s, e, l, t, {Pending, Active}, id);
      if Interesting(cfg, s, id, l, t.now) { CompleteCovers(cfg, s, e, l, clock, t.now, id); }
    }
    if FastPath(s, e) { FastPathHasNoCandidates(cfg, s, e, l, t); }
  }
}
