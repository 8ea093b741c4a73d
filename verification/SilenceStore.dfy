/** The silence store as a value: a last-writer-wins map of silences, the compiled
    matcher index and the version index, with every operation as a function of the
    old store and the clock readings it takes. */
module SilenceStore {
  import opened Basics
  import opened Labels

  type Id = string

  datatype Silence = Silence(
    id: Id, matcherSets: seq<seq<Matcher>>, startsAt: Time, endsAt: Time, updatedAt: Time)

  datatype MeshSilence = MeshSilence(silence: Silence, expiresAt: Time)

  datatype SilenceVersion = SilenceVersion(id: Id, version: int)

  datatype SilenceState = Expired | Active | Pending

  /** `mi` maps an ID to the matcher sets that were compiled for it. */
  datatype Store = Store(
    st: map<Id, MeshSilence>, mi: map<Id, seq<seq<Matcher>>>, vi: seq<SilenceVersion>, version: int)

  /** Non-positive limits are switched off. */
  datatype Config = Config(
    rx: Regexes, validName: string -> bool, validValue: string -> bool, retention: int,
    maxSilences: int, maxSize: int, size: MeshSilence -> int)

  datatype SetOutcome = Stored | InvalidSilence | NotFound | TooManySilences | TooLarge

  const EMPTY_STORE := Store(map[], map[], [], 0)

  const NANOS_PER_SECOND := 1_000_000_000

  function GetState(s: Silence, ts: Time): SilenceState {
    if ts < s.startsAt then Pending
    else if ts > s.endsAt then Expired
    else Active
  }

  function UnixSeconds(t: Time): int { t / NANOS_PER_SECOND }

  predicate CanUpdate(a: Silence, b: Silence, now: Time) {
    && a.matcherSets == b.matcherSets
    && match GetState(a, now)
       case Active => UnixSeconds(a.startsAt) == UnixSeconds(b.startsAt) && b.endsAt >= now
       case Pending => b.startsAt >= now
       case Expired => false
  }

  predicate ValidMatcher(cfg: Config, m: Matcher) {
    && cfg.validName(m.name)
    && (if IsRegexp(m) then cfg.rx.compiles(m.value) else cfg.validValue(m.value))
  }

  predicate MatchesEmpty(cfg: Config, m: Matcher) {
    match m.ty
    case MatchEqual => m.value == ""
    case MatchRegexp => cfg.rx.matches(m.value, "")
    case _ => false
  }

  predicate ValidMatcherSet(cfg: Config, ms: seq<Matcher>) {
    && ms != []
    && (forall i :: 0 <= i < |ms| ==> ValidMatcher(cfg, ms[i]))
    && exists i :: 0 <= i < |ms| && !MatchesEmpty(cfg, ms[i])
  }

  predicate ValidSilence(cfg: Config, s: Silence) {
    && s.matcherSets != []
    && (forall i :: 0 <= i < |s.matcherSets| ==> ValidMatcherSet(cfg, s.matcherSets[i]))
    && !IsZero(s.startsAt) && !IsZero(s.endsAt)
    && s.startsAt <= s.endsAt
  }

  /** state.merge takes the entry: it is not past its retention and either new or
      strictly newer than the stored one. */
  predicate Accepts(st: map<Id, MeshSilence>, e: MeshSilence, now: Time) {
    && e.expiresAt >= now
    && (e.silence.id in st ==> st[e.silence.id].silence.updatedAt < e.silence.updatedAt)
  }

  function IndexSilence(cfg: Config, s: Store, sil: Silence): Store {
    s.(version := s.version + 1,
       vi := s.vi + [SilenceVersion(sil.id, s.version + 1)],
       mi := if AllCompile(cfg.rx, sil.matcherSets) then s.mi[sil.id := sil.matcherSets] else s.mi)
  }

  function MergeEntry(cfg: Config, s: Store, e: MeshSilence, now: Time): Store {
    if !Accepts(s.st, e, now) then s
    else
      var s' := s.(st := s.st[e.silence.id := e]);
      if e.silence.id in s.st then s' else IndexSilence(cfg, s', e.silence)
  }

  function ToMesh(cfg: Config, sil: Silence): MeshSilence {
    MeshSilence(sil, sil.endsAt + cfg.retention)
  }

  /** What expire writes for a silence that is active or pending at `now`. */
  function EndedAt(sil: Silence, now: Time): Silence {
    if GetState(sil, now).Pending?
    then sil.(startsAt := now, endsAt := now, updatedAt := now)
    else sil.(endsAt := now, updatedAt := now)
  }

  function Expire(cfg: Config, s: Store, id: Id, now: Time): Store {
    if id !in s.st || GetState(s.st[id].silence, now).Expired? then s
    else MergeEntry(cfg, s, ToMesh(cfg, EndedAt(s.st[id].silence, now)), now)
  }

  predicate Oversized(cfg: Config, e: MeshSilence) {
    cfg.maxSize > 0 && cfg.size(e) > cfg.maxSize
  }

  /** The silence as validated: an unset start becomes the current time. */
  function WithStart(sil: Silence, now: Time): Silence {
    if IsZero(sil.startsAt) then sil.(startsAt := now) else sil
  }

  /** The silence stored under a fresh ID: it never starts in the past. */
  function Renewed(sil: Silence, uid: Id, now: Time): Silence {
    sil.(id := uid, updatedAt := now, startsAt := if sil.startsAt < now then now else sil.startsAt)
  }

  /** How Set answers; everything but Stored leaves the store alone. */
  function SetAnswer(cfg: Config, s: Store, sil: Silence, uid: Id, now: Time): SetOutcome {
    if !ValidSilence(cfg, sil) then InvalidSilence
    else if sil.id != "" && sil.id !in s.st then NotFound
    else if sil.id in s.st && CanUpdate(s.st[sil.id].silence, sil, now) then
      if Oversized(cfg, ToMesh(cfg, sil.(updatedAt := now))) then TooLarge else Stored
    else if cfg.maxSilences > 0 && |s.st| + 1 > cfg.maxSilences then TooManySilences
    else if Oversized(cfg, ToMesh(cfg, Renewed(sil, uid, now))) then TooLarge
    else Stored
  }

  /** An accepted Set: update in place, or expire the old silence and create a new one. */
  function SetStored(cfg: Config, s: Store, sil: Silence, uid: Id, now: Time, now2: Time, now3: Time): Store {
    if sil.id in s.st && CanUpdate(s.st[sil.id].silence, sil, now) then
      MergeEntry(cfg, s, ToMesh(cfg, sil.(updatedAt := now)), now)
    else
      MergeEntry(cfg, WithoutOld(cfg, s, sil.id, now2, now3), ToMesh(cfg, Renewed(sil, uid, now)), now)
  }

  function WithoutOld(cfg: Config, s: Store, id: Id, now2: Time, now3: Time): Store {
    if id in s.st && !GetState(s.st[id].silence, now2).Expired? then Expire(cfg, s, id, now3) else s
  }

  /** Set reads the clock up to three times: on entry, before deciding whether to
      expire the replaced silence, and inside expire. */
  function Set(cfg: Config, s: Store, sil: Silence, uid: Id, now: Time, now2: Time, now3: Time): Store {
    if SetAnswer(cfg, s, WithStart(sil, now), uid, now).Stored?
    then SetStored(cfg, s, WithStart(sil, now), uid, now, now2, now3) else s
  }

  /** GC keeps an entry: it is known, and its expiry is set and lies ahead. */
  predicate Keeps(st: map<Id, MeshSilence>, now: Time, id: Id) {
    id in st && !IsZero(st[id].expiresAt) && st[id].expiresAt > now
  }

  /** The first n entries of the version index, compacted. */
  function Compact(st: map<Id, MeshSilence>, now: Time, vi: seq<SilenceVersion>, n: nat)
    : (r: seq<SilenceVersion>)
    requires n <= |vi|
    ensures |r| <= n
  {
    if n == 0 then []
    else
      Compact(st, now, vi, n - 1) + (if Keeps(st, now, vi[n - 1].id) then [vi[n - 1]] else [])
  }

  /** IDs that GC deletes among the first n index entries. */
  function Collected(st: map<Id, MeshSilence>, now: Time, vi: seq<SilenceVersion>, n: nat): set<Id>
    requires n <= |vi|
  {
    if n == 0 then {}
    else
      Collected(st, now, vi, n - 1) +
      (if vi[n - 1].id in st && !Keeps(st, now, vi[n - 1].id) then {vi[n - 1].id} else {})
  }

  lemma {:induction false} CollectedExactly(
      st: map<Id, MeshSilence>, now: Time, vi: seq<SilenceVersion>, n: nat, id: Id)
    requires n <= |vi|
    ensures id in Collected(st, now, vi, n) <==> id in st && !Keeps(st, now, id) && HasId(vi[..n], id)
  {
    if n > 0 {
      CollectedExactly(st, now, vi, n - 1, id);
      assert vi[..n] == vi[..n - 1] + [vi[n - 1]];
      if HasId(vi[..n - 1], id) {
        var i :| 0 <= i < n - 1 && vi[..n - 1][i].id == id;
        assert vi[..n][i].id == id;
      } else if vi[n - 1].id == id {
        assert vi[..n][n - 1].id == id;
      }
    }
  }

  function GC(s: Store, now: Time): Store {
    var dead := Collected(s.st, now, s.vi, |s.vi|);
    Store(s.st - dead, s.mi - dead, Compact(s.st, now, s.vi, |s.vi|), s.version)
  }

  /** What a snapshot leaves in memory: every silence whose matchers compile is indexed
      under the next version, in any order. */
  predicate LoadedFrom(cfg: Config, st: map<Id, MeshSilence>, version: int, s: Store) {
    s.st == st && s.version == version + 1 && IndexedAt(cfg, st, {}, version + 1, s.mi, s.vi)
  }

  /** All silences but those in `todo` are indexed under one version, if their matchers compile. */
  predicate IndexedAt(
      cfg: Config, st: map<Id, MeshSilence>, todo: set<Id>, version: int,
      mi: map<Id, seq<seq<Matcher>>>, vi: seq<SilenceVersion>)
  {
    && mi.Keys == (set id | id in st && id !in todo && AllCompile(cfg.rx, st[id].silence.matcherSets))
    && (forall id :: id in mi ==> mi[id] == st[id].silence.matcherSets)
    && (forall i :: 0 <= i < |vi| ==> vi[i].version == version)
    && (forall i, j :: 0 <= i < j < |vi| ==> vi[i].id != vi[j].id)
    && IndexesExactly(vi, mi.Keys)
  }

  /** Indexing one more. */
  lemma IndexedNext(
      cfg: Config, st: map<Id, MeshSilence>, todo: set<Id>, version: int,
      mi: map<Id, seq<seq<Matcher>>>, vi: seq<SilenceVersion>, id: Id)
    requires IndexedAt(cfg, st, todo, version, mi, vi) && id in todo && id in st
    ensures var ms := st[id].silence.matcherSets;
      if AllCompile(cfg.rx, ms)
      then IndexedAt(cfg, st, todo - {id}, version, mi[id := ms], vi + [SilenceVersion(id, version)])
      else IndexedAt(cfg, st, todo - {id}, version, mi, vi)
  {
    var vi' := vi + [SilenceVersion(id, version)];
    assert vi'[|vi|].id == id;
    forall k | HasId(vi, k) ensures HasId(vi', k) {
      var i :| 0 <= i < |vi| && vi[i].id == k;
      assert vi'[i].id == k;
    }
  }

  predicate HasId(vi: seq<SilenceVersion>, id: Id) {
    exists i :: 0 <= i < |vi| && vi[i].id == id
  }

  predicate IndexesExactly(vi: seq<SilenceVersion>, ids: set<Id>) {
    && (forall i :: 0 <= i < |vi| ==> vi[i].id in ids)
    && (forall id :: id in ids ==> HasId(vi, id))
  }

  // ---------------------------------------------------------------- index agreement

  predicate Sorted(vi: seq<SilenceVersion>) {
    forall i, j :: 0 <= i < j < |vi| ==> vi[i].version <= vi[j].version
  }

  predicate DistinctIds(vi: seq<SilenceVersion>) {
    forall i, j :: 0 <= i < j < |vi| ==> vi[i].id != vi[j].id
  }

  /** A version index over exactly the given IDs. */
  predicate WellIndexed(vi: seq<SilenceVersion>, version: int, ids: set<Id>) {
    && Sorted(vi)
    && DistinctIds(vi)
    && 0 <= version
    && (forall i :: 0 <= i < |vi| ==> 0 < vi[i].version <= version)
    && IndexesExactly(vi, ids)
  }

  /** The three indices describe the same silences. */
  predicate Agrees(s: Store) {
    && WellIndexed(s.vi, s.version, s.st.Keys)
    && s.st.Keys == s.mi.Keys
    && (forall id :: id in s.st ==> s.st[id].silence.id == id)
  }

  lemma AppendWellIndexed(vi: seq<SilenceVersion>, version: int, ids: set<Id>, id: Id)
    requires WellIndexed(vi, version, ids) && id !in ids
    ensures WellIndexed(vi + [SilenceVersion(id, version + 1)], version + 1, ids + {id})
  {
    var vi' := vi + [SilenceVersion(id, version + 1)];
    assert vi'[|vi|].id == id;
    forall x | x in ids + {id} ensures HasId(vi', x) {
      if x in ids {
        var i :| 0 <= i < |vi| && vi[i].id == x;
        assert vi'[i].id == x;
      }
    }
  }

  lemma GrownAgrees(s: Store, s': Store, id: Id)
    requires Agrees(s) && id !in s.st
    requires s'.vi == s.vi + [SilenceVersion(id, s.version + 1)] && s'.version == s.version + 1
    requires s'.st.Keys == s.st.Keys + {id} == s'.mi.Keys
    requires forall x :: x in s'.st ==> s'.st[x].silence.id == x
    ensures Agrees(s')
  {
    AppendWellIndexed(s.vi, s.version, s.st.Keys, id);
  }

  lemma AddedAgrees(cfg: Config, s: Store, sil: Silence, e: MeshSilence)
    requires Agrees(s) && e.silence == sil
    requires sil.id !in s.st && AllCompile(cfg.rx, sil.matcherSets)
    ensures Agrees(IndexSilence(cfg, s.(st := s.st[sil.id := e]), sil))
  {
    GrownAgrees(s, IndexSilence(cfg, s.(st := s.st[sil.id := e]), sil), sil.id);
  }

  lemma EntryAgrees(cfg: Config, s: Store, e: MeshSilence, now: Time)
    requires Agrees(s)
    requires e.silence.id in s.st || AllCompile(cfg.rx, e.silence.matcherSets)
    ensures Agrees(MergeEntry(cfg, s, e, now))
    ensures s.version <= MergeEntry(cfg, s, e, now).version
  {
    if Accepts(s.st, e, now) {
      if e.silence.id in s.st {
        assert MergeEntry(cfg, s, e, now).st.Keys == s.st.Keys;
      } else {
        AddedAgrees(cfg, s, e.silence, e);
      }
    }
  }

  lemma ExpireAgrees(cfg: Config, s: Store, id: Id, now: Time)
    requires Agrees(s)
    ensures Agrees(Expire(cfg, s, id, now))
    ensures Expire(cfg, s, id, now).version == s.version
    ensures Expire(cfg, s, id, now).st.Keys == s.st.Keys
  {
    if id in s.st && s.st[id].silence.id == id {
      ReplacedAgrees(cfg, s, ToMesh(cfg, EndedAt(s.st[id].silence, now)), now);
    }
  }

  /** Replacing a known silence keeps the indices in agreement. */
  lemma ReplacedAgrees(cfg: Config, s: Store, e: MeshSilence, now: Time)
    requires Agrees(s) && e.silence.id in s.st
    ensures Agrees(MergeEntry(cfg, s, e, now))
    ensures MergeEntry(cfg, s, e, now).version == s.version && MergeEntry(cfg, s, e, now).st.Keys == s.st.Keys
  {
  }

  lemma SetStoredAgrees(cfg: Config, s: Store, sil: Silence, uid: Id, now: Time, now2: Time, now3: Time)
    requires Agrees(s) && AllCompile(cfg.rx, sil.matcherSets)
    ensures Agrees(SetStored(cfg, s, sil, uid, now, now2, now3))
    ensures s.version <= SetStored(cfg, s, sil, uid, now, now2, now3).version
  {
    if sil.id in s.st && CanUpdate(s.st[sil.id].silence, sil, now) {
      EntryAgrees(cfg, s, ToMesh(cfg, sil.(updatedAt := now)), now);
    } else {
      ExpireAgrees(cfg, s, sil.id, now3);
      EntryAgrees(cfg, WithoutOld(cfg, s, sil.id, now2, now3), ToMesh(cfg, Renewed(sil, uid, now)), now);
    }
  }

  lemma SetAgrees(cfg: Config, s: Store, sil: Silence, uid: Id, now: Time, now2: Time, now3: Time)
    requires Agrees(s) && AllCompile(cfg.rx, sil.matcherSets)
    ensures Agrees(Set(cfg, s, sil, uid, now, now2, now3))
    ensures s.version <= Set(cfg, s, sil, uid, now, now2, now3).version
  {
    SetStoredAgrees(cfg, s, WithStart(sil, now), uid, now, now2, now3);
  }

  /** Compaction keeps exactly the surviving entries, each from its old position, in
      the old order. */
  lemma CompactKeepsExactly(
      st: map<Id, MeshSilence>, now: Time, vi: seq<SilenceVersion>, n: nat)
    returns (from: seq<int>)
    requires n <= |vi|
    ensures |from| == |Compact(st, now, vi, n)|
    ensures forall i :: 0 <= i < |from| ==> 0 <= from[i] < n && Compact(st, now, vi, n)[i] == vi[from[i]]
    ensures forall i, j :: 0 <= i < j < |from| ==> from[i] < from[j]
    ensures forall k :: 0 <= k < n ==> (k in from <==> Keeps(st, now, vi[k].id))
  {
    from := Kept(st, now, vi, n);
    CompactTakes(st, now, vi, n);
    KeptExactly(st, now, vi, n);
  }

  /** The positions of the surviving entries among the first n. */
  function Kept(st: map<Id, MeshSilence>, now: Time, vi: seq<SilenceVersion>, n: nat): seq<int>
    requires n <= |vi|
  {
    if n == 0 then [] else Kept(st, now, vi, n - 1) + if Keeps(st, now, vi[n - 1].id) then [n - 1] else []
  }

  lemma {:induction false} CompactTakes(st: map<Id, MeshSilence>, now: Time, vi: seq<SilenceVersion>, n: nat)
    requires n <= |vi|
    ensures var from := Kept(st, now, vi, n);
      && |from| == |Compact(st, now, vi, n)|
      && forall i :: 0 <= i < |from| ==> 0 <= from[i] < n && Compact(st, now, vi, n)[i] == vi[from[i]]
  {
    if n > 0 { CompactTakes(st, now, vi, n - 1); }
  }

  lemma {:induction false} KeptExactly(st: map<Id, MeshSilence>, now: Time, vi: seq<SilenceVersion>, n: nat)
    requires n <= |vi|
    ensures var from := Kept(st, now, vi, n);
      && (forall i :: 0 <= i < |from| ==> 0 <= from[i] < n)
      && (forall i, j :: 0 <= i < j < |from| ==> from[i] < from[j])
      && (forall k :: 0 <= k < n ==> (k in from <==> Keeps(st, now, vi[k].id)))
  {
    if n > 0 { KeptExactly(st, now, vi, n - 1); }
  }

  lemma CompactMembers(st: map<Id, MeshSilence>, now: Time, vi: seq<SilenceVersion>, sv: SilenceVersion)
    ensures sv in Compact(st, now, vi, |vi|) <==> sv in vi && Keeps(st, now, sv.id)
  {
    var from := CompactKeepsExactly(st, now, vi, |vi|);
    if sv in vi && Keeps(st, now, sv.id) {
      var k :| 0 <= k < |vi| && vi[k] == sv;
      var i :| 0 <= i < |from| && from[i] == k;
      assert Compact(st, now, vi, |vi|)[i] == sv;
    }
  }

  lemma CompactWellIndexed(st: map<Id, MeshSilence>, now: Time, vi: seq<SilenceVersion>, version: int, ids: set<Id>)
    requires WellIndexed(vi, version, st.Keys)
    requires forall id :: id in ids <==> Keeps(st, now, id)
    ensures WellIndexed(Compact(st, now, vi, |vi|), version, ids)
  {
    var r := Compact(st, now, vi, |vi|);
    var from := CompactKeepsExactly(st, now, vi, |vi|);
    forall id | id in ids ensures HasId(r, id) {
      assert HasId(vi, id);
      var k :| 0 <= k < |vi| && vi[k].id == id;
      CompactMembers(st, now, vi, vi[k]);
    }
    forall i | 0 <= i < |r| ensures r[i].id in ids {
      assert from[i] in from;
    }
  }

  /** GC removes exactly the silences at or past their expiry, keeps every index in
      agreement and never lowers the version. */
  lemma GCAgrees(s: Store, now: Time)
    requires Agrees(s)
    ensures Agrees(GC(s, now))
    ensures forall id :: id in GC(s, now).st <==> Keeps(s.st, now, id)
    ensures forall id :: id in GC(s, now).st ==> GC(s, now).st[id] == s.st[id] && GC(s, now).mi[id] == s.mi[id]
  {
    var s' := GC(s, now);
    forall id ensures id in s'.st <==> Keeps(s.st, now, id) {
      CollectedExactly(s.st, now, s.vi, |s.vi|, id);
      assert s.vi[..|s.vi|] == s.vi;
    }
    CompactWellIndexed(s.st, now, s.vi, s.version, s'.st.Keys);
    assert s'.st.Keys == s'.mi.Keys;
  }

  // ---------------------------------------------------------------- matchers that do not compile

  /** Adding a silence under a new ID keeps the indices in agreement exactly when its
      matchers compile. */
  lemma AdditionAgreesIff(cfg: Config, s: Store, e: MeshSilence, now: Time)
    requires Agrees(s) && e.silence.id !in s.st && Accepts(s.st, e, now)
    ensures Agrees(MergeEntry(cfg, s, e, now)) <==> AllCompile(cfg.rx, e.silence.matcherSets)
  {
    if AllCompile(cfg.rx, e.silence.matcherSets) {
      EntryAgrees(cfg, s, e, now);
    } else {
      assert e.silence.id in MergeEntry(cfg, s, e, now).st.Keys - MergeEntry(cfg, s, e, now).mi.Keys;
    }
  }

  /** Loading a snapshot leaves agreeing indices exactly when every silence in it compiles;
      the ones that do not stay in the state map without an index entry. */
  lemma LoadedAgreesIff(cfg: Config, st: map<Id, MeshSilence>, version: int, s: Store)
    requires LoadedFrom(cfg, st, version, s) && 0 <= version
    requires forall id :: id in st ==> st[id].silence.id == id
    ensures Agrees(s) <==> forall id :: id in st ==> AllCompile(cfg.rx, st[id].silence.matcherSets)
  {
  }
}
