/** The silence store as the process holds it: maps that are updated in place, and a
    version index in a buffer that garbage collection compacts in place. Every method is
    proved against the store functions. */
module Silences {
  import opened Basics
  import opened Labels
  import opened SilenceStore
  import opened SilenceCache
  import SilenceRuns
  import opened SilenceSnapshot

  const UNUSED := SilenceVersion("", 0)

  /** Room for a snapshot and some growth. */
  function SnapshotCapacity(n: nat): (room: nat)
    ensures n <= room
  {
    if n * 5 / 4 < 1024 then 1024 else n * 5 / 4
  }

  class Silences {
    const cfg: Config
    var st: map<Id, MeshSilence>
    var mi: map<Id, seq<seq<Matcher>>>
    var buf: array<SilenceVersion>
    var len: nat
    var version: int

    predicate Valid()
      reads this
    {
      len <= buf.Length
    }

    function View(): Store
      requires Valid()
      reads this, buf
    {
      Store(st, mi, buf[..len], version)
    }

    constructor (cfg: Config)
      ensures Valid() && View() == EMPTY_STORE && this.cfg == cfg && fresh(buf)
    {
      this.cfg := cfg;
      st, mi, version, len := map[], map[], 0, 0;
      buf := new SilenceVersion[512](_ => UNUSED);
    }

    /** Replaces everything by a snapshot, unless that cannot be decoded. */
    method LoadSnapshot(records: seq<Option<Wire>>) returns (ok: bool)
      requires Valid()
      modifies this
      ensures Valid() && (ok <==> Decoded(records).Some?)
      ensures if ok then fresh(buf) && LoadedFrom(cfg, Decoded(records).value, old(version), View())
              else buf == old(buf) && View() == old(View())
    {
      var loaded := DecodeState(records);
      if loaded.None? { return false; }
      var st' := loaded.value;
      DecodedIds(records);
      var room := new SilenceVersion[SnapshotCapacity(|st'|)](_ => UNUSED);
      var mi', n := IndexLoaded(cfg, st', version + 1, room);
      st, mi, buf, len, version := st', mi', room, n, version + 1;
      return true;
    }

    /** Append to the version index, moving to a larger buffer when it is full. */
    method AddVersion(sv: SilenceVersion)
      requires Valid()
      modifies this`buf, this`len, buf
      ensures Valid() && (buf == old(buf) || fresh(buf))
      ensures buf[..len] == old(buf[..len]) + [sv]
    {
      if len == buf.Length {
        var old_ := buf;
        var bigger := new SilenceVersion[2 * len + 1](
          i requires 0 <= i reads this, old_ => if i < old_.Length then old_[i] else UNUSED);
        assert bigger[..len] == buf[..len];
        buf := bigger;
      }
      buf[len] := sv;
      len := len + 1;
    }

    method IndexOne(sil: Silence)
      requires Valid()
      modifies this, buf
      ensures Valid() && (buf == old(buf) || fresh(buf))
      ensures View() == IndexSilence(cfg, old(View()), sil)
    {
      version := version + 1;
      AddVersion(SilenceVersion(sil.id, version));
      if AllCompile(cfg.rx, sil.matcherSets) { mi := mi[sil.id := sil.matcherSets]; }
    }

    /** setSilence, and the body of the merge loop: `changed` decides whether the entry is
        broadcast. */
    method MergeOne(e: MeshSilence, now: Time) returns (changed: bool, added: bool)
      requires Valid()
      modifies this, buf
      ensures Valid() && (buf == old(buf) || fresh(buf))
      ensures View() == MergeEntry(cfg, old(View()), e, now)
      ensures changed <==> old(Accepts(st, e, now))
      ensures added <==> changed && e.silence.id !in old(st)
    {
      changed, added := false, false;
      if e.expiresAt < now { return; }
      if e.silence.id !in st || st[e.silence.id].silence.updatedAt < e.silence.updatedAt {
        changed, added := true, e.silence.id !in st;
        st := st[e.silence.id := e];
        if added { IndexOne(e.silence); }
      }
    }

    /** Merge a decoded message; `broadcasts` counts how often it is gossiped on. */
    method Merge(es: seq<MeshSilence>, oversized: bool, now: Time) returns (broadcasts: nat)
      requires Valid()
      modifies this, buf
      ensures Valid() && (buf == old(buf) || fresh(buf))
      ensures View() == SilenceRuns.MergeAll(cfg, old(View()), es, now)
      ensures broadcasts == if oversized then 0 else SilenceRuns.AcceptedIn(cfg, old(View()), es, now)
      ensures broadcasts == 0 <==> oversized || View() == old(View())
    {
      broadcasts := 0;
      var i := 0;
      while i < |es|
        invariant 0 <= i <= |es| && Valid() && (buf == old(buf) || fresh(buf))
        invariant SilenceRuns.MergeAll(cfg, View(), es[i..], now) == SilenceRuns.MergeAll(cfg, old(View()), es, now)
        invariant oversized ==> broadcasts == 0
        invariant !oversized ==>
          broadcasts + SilenceRuns.AcceptedIn(cfg, View(), es[i..], now) ==
          SilenceRuns.AcceptedIn(cfg, old(View()), es, now)
        invariant broadcasts == 0 <==> oversized || View() == old(View())
        invariant forall id :: id in old(st) ==> id in st && old(st)[id].silence.updatedAt <= st[id].silence.updatedAt
        invariant forall id :: id in old(st) && old(st)[id].silence.updatedAt == st[id].silence.updatedAt ==>
          st[id] == old(st)[id]
      {
        assert es[i..][1..] == es[i + 1..];
        ghost var was := View();
        var changed, added := MergeOne(es[i], now);
        if changed && !oversized {
          broadcasts := broadcasts + 1;
        }
        i := i + 1;
      }
    }

    method ExpireOne(id: Id, now: Time) returns (found: bool)
      requires Valid()
      modifies this, buf
      ensures Valid() && (buf == old(buf) || fresh(buf))
      ensures found <==> id in old(st)
      ensures View() == Expire(cfg, old(View()), id, now)
    {
      if id !in st { return false; }
      var sil := st[id].silence;
      match GetState(sil, now) {
        case Expired => return true;
        case Active => sil := sil.(endsAt := now);
        case Pending => sil := sil.(startsAt := now, endsAt := now);
      }
      sil := sil.(updatedAt := now);
      var _, _ := MergeOne(ToMesh(cfg, sil), now);
      return true;
    }

    method SetSilence(sil0: Silence, uid: Id, now: Time, now2: Time, now3: Time) returns (answer: SetOutcome)
      requires Valid()
      modifies this, buf
      ensures Valid() && (buf == old(buf) || fresh(buf))
      ensures answer == SetAnswer(cfg, old(View()), WithStart(sil0, now), uid, now)
      ensures View() == Set(cfg, old(View()), sil0, uid, now, now2, now3)
    {
      var sil := WithStart(sil0, now);
      var valid := ValidateSilence(cfg, sil);
      if !valid { return InvalidSilence; }
      var known := sil.id in st;
      if sil.id != "" && !known { return NotFound; }
      if known && CanUpdate(st[sil.id].silence, sil, now) {
        var e := ToMesh(cfg, sil.(updatedAt := now));
        if Oversized(cfg, e) { return TooLarge; }
        var _, _ := MergeOne(e, now);
        return Stored;
      }
      if cfg.maxSilences > 0 && |st| + 1 > cfg.maxSilences { return TooManySilences; }
      var fresh_ := ToMesh(cfg, Renewed(sil, uid, now));
      if Oversized(cfg, fresh_) { return TooLarge; }
      if known && !GetState(st[sil.id].silence, now2).Expired? {
        var _ := ExpireOne(sil.id, now3);
      }
      var _, _ := MergeOne(fresh_, now);
      return Stored;
    }

    /** Garbage collection. The index is compacted into the front of the buffer being
        read, or into a smaller one when more than half of a large buffer is spare. */
    method CollectGarbage(now: Time) returns (n: nat, errors: nat)
      requires Valid()
      modifies this, buf
      ensures Valid() && (buf == old(buf) || fresh(buf))
      ensures View() == GC(old(View()), now)
      ensures n == |old(st)| - |st|
      ensures errors == Faults(old(st), now, old(buf[..len]), old(len))
    {
      var target := buf;
      var realloc := buf.Length > 1024 && len < buf.Length / 2;
      if realloc {
        target := new SilenceVersion[if len * 5 / 4 > 1024 then len * 5 / 4 else 1024](_ => UNUSED);
      }
      var w;
      st, mi, n, w, errors := Sweep(st, mi, buf, target, len, now);
      SweptIsGC(old(View()), now, st, mi, n);
      if !realloc { ClearTail(target, w, len); }
      buf, len := target, w;
    }

    /** Binary search for the first index entry newer than v. */
    method FindVersionGreaterThan(v: int) returns (k: nat, found: bool)
      requires Valid() && Sorted(buf[..len])
      ensures k == FirstAfter(buf[..len], v) && (found <==> k < len)
    {
      var lo, hi := 0, len;
      while lo < hi
        invariant 0 <= lo <= hi <= len
        invariant forall i :: 0 <= i < lo ==> buf[i].version <= v
        invariant forall i :: hi <= i < len ==> buf[i].version > v
      {
        var mid := (lo + hi) / 2;
        assert forall i :: 0 <= i < mid ==> buf[..len][i].version <= buf[..len][mid].version;
        assert forall i :: mid < i < len ==> buf[..len][mid].version <= buf[..len][i].version;
        if buf[mid].version > v { hi := mid; } else { lo := mid + 1; }
      }
      k, found := lo, lo < len;
      FirstAfterUnique(buf[..len], v, k);
    }

    /** Query by IDs for active and pending silences. */
    method QueryByIds(ids: seq<Id>, now: Time) returns (res: seq<Silence>)
      requires Valid()
      ensures res == QueryIds(View(), ids, now, |ids|)
    {
      res := [];
      for i := 0 to |ids|
        invariant res == QueryIds(View(), ids, now, i)
      {
        if ids[i] in st && GetState(st[ids[i]].silence, now) in {Active, Pending} {
          res := res + [st[ids[i]].silence];
        }
      }
    }

    /** Query for the active and pending silences indexed after v that match l. */
    method QueryNewer(v: int, l: LabelSet, now: Time) returns (res: QueryResult, at: int)
      requires Valid() && Sorted(buf[..len])
      ensures res == QuerySince(cfg, View(), v, l, now) && at == version
    {
      at := version;
      var k, found := FindVersionGreaterThan(v);
      if !found { return Found([]), version; }
      assert buf[k..len] == buf[..len][k..];
      res := ScanEntries(cfg, View(), buf[k..len], l, now);
    }
  }

  /** Every matcher set is valid, and start and end are set and in order. */
  method ValidateSilence(cfg: Config, s: Silence) returns (ok: bool)
    ensures ok <==> ValidSilence(cfg, s)
  {
    if |s.matcherSets| == 0 { return false; }
    for i := 0 to |s.matcherSets|
      invariant forall k :: 0 <= k < i ==> ValidMatcherSet(cfg, s.matcherSets[k])
    {
      ok := ValidateMatcherSet(cfg, s.matcherSets[i]);
      if !ok { return; }
    }
    if IsZero(s.startsAt) || IsZero(s.endsAt) { return false; }
    return s.startsAt <= s.endsAt;
  }

  method ValidateMatcherSet(cfg: Config, ms: seq<Matcher>) returns (ok: bool)
    ensures ok <==> ValidMatcherSet(cfg, ms)
  {
    if |ms| == 0 { return false; }
    var allMatchEmpty := true;
    for i := 0 to |ms|
      invariant forall k :: 0 <= k < i ==> ValidMatcher(cfg, ms[k])
      invariant allMatchEmpty <==> forall k :: 0 <= k < i ==> MatchesEmpty(cfg, ms[k])
    {
      if !ValidMatcher(cfg, ms[i]) { return false; }
      allMatchEmpty := allMatchEmpty && MatchesEmpty(cfg, ms[i]);
    }
    return !allMatchEmpty;
  }

  /** Indexes the silences of a snapshot, in any order. */
  method IndexLoaded(cfg: Config, st: map<Id, MeshSilence>, version: int, room: array<SilenceVersion>)
    returns (mi: map<Id, seq<seq<Matcher>>>, n: nat)
    requires |st| <= room.Length && forall id :: id in st ==> st[id].silence.id == id
    modifies room
    ensures n <= room.Length && IndexedAt(cfg, st, {}, version, mi, room[..n])
  {
    mi, n := map[], 0;
    var todo := st.Keys;
    while todo != {}
      invariant todo <= st.Keys && n + |todo| <= |st|
      invariant IndexedAt(cfg, st, todo, version, mi, room[..n])
      decreases |todo|
    {
      var id: Id :| id in todo;
      mi, n := IndexLoadedOne(cfg, st, todo, version, id, mi, room, n);
      todo := todo - {id};
    }
  }

  method IndexLoadedOne(
      cfg: Config, st: map<Id, MeshSilence>, ghost todo: set<Id>, version: int, id: Id,
      mi: map<Id, seq<seq<Matcher>>>, room: array<SilenceVersion>, n: nat)
    returns (mi': map<Id, seq<seq<Matcher>>>, n': nat)
    requires id in todo && id in st && st[id].silence.id == id && n < room.Length
    requires IndexedAt(cfg, st, todo, version, mi, room[..n])
    modifies room
    ensures n' <= n + 1 && IndexedAt(cfg, st, todo - {id}, version, mi', room[..n'])
  {
    IndexedNext(cfg, st, todo, version, mi, room[..n], id);
    var sil := st[id].silence;
    mi', n' := mi, n;
    if AllCompile(cfg.rx, sil.matcherSets) {
      ghost var before := room[..n];
      room[n] := SilenceVersion(sil.id, version);
      mi', n' := mi[sil.id := sil.matcherSets], n + 1;
      assert room[..n'] == before + [SilenceVersion(id, version)];
    }
  }

  method ScanEntries(cfg: Config, s: Store, svs: seq<SilenceVersion>, l: LabelSet, now: Time) returns (res: QueryResult)
    ensures res == Scan(cfg, s, svs, l, now, |svs|)
  {
    res := Found([]);
    for i := 0 to |svs|
      invariant res.Found? && res == Scan(cfg, s, svs, l, now, i)
    {
      var id := svs[i].id;
      if id !in s.st {
        StaysBroken(cfg, s, svs, l, now, i + 1);
        return Crashed;
      }
      if GetState(s.st[id].silence, now) in {Active, Pending} {
        if id !in s.mi {
          StaysBroken(cfg, s, svs, l, now, i + 1);
          return Failed;
        }
        if AnySetMatches(cfg.rx, s.mi[id], l) { res := Found(res.sils + [s.st[id].silence]); }
      }
    }
  }

  lemma {:induction false} StaysBroken(cfg: Config, s: Store, svs: seq<SilenceVersion>, l: LabelSet, now: Time, n: nat)
    requires n <= |svs| && !Scan(cfg, s, svs, l, now, n).Found?
    ensures Scan(cfg, s, svs, l, now, |svs|) == Scan(cfg, s, svs, l, now, n)
    decreases |svs| - n
  {
    if n < |svs| { StaysBroken(cfg, s, svs, l, now, n + 1); }
  }

  /** The sweep reads the index from `source` and writes the survivors to the front of
      `target`, which may be the same buffer. */
  method Sweep(
      st0: map<Id, MeshSilence>, mi0: map<Id, seq<seq<Matcher>>>,
      source: array<SilenceVersion>, target: array<SilenceVersion>, len: nat, now: Time)
    returns (st: map<Id, MeshSilence>, mi: map<Id, seq<seq<Matcher>>>, n: nat, w: nat, errors: nat)
    requires len <= source.Length && len <= target.Length
    modifies target
    ensures w <= len && target[..w] == Compact(st0, now, old(source[..len]), len)
    ensures Swept(st0, mi0, now, old(source[..len]), len, st, mi, n)
    ensures errors == Faults(st0, now, old(source[..len]), len)
  {
    ghost var vi0 := source[..len];
    st, mi, n, w, errors := st0, mi0, 0, 0, 0;
    for i := 0 to len
      invariant Compacted(st0, now, vi0, i, source, target, w)
      invariant Swept(st0, mi0, now, vi0, i, st, mi, n)
      invariant errors == Faults(st0, now, vi0, i)
    {
      st, mi, n, w, errors := SweepAt(st0, mi0, vi0, i, source, target, now, st, mi, n, w, errors);
    }
  }

  method SweepAt(
      ghost st0: map<Id, MeshSilence>, ghost mi0: map<Id, seq<seq<Matcher>>>, ghost vi: seq<SilenceVersion>, i: nat,
      source: array<SilenceVersion>, target: array<SilenceVersion>, now: Time,
      st: map<Id, MeshSilence>, mi: map<Id, seq<seq<Matcher>>>, n: nat, w: nat, errors: nat)
    returns (st': map<Id, MeshSilence>, mi': map<Id, seq<seq<Matcher>>>, n': nat, w': nat, errors': nat)
    requires i < |vi| && Compacted(st0, now, vi, i, source, target, w) && Swept(st0, mi0, now, vi, i, st, mi, n)
    requires errors == Faults(st0, now, vi, i)
    modifies target
    ensures Compacted(st0, now, vi, i + 1, source, target, w') && Swept(st0, mi0, now, vi, i + 1, st', mi', n')
    ensures errors' == Faults(st0, now, vi, i + 1)
  {
    var keep, fault;
    keep, st', mi', n', fault := SweepOne(st0, mi0, vi, i, source[i], now, st, mi, n);
    w' := w;
    if keep { Put(st0, now, vi, i, source, target, w); w' := w + 1; }
    errors' := if fault then errors + 1 else errors;
  }

  /** The first i entries are compacted into the front of `target`; the rest of `source`
      is as it was. */
  ghost predicate Compacted(
      st0: map<Id, MeshSilence>, now: Time, vi: seq<SilenceVersion>, i: nat,
      source: array<SilenceVersion>, target: array<SilenceVersion>, w: nat)
    reads source, target
  {
    && w <= i <= |vi| <= source.Length && |vi| <= target.Length
    && (forall k :: i <= k < |vi| ==> source[k] == vi[k])
    && target[..w] == Compact(st0, now, vi, i)
  }

  method Put(
      ghost st0: map<Id, MeshSilence>, ghost now: Time, ghost vi: seq<SilenceVersion>, i: nat,
      source: array<SilenceVersion>, target: array<SilenceVersion>, w: nat)
    requires Compacted(st0, now, vi, i, source, target, w) && i < |vi| && Keeps(st0, now, vi[i].id)
    modifies target
    ensures Compacted(st0, now, vi, i + 1, source, target, w + 1)
  {
    ghost var done := target[..w];
    target[w] := source[i];
    assert target[..w + 1] == done + [vi[i]];
  }

  method SweepOne(
      ghost st0: map<Id, MeshSilence>, ghost mi0: map<Id, seq<seq<Matcher>>>, ghost vi: seq<SilenceVersion>,
      ghost i: nat, sv: SilenceVersion, now: Time, st: map<Id, MeshSilence>, mi: map<Id, seq<seq<Matcher>>>, n: nat)
    returns (keep: bool, st': map<Id, MeshSilence>, mi': map<Id, seq<seq<Matcher>>>, n': nat, fault: bool)
    requires i < |vi| && vi[i] == sv && Swept(st0, mi0, now, vi, i, st, mi, n)
    ensures keep <==> Keeps(st0, now, sv.id)
    ensures Swept(st0, mi0, now, vi, i + 1, st', mi', n')
    ensures fault <==> Faulty(st0, now, vi, i)
  {
    fault := sv.id !in st || IsZero(st[sv.id].expiresAt);
    if sv.id in st && (IsZero(st[sv.id].expiresAt) || st[sv.id].expiresAt <= now) {
      SweptDrops(st0, mi0, now, vi, i, st, mi, n);
      return false, st - {sv.id}, mi - {sv.id}, n + 1, fault;
    }
    SweptKeeps(st0, mi0, now, vi, i, st, mi, n);
    return sv.id in st, st, mi, n, fault;
  }

  /** The maps after sweeping the first i index entries. */
  ghost predicate Swept(
      st0: map<Id, MeshSilence>, mi0: map<Id, seq<seq<Matcher>>>, now: Time, vi: seq<SilenceVersion>, i: nat,
      st: map<Id, MeshSilence>, mi: map<Id, seq<seq<Matcher>>>, n: nat)
    requires i <= |vi|
  {
    && Without(st0, Collected(st0, now, vi, i), st)
    && Without(mi0, Collected(st0, now, vi, i), mi)
    && n == |st0| - |st|
  }

  ghost predicate Without<V>(m: map<Id, V>, gone: set<Id>, m': map<Id, V>) {
    && (forall id :: id in m' <==> id in m && id !in gone)
    && (forall id :: id in m' ==> m'[id] == m[id])
  }

  lemma SweptIsGC(s: Store, now: Time, st: map<Id, MeshSilence>, mi: map<Id, seq<seq<Matcher>>>, n: nat)
    requires Swept(s.st, s.mi, now, s.vi, |s.vi|, st, mi, n)
    ensures st == GC(s, now).st && mi == GC(s, now).mi
  {
  }

  lemma SweptDrops(
      st0: map<Id, MeshSilence>, mi0: map<Id, seq<seq<Matcher>>>, now: Time, vi: seq<SilenceVersion>, i: nat,
      st: map<Id, MeshSilence>, mi: map<Id, seq<seq<Matcher>>>, n: nat)
    requires i < |vi| && Swept(st0, mi0, now, vi, i, st, mi, n)
    requires vi[i].id in st && !Keeps(st, now, vi[i].id)
    ensures Swept(st0, mi0, now, vi, i + 1, st - {vi[i].id}, mi - {vi[i].id}, n + 1)
    ensures !Keeps(st0, now, vi[i].id)
  {
  }

  lemma SweptKeeps(
      st0: map<Id, MeshSilence>, mi0: map<Id, seq<seq<Matcher>>>, now: Time, vi: seq<SilenceVersion>, i: nat,
      st: map<Id, MeshSilence>, mi: map<Id, seq<seq<Matcher>>>, n: nat)
    requires i < |vi| && Swept(st0, mi0, now, vi, i, st, mi, n)
    requires vi[i].id in st ==> Keeps(st, now, vi[i].id)
    ensures Swept(st0, mi0, now, vi, i + 1, st, mi, n)
    ensures Keeps(st0, now, vi[i].id) <==> vi[i].id in st
  {
    var id := vi[i].id;
    CollectedExactly(st0, now, vi, i, id);
    if id in Collected(st0, now, vi, i) {
      assert Collected(st0, now, vi, i + 1) == Collected(st0, now, vi, i);
    } else if id in st0 {
      assert id in st && st[id] == st0[id];
    }
  }

  /** Sweeping entry i reports an error: its silence is not there, or not any more, or has no
      expiry. */
  predicate Faulty(st0: map<Id, MeshSilence>, now: Time, vi: seq<SilenceVersion>, i: nat)
    requires i < |vi|
  {
    vi[i].id !in st0 || vi[i].id in Collected(st0, now, vi, i) || IsZero(st0[vi[i].id].expiresAt)
  }

  function Faults(st0: map<Id, MeshSilence>, now: Time, vi: seq<SilenceVersion>, n: nat): nat
    requires n <= |vi|
  {
    if n == 0 then 0 else Faults(st0, now, vi, n - 1) + if Faulty(st0, now, vi, n - 1) then 1 else 0
  }

  lemma {:induction false} NoFaults(st0: map<Id, MeshSilence>, now: Time, vi: seq<SilenceVersion>, n: nat)
    requires n <= |vi|
    ensures Faults(st0, now, vi, n) == 0 <==> forall i :: 0 <= i < n ==> !Faulty(st0, now, vi, i)
  {
    if n > 0 { NoFaults(st0, now, vi, n - 1); }
  }

  lemma FaultyIff(st: map<Id, MeshSilence>, now: Time, vi: seq<SilenceVersion>, i: nat)
    requires i < |vi| && vi[i].id in st && DistinctIds(vi)
    ensures Faulty(st, now, vi, i) <==> IsZero(st[vi[i].id].expiresAt)
  {
    CollectedExactly(st, now, vi, i, vi[i].id);
  }

  /** While the indices agree, a collection reports an error exactly when a stored silence has
      no expiry. */
  lemma FaultsIffNoExpiry(s: Store, now: Time)
    requires Agrees(s)
    ensures Faults(s.st, now, s.vi, |s.vi|) > 0 <==> exists id :: id in s.st && IsZero(s.st[id].expiresAt)
  {
    NoFaults(s.st, now, s.vi, |s.vi|);
    SomeFaulty(s.st, now, s.vi);
  }

  lemma SomeFaulty(st: map<Id, MeshSilence>, now: Time, vi: seq<SilenceVersion>)
    requires IndexesExactly(vi, st.Keys) && DistinctIds(vi)
    ensures (exists i :: 0 <= i < |vi| && Faulty(st, now, vi, i)) <==> exists id :: id in st && IsZero(st[id].expiresAt)
  {
    if i :| 0 <= i < |vi| && Faulty(st, now, vi, i) { FaultyIff(st, now, vi, i); }
    if id :| id in st && IsZero(st[id].expiresAt) {
      assert HasId(vi, id);
      var i :| 0 <= i < |vi| && vi[i].id == id;
      FaultyIff(st, now, vi, i);
    }
  }

  method ClearTail(a: array<SilenceVersion>, w: nat, len: nat)
    requires w <= len <= a.Length
    modifies a
    ensures a[..w] == old(a[..w])
    ensures forall k :: w <= k < len ==> a[k] == UNUSED
  {
    var k := w;
    while k < len
      invariant w <= k <= len && a[..w] == old(a[..w])
      invariant forall j :: w <= j < k ==> a[j] == UNUSED
    {
      a[k] := UNUSED;
      k := k + 1;
    }
  }

}
