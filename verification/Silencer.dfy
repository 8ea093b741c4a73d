/** The Silencer: a cache of silence IDs per alert in front of the silence store. */
module Silencer {
  import opened Basics
  import opened Labels
  import opened SilenceStore
  import opened SilenceCache
  import opened Silences

  class Cache {
    var entries: map<Fingerprint, CacheEntry>

    constructor ()
      ensures entries == map[]
    {
      entries := map[];
    }

    method Delete(fp: Fingerprint)
      modifies this
      ensures entries == old(entries) - {fp}
    {
      entries := entries - {fp};
    }

    /** A missing entry reads as the empty one. */
    method Get(fp: Fingerprint) returns (e: CacheEntry)
      ensures e == Entry(entries, fp)
    {
      if fp in entries { return entries[fp]; }
      return CacheEntry(0, []);
    }

    method Set(fp: Fingerprint, e: CacheEntry)
      modifies this
      ensures entries == old(entries)[fp := e]
    {
      entries := entries[fp := e];
    }
  }

  class Silencer {
    const silences: Silences
    const cache: Cache

    constructor (silences: Silences)
      ensures this.silences == silences && fresh(cache) && cache.entries == map[]
    {
      this.silences := silences;
      cache := new Cache();
    }

    /** The version index is sorted, as its binary search needs, and lists no silence that is
        gone, which the scan would dereference. */
    predicate Scannable()
      requires silences.Valid()
      reads silences, silences.buf
    {
      && Sorted(silences.View().vi)
      && forall i :: 0 <= i < |silences.View().vi| ==> silences.View().vi[i].id in silences.st
    }

    /** The silences listed in the cache entry that have not expired, and newer ones that match. */
    method Lookup(e: CacheEntry, l: LabelSet, t: Readings) returns (sils: seq<Silence>, version: int)
      requires silences.Valid() && Scannable()
      ensures (sils, version) == Candidates(silences.cfg, silences.View(), e, l, t)
    {
      var known: seq<Silence>, newer: seq<Silence> := [], [];
      version := e.version;
      if |e.ids| > 0 { known := silences.QueryByIds(e.ids, t.first); }
      if e.version != silences.version {
        var res, at := silences.QueryNewer(e.version, l, t.second);
        newer, version := if res.Found? then res.sils else [], at;
      }
      sils := known + newer;
      assert known == QueryIds(silences.View(), e.ids, t.first, |e.ids|);
      assert e.version == silences.version ==> sils == known;
    }

    /** One call, with the clock readings it takes. */
    method Mutes(fp: Fingerprint, l: LabelSet, t: Readings) returns (a: MuteAnswer)
      requires silences.Valid() && Scannable()
      modifies cache
      ensures a == MutesAnswer(silences.cfg, silences.View(), Entry(old(cache.entries), fp), l, t)
      ensures cache.entries ==
              if FastPath(silences.View(), Entry(old(cache.entries), fp)) then old(cache.entries)
              else old(cache.entries)[
                fp := MutesEntry(silences.cfg, silences.View(), Entry(old(cache.entries), fp), l, t)]
    {
      var e := cache.Get(fp);
      if e.version == silences.version && |e.ids| == 0 { return MuteAnswer(false, []); }
      var sils, version := Lookup(e, l, t);
      if |sils| == 0 {
        cache.Set(fp, CacheEntry(version, []));
        return MuteAnswer(false, []);
      }
      var active, all := Categorize(sils, t.now);
      cache.Set(fp, CacheEntry(version, all));
      return MuteAnswer(|active| > 0, active);
    }

    /** The callback after alerts were garbage collected. */
    method PostGC(fps: seq<Fingerprint>)
      modifies cache
      ensures cache.entries == old(cache.entries) - (set i | 0 <= i < |fps| :: fps[i])
    {
      for i := 0 to |fps|
        invariant cache.entries == old(cache.entries) - (set k | 0 <= k < i :: fps[k])
      {
        cache.Delete(fps[i]);
      }
    }
  }

  /** Split by state, taking each ID once. */
  method Categorize(sils: seq<Silence>, now: Time) returns (active: seq<Id>, all: seq<Id>)
    ensures active == Classify(sils, now, {Active}, |sils|)
    ensures all == Classify(sils, now, {Pending, Active}, |sils|)
  {
    active, all := [], [];
    var seen: set<Id> := {};
    for i := 0 to |sils|
      invariant active == Classify(sils, now, {Active}, i)
      invariant all == Classify(sils, now, {Pending, Active}, i)
      invariant forall id :: id in seen <==> Listed(sils[..i], id)
    {
      ListedSnoc(sils, i);
      if sils[i].id !in seen {
        seen := seen + {sils[i].id};
        match GetState(sils[i], now) {
          case Pending => all := all + [sils[i].id];
          case Active =>
            active := active + [sils[i].id];
            all := all + [sils[i].id];
          case Expired =>
        }
      }
    }
  }

  lemma ListedSnoc(sils: seq<Silence>, i: nat)
    requires i < |sils|
    ensures forall id :: Listed(sils[..i + 1], id) <==> Listed(sils[..i], id) || sils[i].id == id
  {
  }
}
