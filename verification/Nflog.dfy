/** The notification log: per receiver and group, the last notification that was sent. */
module Nflog {
  import opened Basics
  import opened Gossip

  type Hash = nat

  /** What a log entry records besides key, time and expiry. */
  datatype Sent = Sent(firing: seq<Hash>, resolved: seq<Hash>)

  type Entry = Item<Sent>

  type Log = State<Sent>

  /** How long an entry is kept: the retention, or the expiry if that is set and shorter. */
  function Lifetime(retention: int, expiry: int): int {
    if expiry > 0 && retention > expiry then expiry else retention
  }

  function NewEntry(retention: int, key: Key, sent: Sent, expiry: int, now: Time): Entry {
    Item(key, now, now + Lifetime(retention, expiry), sent)
  }

  /** Log reads the clock for the entry and again for the merge. */
  function Write(st: Log, retention: int, key: Key, sent: Sent, expiry: int, now: Time, now2: Time): Log {
    if key in st && st[key].stamp > now then st
    else Merge(st, NewEntry(retention, key, sent, expiry, now), now2)
  }

  class NotificationLog {
    const retention: int
    var st: Log

    constructor (retention: int)
      ensures st == map[] && this.retention == retention
    {
      this.retention := retention;
      st := map[];
    }

    method LogSent(key: Key, sent: Sent, expiry: int, now: Time, now2: Time)
      modifies this
      ensures st == Write(old(st), retention, key, sent, expiry, now, now2)
      ensures var life := if 0 < expiry < retention then expiry else retention;
        st == if (key in old(st) && now <= old(st)[key].stamp) || now + life < now2 then old(st)
              else old(st)[key := Item(key, now, now + life, sent)]
    {
      if key in st && st[key].stamp > now { return; }
      var expiresAt := now + retention;
      if expiry > 0 && retention > expiry { expiresAt := now + expiry; }
      var _ := MergeOne(Item(key, now, expiresAt, sent), now2);
    }

    /** True when the entry was taken, which decides whether it is gossiped on. */
    method MergeOne(e: Entry, now: Time) returns (merged: bool)
      modifies this
      ensures st == Merge(old(st), e, now)
      ensures merged <==> Takes(old(st), e, now)
      ensures merged <==> st != old(st)
    {
      if e.expiresAt < now { return false; }
      if e.key !in st || st[e.key].stamp < e.stamp {
        st := st[e.key := e];
        return true;
      }
      return false;
    }

    /** Merge a decoded message, in the order the map iteration yields its entries; it is
        passed on once for every entry taken, unless it is oversized. */
    method MergeMessage(es: seq<Entry>, oversized: bool, now: Time) returns (broadcasts: nat)
      modifies this
      ensures st == MergeItems(old(st), es, now)
      ensures broadcasts == if oversized then 0 else Taken(old(st), es, now)
      ensures broadcasts == 0 <==> oversized || st == old(st)
    {
      broadcasts := 0;
      ChangesIffTaken(st, es, now);
      for i := 0 to |es|
        invariant MergeItems(st, es[i..], now) == MergeItems(old(st), es, now)
        invariant if oversized then broadcasts == 0 else broadcasts + Taken(st, es[i..], now) == Taken(old(st), es, now)
      {
        assert es[i..][1..] == es[i + 1..];
        var merged := MergeOne(es[i], now);
        if merged && !oversized { broadcasts := broadcasts + 1; }
      }
    }

    method Query(key: Key) returns (e: Option<Entry>)
      ensures e == if key in st then Some(st[key]) else None
    {
      if key in st { return Some(st[key]); }
      return None;
    }

    /** Garbage collection, over the keys in any order; an unset expiry ends it with an error. */
    method CollectGarbage(now: Time) returns (n: nat, ok: bool)
      modifies this
      ensures ok <==> forall k :: k in old(st) ==> !IsZero(old(st)[k].expiresAt)
      ensures ok ==> st == Collect(old(st), now)
      ensures n == |old(st)| - |st|
      ensures forall k :: k in st ==> k in old(st) && st[k] == old(st)[k]
      ensures forall k :: k in old(st) && k !in st ==> Outlived(old(st)[k], now)
    {
      n := 0;
      var todo := st.Keys;
      while todo != {}
        invariant todo <= st.Keys <= old(st).Keys
        invariant forall k :: k in st ==> st[k] == old(st)[k]
        invariant forall k :: k in old(st) && k !in todo ==> !IsZero(old(st)[k].expiresAt)
        invariant forall k :: k in old(st) && k !in todo ==> (k in st <==> !Outlived(old(st)[k], now))
        invariant n == |old(st)| - |st|
      {
        var k :| k in todo;
        if IsZero(st[k].expiresAt) { return n, false; }
        todo := todo - {k};
        if st[k].expiresAt <= now {
          DropOne(st, k);
          st := st - {k};
          n := n + 1;
        }
      }
      return n, true;
    }
  }

  lemma DropOne(st: Log, k: Key)
    requires k in st
    ensures |st - {k}| == |st| - 1
  {
  }
}
