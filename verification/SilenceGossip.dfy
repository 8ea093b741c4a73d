/** The silence state replicates by the gossip merge, so replicas converge. */
module SilenceGossip {
  import opened Basics
  import opened SilenceStore
  import SilenceRuns
  import G = Gossip

  /** A silence as a gossiped entry: its ID is the key, its update time the stamp. */
  function ItemOf(e: MeshSilence): G.Item<MeshSilence> {
    G.Item(e.silence.id, e.silence.updatedAt, e.expiresAt, e)
  }

  const NO_ITEM := ItemOf(MeshSilence(Silence("", [], ZERO_TIME, ZERO_TIME, ZERO_TIME), ZERO_TIME))

  function Items(st: map<Id, MeshSilence>): G.State<MeshSilence> {
    map id | id in st :: if id in st then ItemOf(st[id]) else NO_ITEM
  }

  datatype Arrival = Arrival(entry: MeshSilence, at: Time)

  function MergeArrivals(cfg: Config, s: Store, arrivals: seq<Arrival>): Store {
    if arrivals == [] then s
    else
      var last := arrivals[|arrivals| - 1];
      MergeEntry(cfg, MergeArrivals(cfg, s, arrivals[..|arrivals| - 1]), last.entry, last.at)
  }

  function Deliveries(arrivals: seq<Arrival>): seq<G.Delivery<MeshSilence>> {
    seq(|arrivals|, i requires 0 <= i < |arrivals| => G.Delivery(ItemOf(arrivals[i].entry), arrivals[i].at))
  }

  lemma {:induction false} MergeIsGossip(cfg: Config, s: Store, arrivals: seq<Arrival>)
    ensures Items(MergeArrivals(cfg, s, arrivals).st) == G.MergeAll(Items(s.st), Deliveries(arrivals))
  {
    if arrivals == [] {
      assert Deliveries(arrivals) == [];
    } else {
      var n := |arrivals| - 1;
      MergeIsGossip(cfg, s, arrivals[..n]);
      EntryIsGossip(cfg, MergeArrivals(cfg, s, arrivals[..n]), arrivals[n].entry, arrivals[n].at);
      assert Deliveries(arrivals)[..n] == Deliveries(arrivals[..n]);
    }
  }

  lemma ItemsInjective(s1: map<Id, MeshSilence>, s2: map<Id, MeshSilence>)
    requires Items(s1) == Items(s2)
    ensures s1 == s2
  {
    assert s1.Keys == Items(s1).Keys == Items(s2).Keys == s2.Keys;
    forall id | id in s1 ensures s1[id] == s2[id] {
      assert Items(s1)[id].body == s1[id] && Items(s2)[id].body == s2[id];
    }
  }

  /** Replicas of the silence state that received the same live silences, in any order and
      any number of times, hold the same silences if no two of them share ID and update time. */
  lemma SilencesConverge(cfg1: Config, cfg2: Config, a1: seq<Arrival>, a2: seq<Arrival>)
    requires G.Received(Deliveries(a1)) == G.Received(Deliveries(a2))
    requires G.DistinctStamps(G.Received(Deliveries(a1)))
    ensures MergeArrivals(cfg1, EMPTY_STORE, a1).st == MergeArrivals(cfg2, EMPTY_STORE, a2).st
  {
    MergeIsGossip(cfg1, EMPTY_STORE, a1);
    MergeIsGossip(cfg2, EMPTY_STORE, a2);
    assert Items(EMPTY_STORE.st) == map[];
    G.ReplicasConverge(Deliveries(a1), Deliveries(a2));
    ItemsInjective(MergeArrivals(cfg1, EMPTY_STORE, a1).st, MergeArrivals(cfg2, EMPTY_STORE, a2).st);
  }

  function ItemsOf(es: seq<MeshSilence>): seq<G.Item<MeshSilence>> {
    seq(|es|, i requires 0 <= i < |es| => ItemOf(es[i]))
  }

  lemma EntryIsGossip(cfg: Config, s: Store, e: MeshSilence, now: Time)
    ensures Items(MergeEntry(cfg, s, e, now).st) == G.Merge(Items(s.st), ItemOf(e), now)
    ensures Accepts(s.st, e, now) <==> G.Takes(Items(s.st), ItemOf(e), now)
  {
  }

  /** A message of silences is merged, and passed on as often, as a message of their entries. */
  lemma {:induction false} MessageIsGossip(cfg: Config, s: Store, es: seq<MeshSilence>, now: Time)
    ensures Items(SilenceRuns.MergeAll(cfg, s, es, now).st) == G.MergeItems(Items(s.st), ItemsOf(es), now)
    ensures SilenceRuns.AcceptedIn(cfg, s, es, now) == G.Taken(Items(s.st), ItemsOf(es), now)
    decreases es
  {
    if es != [] {
      EntryIsGossip(cfg, s, es[0], now);
      MessageIsGossip(cfg, MergeEntry(cfg, s, es[0], now), es[1..], now);
      assert ItemsOf(es)[1..] == ItemsOf(es[1..]);
    }
  }

  /** Every silence has an expiry, or at least the clock has passed the unset one. */
  predicate ExpiriesCount(st: map<Id, MeshSilence>, now: Time) {
    ZERO_TIME <= now || forall id :: id in st ==> !IsZero(st[id].expiresAt)
  }

  /** Collecting silences is collecting their entries. */
  lemma CollectionIsGossip(s: Store, now: Time)
    requires Agrees(s) && ExpiriesCount(s.st, now)
    ensures Items(GC(s, now).st) == G.Collect(Items(s.st), now)
  {
    GCAgrees(s, now);
    KeptItems(s.st, GC(s, now).st, now);
  }

  lemma KeptItems(st: map<Id, MeshSilence>, kept: map<Id, MeshSilence>, now: Time)
    requires ExpiriesCount(st, now)
    requires forall id :: id in kept <==> Keeps(st, now, id)
    requires forall id :: id in kept ==> id in st && kept[id] == st[id]
    ensures Items(kept) == G.Collect(Items(st), now)
  {
    assert Items(kept).Keys == G.Collect(Items(st), now).Keys;
  }
}
