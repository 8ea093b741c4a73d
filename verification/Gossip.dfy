/** Last-writer-wins replication, as the silence state and the notification log both
    merge: an entry is taken unless it is past its expiry or not newer than what is
    stored under its key. */
module Gossip {
  import opened Basics

  type Key = string

  datatype Item<B> = Item(key: Key, stamp: Time, expiresAt: Time, body: B)

  type State<B> = map<Key, Item<B>>

  predicate Takes<B>(st: State<B>, e: Item<B>, now: Time) {
    && e.expiresAt >= now
    && Newer(st, e)
  }

  predicate Newer<B>(st: State<B>, e: Item<B>) {
    e.key in st ==> st[e.key].stamp < e.stamp
  }

  function Merge<B>(st: State<B>, e: Item<B>, now: Time): State<B> {
    if Takes(st, e, now) then st[e.key := e] else st
  }

  // ---------------------------------------------------------------- convergence

  /** An entry as it arrives at a replica, at a time of that replica's clock. */
  datatype Delivery<B> = Delivery(item: Item<B>, at: Time)

  function MergeAll<B>(st: State<B>, ds: seq<Delivery<B>>): State<B> {
    if ds == [] then st else Merge(MergeAll(st, ds[..|ds| - 1]), ds[|ds| - 1].item, ds[|ds| - 1].at)
  }

  predicate Live<B>(d: Delivery<B>) { d.item.expiresAt >= d.at }

  /** The entries a replica received while they were live. */
  ghost function Received<B>(ds: seq<Delivery<B>>): set<Item<B>> {
    set d | d in ds && Live(d) :: d.item
  }

  /** st holds, for every key among the entries, one with the newest stamp, and nothing else. */
  ghost predicate HoldsNewest<B>(st: State<B>, es: set<Item<B>>) {
    && (forall k :: k in st ==> st[k] in es && st[k].key == k)
    && (forall e :: e in es ==> e.key in st && e.stamp <= st[e.key].stamp)
  }

  ghost predicate DistinctStamps<B>(es: set<Item<B>>) {
    forall a, b :: a in es && b in es && a.key == b.key && a.stamp == b.stamp ==> a == b
  }

  lemma {:induction false} MergeAllHoldsNewest<B>(ds: seq<Delivery<B>>)
    ensures HoldsNewest(MergeAll(map[], ds), Received(ds))
  {
    if ds != [] {
      var n := |ds| - 1;
      MergeAllHoldsNewest(ds[..n]);
      assert Received(ds) == Received(ds[..n]) + (if Live(ds[n]) then {ds[n].item} else {}) by {
        assert ds == ds[..n] + [ds[n]];
      }
    }
  }

  lemma NewestIsUnique<B>(s1: State<B>, s2: State<B>, es: set<Item<B>>)
    requires HoldsNewest(s1, es) && HoldsNewest(s2, es) && DistinctStamps(es)
    ensures s1 == s2
  {
  }

  /** Replicas that received the same live entries, in any order, at any times and any
      number of times, hold the same state. */
  lemma ReplicasConverge<B>(ds1: seq<Delivery<B>>, ds2: seq<Delivery<B>>)
    requires Received(ds1) == Received(ds2) && DistinctStamps(Received(ds1))
    ensures MergeAll(map[], ds1) == MergeAll(map[], ds2)
  {
    MergeAllHoldsNewest(ds1);
    MergeAllHoldsNewest(ds2);
    NewestIsUnique(MergeAll(map[], ds1), MergeAll(map[], ds2), Received(ds1));
  }

  lemma MergeTwo<B>(d1: Delivery<B>, d2: Delivery<B>)
    ensures MergeAll(map[], [d1, d2]) == Merge(Merge(map[], d1.item, d1.at), d2.item, d2.at)
  {
    assert [d1][..0] == [] && [d1, d2][..1] == [d1];
    assert MergeAll(map[], [d1]) == Merge(MergeAll(map[], []), d1.item, d1.at);
  }

  /** Without distinct stamps the first of two equally new entries wins, so order shows:
      two entries in either order agree if and only if they differ in key or stamp, are
      equal, or one of them is not live. */
  lemma OrderShowsIff<B>(d1: Delivery<B>, d2: Delivery<B>)
    ensures MergeAll(map[], [d1, d2]) == MergeAll(map[], [d2, d1]) <==>
            !Live(d1) || !Live(d2) || d1.item == d2.item || d1.item.key != d2.item.key || d1.item.stamp != d2.item.stamp
  {
    var a, b := [d1, d2], [d2, d1];
    MergeTwo(d1, d2);
    MergeTwo(d2, d1);
    if Live(d1) && Live(d2) && d1.item.key == d2.item.key && d1.item.stamp == d2.item.stamp {
      assert MergeAll(map[], a)[d1.item.key] == d1.item;
      assert MergeAll(map[], b)[d1.item.key] == d2.item;
    } else if Live(d1) && Live(d2) && d1.item.key != d2.item.key {
      var both := map[d1.item.key := d1.item, d2.item.key := d2.item];
      assert MergeAll(map[], a) == both && MergeAll(map[], b) == both;
    }
  }

  // ---------------------------------------------------------------- flooding stops

  /** A message carries many entries; an oversized one is never passed on. */
  datatype Message<B> = Message(to: nat, items: seq<Item<B>>, oversized: bool)

  /** A replica, and when it was last collected. */
  datatype Node<B> = Node(st: State<B>, swept: Time)

  datatype Network<B> = Network(nodes: seq<Node<B>>, flight: seq<Message<B>>)

  /** A delivery: message i reaches its node at `now`, and the node passes the whole message
      on once for every entry it took, each time to some peers. Or a collection. */
  datatype Step =
    | Hop(i: nat, now: Time, rounds: seq<seq<nat>>)
    | Sweep(node: nat, now: Time)

  /** The entries of one message, merged one after the other. */
  function MergeItems<B>(st: State<B>, items: seq<Item<B>>, now: Time): State<B>
    decreases items
  {
    if items == [] then st else MergeItems(Merge(st, items[0], now), items[1..], now)
  }

  /** How many of them are taken. */
  function Taken<B>(st: State<B>, items: seq<Item<B>>, now: Time): nat
    decreases items
  {
    if items == [] then 0
    else (if Takes(st, items[0], now) then 1 else 0) + Taken(Merge(st, items[0], now), items[1..], now)
  }

  /** A message changes the state exactly when something in it is taken. */
  lemma {:induction false} ChangesIffTaken<B>(st: State<B>, items: seq<Item<B>>, now: Time)
    ensures MergeItems(st, items, now) != st <==> Taken(st, items, now) > 0
    ensures forall k :: k in st ==>
      k in MergeItems(st, items, now) && st[k].stamp <= MergeItems(st, items, now)[k].stamp
    decreases items
  {
    if items != [] { ChangesIffTaken(Merge(st, items[0], now), items[1..], now); }
  }

  predicate Outlived<B>(e: Item<B>, now: Time) { e.expiresAt <= now }

  /** Garbage collection of a state in which every expiry is set. */
  function Collect<B>(st: State<B>, now: Time): State<B> {
    st - (set k | k in st && Outlived(st[k], now))
  }

  predicate ArePeers(peers: seq<nat>, n: nat) {
    |peers| <= n && forall j :: 0 <= j < |peers| ==> peers[j] < n
  }

  predicate Possible<B>(net: Network<B>, step: Step) {
    match step
    case Hop(i, now, rounds) =>
      && i < |net.flight| && net.flight[i].to < |net.nodes| && net.nodes[net.flight[i].to].swept <= now
      && |rounds| == (if net.flight[i].oversized then 0
                      else Taken(net.nodes[net.flight[i].to].st, net.flight[i].items, now))
      && forall j :: 0 <= j < |rounds| ==> ArePeers(rounds[j], |net.nodes|)
    case Sweep(node, now) => node < |net.nodes| && net.nodes[node].swept <= now
  }

  function Broadcast<B>(m: Message<B>, peers: seq<nat>): seq<Message<B>> {
    seq(|peers|, j requires 0 <= j < |peers| => m.(to := peers[j]))
  }

  function Broadcasts<B>(m: Message<B>, rounds: seq<seq<nat>>): seq<Message<B>> {
    if rounds == [] then [] else Broadcast(m, rounds[0]) + Broadcasts(m, rounds[1..])
  }

  function Apply<B>(net: Network<B>, step: Step): Network<B>
    requires Possible(net, step)
  {
    match step
    case Hop(i, now, rounds) =>
      var m := net.flight[i];
      var node := net.nodes[m.to];
      Network(net.nodes[m.to := node.(st := MergeItems(node.st, m.items, now))],
              net.flight[..i] + net.flight[i + 1..] + Broadcasts(m, rounds))
    case Sweep(k, now) =>
      net.(nodes := net.nodes[k := Node(Collect(net.nodes[k].st, now), now)])
  }

  predicate Possibles<B>(net: Network<B>, steps: seq<Step>)
    decreases steps
  {
    steps != [] ==> Possible(net, steps[0]) && Possibles(Apply(net, steps[0]), steps[1..])
  }

  /** The clock has moved on since the last collection of the node a message reaches. */
  predicate ClockMoves<B>(net: Network<B>, step: Step)
    requires Possible(net, step)
  {
    step.Hop? ==> net.nodes[net.flight[step.i].to].swept < step.now
  }

  predicate ClocksMove<B>(net: Network<B>, steps: seq<Step>)
    requires Possibles(net, steps)
    decreases steps
  {
    steps != [] ==> ClockMoves(net, steps[0]) && ClocksMove(Apply(net, steps[0]), steps[1..])
  }

  function Hops(steps: seq<Step>): nat {
    if steps == [] then 0 else (if steps[0].Hop? then 1 else 0) + Hops(steps[1..])
  }

  /** Only entries of the finite set es are stored or on their way, and none is stored that a
      collection should have removed. */
  ghost predicate NodeCarries<B>(node: Node<B>, es: set<Item<B>>) {
    forall k :: k in node.st ==> node.st[k] in es && node.st[k].expiresAt > node.swept
  }

  ghost predicate MessageCarries<B>(m: Message<B>, n: nat, es: set<Item<B>>) {
    m.to < n && forall j :: 0 <= j < |m.items| ==> m.items[j] in es
  }

  ghost predicate Carries<B>(net: Network<B>, es: set<Item<B>>) {
    && (forall i :: 0 <= i < |net.nodes| ==> NodeCarries(net.nodes[i], es))
    && (forall i :: 0 <= i < |net.flight| ==> MessageCarries(net.flight[i], |net.nodes|, es))
  }

  /** The entries no collection of the node has outlived. */
  ghost function Alive<B>(node: Node<B>, es: set<Item<B>>): set<Item<B>> {
    set e | e in es && e.expiresAt > node.swept
  }

  /** Those of them the node would still take. */
  ghost function Pending<B>(node: Node<B>, es: set<Item<B>>): set<Item<B>> {
    set e | e in es && e.expiresAt > node.swept && Newer(node.st, e)
  }

  /** How often the node may still take an entry: each pending one once, and everything again
      after a collection, which leaves fewer alive. */
  ghost function Credit<B>(node: Node<B>, es: set<Item<B>>): nat {
    |Alive(node, es)| * (|es| + 1) + |Pending(node, es)|
  }

  ghost function Credits<B>(nodes: seq<Node<B>>, es: set<Item<B>>): nat {
    if nodes == [] then 0 else Credit(nodes[0], es) + Credits(nodes[1..], es)
  }

  /** Every entry taken is worth a broadcast to every node and the delivery itself. */
  ghost function Work<B>(net: Network<B>, es: set<Item<B>>): nat {
    Credits(net.nodes, es) * (|net.nodes| + 1) + |net.flight|
  }

  lemma Smaller<T>(a: set<T>, b: set<T>)
    requires a <= b
    ensures |a| <= |b|
  {
    assert b == a + (b - a);
  }

  lemma TakingShrinks<B>(node: Node<B>, e: Item<B>, es: set<Item<B>>)
    requires e in es && e.expiresAt > node.swept && Newer(node.st, e)
    ensures |Pending(node.(st := node.st[e.key := e]), es)| < |Pending(node, es)|
  {
    var before, after := Pending(node, es), Pending(node.(st := node.st[e.key := e]), es);
    assert after <= before - {e};
    Smaller(after, before - {e});
  }

  /** A message of which k entries are taken uses up k of the node's credit. */
  lemma {:induction false} MessageShrinks<B>(node: Node<B>, items: seq<Item<B>>, now: Time, es: set<Item<B>>)
    requires NodeCarries(node, es) && node.swept < now
    requires forall j :: 0 <= j < |items| ==> items[j] in es
    ensures NodeCarries(node.(st := MergeItems(node.st, items, now)), es)
    ensures |Pending(node.(st := MergeItems(node.st, items, now)), es)| + Taken(node.st, items, now) <=
      |Pending(node, es)|
    decreases items
  {
    if items != [] {
      var next := node.(st := Merge(node.st, items[0], now));
      if Takes(node.st, items[0], now) { TakingShrinks(node, items[0], es); }
      MessageShrinks(next, items[1..], now, es);
    }
  }

  /** A collection that removes something leaves fewer entries alive; one that removes
      nothing leaves at most as many pending. */
  lemma SweepShrinks<B>(node: Node<B>, now: Time, es: set<Item<B>>)
    requires NodeCarries(node, es) && node.swept <= now
    ensures NodeCarries(Node(Collect(node.st, now), now), es)
    ensures Credit(Node(Collect(node.st, now), now), es) <= Credit(node, es)
  {
    var next := Node(Collect(node.st, now), now);
    Smaller(Alive(next, es), Alive(node, es));
    Smaller(Pending(next, es), es);
    if k :| k in node.st && node.st[k].expiresAt <= now {
      assert Alive(next, es) <= Alive(node, es) - {node.st[k]};
      Smaller(Alive(next, es), Alive(node, es) - {node.st[k]});
      FewerAlive(|Alive(next, es)|, |Alive(node, es)|, |es|, |Pending(next, es)|);
    } else {
      assert next.st == node.st;
      Smaller(Pending(next, es), Pending(node, es));
      FewerOrEqual(|Alive(next, es)|, |Alive(node, es)|, |es| + 1);
    }
  }

  lemma FewerAlive(a': nat, a: nat, n: nat, p': nat)
    requires a' < a && p' <= n
    ensures a' * (n + 1) + p' <= a * (n + 1)
  {
    FewerOrEqual(a' + 1, a, n + 1);
  }

  lemma {:induction false} FewerOrEqual(a': nat, a: nat, n: nat)
    requires a' <= a
    ensures a' * n <= a * n
  {
  }

  lemma {:induction false} CreditsUpdate<B>(nodes: seq<Node<B>>, i: nat, node: Node<B>, es: set<Item<B>>)
    requires i < |nodes|
    ensures Credits(nodes[i := node], es) == Credits(nodes, es) - Credit(nodes[i], es) + Credit(node, es)
  {
    if i == 0 {
      assert nodes[0 := node][1..] == nodes[1..];
    } else {
      CreditsUpdate(nodes[1..], i - 1, node, es);
      assert nodes[i := node][1..] == nodes[1..][i - 1 := node];
    }
  }

  lemma {:induction false} BroadcastsCarry<B>(m: Message<B>, rounds: seq<seq<nat>>, n: nat, es: set<Item<B>>)
    requires MessageCarries(m, n, es) && (forall j :: 0 <= j < |rounds| ==> ArePeers(rounds[j], n))
    ensures |Broadcasts(m, rounds)| <= |rounds| * n
    ensures forall i :: 0 <= i < |Broadcasts(m, rounds)| ==> MessageCarries(Broadcasts(m, rounds)[i], n, es)
    decreases rounds
  {
    if rounds != [] {
      BroadcastsCarry(m, rounds[1..], n, es);
      assert |rounds| * n == n + |rounds[1..]| * n;
      forall i | 0 <= i < |Broadcast(m, rounds[0])| ensures MessageCarries(Broadcast(m, rounds[0])[i], n, es) {
        assert ArePeers(rounds[0], n);
      }
    }
  }

  /** Taking k entries pays for k broadcasts to n nodes and for the delivery. */
  lemma LessWork(p: nat, p': nat, k: nat, n: nat, f: nat, f': nat)
    requires p' + k <= p && f' <= f - 1 + k * n
    ensures p' * (n + 1) + f' < p * (n + 1) + f
  {
    FewerOrEqual(p' + k, p, n + 1);
    assert (p' + k) * (n + 1) == p' * (n + 1) + k * n + k;
  }

  /** Each delivery uses up work, whatever the message made the node take and send. */
  lemma HopDoesWork<B>(net: Network<B>, h: Step, es: set<Item<B>>)
    requires Carries(net, es) && Possible(net, h) && h.Hop? && ClockMoves(net, h)
    ensures Carries(Apply(net, h), es)
    ensures Work(Apply(net, h), es) < Work(net, es)
  {
    var m := net.flight[h.i];
    var node := net.nodes[m.to];
    assert MessageCarries(m, |net.nodes|, es) && NodeCarries(node, es);
    var next := node.(st := MergeItems(node.st, m.items, h.now));
    MessageShrinks(node, m.items, h.now, es);
    CreditsUpdate(net.nodes, m.to, next, es);
    BroadcastsCarry(m, h.rounds, |net.nodes|, es);
    var k := Taken(node.st, m.items, h.now);
    FewerOrEqual(|h.rounds|, k, |net.nodes|);
    assert Alive(next, es) == Alive(node, es);
    var net' := Apply(net, h);
    LessWork(Credits(net.nodes, es), Credits(net'.nodes, es), k, |net.nodes|, |net.flight|, |net'.flight|);
  }

  /** A collection never makes work. */
  lemma SweepMakesNoWork<B>(net: Network<B>, s: Step, es: set<Item<B>>)
    requires Carries(net, es) && Possible(net, s) && s.Sweep?
    ensures Carries(Apply(net, s), es)
    ensures Work(Apply(net, s), es) <= Work(net, es)
  {
    var node := net.nodes[s.node];
    assert NodeCarries(node, es);
    SweepShrinks(node, s.now, es);
    CreditsUpdate(net.nodes, s.node, Node(Collect(node.st, s.now), s.now), es);
    FewerOrEqual(Credits(Apply(net, s).nodes, es), Credits(net.nodes, es), |net.nodes| + 1);
  }

  /** Gossip of a finite set of entries stops, although every entry a node takes makes it
      send the whole message again and collections let entries in again: no run in which clocks
      move on after collections has more deliveries than there was work at the start. */
  lemma {:induction false} FloodingStops<B>(net: Network<B>, steps: seq<Step>, es: set<Item<B>>)
    requires Carries(net, es) && Possibles(net, steps) && ClocksMove(net, steps)
    ensures Hops(steps) <= Work(net, es)
    decreases steps
  {
    if steps != [] {
      if steps[0].Hop? { HopDoesWork(net, steps[0], es); } else { SweepMakesNoWork(net, steps[0], es); }
      FloodingStops(Apply(net, steps[0]), steps[1..], es);
    }
  }

  // ---------------------------------------------------------------- while the clock stands still

  /** What a collection removed is taken again only at the very instant it expires, with the
      clock where it was. */
  lemma RetakenIff<B>(st: State<B>, e: Item<B>, now: Time, now': Time)
    requires e.key in st && st[e.key] == e && Outlived(e, now) && now <= now'
    ensures Takes(Collect(st, now), e, now') <==> e.expiresAt == now == now'
  {
  }

  /** Two empty nodes just collected, and a message with one entry on its way to node k. */
  function PingPong<B>(e: Item<B>, k: nat): Network<B> {
    var node := Node(map[], e.expiresAt);
    Network([node, node], [Message(k, [e], false)])
  }

  /** The node takes the entry, passes it to the other, and is collected. */
  function BackAndForth<B>(e: Item<B>, k: nat): seq<Step>
    requires k < 2
  {
    [Hop(0, e.expiresAt, [[1 - k]]), Sweep(k, e.expiresAt)]
  }

  lemma OneReturn<B>(e: Item<B>, k: nat, steps: seq<Step>)
    requires k < 2 && Possibles(PingPong(e, 1 - k), steps)
    ensures Possibles(PingPong(e, k), BackAndForth(e, k) + steps)
    ensures Hops(BackAndForth(e, k) + steps) == Hops(steps) + 1
  {
    var net, all := PingPong(e, k), BackAndForth(e, k) + steps;
    assert all[0] == BackAndForth(e, k)[0] && all[1..][0] == BackAndForth(e, k)[1] && all[1..][1..] == steps;
    var m := net.flight[0];
    assert Taken(net.nodes[k].st, m.items, e.expiresAt) == 1 && m.items[1..] == [];
    assert MergeItems(net.nodes[k].st, m.items, e.expiresAt) == map[e.key := e];
    assert Broadcasts(m, [[1 - k]]) == [m.(to := 1 - k)];
    var next := Apply(net, all[0]);
    assert Possible(next, all[1]);
    assert Collect(next.nodes[k].st, e.expiresAt) == map[];
    assert Apply(next, all[1]) == PingPong(e, 1 - k);
  }

  /** While the clock stands at the expiry of an entry and nodes are collected at once, it can be
      passed back and forth any number of times: no number bounds the deliveries. */
  lemma {:induction false} FloodingWhileClockStands<B>(e: Item<B>, k: nat, n: nat) returns (steps: seq<Step>)
    requires k < 2
    ensures Possibles(PingPong(e, k), steps) && Hops(steps) == n
    decreases n
  {
    steps := [];
    if n > 0 {
      steps := FloodingWhileClockStands(e, 1 - k, n - 1);
      OneReturn(e, k, steps);
      steps := BackAndForth(e, k) + steps;
    }
  }
}
