/** The bucket that limits alerts by name: a heap of values by expiry, with the position of
    every value on the side. */
module ExpiryBucket {
  import opened Basics

  datatype Item<V> = Item(value: V, priority: Time)

  predicate Expired<V>(it: Item<V>, at: Time) { it.priority < at }

  function Parent(i: nat): nat
    requires i > 0
  {
    (i - 1) / 2
  }

  predicate EdgeOk<V>(items: seq<Item<V>>, i: nat)
    requires 0 < i < |items|
  {
    items[Parent(i)].priority <= items[i].priority
  }

  /** A min-heap by expiry, in its first n slots. */
  predicate IsHeap<V>(items: seq<Item<V>>, n: nat) {
    n <= |items| && forall i :: 0 < i < n ==> EdgeOk(items, i)
  }

  /** The parent of k is no later than the children of k. */
  predicate Bridged<V>(items: seq<Item<V>>, n: nat, k: nat) {
    && n <= |items|
    && forall i :: 0 < i < n && 0 < k < n && Parent(i) == k ==> items[Parent(k)].priority <= items[i].priority
  }

  /** A heap but for the edge above k. */
  predicate HeapButUp<V>(items: seq<Item<V>>, n: nat, k: nat) {
    k < n <= |items| && (forall i :: 0 < i < n && i != k ==> EdgeOk(items, i)) && Bridged(items, n, k)
  }

  /** A heap but for the edges above and below k. */
  predicate HeapBut<V>(items: seq<Item<V>>, n: nat, k: nat) {
    k < n <= |items| && (forall i :: 0 < i < n && i != k && Parent(i) != k ==> EdgeOk(items, i)) && Bridged(items, n, k)
  }

  function Swapped<V>(items: seq<Item<V>>, i: nat, j: nat): seq<Item<V>>
    requires i < |items| && j < |items|
  {
    items[i := items[j]][j := items[i]]
  }

  lemma {:induction false} RootIsLeast<V>(items: seq<Item<V>>, n: nat, i: nat)
    requires IsHeap(items, n) && i < n
    ensures items[0].priority <= items[i].priority
  {
    if i > 0 {
      assert EdgeOk(items, i);
      RootIsLeast(items, n, Parent(i));
    }
  }

  /** Moving up: swapping k with its later parent leaves only the edge above the parent open. */
  lemma SwapUp<V>(items: seq<Item<V>>, n: nat, k: nat)
    requires HeapButUp(items, n, k) && k > 0 && items[k].priority < items[Parent(k)].priority
    ensures HeapButUp(Swapped(items, Parent(k), k), n, Parent(k))
  {
    var p, s := Parent(k), Swapped(items, Parent(k), k);
    forall i | 0 < i < n && i != p ensures EdgeOk(s, i) {
      if i != k { assert EdgeOk(items, i); }
    }
    if p > 0 {
      assert EdgeOk(items, p);
      forall i | 0 < i < n && Parent(i) == p ensures s[Parent(p)].priority <= s[i].priority {
        if i != k { assert EdgeOk(items, i); }
      }
    }
  }

  /** Sifting up from k, as a function of the slots. */
  function SiftedUp<V>(items: seq<Item<V>>, k: nat): seq<Item<V>>
    requires k < |items|
    decreases k
  {
    if k > 0 && items[k].priority < items[Parent(k)].priority
    then SiftedUp(Swapped(items, Parent(k), k), Parent(k)) else items
  }

  /** j is the child of k that expires first. */
  predicate IsFirstChild<V>(items: seq<Item<V>>, n: nat, k: nat, j: nat) {
    && 0 < j < n <= |items| && Parent(j) == k
    && forall i :: 0 < i < n && Parent(i) == k ==> items[j].priority <= items[i].priority
  }

  /** Moving down: swapping k with its first child closes the edge above k and leaves only the
      edges below the child open. */
  lemma SwapDown<V>(items: seq<Item<V>>, n: nat, k: nat, j: nat)
    requires HeapBut(items, n, k) && IsFirstChild(items, n, k, j) && items[j].priority < items[k].priority
    ensures HeapBut(Swapped(items, k, j), n, j) && EdgeOk(Swapped(items, k, j), j)
  {
  }

  /** Stopping: no child of k is earlier than k. */
  lemma StopDown<V>(items: seq<Item<V>>, n: nat, k: nat)
    requires HeapBut(items, n, k)
    requires forall i :: 0 < i < n && Parent(i) == k ==> items[k].priority <= items[i].priority
    ensures HeapButUp(items, n, k) && (k == 0 || EdgeOk(items, k) ==> IsHeap(items, n))
  {
  }

  // ---------------------------------------------------------------- positions

  /** Every value knows its position, and every position its value. */
  predicate Mirrors<V(==)>(items: seq<Item<V>>, at: map<V, nat>) {
    && (forall i :: 0 <= i < |items| ==> items[i].value in at && at[items[i].value] == i)
    && (forall v :: v in at ==> at[v] < |items| && items[at[v]].value == v)
  }

  /** What the bucket holds: values with their expiry. */
  function Contents<V(==)>(items: seq<Item<V>>, at: map<V, nat>): map<V, Time>
    requires Mirrors(items, at)
  {
    map v | v in at :: if v in at then items[at[v]].priority else 0
  }

  lemma SwapMirrors<V>(items: seq<Item<V>>, at: map<V, nat>, i: nat, j: nat)
    requires Mirrors(items, at) && i < |items| && j < |items|
    ensures var s := Swapped(items, i, j); var at' := at[s[i].value := i][s[j].value := j];
      Mirrors(s, at') && Contents(s, at') == Contents(items, at)
  {
  }

  lemma AppendMirrors<V>(items: seq<Item<V>>, at: map<V, nat>, it: Item<V>)
    requires Mirrors(items, at) && it.value !in at
    ensures Mirrors(items + [it], at[it.value := |items|])
    ensures Contents(items + [it], at[it.value := |items|]) == Contents(items, at)[it.value := it.priority]
  {
  }

  lemma DropLastMirrors<V>(items: seq<Item<V>>, at: map<V, nat>)
    requires Mirrors(items, at) && items != []
    ensures var n := |items| - 1; var v := items[n].value;
      Mirrors(items[..n], at - {v}) && Contents(items[..n], at - {v}) == Contents(items, at) - {v}
  {
  }

  lemma ChangeMirrors<V>(items: seq<Item<V>>, at: map<V, nat>, v: V, priority: Time)
    requires Mirrors(items, at) && v in at
    ensures Mirrors(items[at[v] := Item(v, priority)], at)
    ensures Contents(items[at[v] := Item(v, priority)], at) == Contents(items, at)[v := priority]
  {
  }

  /** Changing one priority of a heap. */
  lemma ChangeHeap<V>(items: seq<Item<V>>, k: nat, it: Item<V>)
    requires IsHeap(items, |items|) && k < |items|
    ensures HeapBut(items[k := it], |items|, k)
  {
    var s := items[k := it];
    forall i | 0 < i < |items| && i != k && Parent(i) != k ensures EdgeOk(s, i) { assert EdgeOk(items, i); }
    forall i | 0 < i < |items| && 0 < k && Parent(i) == k ensures s[Parent(k)].priority <= s[i].priority {
      assert EdgeOk(items, i) && EdgeOk(items, k);
    }
  }

  /** Swapping the root with the last item and leaving that out opens only the edges below the root. */
  lemma LastToRoot<V>(items: seq<Item<V>>)
    requires IsHeap(items, |items|) && items != []
    ensures var n := |items| - 1; var s := Swapped(items, 0, n); s[n..] == [items[0]] && (n > 0 ==> HeapBut(s, n, 0))
  {
    var n := |items| - 1;
    var s := Swapped(items, 0, n);
    forall i | 0 < i < n && Parent(i) != 0 ensures EdgeOk(s, i) { assert EdgeOk(items, i); }
  }

  lemma TakeHeap<V>(items: seq<Item<V>>, n: nat)
    requires n <= |items| && (n == 0 || HeapButUp(items, n, 0) || IsHeap(items, n))
    ensures IsHeap(items[..n], n)
  {
    forall i | 0 < i < n ensures EdgeOk(items[..n], i) { assert EdgeOk(items, i); }
  }

  /** v expires first. */
  predicate IsEarliest<V(==)>(c: map<V, Time>, v: V) { v in c && forall w :: w in c ==> c[v] <= c[w] }

  /** Every value has expired. */
  predicate AllExpired<V(==)>(c: map<V, Time>, now: Time) { forall v :: v in c ==> c[v] < now }

  class Bucket<V(==)> {
    const capacity: int
    var items: seq<Item<V>>
    var at: map<V, nat>

    constructor (capacity: int)
      ensures this.capacity == capacity && Valid() && View() == map[] && items == []
    {
      this.capacity := capacity;
      items, at := [], map[];
    }

    predicate Valid()
      reads this
    {
      Mirrors(items, at) && IsHeap(items, |items|) && (|items| <= capacity || items == [])
    }

    function View(): map<V, Time>
      requires Mirrors(items, at)
      reads this
    {
      Contents(items, at)
    }

    method Swap(i: nat, j: nat)
      requires Mirrors(items, at) && i < |items| && j < |items|
      modifies this
      ensures items == Swapped(old(items), i, j)
      ensures Mirrors(items, at) && View() == old(View())
    {
      SwapMirrors(items, at, i, j);
      items := items[i := items[j]][j := items[i]];
      at := at[items[i].value := i];
      at := at[items[j].value := j];
    }

    method Up(j: nat)
      requires Mirrors(items, at) && HeapButUp(items, |items|, j)
      modifies this
      ensures Mirrors(items, at) && View() == old(View()) && |items| == |old(items)| && IsHeap(items, |items|)
      ensures items == SiftedUp(old(items), j)
    {
      var k: nat := j;
      while k > 0 && items[k].priority < items[Parent(k)].priority
        invariant k < |items| == |old(items)| && Mirrors(items, at) && View() == old(View())
        invariant HeapButUp(items, |items|, k) && SiftedUp(items, k) == SiftedUp(old(items), j)
      {
        SwapUp(items, |items|, k);
        Swap(Parent(k), k);
        k := Parent(k);
      }
    }

    /** The child of i that expires first, or n. */
    method FirstChild(i: nat, n: nat) returns (j: nat)
      requires i < n <= |items|
      ensures j < n ==> IsFirstChild(items, n, i, j)
      ensures j >= n ==> forall k :: 0 < k < n ==> Parent(k) != i
    {
      j := 2 * i + 1;
      if j + 1 < n && items[j + 1].priority < items[j].priority { j := j + 1; }
    }

    /** Sinks the item at i0 within the first n slots; says whether it moved. */
    method Down(i0: nat, n: nat) returns (moved: bool)
      requires Mirrors(items, at) && HeapBut(items, n, i0)
      modifies this
      ensures Mirrors(items, at) && View() == old(View()) && |items| == |old(items)| && items[n..] == old(items)[n..]
      ensures moved ==> IsHeap(items, n)
      ensures !moved ==> items == old(items) && HeapButUp(items, n, i0)
    {
      var i: nat := i0;
      while true
        invariant |items| == |old(items)| && Mirrors(items, at) && View() == old(View())
        invariant items[n..] == old(items)[n..]
        invariant i0 <= i && HeapBut(items, n, i) && (i == i0 ==> items == old(items)) && (i > i0 ==> EdgeOk(items, i))
        decreases n - i
      {
        var j := FirstChild(i, n);
        if j >= n || items[j].priority >= items[i].priority { break; }
        SwapDown(items, n, i, j);
        Swap(i, j);
        i := j;
      }
      StopDown(items, n, i);
      return i > i0;
    }

    /** Restores the heap after the item at k has changed. */
    method Fix(k: nat)
      requires Mirrors(items, at) && HeapBut(items, |items|, k)
      modifies this
      ensures Mirrors(items, at) && View() == old(View()) && |items| == |old(items)| && IsHeap(items, |items|)
    {
      var moved := Down(k, |items|);
      if !moved { Up(k); }
    }

    method Push(it: Item<V>)
      requires Mirrors(items, at) && IsHeap(items, |items|) && it.value !in at
      modifies this
      ensures Mirrors(items, at) && IsHeap(items, |items|) && |items| == |old(items)| + 1
      ensures View() == old(View())[it.value := it.priority]
      ensures items == SiftedUp(old(items) + [it], |old(items)|)
    {
      AppendMirrors(items, at, it);
      ghost var before := items;
      at := at[it.value := |items|];
      items := items + [it];
      forall i | 0 < i < |before| ensures EdgeOk(items, i) { assert EdgeOk(before, i); }
      Up(|items| - 1);
    }

    /** Takes out the item at the root, which expires first. */
    method Pop()
      requires Mirrors(items, at) && IsHeap(items, |items|) && items != []
      modifies this
      ensures Mirrors(items, at) && IsHeap(items, |items|) && |items| == |old(items)| - 1
      ensures View() == old(View()) - {old(items)[0].value}
    {
      var n := |items| - 1;
      LastToRoot(items);
      Swap(0, n);
      if n > 0 { var _ := Down(0, n); }
      DropLastMirrors(items, at);
      TakeHeap(items, n);
      at := at - {items[n].value};
      items := items[..n];
    }

    /** A value is taken exactly when the capacity is at least one and it is known already,
        there is room, or something has expired; to make room a value that expires first is
        taken out, and it has expired. */
    method Upsert(value: V, priority: Time, now: Time) returns (ok: bool)
      requires Valid()
      modifies this
      ensures Valid()
      ensures ok <==>
        && capacity >= 1
        && (value in old(View()) || |old(items)| < capacity || exists v :: v in old(View()) && old(View())[v] < now)
      ensures !ok ==> View() == old(View())
      ensures ok && (value in old(View()) || |old(items)| < capacity) ==> View() == old(View())[value := priority]
      ensures ok && value !in old(View()) && |old(items)| < capacity ==>
        items == SiftedUp(old(items) + [Item(value, priority)], |old(items)|)
      ensures ok && value !in old(View()) && |old(items)| >= capacity ==>
        exists v ::
          && IsEarliest(old(View()), v) && old(View())[v] < now
          && View() == (old(View()) - {v})[value := priority]
    {
      if capacity < 1 { return false; }
      if value in at {
        ChangeHeap(items, at[value], Item(value, priority));
        ChangeMirrors(items, at, value, priority);
        var k := at[value];
        items := items[k := Item(value, priority)];
        Fix(k);
        return true;
      }
      if |items| < capacity {
        Push(Item(value, priority));
        return true;
      }
      ghost var c := View();
      var oldest := items[0];
      RootEarliest(items, at);
      if !Expired(oldest, now) { return false; }
      Pop();
      assert value !in View();
      Push(Item(value, priority));
      assert View() == (c - {oldest.value})[value := priority];
      return true;
    }

    /** Looks at the last slot only. */
    method IsStale(now: Time) returns (stale: bool)
      requires Valid()
      ensures stale <==> LastExpired(items, now)
      ensures AllExpired(View(), now) ==> stale
    {
      if |items| == 0 { return true; }
      assert items[|items| - 1].value in View();
      return Expired(items[|items| - 1], now);
    }
  }

  lemma RootEarliest<V>(items: seq<Item<V>>, at: map<V, nat>)
    requires Mirrors(items, at) && IsHeap(items, |items|) && items != []
    ensures IsEarliest(Contents(items, at), items[0].value) && Contents(items, at)[items[0].value] == items[0].priority
  {
    forall v | v in at ensures items[0].priority <= items[at[v]].priority { RootIsLeast(items, |items|, at[v]); }
  }

  predicate LastExpired<V>(items: seq<Item<V>>, now: Time) { items == [] || Expired(items[|items| - 1], now) }

  /** The last slot expires last. */
  predicate LastIsLatest<V>(items: seq<Item<V>>) {
    forall i :: 0 <= i < |items| ==> items[i].priority <= items[|items| - 1].priority
  }

  /** Looking at the last slot tells at every time whether everything has expired, if and only
      if the last slot expires last. */
  lemma StaleExactIff<V>(items: seq<Item<V>>, at: map<V, nat>)
    requires Mirrors(items, at)
    ensures (forall now :: LastExpired(items, now) <==> AllExpired(Contents(items, at), now)) <==> LastIsLatest(items)
  {
    var c := Contents(items, at);
    if LastIsLatest(items) {
      forall now ensures LastExpired(items, now) <==> AllExpired(c, now) {
        if AllExpired(c, now) && items != [] { assert items[|items| - 1].value in c; }
      }
    } else {
      var i :| 0 <= i < |items| && items[i].priority > items[|items| - 1].priority;
      assert items[i].value in c && c[items[i].value] == items[i].priority;
      assert LastExpired(items, items[i].priority) && !AllExpired(c, items[i].priority);
    }
  }

  /** Putting in a new value that expires no earlier than the item above its slot: it stays there. */
  method PutLast(b: Bucket<int>, it: Item<int>)
    requires b.Valid() && |b.items| < b.capacity && it.value !in b.at
    requires |b.items| > 0 ==> b.items[Parent(|b.items|)].priority <= it.priority
    modifies b
    ensures b.Valid() && b.items == old(b.items) + [it] && b.View() == old(b.View())[it.value := it.priority]
  {
    var n := |b.items|;
    assert n > 0 ==> (b.items + [it])[Parent(n)] == b.items[Parent(n)];
    var _ := b.Upsert(it.value, it.priority, it.priority);
  }

  /** Three values put into an empty bucket: then the last slot has expired, the bucket counts as
      stale, and the second value has not expired. */
  method StaleButNotExpired() returns (b: Bucket<int>, now: Time, stale: bool)
    ensures fresh(b) && b.Valid() && b.View() == map[10 := 1, 11 := 9, 12 := 5]
    ensures stale && !AllExpired(b.View(), now)
  {
    b := new Bucket(3);
    now := 6;
    PutLast(b, Item(10, 1));
    PutLast(b, Item(11, 9));
    PutLast(b, Item(12, 5));
    stale := b.IsStale(now);
    assert 11 in b.View();
  }
}
