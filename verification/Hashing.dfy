// The chained hash table: linked items in buckets, and a resize that moves the items to a larger table.

module Hashing {
  import opened Arithmetic

  /** Keys and data are pointers the table never looks behind; a lookup answers NULL for nothing. */
  type Key = int
  type Ref = int
  const NULL := 0

  const MIN_CAPACITY := 4
  const INITIAL_CAPACITY := 16
  const MAX_BEFORE_RESIZE := 2

  datatype Item = Item(key: Key, data: int, next: Ref, prev: Ref)

  /** What the owner of the table sees of an item. */
  datatype Pair = Pair(key: Key, data: int)

  type Memory = map<Ref, Item>

  /** Where an item is: its bucket, and how many items are behind it in the chain. */
  datatype Place = Place(bucket: int, depth: int)

  /** The bucket heads, the bucket sizes, and where the items are; the items themselves are in memory. */
  datatype Buckets = Buckets(heads: seq<Ref>, sizes: seq<int>, place: map<Ref, Place>)

  /** An item of the table is in its key's bucket, and linked to the item with one less behind it. */
  ghost predicate Placed(m: Memory, b: Buckets, hash: Key -> nat, x: Ref)
    requires x in b.place && |b.sizes| > 0
  {
    var p := b.place[x];
    && x != NULL && x in m
    && 0 <= p.bucket < |b.sizes| && hash(m[x].key) % |b.sizes| == p.bucket
    && 0 <= p.depth < b.sizes[p.bucket]
    && (if p.depth == 0 then m[x].next == NULL
        else m[x].next in b.place && b.place[m[x].next] == Place(p.bucket, p.depth - 1))
  }

  /** A bucket starts with the item that has all others behind it. */
  ghost predicate Headed(b: Buckets, i: int)
    requires 0 <= i < |b.heads| == |b.sizes|
  {
    if b.sizes[i] == 0 then b.heads[i] == NULL
    else b.sizes[i] > 0 && b.heads[i] in b.place && b.place[b.heads[i]] == Place(i, b.sizes[i] - 1)
  }

  /** No two items are at the same place. */
  ghost predicate Injective(b: Buckets) {
    forall x, y :: Distinct(b, x, y)
  }

  ghost predicate Distinct(b: Buckets, x: Ref, y: Ref) {
    x in b.place && y in b.place && b.place[x] == b.place[y] ==> x == y
  }

  /** Each chain starts at its head, ends, and holds each item of its bucket once, as many as counted. */
  ghost predicate Chained(m: Memory, b: Buckets, hash: Key -> nat) {
    && |b.heads| == |b.sizes| > 0
    && (forall i :: 0 <= i < |b.heads| ==> Headed(b, i))
    && (forall x {:trigger Placed(m, b, hash, x)} :: x in b.place ==> Placed(m, b, hash, x))
    && Injective(b)
  }

  // ----- adding an item -----

  function Bucket(m: Memory, b: Buckets, hash: Key -> nat, x: Ref): int
    requires x in m && |b.heads| > 0
  {
    hash(m[x].key) % |b.heads|
  }

  /** The item is linked before the first one, which is linked back to it. */
  function Linked(m: Memory, first: Ref, x: Ref): Memory
    requires x in m
  {
    var n := m[x := m[x].(next := first)];
    if first != NULL && first in n then n[first := n[first].(prev := x)] else n
  }

  function Added(b: Buckets, i: int, x: Ref): Buckets
    requires 0 <= i < |b.heads| == |b.sizes|
  {
    Buckets(b.heads[i := x], b.sizes[i := b.sizes[i] + 1], b.place[x := Place(i, b.sizes[i])])
  }

  lemma AddKeepsChains(m: Memory, b: Buckets, hash: Key -> nat, x: Ref)
    requires Chained(m, b, hash) && x in m && x != NULL && x !in b.place
    ensures var i := Bucket(m, b, hash, x); Chained(Linked(m, b.heads[i], x), Added(b, i, x), hash)
  {
    var i := Bucket(m, b, hash, x);
    var n, c := Linked(m, b.heads[i], x), Added(b, i, x);
    assert Headed(b, i);
    forall k | 0 <= k < |c.heads| ensures Headed(c, k) {
      assert Headed(b, k);
    }
    forall y | y in c.place ensures Placed(n, c, hash, y) {
      if y != x { assert Placed(m, b, hash, y); }
    }
    forall y, z ensures Distinct(c, y, z) {
      assert Distinct(b, y, z);
      if y != x && y in b.place { assert Placed(m, b, hash, y); }
      if z != x && z in b.place { assert Placed(m, b, hash, z); }
    }
  }

  // ----- the links back -----

  /** An item is linked back to the one before it, the first one to none. */
  ghost predicate BackAt(m: Memory, b: Buckets, x: Ref)
    requires x in b.place
  {
    var p := b.place[x];
    x in m && 0 <= p.bucket < |b.sizes| &&
    if p.depth == b.sizes[p.bucket] - 1 then m[x].prev == NULL
    else m[x].prev in b.place && b.place[m[x].prev] == Place(p.bucket, p.depth + 1)
  }

  ghost predicate BackLinked(m: Memory, b: Buckets) {
    forall x {:trigger BackAt(m, b, x)} :: x in b.place ==> BackAt(m, b, x)
  }

  /**
   * Adding an item keeps the links back exactly when it comes without one: a new item does, an item moved by a
   * resize does not unless it was the first of its chain.
   */
  lemma AddBackLinkedIff(m: Memory, b: Buckets, hash: Key -> nat, x: Ref)
    requires Chained(m, b, hash) && BackLinked(m, b) && x in m && x != NULL && x !in b.place
    ensures var i := Bucket(m, b, hash, x); BackLinked(Linked(m, b.heads[i], x), Added(b, i, x)) <==> m[x].prev == NULL
  {
    hide Chained, Placed, Headed, Injective, Linked, Added;
    ChainedLengths(m, b, hash);
    var i := Bucket(m, b, hash, x);
    var n, c := Linked(m, b.heads[i], x), Added(b, i, x);
    AddBackAtNew(m, b, hash, x);
    forall y | y in c.place && y != x ensures BackAt(n, c, y) {
      AddBackAt(m, b, hash, x, y);
    }
    assert x in c.place by { AddedHas(b, i, x); }
  }

  lemma AddedHas(b: Buckets, i: int, x: Ref)
    requires 0 <= i < |b.heads| == |b.sizes|
    ensures Added(b, i, x).place.Keys == b.place.Keys + {x}
  {
  }

  lemma AddBackAtNew(m: Memory, b: Buckets, hash: Key -> nat, x: Ref)
    requires Chained(m, b, hash) && x in m && x != NULL && x !in b.place
    ensures var i := Bucket(m, b, hash, x); var c := Added(b, i, x);
      x in c.place && (BackAt(Linked(m, b.heads[i], x), c, x) <==> m[x].prev == NULL)
  {
    assert Headed(b, Bucket(m, b, hash, x));
  }

  lemma AddBackAt(m: Memory, b: Buckets, hash: Key -> nat, x: Ref, y: Ref)
    requires Chained(m, b, hash) && BackLinked(m, b) && x in m && x != NULL && x !in b.place
    requires y in Added(b, Bucket(m, b, hash, x), x).place && y != x
    ensures var i := Bucket(m, b, hash, x); BackAt(Linked(m, b.heads[i], x), Added(b, i, x), y)
  {
    var i := Bucket(m, b, hash, x);
    var first := b.heads[i];
    assert Headed(b, i) && Placed(m, b, hash, y) && BackAt(m, b, y);
    hide Chained, Placed, Headed, BackLinked;
    if y != first && b.place[y].bucket == i {
      FirstOnly(m, b, hash, i, y);
    }
  }

  /** Only the head has all other items of the bucket behind it. */
  lemma FirstOnly(m: Memory, b: Buckets, hash: Key -> nat, i: int, y: Ref)
    requires Chained(m, b, hash) && 0 <= i < |b.heads| && y in b.place && b.place[y].bucket == i && y != b.heads[i]
    ensures |b.sizes| == |b.heads| && b.place[y].depth != b.sizes[i] - 1 && b.sizes[i] > 0
  {
    assert Headed(b, i) && Placed(m, b, hash, y);
    assert Distinct(b, y, b.heads[i]);
  }

  /** Every item but the first of its bucket is linked back to the one before it. */
  ghost predicate BackBelow(m: Memory, b: Buckets) {
    forall x {:trigger BackAt(m, b, x)} :: x in b.place && !IsFirst(b, x) ==> BackAt(m, b, x)
  }

  ghost predicate IsFirst(b: Buckets, x: Ref)
    requires x in b.place
  {
    0 <= b.place[x].bucket < |b.sizes| && b.place[x].depth == b.sizes[b.place[x].bucket] - 1
  }

  /** No bucket starts with an item that is linked back. */
  ghost predicate FreshHeads(m: Memory, b: Buckets) {
    forall i :: 0 <= i < |b.heads| && b.heads[i] != NULL ==> b.heads[i] in m && m[b.heads[i]].prev == NULL
  }

  lemma BackLinkedIff(m: Memory, b: Buckets, hash: Key -> nat)
    requires Chained(m, b, hash) && BackBelow(m, b)
    ensures BackLinked(m, b) <==> FreshHeads(m, b)
  {
    forall i | 0 <= i < |b.heads| && b.heads[i] != NULL
      ensures b.heads[i] in b.place && b.heads[i] in m && (BackAt(m, b, b.heads[i]) <==> m[b.heads[i]].prev == NULL)
    {
      assert Headed(b, i);
      assert Placed(m, b, hash, b.heads[i]);
    }
    forall x | x in b.place && FreshHeads(m, b) ensures BackAt(m, b, x) {
      assert Placed(m, b, hash, x);
      if IsFirst(b, x) {
        var i := b.place[x].bucket;
        assert Headed(b, i);
        assert Distinct(b, x, b.heads[i]);
      }
    }
  }

  /** The links back of all items that are still first, or still outside, are those of before. */
  ghost predicate Carries(m0: Memory, from: map<Ref, Place>, m: Memory, b: Buckets) {
    forall y :: y in from ==> y in m0 && y in m && ((y in b.place ==> IsFirst(b, y)) ==> m[y].prev == m0[y].prev)
  }

  /** Adding an item keeps these: it links the first one back, which no longer is the first. */
  lemma AddCarries(m0: Memory, from: map<Ref, Place>, m: Memory, b: Buckets, hash: Key -> nat, x: Ref)
    requires Chained(m, b, hash) && BackBelow(m, b) && Carries(m0, from, m, b)
    requires x in m && x != NULL && x !in b.place && x in from
    ensures var i := Bucket(m, b, hash, x); var n, c := Linked(m, b.heads[i], x), Added(b, i, x);
      BackBelow(n, c) && Carries(m0, from, n, c)
  {
    hide Chained, Placed, Headed, Injective, Linked, Added, BackBelow, Carries;
    ChainedLengths(m, b, hash);
    var i := Bucket(m, b, hash, x);
    var n, c := Linked(m, b.heads[i], x), Added(b, i, x);
    AddedHas(b, i, x);
    forall y | y in c.place && !IsFirst(c, y) ensures BackAt(n, c, y) {
      AddBackAtBelow(m, b, hash, x, y);
    }
    BackBelowIsAll(n, c);
    forall y | y in from
      ensures y in m0 && y in n && ((y in c.place ==> IsFirst(c, y)) ==> n[y].prev == m0[y].prev)
    {
      AddCarriesAt(m0, from, m, b, hash, x, y);
    }
    CarriesIsAll(m0, from, n, c);
  }

  lemma BackBelowIsAll(m: Memory, b: Buckets)
    requires forall y :: y in b.place && !IsFirst(b, y) ==> BackAt(m, b, y)
    ensures BackBelow(m, b)
  {
  }

  lemma CarriesIsAll(m0: Memory, from: map<Ref, Place>, m: Memory, b: Buckets)
    requires forall y :: y in from ==> y in m0 && y in m && ((y in b.place ==> IsFirst(b, y)) ==> m[y].prev == m0[y].prev)
    ensures Carries(m0, from, m, b)
  {
  }

  lemma AddBackAtBelow(m: Memory, b: Buckets, hash: Key -> nat, x: Ref, y: Ref)
    requires Chained(m, b, hash) && BackBelow(m, b) && x in m && x != NULL && x !in b.place
    requires var c := Added(b, Bucket(m, b, hash, x), x); y in c.place && !IsFirst(c, y)
    ensures var i := Bucket(m, b, hash, x); BackAt(Linked(m, b.heads[i], x), Added(b, i, x), y)
  {
    var i := Bucket(m, b, hash, x);
    assert Headed(b, i) && Placed(m, b, hash, y);
    if y == b.heads[i] {
      assert b.place[y].depth == b.sizes[i] - 1;
    } else {
      if b.place[y].bucket == i { FirstOnly(m, b, hash, i, y); }
      assert BackAt(m, b, y);
    }
  }

  lemma AddCarriesAt(m0: Memory, from: map<Ref, Place>, m: Memory, b: Buckets, hash: Key -> nat, x: Ref, y: Ref)
    requires Chained(m, b, hash) && Carries(m0, from, m, b) && x in m && x != NULL && x !in b.place && y in from
    ensures var i := Bucket(m, b, hash, x); var n, c := Linked(m, b.heads[i], x), Added(b, i, x);
      y in m0 && y in n && ((y in c.place ==> IsFirst(c, y)) ==> n[y].prev == m0[y].prev)
  {
    var i := Bucket(m, b, hash, x);
    assert Headed(b, i);
    if y in b.place { assert Placed(m, b, hash, y); }
  }

  // ----- the order in which a resize moves the items -----

  /** Whether a resize moves an item before another one. */
  predicate Earlier(p: Place, q: Place) {
    p.bucket < q.bucket || (p.bucket == q.bucket && p.depth > q.depth)
  }

  ghost predicate LaterAt(from: map<Ref, Place>, to: map<Ref, Place>, x: Ref, y: Ref) {
    x in to && y in to && to[x].bucket == to[y].bucket && to[x].depth > to[y].depth ==>
      x in from && y in from && Earlier(from[y], from[x])
  }

  /** In every new bucket, what was moved later is before what was moved earlier. */
  ghost predicate Later(from: map<Ref, Place>, to: map<Ref, Place>) {
    forall x, y :: LaterAt(from, to, x, y)
  }

  lemma AddLater(m: Memory, b: Buckets, hash: Key -> nat, from: map<Ref, Place>, x: Ref)
    requires Chained(m, b, hash) && Later(from, b.place) && x in m && x !in b.place && x in from
    requires forall y :: y in b.place ==> y in from && Earlier(from[y], from[x])
    ensures Later(from, Added(b, Bucket(m, b, hash, x), x).place)
  {
    var i := Bucket(m, b, hash, x);
    var c := Added(b, i, x);
    forall y, z ensures LaterAt(from, c.place, y, z) {
      assert LaterAt(from, b.place, y, z);
      if y != x && y in b.place { assert Placed(m, b, hash, y); }
    }
  }

  /**
   * When the number of buckets is multiplied, every new bucket has its items from one old one, and starts with the
   * last of them. So the links back survive only in a table without two items in a bucket, which does not grow.
   */
  lemma GrowthKeepsIff(m0: Memory, b: Buckets, m: Memory, c: Buckets, hash: Key -> nat)
    requires Chained(m0, b, hash) && BackLinked(m0, b) && Chained(m, c, hash) && |c.heads| % |b.heads| == 0
    requires SameData(m0, m) && c.place.Keys == b.place.Keys && Later(b.place, c.place)
    ensures FreshHeads(m0, c) <==> forall i :: 0 <= i < |b.sizes| ==> b.sizes[i] <= 1
  {
    hide Chained, BackLinked, Placed, Headed, Injective, SameData, Later;
    ChainedLengths(m0, b, hash);
    forall i | 0 <= i < |b.sizes| && b.sizes[i] > 1 ensures !FreshHeads(m0, c) {
      CrowdBreaks(m0, b, m, c, hash, i);
    }
    if forall i :: 0 <= i < |b.sizes| ==> b.sizes[i] <= 1 {
      forall k | 0 <= k < |c.heads| && c.heads[k] != NULL ensures c.heads[k] in m0 && m0[c.heads[k]].prev == NULL {
        HeadBucket(m, c, hash, k);
        LonelyIsFirst(m0, b, hash, c.heads[k]);
      }
    }
  }

  lemma LonelyIsFirst(m: Memory, b: Buckets, hash: Key -> nat, x: Ref)
    requires Chained(m, b, hash) && BackLinked(m, b) && x in b.place
    requires forall i :: 0 <= i < |b.sizes| ==> b.sizes[i] <= 1
    ensures x in m && m[x].prev == NULL
  {
    assert Placed(m, b, hash, x) && BackAt(m, b, x);
  }

  /** The second item of an old bucket is in a new bucket that starts with an item linked back. */
  lemma CrowdBreaks(m0: Memory, b: Buckets, m: Memory, c: Buckets, hash: Key -> nat, i: int)
    requires Chained(m0, b, hash) && BackLinked(m0, b) && Chained(m, c, hash) && |c.heads| % |b.heads| == 0
    requires SameData(m0, m) && c.place.Keys == b.place.Keys && Later(b.place, c.place)
    requires 0 <= i < |b.sizes| && b.sizes[i] > 1
    ensures !FreshHeads(m0, c)
  {
    hide BackLinked, Injective, SameData, Later;
    assert Headed(b, i);
    var first := b.heads[i];
    assert Placed(m0, b, hash, first);
    var y := m0[first].next;
    assert Placed(m, c, hash, y) && Placed(m0, b, hash, y);
    var k := c.place[y].bucket;
    assert Headed(c, k);
    var x := c.heads[k];
    assert Placed(m, c, hash, x) && Placed(m0, b, hash, x);
    SameBucketBefore(m0, m, hash, |b.heads|, |c.heads|, x, y);
    assert b.place[x].depth <= b.place[y].depth by { HeadIsLatest(b, m, c, hash, k, y); }
    LinksBack(m0, b, hash, x);
  }

  /** Items that are in one bucket of a table are in one bucket of a table with a divisor of its buckets. */
  lemma SameBucketBefore(m0: Memory, m: Memory, hash: Key -> nat, n: nat, c: nat, x: Ref, y: Ref)
    requires SameData(m0, m) && x in m0 && y in m0 && n > 0 && c > 0 && c % n == 0
    requires hash(m[x].key) % c == hash(m[y].key) % c
    ensures hash(m0[x].key) % n == hash(m0[y].key) % n
  {
    assert c == n * (c / n);
    ModOfMultiple(hash(m0[x].key), n, c / n, c);
    ModOfMultiple(hash(m0[y].key), n, c / n, c);
  }

  lemma HeadIsLatest(b: Buckets, m: Memory, c: Buckets, hash: Key -> nat, k: int, y: Ref)
    requires Chained(m, c, hash) && Later(b.place, c.place) && c.place.Keys == b.place.Keys
    requires 0 <= k < |c.heads| && y in c.place && c.place[y].bucket == k
    ensures c.heads[k] in b.place && (b.place[c.heads[k]].bucket == b.place[y].bucket ==>
      b.place[c.heads[k]].depth <= b.place[y].depth)
  {
    assert Headed(c, k) && Placed(m, c, hash, y);
    assert LaterAt(b.place, c.place, c.heads[k], y);
    assert Distinct(c, c.heads[k], y);
  }

  lemma LinksBack(m: Memory, b: Buckets, hash: Key -> nat, x: Ref)
    requires Chained(m, b, hash) && x in b.place && BackLinked(m, b)
    ensures x in m && (m[x].prev != NULL <==> !IsFirst(b, x))
  {
    assert Placed(m, b, hash, x) && BackAt(m, b, x);
    if m[x].prev in b.place { assert Placed(m, b, hash, m[x].prev); }
  }

  /** The links without an item. */
  function Unlinked(m: Memory, x: Ref): Memory
    requires x in m
  {
    var p, n := m[x].prev, m[x].next;
    var m1 := if p != NULL && p in m then m[p := m[p].(next := n)] else m;
    var m2 := if n != NULL && n in m1 then m1[n := m1[n].(prev := p)] else m1;
    m2 - {x}
  }

  function Erased(m: Memory, b: Buckets, x: Ref): Buckets
    requires x in m && x in b.place && 0 <= b.place[x].bucket < |b.heads| == |b.sizes|
  {
    var p := b.place[x];
    Buckets(if b.heads[p.bucket] == x then b.heads[p.bucket := m[x].next] else b.heads,
            b.sizes[p.bucket := b.sizes[p.bucket] - 1],
            map y | y in b.place && y != x ::
              if b.place[y].bucket == p.bucket && b.place[y].depth > p.depth
              then Place(p.bucket, b.place[y].depth - 1) else b.place[y])
  }

  /** With its links in both directions an item can be taken out. */
  lemma EraseKeepsChains(m: Memory, b: Buckets, hash: Key -> nat, x: Ref)
    requires Chained(m, b, hash) && BackLinked(m, b) && x in b.place
    ensures x in m && 0 <= b.place[x].bucket < |b.heads| == |b.sizes|
    ensures Chained(Unlinked(m, x), Erased(m, b, x), hash)
  {
    assert Placed(m, b, hash, x);
    hide Unlinked, Erased;
    var n, c := Unlinked(m, x), Erased(m, b, x);
    ErasedShape(m, b, x);
    forall k | 0 <= k < |c.heads| ensures Headed(c, k) {
      EraseHeaded(m, b, hash, x, k);
    }
    forall y | y in c.place ensures Placed(n, c, hash, y) {
      ErasePlaced(m, b, hash, x, y);
    }
    forall y, z ensures Distinct(c, y, z) {
      EraseInjective(m, b, hash, x, y, z);
    }
  }

  lemma ErasedShape(m: Memory, b: Buckets, x: Ref)
    requires x in m && x in b.place && 0 <= b.place[x].bucket < |b.heads| == |b.sizes|
    ensures var c := Erased(m, b, x); |c.heads| == |c.sizes| == |b.heads| && c.place.Keys == b.place.Keys - {x}
  {
  }

  lemma EraseInjective(m: Memory, b: Buckets, hash: Key -> nat, x: Ref, y: Ref, z: Ref)
    requires Chained(m, b, hash) && x in m && x in b.place && 0 <= b.place[x].bucket < |b.heads| == |b.sizes|
    ensures Distinct(Erased(m, b, x), y, z)
  {
    hide Placed, Headed;
    assert Distinct(b, y, z) && Distinct(b, y, x) && Distinct(b, z, x);
  }

  lemma EraseHeaded(m: Memory, b: Buckets, hash: Key -> nat, x: Ref, k: int)
    requires Chained(m, b, hash) && BackLinked(m, b) && x in b.place && x in m
    requires 0 <= b.place[x].bucket < |b.heads| == |b.sizes| && 0 <= k < |b.heads|
    ensures var c := Erased(m, b, x); |c.heads| == |c.sizes| == |b.heads| && Headed(c, k)
  {
    var i := b.place[x].bucket;
    assert Placed(m, b, hash, x) && Headed(b, k);
    if k == i {
      if b.heads[i] != x {
        FirstOnly(m, b, hash, i, x);
      }
    }
  }

  lemma ErasePlaced(m: Memory, b: Buckets, hash: Key -> nat, x: Ref, y: Ref)
    requires Chained(m, b, hash) && BackLinked(m, b) && x in b.place && x in m && y in b.place && y != x
    requires 0 <= b.place[x].bucket < |b.heads| == |b.sizes|
    ensures var c := Erased(m, b, x); |c.sizes| > 0 && y in c.place && Placed(Unlinked(m, x), c, hash, y)
  {
    assert Placed(m, b, hash, x) && Placed(m, b, hash, y) && BackAt(m, b, x);
    assert Distinct(b, y, x) && Distinct(b, m[y].next, x) && Distinct(b, m[x].prev, y);
  }

  lemma EraseKeepsBackLinks(m: Memory, b: Buckets, hash: Key -> nat, x: Ref)
    requires Chained(m, b, hash) && BackLinked(m, b) && x in b.place && x in m
    requires 0 <= b.place[x].bucket < |b.heads| == |b.sizes|
    ensures BackLinked(Unlinked(m, x), Erased(m, b, x))
  {
    hide Chained, BackLinked, Placed, Unlinked, Erased;
    ErasedShape(m, b, x);
    forall y | y in Erased(m, b, x).place ensures BackAt(Unlinked(m, x), Erased(m, b, x), y) {
      EraseBackAt(m, b, hash, x, y);
    }
    BackLinkedIsAll(Unlinked(m, x), Erased(m, b, x));
  }

  lemma BackLinkedIsAll(m: Memory, b: Buckets)
    requires forall y :: y in b.place ==> BackAt(m, b, y)
    ensures BackLinked(m, b)
  {
  }

  lemma EraseBackAt(m: Memory, b: Buckets, hash: Key -> nat, x: Ref, y: Ref)
    requires Chained(m, b, hash) && BackLinked(m, b) && x in b.place && x in m && y in b.place && y != x
    requires 0 <= b.place[x].bucket < |b.heads| == |b.sizes|
    ensures y in Erased(m, b, x).place && BackAt(Unlinked(m, x), Erased(m, b, x), y)
  {
    assert Placed(m, b, hash, x) && Placed(m, b, hash, y) && BackAt(m, b, x) && BackAt(m, b, y);
    assert Distinct(b, y, x) && Distinct(b, m[y].prev, x) && Distinct(b, m[x].next, y);
    if m[x].prev in b.place { assert Placed(m, b, hash, m[x].prev); }
    if m[y].prev in b.place { assert Placed(m, b, hash, m[y].prev); }
    if m[x].next in b.place { assert Placed(m, b, hash, m[x].next); }
  }

  // ----- looking up -----

  /** The items of a bucket with at least d others behind them. */
  ghost predicate AtLeast(b: Buckets, x: Ref, i: int, d: int) {
    x in b.place && b.place[x].bucket == i && b.place[x].depth >= d
  }

  ghost function PairsOf(m: Memory, place: map<Ref, Place>): map<Ref, Pair> {
    map x | x in place && x in m :: Pair(m[x].key, m[x].data)
  }

  ghost predicate HasKey(pairs: map<Ref, Pair>, compare: (Key, Key) -> bool, key: Key) {
    exists x :: x in pairs && compare(pairs[x].key, key)
  }

  /** No two items have equal keys. */
  ghost predicate Unique(pairs: map<Ref, Pair>, compare: (Key, Key) -> bool) {
    forall x, y :: x in pairs && y in pairs && compare(pairs[x].key, pairs[y].key) ==> x == y
  }

  class HashTable {
    const hash: Key -> nat
    const compare: (Key, Key) -> bool
    var memory: Memory
    var heads: array<Ref>
    var sizes: array<int>
    ghost var place: map<Ref, Place>

    ghost function Table(): Buckets
      reads this, heads, sizes
    {
      Buckets(heads[..], sizes[..], place)
    }

    ghost predicate Valid()
      reads this, heads, sizes
    {
      heads != sizes && heads.Length >= 4 && Chained(memory, Table(), hash)
    }

    /** The pairs of the table, by item. */
    ghost function Pairs(): map<Ref, Pair>
      reads this
    {
      PairsOf(memory, place)
    }

    constructor (hash: Key -> nat, compare: (Key, Key) -> bool)
      ensures Valid() && Pairs() == map[] && fresh(heads) && fresh(sizes) && heads.Length == 16
      ensures memory == map[] && BackLinked(memory, Table())
      ensures this.hash == hash && this.compare == compare
    {
      this.hash := hash;
      this.compare := compare;
      memory := map[];
      heads := new Ref[INITIAL_CAPACITY](_ => NULL);
      sizes := new int[INITIAL_CAPACITY](_ => 0);
      place := map[];
    }

    /** Some item has a key that compares equal to the given one. */
    ghost predicate Has(key: Key)
      reads this
    {
      HasKey(Pairs(), compare, key)
    }

    ghost predicate NoNullData()
      reads this
    {
      forall x :: x in Pairs() ==> Pairs()[x].data != NULL
    }

    ghost predicate UniqueKeys()
      reads this
    {
      Unique(Pairs(), compare)
    }

    /** The data of an item whose key compares equal; NULL when there is none. */
    method LookUp(key: Key) returns (data: int)
      requires Valid()
      ensures data != NULL ==> exists x :: x in Pairs() && compare(Pairs()[x].key, key) && Pairs()[x].data == data
      ensures Respectful(hash, compare) && NoNullData() ==> (data != NULL <==> Has(key))
    {
      var i := hash(key) % heads.Length;
      assert Headed(Table(), i);
      var x := heads[i];
      NothingBeforeHead(memory, Table(), hash, compare, key, i);
      while x != NULL
        invariant x != NULL ==> x in place && place[x].bucket == i
        invariant NoMatch(memory, Table(), compare, key, i, if x != NULL then place[x].depth + 1 else 0)
        decreases if x != NULL then place[x].depth + 1 else 0
      {
        assert Placed(memory, Table(), hash, x);
        if compare(memory[x].key, key) {
          assert x in Pairs();
          return memory[x].data;
        }
        OneMoreLooked(memory, Table(), hash, compare, key, i, x);
        NextInChain(memory, Table(), hash, x);
        x := memory[x].next;
      }
      if Respectful(hash, compare) && Has(key) {
        NoneMissed(key, i);
      }
      return NULL;
    }

    lemma NoneMissed(key: Key, i: int)
      requires Valid() && Respectful(hash, compare) && i == hash(key) % heads.Length
      requires NoMatch(memory, Table(), compare, key, i, 0)
      ensures !Has(key)
    {
      forall x | x in Pairs() ensures !compare(Pairs()[x].key, key) {
        assert Placed(memory, Table(), hash, x);
        if compare(memory[x].key, key) {
          assert AtLeast(Table(), x, i, 0);
        }
      }
    }

    /** Puts an item that is in memory but not in the table at the head of its bucket. */
    method AddItem(x: Ref)
      requires Valid() && x in memory && x != NULL && x !in place
      modifies this`memory, this`place, heads, sizes
      ensures Valid() && place.Keys == old(place.Keys) + {x} && SameData(old(memory), memory)
      ensures forall y :: y in old(memory) && y != x ==> memory[y].next == old(memory[y]).next
      ensures old(BackLinked(memory, Table())) ==> (BackLinked(memory, Table()) <==> old(memory[x].prev) == NULL)
      ensures old(|Table().heads| == |Table().sizes| > 0) && var i := Bucket(old(memory), old(Table()), hash, x);
        memory == Linked(old(memory), old(Table()).heads[i], x) && Table() == Added(old(Table()), i, x)
    {
      hide Chained, Headed, Placed, Injective, BackLinked;
      ghost var b := Table();
      if BackLinked(memory, b) { AddBackLinkedIff(memory, b, hash, x); }
      ChainedLengths(memory, b, hash);
      var i := hash(memory[x].key) % heads.Length;
      AddKeepsChains(memory, b, hash, x);
      HeadInMemory(memory, b, hash, i);
      var first := heads[i];
      heads[i] := x;
      memory := memory[x := memory[x].(next := first)];
      if first != NULL {
        memory := memory[first := memory[first].(prev := x)];
      }
      place := place[x := Place(i, sizes[i])];
      sizes[i] := sizes[i] + 1;
      assert heads[..] == b.heads[i := x] && sizes[..] == b.sizes[i := b.sizes[i] + 1];
    }

    /** Moves the rest of a chain of the old table, from one item on, to the new buckets. */
    method MoveChain(first: Ref, ghost b: Buckets, ghost m0: Memory, ghost i: int)
      requires Valid() && Chained(m0, b, hash) && 0 <= i < |b.heads| && first == b.heads[i]
      requires Moved(m0, b, memory, place, i, NULL) && Behind(m0, b.place, memory, Table())
      modifies this`memory, this`place, heads, sizes
      ensures Valid() && Moved(m0, b, memory, place, i + 1, NULL) && Behind(m0, b.place, memory, Table())
    {
      hide Chained, Headed, Placed, Injective, Behind, Linked, Added;
      HeadStarts(m0, b, hash, memory, place, i);
      var x := first;
      while x != NULL
        invariant Valid() && (x != NULL ==> x in b.place && b.place[x].bucket == i && b.place[x].depth >= 0)
        invariant if x != NULL then Moved(m0, b, memory, place, i, x) else Moved(m0, b, memory, place, i + 1, NULL)
        invariant Behind(m0, b.place, memory, Table())
        decreases if x != NULL then b.place[x].depth + 1 else 0
      {
        var current := x;
        NextInChain(m0, b, hash, x);
        x := memory[x].next;
        ghost var m, p := memory, place;
        MovedBehind(m0, b, memory, Table(), hash, i, current);
        AddItem(current);
        MovesOn(m0, b, hash, m, p, memory, place, i, current);
      }
    }

    /** Moves every item to new buckets. Every item stays in the table, and none is there twice. */
    method Resize(newCapacity: int)
      requires Valid()
      modifies this`memory, this`place, this`heads, this`sizes
      ensures Valid() && Pairs() == old(Pairs()) && memory.Keys == old(memory.Keys) && fresh(heads) && fresh(sizes)
      ensures heads.Length == if newCapacity < 4 then 4 else newCapacity
      ensures BackBelow(memory, Table()) && (BackLinked(memory, Table()) <==> FreshHeads(old(memory), Table()))
      ensures SameHeadLinks(old(memory), memory, Table())
      ensures old(BackLinked(memory, Table())) && heads.Length % old(heads.Length) == 0 ==>
        (BackLinked(memory, Table()) <==> forall i :: 0 <= i < old(sizes.Length) ==> old(sizes[i]) <= 1)
    {
      hide Chained, Headed, Placed, Injective, PairsOf, Behind, BackLinked, FreshHeads, Moved, Earlier;
      var oldHeads := heads;
      ghost var b, m0 := Table(), memory;
      ghost var pairs := Pairs();
      var count := if newCapacity < MIN_CAPACITY then MIN_CAPACITY else newCapacity;
      heads := new Ref[count](_ => NULL);
      sizes := new int[count](_ => 0);
      place := map[];
      AllInMemory(m0, b, hash);
      NothingYet(m0, b, hash);
      NoItems(m0, Table(), hash);
      NothingBehind(m0, b.place, Table());
      var i := 0;
      while i < oldHeads.Length
        invariant 0 <= i <= oldHeads.Length && Valid() && fresh(heads) && fresh(sizes) && heads.Length == count
        invariant oldHeads[..] == b.heads && Moved(m0, b, memory, place, i, NULL)
        invariant Behind(m0, b.place, memory, Table())
      {
        MoveChain(oldHeads[i], b, m0, i);
        i := i + 1;
      }
      AllMoved(m0, b, hash, memory, place, i);
      ResizedBackLinks(m0, b, memory, Table(), hash);
    }

    /** Adds an item in the room it is given, NULL for none; a full bucket first makes the table grow if it can. */
    method SetUnchecked(key: Key, data: int, room: Ref, canGrow: bool) returns (ok: bool)
      requires Valid() && (room == NULL || room !in memory)
      modifies this`memory, this`place, this`heads, this`sizes, heads, sizes
      ensures Valid() && (ok <==> room != NULL)
      ensures Pairs() == if ok then old(Pairs())[room := Pair(key, data)] else old(Pairs())
      ensures memory.Keys == if ok then old(memory.Keys) + {room} else old(memory.Keys)
      ensures (heads == old(heads) && sizes == old(sizes)) || (fresh(heads) && fresh(sizes))
      ensures heads.Length == if old(Full(key)) && canGrow then 2 * old(heads.Length) else old(heads.Length)
      ensures ok ==> heads[hash(key) % heads.Length] == room
      ensures old(BackBelow(memory, Table())) ==> BackBelow(memory, Table())
      ensures old(BackBelow(memory, Table())) || (old(Full(key)) && canGrow) ==>
        (BackLinked(memory, Table()) <==>
           FreshBut(old(memory), Table(), if ok then hash(key) % heads.Length else -1))
      ensures !(old(Full(key)) && canGrow) && old(BackLinked(memory, Table())) ==> BackLinked(memory, Table())
    {
      hide Chained, Headed, Placed, Injective, PairsOf, BackLinked, BackBelow, SameHeadLinks, FreshBut, FreshHeads, Linked, Added;
      ChainedLengths(memory, Table(), hash);
      ghost var m0 := memory;
      SameLinks(memory, Table(), hash);
      BackLinkedFresh(memory, Table(), hash);
      var i := hash(key) % heads.Length;
      if sizes[i] >= MAX_BEFORE_RESIZE && canGrow {
        Resize(heads.Length * 2);
      }
      ghost var m, b := memory, Table();
      AllFresh(m0, m, b, hash);
      if room == NULL {
        return false;
      }
      var item := Item(key, data, NULL, NULL);
      NotInTable(m, b, hash, room, item);
      NewItemKeepsBackBelow(m, b, room, item);
      memory := memory[room := item];
      ghost var n := memory;
      if BackBelow(m, b) { AddMends(m0, m, n, b, hash, room); }
      AddItem(room);
      AddedFirst(n, b, hash, room);
      OnePairMore(m, b.place, n, memory, place, room, key, data);
      return true;
    }

    /** The bucket of a key is full, so that the next item makes the table grow. */
    ghost predicate Full(key: Key)
      reads this, heads, sizes
      requires Valid()
    {
      ChainedLengths(memory, Table(), hash);
      sizes[hash(key) % heads.Length] >= 2
    }

    /** Takes out an item whose key compares equal, if the items of the table are linked back. */
    method Erase(key: Key) returns (erased: bool)
      requires Valid() && BackLinked(memory, Table())
      modifies this`memory, this`place, heads, sizes
      ensures Valid() && BackLinked(memory, Table())
      ensures erased ==> exists x :: (
        && x in old(Pairs()) && compare(old(Pairs())[x].key, key)
        && Pairs() == old(Pairs()) - {x} && memory.Keys == old(memory.Keys) - {x})
      ensures !erased ==> Pairs() == old(Pairs()) && memory.Keys == old(memory.Keys) && (Respectful(hash, compare) ==> !Has(key))
    {
      hide Chained, Injective, BackLinked;
      ChainedLengths(memory, Table(), hash);
      var i := hash(key) % heads.Length;
      var x := heads[i];
      HeadBucket(memory, Table(), hash, i);
      NothingBeforeHead(memory, Table(), hash, compare, key, i);
      while x != NULL
        invariant Valid() && BackLinked(memory, Table()) && memory == old(memory) && Table() == old(Table())
        invariant x != NULL ==> x in place && place[x].bucket == i && place[x].depth >= 0
        invariant NoMatch(memory, Table(), compare, key, i, if x != NULL then place[x].depth + 1 else 0)
        decreases if x != NULL then place[x].depth + 1 else 0
      {
        NextInChain(memory, Table(), hash, x);
        if compare(memory[x].key, key) {
          assert x in Pairs();
          ErasedPairs(memory, Table(), x);
          EraseItem(i, x);
          return true;
        }
        OneMoreLooked(memory, Table(), hash, compare, key, i, x);
        x := memory[x].next;
      }
      if Respectful(hash, compare) {
        NoneMissed(key, i);
      }
      return false;
    }

    method EraseItem(i: int, x: Ref)
      requires Valid() && BackLinked(memory, Table()) && x in place && i == place[x].bucket
      requires x in memory && 0 <= i < heads.Length
      modifies this`memory, this`place, heads, sizes
      ensures Valid() && BackLinked(memory, Table())
      ensures memory == Unlinked(old(memory), x) && place == Erased(old(memory), old(Table()), x).place
    {
      ghost var b := Table();
      ChainedLengths(memory, b, hash);
      EraseKeepsChains(memory, b, hash, x);
      EraseKeepsBackLinks(memory, b, hash, x);
      LinksInMemory(memory, b, hash, x);
      hide Chained, Injective, BackLinked, Placed;
      var prev, next := memory[x].prev, memory[x].next;
      if prev != NULL {
        memory := memory[prev := memory[prev].(next := next)];
      }
      if next != NULL {
        memory := memory[next := memory[next].(prev := prev)];
      }
      if heads[i] == x {
        heads[i] := next;
      }
      memory := memory - {x};
      sizes[i] := sizes[i] - 1;
      place := Erased(old(memory), b, x).place;
      assert heads[..] == Erased(old(memory), b, x).heads && sizes[..] == Erased(old(memory), b, x).sizes;
    }

    /** Adds an item unless its key is there already. */
    method Set(key: Key, data: int, room: Ref, canGrow: bool) returns (ok: bool)
      requires Valid() && (room == NULL || room !in memory)
      modifies this`memory, this`place, this`heads, this`sizes, heads, sizes
      ensures Valid()
      ensures Pairs() == if ok then old(Pairs())[room := Pair(key, data)] else old(Pairs())
      ensures ok ==> room != NULL
      ensures memory.Keys == if ok then old(memory.Keys) + {room} else old(memory.Keys)
      ensures (heads == old(heads) && sizes == old(sizes)) || (fresh(heads) && fresh(sizes))
      ensures heads.Length == old(heads.Length) || (heads.Length == 2 * old(heads.Length) && old(Full(key)) && canGrow)
      ensures Respectful(hash, compare) && old(NoNullData()) ==>
        (heads.Length != old(heads.Length) <==> !old(Has(key)) && old(Full(key)) && canGrow)
      ensures ok ==> heads[hash(key) % heads.Length] == room
      ensures old(BackBelow(memory, Table())) ==> BackBelow(memory, Table())
      ensures !(old(Full(key)) && canGrow) && old(BackLinked(memory, Table())) ==> BackLinked(memory, Table())
      ensures Respectful(hash, compare) && old(NoNullData()) ==> (ok <==> !old(Has(key)) && room != NULL)
      ensures Respectful(hash, compare) && old(NoNullData() && UniqueKeys()) ==>
        UniqueKeys() && (data != NULL ==> NoNullData())
    {
      hide Chained, PairsOf, BackLinked, BackBelow, Respectful, Unique, HasKey;
      var there := LookUp(key);
      if there != NULL {
        return false;
      }
      ghost var p := Pairs();
      PairsInMemory(memory, place);
      ok := SetUnchecked(key, data, room, canGrow);
      if ok && Respectful(hash, compare) && Unique(p, compare) && !HasKey(p, compare, key) {
        StaysUnique(p, hash, compare, room, key, data);
      }
    }
  }

  lemma NewItemKeepsBackBelow(m: Memory, b: Buckets, x: Ref, item: Item)
    requires x !in m
    ensures BackBelow(m, b) ==> BackBelow(m[x := item], b)
  {
    if BackBelow(m, b) {
      forall y | y in b.place && !IsFirst(b, y) ensures BackAt(m[x := item], b, y) {
        assert BackAt(m, b, y);
      }
    }
  }

  /** Every bucket but one starts with an item that had no link back. */
  ghost predicate FreshBut(m: Memory, b: Buckets, i: int) {
    forall k :: 0 <= k < |b.heads| && k != i && b.heads[k] != NULL ==> b.heads[k] in m && m[b.heads[k]].prev == NULL
  }

  /** The first items are linked back as they were. */
  ghost predicate SameHeadLinks(m0: Memory, m: Memory, b: Buckets) {
    forall k :: 0 <= k < |b.heads| && b.heads[k] != NULL ==>
      b.heads[k] in m0 && b.heads[k] in m && m[b.heads[k]].prev == m0[b.heads[k]].prev
  }

  lemma SameLinks(m: Memory, b: Buckets, hash: Key -> nat)
    requires Chained(m, b, hash)
    ensures SameHeadLinks(m, m, b)
  {
    forall k | 0 <= k < |b.heads| && b.heads[k] != NULL ensures b.heads[k] in m {
      HeadInMemory(m, b, hash, k);
    }
  }

  lemma BackLinkedFresh(m: Memory, b: Buckets, hash: Key -> nat)
    requires Chained(m, b, hash)
    ensures BackLinked(m, b) ==> BackBelow(m, b) && FreshBut(m, b, -1)
  {
    hide Chained;
    if BackLinked(m, b) {
      assert BackBelow(m, b);
      BackLinkedIff(m, b, hash);
    }
  }

  /** Without a new item, all first items count. */
  lemma AllFresh(m0: Memory, m: Memory, b: Buckets, hash: Key -> nat)
    requires Chained(m, b, hash) && SameHeadLinks(m0, m, b)
    ensures BackBelow(m, b) ==> (BackLinked(m, b) <==> FreshBut(m0, b, -1))
  {
    hide Chained, BackLinked, BackBelow;
    if BackBelow(m, b) { BackLinkedIff(m, b, hash); }
  }

  /** A new item mends its bucket: the links back are right afterwards exactly when all other buckets start right. */
  lemma AddMends(m0: Memory, m: Memory, n: Memory, b: Buckets, hash: Key -> nat, x: Ref)
    requires Chained(n, b, hash) && BackBelow(n, b) && x in n && x != NULL && x !in b.place && n[x].prev == NULL
    requires SameHeadLinks(m0, m, b) && x !in m && n == m[x := n[x]]
    ensures var i := Bucket(n, b, hash, x); var r, c := Linked(n, b.heads[i], x), Added(b, i, x);
      BackBelow(r, c) && (BackLinked(r, c) <==> FreshBut(m0, c, i)) && (FreshBut(m0, b, -1) ==> FreshBut(m0, c, i))
  {
    hide Chained, BackLinked, BackBelow, Injective, Placed, Headed, BackAt;
    ChainedLengths(n, b, hash);
    var i := Bucket(n, b, hash, x);
    var r, c := Linked(n, b.heads[i], x), Added(b, i, x);
    AddKeepsChains(n, b, hash, x);
    assert BackBelow(r, c) by { AddKeepsBackBelow(n, b, hash, x); }
    BackLinkedIff(r, c, hash);
    forall k | 0 <= k < |c.heads| && k != i && c.heads[k] != NULL
      ensures c.heads[k] in r && c.heads[k] in m0 && r[c.heads[k]].prev == m0[c.heads[k]].prev
    {
      HeadBucket(n, b, hash, k);
      HeadBucket(n, b, hash, i);
    }
    assert c.heads[i] == x && r[x].prev == NULL by { HeadBucket(n, b, hash, i); }
  }

  lemma AddKeepsBackBelow(m: Memory, b: Buckets, hash: Key -> nat, x: Ref)
    requires Chained(m, b, hash) && BackBelow(m, b) && x in m && x != NULL && x !in b.place
    ensures var i := Bucket(m, b, hash, x); BackBelow(Linked(m, b.heads[i], x), Added(b, i, x))
  {
    hide Chained, Linked, Added, BackBelow;
    ChainedLengths(m, b, hash);
    var i := Bucket(m, b, hash, x);
    forall y | y in Added(b, i, x).place && !IsFirst(Added(b, i, x), y)
      ensures BackAt(Linked(m, b.heads[i], x), Added(b, i, x), y)
    {
      AddBackAtBelow(m, b, hash, x, y);
    }
    BackBelowIsAll(Linked(m, b.heads[i], x), Added(b, i, x));
  }

  lemma AddedFirst(m: Memory, b: Buckets, hash: Key -> nat, x: Ref)
    requires x in m && |b.heads| == |b.sizes| > 0
    ensures var i := Bucket(m, b, hash, x); |Added(b, i, x).heads| == |b.heads| && Added(b, i, x).heads[i] == x
  {
  }

  lemma HeadBucket(m: Memory, b: Buckets, hash: Key -> nat, i: int)
    requires Chained(m, b, hash) && 0 <= i < |b.heads|
    ensures var x := b.heads[i]; x != NULL ==> x in b.place && b.place[x].bucket == i && b.place[x].depth >= 0
  {
    assert Headed(b, i);
  }

  lemma LinksInMemory(m: Memory, b: Buckets, hash: Key -> nat, x: Ref)
    requires Chained(m, b, hash) && BackLinked(m, b) && x in b.place
    ensures x in m && (m[x].prev != NULL ==> m[x].prev in m) && (m[x].next != NULL ==> m[x].next in m)
    ensures b.place[x].depth >= 0
  {
    assert Placed(m, b, hash, x) && BackAt(m, b, x);
    if m[x].prev in b.place { assert Placed(m, b, hash, m[x].prev); }
    if m[x].next in b.place { assert Placed(m, b, hash, m[x].next); }
  }

  lemma ErasedPairs(m: Memory, b: Buckets, x: Ref)
    requires x in m && x in b.place && 0 <= b.place[x].bucket < |b.heads| == |b.sizes|
    ensures PairsOf(Unlinked(m, x), Erased(m, b, x).place) == PairsOf(m, b.place) - {x}
  {
    ErasedShape(m, b, x);
  }

  lemma PairsInMemory(m: Memory, p: map<Ref, Place>)
    ensures forall x :: x in PairsOf(m, p) ==> x in m
  {
  }

  lemma StaysUnique(p: map<Ref, Pair>, hash: Key -> nat, compare: (Key, Key) -> bool, x: Ref, key: Key, data: int)
    requires Respectful(hash, compare) && Unique(p, compare) && !HasKey(p, compare, key) && x !in p
    ensures Unique(p[x := Pair(key, data)], compare)
  {
    var q := p[x := Pair(key, data)];
    forall y, z | y in q && z in q && compare(q[y].key, q[z].key) ensures y == z {
      Symmetric(hash, compare, q[y].key, q[z].key);
      if y != x { assert y in p && !compare(p[y].key, key); }
      if z != x { assert z in p && !compare(p[z].key, key); }
    }
  }

  lemma Symmetric(hash: Key -> nat, compare: (Key, Key) -> bool, k: Key, l: Key)
    requires Respectful(hash, compare) && compare(k, l)
    ensures compare(l, k)
  {
  }

  lemma SamePairs(p: map<Ref, Pair>, q: map<Ref, Pair>)
    requires forall x :: x in p <==> x in q
    requires forall x :: x in p ==> p[x].key == q[x].key && p[x].data == q[x].data
    ensures p == q
  {
    assert p.Keys <= q.Keys by { forall x | x in p.Keys ensures x in q.Keys { } }
    assert q.Keys <= p.Keys by { forall x | x in q.Keys ensures x in p.Keys { } }
    forall x | x in p.Keys ensures p[x] == q[x] { }
  }

  lemma NotInTable(m: Memory, b: Buckets, hash: Key -> nat, x: Ref, item: Item)
    requires Chained(m, b, hash) && x !in m
    ensures x !in b.place && Chained(m[x := item], b, hash)
  {
    AllInMemory(m, b, hash);
    forall y | y in b.place ensures Placed(m[x := item], b, hash, y) {
      assert Placed(m, b, hash, y);
    }
  }

  lemma OnePairMore(m: Memory, p: map<Ref, Place>, n: Memory, m': Memory, p': map<Ref, Place>, x: Ref, key: Key, data: int)
    requires x !in m && n == m[x := Item(key, data, NULL, NULL)] && SameData(n, m') && p'.Keys == p.Keys + {x}
    ensures PairsOf(m', p') == PairsOf(m, p)[x := Pair(key, data)]
  {
    SamePairs(PairsOf(m', p'), PairsOf(m, p)[x := Pair(key, data)]);
  }

  lemma NoItems(m: Memory, b: Buckets, hash: Key -> nat)
    requires |b.heads| == |b.sizes| > 0 && b.place == map[]
    requires forall i :: 0 <= i < |b.heads| ==> b.heads[i] == NULL && b.sizes[i] == 0
    ensures Chained(m, b, hash)
  {
  }

  lemma NothingYet(m0: Memory, b: Buckets, hash: Key -> nat)
    requires Chained(m0, b, hash)
    ensures Moved(m0, b, m0, map[], 0, NULL)
  {
    AllInMemory(m0, b, hash);
  }

  /** What a resize keeps of the links back, and of the order. */
  ghost predicate Behind(m0: Memory, from: map<Ref, Place>, m: Memory, b: Buckets) {
    BackBelow(m, b) && Carries(m0, from, m, b) && Later(from, b.place)
  }

  lemma NothingBehind(m: Memory, from: map<Ref, Place>, b: Buckets)
    requires b.place == map[] && forall y :: y in from ==> y in m
    ensures Behind(m, from, m, b)
  {
  }

  lemma MovedBehind(m0: Memory, b: Buckets, m: Memory, c: Buckets, hash: Key -> nat, i: int, x: Ref)
    requires Chained(m, c, hash) && Moved(m0, b, m, c.place, i, x) && x != NULL && b.place[x].bucket == i
    requires x in m && x !in c.place && Behind(m0, b.place, m, c)
    ensures var k := Bucket(m, c, hash, x); Behind(m0, b.place, Linked(m, c.heads[k], x), Added(c, k, x))
  {
    hide Chained, BackBelow, Carries, Later, Linked, Added;
    ChainedLengths(m, c, hash);
    AddCarries(m0, b.place, m, c, hash, x);
    AddLater(m, c, hash, b.place, x);
  }

  /** What a resize leaves of the links back. */
  lemma ResizedBackLinks(m0: Memory, b: Buckets, m: Memory, c: Buckets, hash: Key -> nat)
    requires Chained(m0, b, hash) && Moved(m0, b, m, c.place, |b.heads|, NULL)
    requires Chained(m, c, hash) && Behind(m0, b.place, m, c)
    ensures |b.heads| > 0 && BackBelow(m, c) && (BackLinked(m, c) <==> FreshHeads(m0, c)) && SameHeadLinks(m0, m, c)
    ensures BackLinked(m0, b) && |c.heads| % |b.heads| == 0 ==>
      (FreshHeads(m0, c) <==> forall i :: 0 <= i < |b.sizes| ==> b.sizes[i] <= 1)
  {
    hide Chained, BackLinked, BackBelow, Later;
    ChainedLengths(m0, b, hash);
    ChainedLengths(m, c, hash);
    AllInMemory(m0, b, hash);
    BackLinkedIff(m, c, hash);
    forall i | 0 <= i < |c.heads| && c.heads[i] != NULL
      ensures c.heads[i] in m && c.heads[i] in m0 && m[c.heads[i]].prev == m0[c.heads[i]].prev
    {
      HeadBucket(m, c, hash, i);
      HeadIsFirst(m, c, hash, i);
    }
    if BackLinked(m0, b) && |c.heads| % |b.heads| == 0 {
      assert c.place.Keys == b.place.Keys by {
        assert c.place.Keys <= b.place.Keys by { forall y | y in c.place.Keys ensures y in b.place.Keys { } }
        assert b.place.Keys <= c.place.Keys by { forall y | y in b.place.Keys ensures y in c.place.Keys { } }
      }
      GrowthKeepsIff(m0, b, m, c, hash);
    }
  }

  lemma HeadIsFirst(m: Memory, b: Buckets, hash: Key -> nat, i: int)
    requires Chained(m, b, hash) && 0 <= i < |b.heads| && b.heads[i] != NULL
    ensures b.heads[i] in b.place && IsFirst(b, b.heads[i])
  {
    assert Headed(b, i);
  }

  // ----- two items whose links back a resize breaks -----

  function Identity(key: Key): nat { if key < 0 then 0 else key }

  const PAIR: Memory := map[1 := Item(0, 7, NULL, 2), 2 := Item(16, 8, 1, NULL)]

  /** A table as created, with the keys 0 and 16 in its first bucket. */
  const SIXTEEN: Buckets :=
    Buckets(seq(16, i => if i == 0 then 2 else NULL), seq(16, i => if i == 0 then 2 else 0),
            map[1 := Place(0, 0), 2 := Place(0, 1)])

  const THIRTY_TWO: Buckets := Buckets(seq(32, _ => NULL), seq(32, _ => 0), map[])

  /** Both items get a bucket of their own, and item 1 starts its one still linked back to item 2. */
  lemma TwoItemsBreak()
    ensures Chained(PAIR, SIXTEEN, Identity) && BackLinked(PAIR, SIXTEEN)
    ensures var m, c := Linked(PAIR, NULL, 2), Added(THIRTY_TWO, 16, 2); var n, d := Linked(m, NULL, 1), Added(c, 0, 1);
      Chained(n, d, Identity) && d.heads[0] == 1 && n[1].prev == 2 && !BackLinked(n, d)
  {
    assert Placed(PAIR, SIXTEEN, Identity, 1) && Placed(PAIR, SIXTEEN, Identity, 2);
    NoItems(PAIR, THIRTY_TWO, Identity);
    AddKeepsChains(PAIR, THIRTY_TWO, Identity, 2);
    var m, c := Linked(PAIR, NULL, 2), Added(THIRTY_TWO, 16, 2);
    AddKeepsChains(m, c, Identity, 1);
    var n, d := Linked(m, NULL, 1), Added(c, 0, 1);
    assert 1 in d.place && !BackAt(n, d, 1);
  }

  /** In the end the same pairs are there. */
  lemma AllMoved(m0: Memory, b: Buckets, hash: Key -> nat, m: Memory, place: map<Ref, Place>, i: int)
    requires Chained(m0, b, hash) && Moved(m0, b, m, place, i, NULL) && i == |b.heads|
    ensures PairsOf(m, place) == PairsOf(m0, b.place) && m.Keys == m0.Keys
  {
    AllInMemory(m0, b, hash);
    SamePairs(PairsOf(m, place), PairsOf(m0, b.place));
  }

  /** None of the items of a bucket with at least d others behind them has the key. */
  ghost predicate NoMatch(m: Memory, b: Buckets, compare: (Key, Key) -> bool, key: Key, i: int, d: int) {
    forall y :: AtLeast(b, y, i, d) ==> y in m && !compare(m[y].key, key)
  }

  lemma NothingBeforeHead(m: Memory, b: Buckets, hash: Key -> nat, compare: (Key, Key) -> bool, key: Key, i: int)
    requires Chained(m, b, hash) && 0 <= i < |b.heads|
    ensures b.heads[i] != NULL ==> b.heads[i] in b.place
    ensures NoMatch(m, b, compare, key, i, if b.heads[i] != NULL then b.place[b.heads[i]].depth + 1 else 0)
  {
    assert Headed(b, i);
    if b.heads[i] in b.place { assert Placed(m, b, hash, b.heads[i]); }
    forall y ensures !AtLeast(b, y, i, b.sizes[i]) {
      if y in b.place { assert Placed(m, b, hash, y); }
    }
  }

  lemma OneMoreLooked(m: Memory, b: Buckets, hash: Key -> nat, compare: (Key, Key) -> bool, key: Key, i: int, x: Ref)
    requires Chained(m, b, hash) && x in b.place && b.place[x].bucket == i && x in m && !compare(m[x].key, key)
    requires NoMatch(m, b, compare, key, i, b.place[x].depth + 1)
    ensures NoMatch(m, b, compare, key, i, b.place[x].depth)
  {
    forall y | AtLeast(b, y, i, b.place[x].depth) ensures y == x || AtLeast(b, y, i, b.place[x].depth + 1) {
      assert Distinct(b, x, y);
    }
  }

  ghost predicate SameData(m: Memory, n: Memory) {
    m.Keys == n.Keys && forall x :: x in m ==> n[x].key == m[x].key && n[x].data == m[x].data
  }

  /** Whether an item comes before x, if that is not NULL, or before bucket i. */
  ghost predicate Before(b: Buckets, y: Ref, i: int, x: Ref)
    requires y in b.place && (x != NULL ==> x in b.place)
  {
    b.place[y].bucket < i || (b.place[y].bucket == i && x != NULL && b.place[y].depth > b.place[x].depth)
  }

  /**
   * Half way through a resize: the buckets before i have been moved, and of bucket i, unless x is NULL, the items
   * before x. What has not been moved is linked as it was.
   */
  ghost predicate Moved(m0: Memory, b: Buckets, m: Memory, place: map<Ref, Place>, i: int, x: Ref) {
    && SameData(m0, m)
    && (forall y :: y in b.place ==> y in m && y != NULL)
    && (x != NULL ==> x in b.place)
    && (forall y :: y in place <==> y in b.place && Before(b, y, i, x))
    && (forall y :: y in b.place && y !in place ==> m[y].next == m0[y].next)
  }

  lemma ChainedLengths(m: Memory, b: Buckets, hash: Key -> nat)
    requires Chained(m, b, hash)
    ensures |b.heads| == |b.sizes| > 0
  {
  }

  lemma AllInMemory(m: Memory, b: Buckets, hash: Key -> nat)
    requires Chained(m, b, hash)
    ensures forall y :: y in b.place ==> y in m && y != NULL && 0 <= b.place[y].bucket < |b.heads|
  {
    forall y | y in b.place ensures y in m && y != NULL && 0 <= b.place[y].bucket < |b.heads| {
      assert Placed(m, b, hash, y);
    }
  }

  lemma HeadInMemory(m: Memory, b: Buckets, hash: Key -> nat, i: int)
    requires Chained(m, b, hash) && 0 <= i < |b.heads|
    ensures b.heads[i] != NULL ==> b.heads[i] in m
  {
    assert Headed(b, i);
    if b.heads[i] in b.place { assert Placed(m, b, hash, b.heads[i]); }
  }

  /** The head has the most items of its bucket behind it. */
  lemma HeadStarts(m0: Memory, b: Buckets, hash: Key -> nat, m: Memory, place: map<Ref, Place>, i: int)
    requires Chained(m0, b, hash) && 0 <= i < |b.heads| && Moved(m0, b, m, place, i, NULL)
    ensures var x := b.heads[i];
      if x == NULL then Moved(m0, b, m, place, i + 1, NULL)
      else x in b.place && b.place[x].bucket == i && b.place[x].depth >= 0 && Moved(m0, b, m, place, i, x)
  {
    assert Headed(b, i);
    forall y | y in b.place && b.place[y].bucket == i ensures 0 <= b.place[y].depth < b.sizes[i] {
      assert Placed(m0, b, hash, y);
    }
  }

  lemma NextInChain(m0: Memory, b: Buckets, hash: Key -> nat, x: Ref)
    requires Chained(m0, b, hash) && x in b.place
    ensures x in m0 && var n := m0[x].next; var p := b.place[x];
      if p.depth == 0 then n == NULL else n != NULL && n in b.place && b.place[n] == Place(p.bucket, p.depth - 1)
  {
    assert Placed(m0, b, hash, x);
    if m0[x].next in b.place { assert Placed(m0, b, hash, m0[x].next); }
  }

  /** Moving one more item of a chain. */
  lemma MovesOn(m0: Memory, b: Buckets, hash: Key -> nat, m: Memory, p: map<Ref, Place>, m': Memory, p': map<Ref, Place>,
                i: int, x: Ref)
    requires Chained(m0, b, hash) && x in b.place && b.place[x].bucket == i && Moved(m0, b, m, p, i, x) && x !in p
    requires SameData(m, m') && p'.Keys == p.Keys + {x}
    requires forall y :: y in m && y != x ==> m'[y].next == m[y].next
    ensures var n := m0[x].next; if n != NULL then Moved(m0, b, m', p', i, n) else Moved(m0, b, m', p', i + 1, NULL)
  {
    hide Chained, Injective, Placed;
    NextInChain(m0, b, hash, x);
    forall y | y in b.place && b.place[y].bucket == i
      ensures b.place[y].depth >= 0 && (b.place[y].depth == b.place[x].depth ==> y == x)
    {
      DepthOnce(m0, b, hash, x, y);
    }
  }

  lemma DepthOnce(m0: Memory, b: Buckets, hash: Key -> nat, x: Ref, y: Ref)
    requires Chained(m0, b, hash) && x in b.place && y in b.place && b.place[x].bucket == b.place[y].bucket
    ensures b.place[y].depth >= 0 && (b.place[y].depth == b.place[x].depth ==> y == x)
  {
    assert Placed(m0, b, hash, y);
    assert Distinct(b, x, y);
  }

  /** The comparison is symmetric, and equal keys have equal hashes. */
  ghost predicate Respectful(hash: Key -> nat, compare: (Key, Key) -> bool) {
    forall k, l :: compare(k, l) ==> compare(l, k) && hash(k) == hash(l)
  }
}
