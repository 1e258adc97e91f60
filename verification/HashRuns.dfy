// Whole runs of the hash table: whatever it does to its buckets, its owner sees a multimap.

module HashRuns {
  import opened Hashing

  // ----- the multimap -----

  ghost function Pick(refs: set<Ref>): (x: Ref)
    requires exists x :: x in refs
    ensures x in refs
  {
    var x :| x in refs;
    x
  }

  /** The pairs of a table, whatever items hold them. */
  ghost function Bag(pairs: map<Ref, Pair>): multiset<Pair>
    decreases |pairs.Keys|
  {
    if exists x :: x in pairs.Keys then
      var x := Pick(pairs.Keys);
      Fewer(pairs, x);
      multiset{pairs[x]} + Bag(pairs - {x})
    else multiset{}
  }

  /** Any pair can be counted first. */
  lemma {:induction false} BagTake(pairs: map<Ref, Pair>, x: Ref)
    requires x in pairs
    ensures Bag(pairs) == multiset{pairs[x]} + Bag(pairs - {x})
    decreases |pairs.Keys|
  {
    var y := Pick(pairs.Keys);
    if y != x {
      var less, other := pairs - {y}, pairs - {x};
      assert |less.Keys| < |pairs.Keys| && |other.Keys| < |pairs.Keys| by { Fewer(pairs, x); Fewer(pairs, y); }
      BagTake(less, x);
      BagTake(other, y);
      assert less - {x} == other - {y} by { Swapped(pairs, x, y); }
    }
  }

  lemma Fewer(pairs: map<Ref, Pair>, x: Ref)
    requires x in pairs
    ensures |(pairs - {x}).Keys| < |pairs.Keys|
  {
    assert (pairs - {x}).Keys == pairs.Keys - {x};
  }

  lemma Swapped(pairs: map<Ref, Pair>, x: Ref, y: Ref)
    ensures pairs - {y} - {x} == pairs - {x} - {y}
  {
    var p, q := pairs - {y} - {x}, pairs - {x} - {y};
    assert p.Keys == q.Keys;
    forall k | k in p.Keys ensures p[k] == q[k] { }
  }

  lemma BagPut(pairs: map<Ref, Pair>, x: Ref, p: Pair)
    requires x !in pairs
    ensures Bag(pairs[x := p]) == Bag(pairs) + multiset{p}
  {
    BagTake(pairs[x := p], x);
    var q := pairs[x := p] - {x};
    assert q.Keys == pairs.Keys;
    forall k | k in q.Keys ensures q[k] == pairs[k] { }
    assert q == pairs;
  }

  lemma {:induction false} BagHolds(pairs: map<Ref, Pair>, p: Pair)
    ensures p in Bag(pairs) <==> exists x :: x in pairs && pairs[x] == p
    decreases |pairs.Keys|
  {
    if exists x :: x in pairs.Keys {
      var y := Pick(pairs.Keys);
      Fewer(pairs, y);
      BagHolds(pairs - {y}, p);
      forall x | x in pairs && pairs[x] == p ensures p in Bag(pairs) {
        assert x != y ==> x in pairs - {y} && (pairs - {y})[x] == p;
      }
    }
  }

  ghost predicate HasMatch(c: multiset<Pair>, compare: (Key, Key) -> bool, key: Key) {
    exists p :: p in c && compare(p.key, key)
  }

  lemma BagMatches(pairs: map<Ref, Pair>, compare: (Key, Key) -> bool, key: Key)
    ensures HasMatch(Bag(pairs), compare, key) <==> HasKey(pairs, compare, key)
  {
    if HasMatch(Bag(pairs), compare, key) {
      var p :| p in Bag(pairs) && compare(p.key, key);
      BagHolds(pairs, p);
    }
    if HasKey(pairs, compare, key) {
      var x :| x in pairs && compare(pairs[x].key, key);
      BagHolds(pairs, pairs[x]);
    }
  }

  // ----- operations -----

  /** What an owner does; whether there is memory for an item, and for a larger table, is not up to it. */
  datatype Op =
    | Add(key: Key, data: int, hasRoom: bool, canGrow: bool)
    | Put(key: Key, data: int, hasRoom: bool, canGrow: bool)
    | Find(key: Key)
    | Remove(key: Key)

  datatype Answer = Did(ok: bool) | Found(data: int)

  /** What an operation answers, and what it makes of a multimap. */
  ghost predicate Answers(c: multiset<Pair>, op: Op, a: Answer, c': multiset<Pair>, compare: (Key, Key) -> bool) {
    match op
    case Add(key, data, hasRoom, _) =>
      a == Did(hasRoom) && c' == if hasRoom then c + multiset{Pair(key, data)} else c
    case Put(key, data, hasRoom, _) =>
      var isNew := hasRoom && !HasMatch(c, compare, key);
      a == Did(isNew) && c' == if isNew then c + multiset{Pair(key, data)} else c
    case Find(key) =>
      && c' == c && a.Found?
      && (if HasMatch(c, compare, key) then exists p :: p in c && compare(p.key, key) && a.data == p.data
          else a.data == NULL)
    case Remove(key) =>
      if HasMatch(c, compare, key) then
        a == Did(true) && exists p :: p in c && compare(p.key, key) && c' == c - multiset{p}
      else a == Did(false) && c' == c
  }

  /** The operations of a run with their answers, and the multimap before and after each. */
  ghost predicate Traces(cs: seq<multiset<Pair>>, ops: seq<Op>, answers: seq<Answer>, compare: (Key, Key) -> bool) {
    && |cs| == |ops| + 1 && |answers| == |ops|
    && forall k :: 0 <= k < |ops| ==> Answers(cs[k], ops[k], answers[k], cs[k + 1], compare)
  }

  predicate Inserts(op: Op) { op.Add? || op.Put? }

  ghost predicate NoNulls(pairs: map<Ref, Pair>) { forall x :: x in pairs ==> pairs[x].data != NULL }

  /** An address that is not in use. */
  method Allocate(m: Memory) returns (room: Ref)
    ensures room != NULL && room !in m
  {
    room := 1;
    ghost var rest := m.Keys;
    while room in m
      invariant room >= 1 && rest <= m.Keys && forall x :: x in m && x >= room ==> x in rest
      decreases rest
    {
      rest := rest - {room};
      room := room + 1;
    }
  }

  method Insert(t: HashTable, op: Op) returns (a: Answer)
    requires t.Valid() && Respectful(t.hash, t.compare) && NoNulls(t.Pairs()) && Inserts(op) && op.data != NULL
    modifies t`memory, t`place, t`heads, t`sizes, t.heads, t.sizes
    ensures t.Valid() && NoNulls(t.Pairs())
    ensures (t.heads == old(t.heads) && t.sizes == old(t.sizes)) || (fresh(t.heads) && fresh(t.sizes))
    ensures Answers(old(Bag(t.Pairs())), op, a, Bag(t.Pairs()), t.compare)
    ensures !op.canGrow && old(BackLinked(t.memory, t.Table())) ==> BackLinked(t.memory, t.Table())
  {
    hide Chained, BackLinked, BackBelow, PairsOf, Respectful, FreshBut, HasKey, Bag;
    ghost var pairs := t.Pairs();
    BagMatches(pairs, t.compare, op.key);
    var room := NULL;
    if op.hasRoom {
      room := Allocate(t.memory);
      PairsInMemory(t.memory, t.place);
      BagPut(pairs, room, Pair(op.key, op.data));
    }
    var ok;
    if op.Add? {
      ok := t.SetUnchecked(op.key, op.data, room, op.canGrow);
    } else {
      ok := t.Set(op.key, op.data, room, op.canGrow);
    }
    a := Did(ok);
  }

  method Perform(t: HashTable, op: Op) returns (a: Answer)
    requires t.Valid() && Respectful(t.hash, t.compare) && NoNulls(t.Pairs()) && (Inserts(op) ==> op.data != NULL)
    requires op.Remove? ==> BackLinked(t.memory, t.Table())
    modifies t`memory, t`place, t`heads, t`sizes, t.heads, t.sizes
    ensures t.Valid() && NoNulls(t.Pairs())
    ensures (t.heads == old(t.heads) && t.sizes == old(t.sizes)) || (fresh(t.heads) && fresh(t.sizes))
    ensures Answers(old(Bag(t.Pairs())), op, a, Bag(t.Pairs()), t.compare)
    ensures (Inserts(op) ==> !op.canGrow) && old(BackLinked(t.memory, t.Table())) ==> BackLinked(t.memory, t.Table())
  {
    hide Chained, BackLinked, PairsOf, Respectful, Bag;
    ghost var pairs := t.Pairs();
    match op
    case Add(_, _, _, _) => a := Insert(t, op);
    case Put(_, _, _, _) => a := Insert(t, op);
    case Find(key) =>
      BagMatches(pairs, t.compare, key);
      var data := t.LookUp(key);
      a := Found(data);
      if data != NULL {
        ghost var x :| x in pairs && t.compare(pairs[x].key, key) && pairs[x].data == data;
        BagHolds(pairs, pairs[x]);
      }
    case Remove(key) =>
      BagMatches(pairs, t.compare, key);
      var erased := t.Erase(key);
      a := Did(erased);
      if erased {
        ghost var x :| x in pairs && t.compare(pairs[x].key, key) && t.Pairs() == pairs - {x};
        BagTake(pairs, x);
        BagHolds(pairs, pairs[x]);
      }
  }

  // ----- whole runs -----

  /** Nothing is removed after an insertion that may have made the table grow. */
  predicate RemovesFirst(ops: seq<Op>) {
    forall j, k :: 0 <= j < k < |ops| && ops[k].Remove? && Inserts(ops[j]) ==> !ops[j].canGrow
  }

  predicate RemovesFrom(ops: seq<Op>, k: int) {
    exists j :: 0 <= k <= j < |ops| && ops[j].Remove?
  }

  /** Over every run, resizes included, the table answers as the multimap does. */
  method RunAll(t: HashTable, ops: seq<Op>) returns (answers: seq<Answer>, ghost cs: seq<multiset<Pair>>)
    requires t.Valid() && Respectful(t.hash, t.compare) && NoNulls(t.Pairs())
    requires forall k :: 0 <= k < |ops| && Inserts(ops[k]) ==> ops[k].data != NULL
    requires RemovesFirst(ops) && (RemovesFrom(ops, 0) ==> BackLinked(t.memory, t.Table()))
    modifies t`memory, t`place, t`heads, t`sizes, t.heads, t.sizes
    ensures t.Valid() && NoNulls(t.Pairs())
    ensures (t.heads == old(t.heads) && t.sizes == old(t.sizes)) || (fresh(t.heads) && fresh(t.sizes))
    ensures Traces(cs, ops, answers, t.compare) && cs[0] == old(Bag(t.Pairs())) && cs[|ops|] == Bag(t.Pairs())
  {
    hide Chained, BackLinked, PairsOf, Respectful, Bag, Answers;
    answers := [];
    cs := [Bag(t.Pairs())];
    var k := 0;
    while k < |ops|
      invariant 0 <= k <= |ops| && t.Valid() && NoNulls(t.Pairs())
      invariant (t.heads == old(t.heads) && t.sizes == old(t.sizes)) || (fresh(t.heads) && fresh(t.sizes))
      invariant Traces(cs, ops[..k], answers, t.compare) && cs[0] == old(Bag(t.Pairs())) && cs[k] == Bag(t.Pairs())
      invariant RemovesFrom(ops, k) ==> BackLinked(t.memory, t.Table())
    {
      var a := Perform(t, ops[k]);
      answers := answers + [a];
      cs := cs + [Bag(t.Pairs())];
      k := k + 1;
    }
    assert ops[..k] == ops;
  }

  /** A new table, used from the beginning. */
  method RunFromNew(hash: Key -> nat, compare: (Key, Key) -> bool, ops: seq<Op>)
    returns (t: HashTable, answers: seq<Answer>, ghost cs: seq<multiset<Pair>>)
    requires Respectful(hash, compare) && RemovesFirst(ops)
    requires forall k :: 0 <= k < |ops| && Inserts(ops[k]) ==> ops[k].data != NULL
    ensures fresh(t) && t.Valid() && t.compare == compare
    ensures Traces(cs, ops, answers, compare) && cs[0] == multiset{} && cs[|ops|] == Bag(t.Pairs())
  {
    hide Chained, BackLinked, PairsOf, Respectful;
    t := new HashTable(hash, compare);
    answers, cs := RunAll(t, ops);
  }

  // ----- what the answers of a run say -----

  /** The pairs that a run of insertions adds. */
  function Added(ops: seq<Op>, answers: seq<Answer>): seq<Pair>
    requires |answers| == |ops|
  {
    if ops == [] then []
    else
      var n := |ops| - 1;
      Added(ops[..n], answers[..n]) + (if Inserts(ops[n]) && answers[n] == Did(true) then [Pair(ops[n].key, ops[n].data)] else [])
  }

  /** After a run of insertions the table holds what was in it, and every pair whose insertion was answered with yes. */
  lemma {:induction false} InsertionsCollect(cs: seq<multiset<Pair>>, ops: seq<Op>, answers: seq<Answer>,
                                             compare: (Key, Key) -> bool)
    requires Traces(cs, ops, answers, compare) && forall k :: 0 <= k < |ops| ==> Inserts(ops[k])
    ensures cs[|ops|] == cs[0] + multiset(Added(ops, answers))
    decreases |ops|
  {
    if ops != [] {
      var n := |ops| - 1;
      assert Answers(cs[n], ops[n], answers[n], cs[n + 1], compare);
      InsertionsCollect(cs[..n + 1], ops[..n], answers[..n], compare);
    }
  }

  /** No two pairs of the multimap have equal keys. */
  ghost predicate OneEach(c: multiset<Pair>, compare: (Key, Key) -> bool) {
    forall p, q :: p in c && q in c && compare(p.key, q.key) ==> p == q && c[p] == 1
  }

  /** Checked insertions keep every key unique, and the first pair of a key is the one that lookups find. */
  lemma {:induction false} PutsStayUnique(cs: seq<multiset<Pair>>, ops: seq<Op>, answers: seq<Answer>, hash: Key -> nat,
                                          compare: (Key, Key) -> bool)
    requires Respectful(hash, compare) && Traces(cs, ops, answers, compare) && OneEach(cs[0], compare)
    requires forall k :: 0 <= k < |ops| ==> !ops[k].Add?
    ensures forall k :: 0 <= k <= |ops| ==> OneEach(cs[k], compare)
    decreases |ops|
  {
    if ops != [] {
      var n := |ops| - 1;
      PutsStayUnique(cs[..n + 1], ops[..n], answers[..n], hash, compare);
      assert OneEach(cs[..n + 1][n], compare);
      PutStaysUnique(cs[n], ops[n], answers[n], cs[n + 1], hash, compare);
      forall k | 0 <= k <= n ensures OneEach(cs[k], compare) {
        assert OneEach(cs[..n + 1][k], compare);
      }
    }
  }

  lemma PutStaysUnique(c: multiset<Pair>, op: Op, a: Answer, c': multiset<Pair>, hash: Key -> nat,
                       compare: (Key, Key) -> bool)
    requires Respectful(hash, compare) && Answers(c, op, a, c', compare) && !op.Add? && OneEach(c, compare)
    ensures OneEach(c', compare)
  {
    forall p, q | p in c' && q in c' && compare(p.key, q.key) ensures p == q && c'[p] == 1 {
      assert compare(q.key, p.key);
    }
  }

  // ----- growing breaks links back, and the new item may mend them -----

  /** Two items in one bucket make it full. */
  lemma TwoFill(m: Memory, b: Buckets, hash: Key -> nat, x: Ref, y: Ref)
    requires Chained(m, b, hash) && x in b.place && y in b.place && x != y && x in m && y in m && |b.heads| > 0
    requires hash(m[x].key) % |b.heads| == hash(m[y].key) % |b.heads|
    ensures var i := hash(m[x].key) % |b.heads|; |b.sizes| == |b.heads| && b.sizes[i] >= 2
  {
    assert Placed(m, b, hash, x) && Placed(m, b, hash, y) && Distinct(b, x, y);
  }

  /** An item that is alone in its bucket starts it. */
  lemma AloneStarts(m: Memory, b: Buckets, hash: Key -> nat, x: Ref)
    requires Chained(m, b, hash) && x in b.place && x in m && |b.heads| > 0
    requires forall y :: y in b.place && y in m && y != x ==> hash(m[y].key) % |b.heads| != hash(m[x].key) % |b.heads|
    ensures b.heads[hash(m[x].key) % |b.heads|] == x
  {
    var i := hash(m[x].key) % |b.heads|;
    assert Placed(m, b, hash, x) && Headed(b, i);
    assert Placed(m, b, hash, b.heads[i]);
  }

  lemma StartsOwn(m: Memory, b: Buckets, hash: Key -> nat, i: int)
    requires Chained(m, b, hash) && 0 <= i < |b.heads| && b.heads[i] != NULL
    ensures b.heads[i] in b.place && b.heads[i] in m && hash(m[b.heads[i]].key) % |b.heads| == i
  {
    assert Headed(b, i);
    assert Placed(m, b, hash, b.heads[i]);
  }

  /** A new table with the keys 0 and 16. */
  method TwoItems() returns (t: HashTable)
    ensures fresh(t) && fresh(t.heads) && fresh(t.sizes) && t.Valid() && t.hash == Identity
    ensures t.Pairs() == map[1 := Pair(0, 7), 2 := Pair(16, 8)] && t.memory.Keys == {1, 2} && t.heads.Length == 16
    ensures BackLinked(t.memory, t.Table()) && t.Full(0) && t.Full(16) && t.Full(32) && t.Full(48)
    ensures t.memory[1].prev != NULL && t.memory[2].prev == NULL
  {
    hide Chained, BackLinked, BackBelow, FreshBut, PairsOf, HasKey, Unique;
    t := new HashTable(Identity, (k, l) => k == l);
    var ok := t.SetUnchecked(0, 7, 1, false);
    ok := t.SetUnchecked(16, 8, 2, false);
    TwoLinked(t.memory, t.Table());
  }

  /** Both items are in one bucket, and the one that starts it is the other's predecessor. */
  lemma TwoLinked(m: Memory, b: Buckets)
    requires Chained(m, b, Identity) && BackLinked(m, b) && |b.heads| == 16 && b.heads[0] == 2
    requires PairsOf(m, b.place) == map[1 := Pair(0, 7), 2 := Pair(16, 8)]
    ensures |b.sizes| == 16 && b.sizes[0] >= 2 && 1 in m && 2 in m && m[1].prev != NULL && m[2].prev == NULL
  {
    hide Chained, BackLinked, BackBelow, FreshBut;
    assert 1 in PairsOf(m, b.place) && 2 in PairsOf(m, b.place);
    TwoFill(m, b, Identity, 1, 2);
    BackLinkedFresh(m, b, Identity);
    StartLinks(m, b, 0);
    SecondLinks(m, b, Identity, 1, 0);
  }

  lemma StartLinks(m: Memory, b: Buckets, i: int)
    requires FreshBut(m, b, -1) && 0 <= i < |b.heads| && b.heads[i] != NULL
    ensures b.heads[i] in m && m[b.heads[i]].prev == NULL
  {
  }

  lemma SecondLinks(m: Memory, b: Buckets, hash: Key -> nat, x: Ref, i: int)
    requires Chained(m, b, hash) && BackLinked(m, b) && x in b.place && x in m && 0 <= i < |b.heads|
    requires hash(m[x].key) % |b.heads| == i && b.heads[i] != x
    ensures m[x].prev != NULL
  {
    assert Placed(m, b, hash, x) && Headed(b, i);
    LinksBack(m, b, hash, x);
    FirstOnly(m, b, hash, i, x);
  }

  /** A resize to 32 buckets breaks the links back. */
  method ResizingBreaks() returns (t: HashTable)
    ensures fresh(t) && t.Valid() && t.Pairs() == map[1 := Pair(0, 7), 2 := Pair(16, 8)] && t.heads.Length == 32
    ensures !BackLinked(t.memory, t.Table())
  {
    hide Chained, BackLinked;
    t := TwoItems();
    ChainedLengths(t.memory, t.Table(), Identity);
    assert t.Full(0) && t.sizes[0] >= 2;
    t.Resize(32);
  }

  /** A third key that makes the table grow, and shares the bucket of key 0, mends them. */
  method GrowingMends() returns (t: HashTable)
    ensures fresh(t) && t.Valid() && t.heads.Length == 32 && BackLinked(t.memory, t.Table())
    ensures t.Pairs() == map[1 := Pair(0, 7), 2 := Pair(16, 8), 3 := Pair(32, 9)]
  {
    hide Chained, BackLinked, BackBelow;
    t := TwoItems();
    var ok := t.SetUnchecked(32, 9, 3, true);
    forall k | 0 <= k < t.heads.Length && k != 0 && t.heads[k] != NULL ensures t.heads[k] == 2 {
      StartsOwn(t.memory, t.Table(), Identity, k);
      assert t.heads[k] in t.Pairs();
    }
  }

  /** One that shares the bucket of key 16 does not. */
  method GrowingBreaks() returns (t: HashTable)
    ensures fresh(t) && t.Valid() && t.heads.Length == 32 && !BackLinked(t.memory, t.Table())
    ensures t.Pairs() == map[1 := Pair(0, 7), 2 := Pair(16, 8), 3 := Pair(48, 9)]
  {
    hide Chained, BackLinked, BackBelow;
    t := TwoItems();
    var ok := t.SetUnchecked(48, 9, 3, true);
    assert 1 in t.Pairs() && t.memory[1].key == 0;
    forall y | y in t.place && y in t.memory && y != 1 ensures Identity(t.memory[y].key) % 32 != 0 {
      assert y in t.Pairs();
    }
    AloneStarts(t.memory, t.Table(), Identity, 1);
  }
}
