// The kernel's generic heap sort, over a comparison function. Elements are numbered from 1, as in the program.

module Sorting {
  /** The comparison answers below zero for a strict weak order: it may hold elements equal that are not. */
  ghost predicate Orders<T(!new)>(comp: (T, T) -> int) {
    && (forall x, y :: comp(x, y) < 0 ==> comp(y, x) >= 0)
    && (forall x, y, z :: comp(x, y) >= 0 && comp(y, z) >= 0 ==> comp(x, z) >= 0)
  }

  ghost predicate Sorted<T(!new)>(s: seq<T>, comp: (T, T) -> int) {
    forall i, j :: 0 <= i < j < |s| ==> comp(s[j], s[i]) >= 0
  }

  /** Element c of the heap is not above its parent. */
  ghost predicate Under<T(!new)>(s: seq<T>, comp: (T, T) -> int, c: int) {
    2 <= c <= |s| ==> comp(s[c / 2 - 1], s[c - 1]) >= 0
  }

  /** The first n elements form a heap from index lo on. */
  ghost predicate Heap<T(!new)>(s: seq<T>, comp: (T, T) -> int, lo: int, n: int) {
    forall c :: 2 <= c <= n && c / 2 >= lo ==> Under(s, comp, c)
  }

  /** A heap from lo on, except that element par may be below its children; these are still not above its parent. */
  ghost predicate Broken<T(!new)>(s: seq<T>, comp: (T, T) -> int, lo: int, n: int, par: int) {
    && n <= |s|
    && (forall c :: 2 <= c <= n && c / 2 >= lo && c / 2 != par ==> Under(s, comp, c))
    && (par / 2 >= lo && par / 2 >= 1 && par <= n ==>
          forall c :: 2 <= c <= n && c / 2 == par ==> comp(s[par / 2 - 1], s[c - 1]) >= 0)
  }

  /** When the broken element is not below its larger child the heap is whole. */
  lemma Mended<T(!new)>(s: seq<T>, comp: (T, T) -> int, lo: int, n: int, par: int, chi: int)
    requires Orders(comp) && 1 <= lo <= par && Broken(s, comp, lo, n, par) && 0 <= n <= |s|
    requires 2 * par > n || (chi / 2 == par && 2 <= chi <= n && comp(s[par - 1], s[chi - 1]) >= 0)
    requires 2 * par <= n ==> forall c :: 2 <= c <= n && c / 2 == par ==> comp(s[chi - 1], s[c - 1]) >= 0
    ensures Heap(s, comp, lo, n)
  {
    forall c | 2 <= c <= n && c / 2 >= lo ensures Under(s, comp, c) {
      if c / 2 == par {
        assert comp(s[chi - 1], s[c - 1]) >= 0;
      }
    }
  }

  lemma Flip<T(!new)>(comp: (T, T) -> int, x: T, y: T)
    requires Orders(comp) && comp(x, y) < 0
    ensures comp(y, x) >= 0
  {
  }

  function Swapped<T>(s: seq<T>, i: int, j: int): seq<T>
    requires 0 <= i < |s| && 0 <= j < |s|
  {
    s[i := s[j]][j := s[i]]
  }

  /** Exchanging the broken element with its larger child moves the break down. */
  lemma MovedDown<T(!new)>(s: seq<T>, comp: (T, T) -> int, lo: int, n: int, par: int, chi: int)
    requires Orders(comp) && 1 <= lo <= par && n <= |s| && Broken(s, comp, lo, n, par)
    requires chi / 2 == par && 2 <= chi <= n && comp(s[par - 1], s[chi - 1]) < 0
    requires forall c :: 2 <= c <= n && c / 2 == par ==> comp(s[chi - 1], s[c - 1]) >= 0
    ensures Broken(Swapped(s, par - 1, chi - 1), comp, lo, n, chi)
  {
    hide Orders;
    var r := Swapped(s, par - 1, chi - 1);
    Flip(comp, s[par - 1], s[chi - 1]);
    forall c | 2 <= c <= n && c / 2 >= lo && c / 2 != chi ensures Under(r, comp, c) {
      if c == par {
        assert comp(s[par / 2 - 1], s[chi - 1]) >= 0;
      } else if c / 2 != par {
        assert Under(s, comp, c);
      } else if c != chi {
        assert comp(s[chi - 1], s[c - 1]) >= 0;
      }
    }
    forall c | 2 <= c <= n && c / 2 == chi ensures comp(r[chi / 2 - 1], r[c - 1]) >= 0 {
      assert Under(s, comp, c);
    }
  }

  lemma SwapPermutes<T(!new)>(s: seq<T>, i: nat, j: nat, n: nat)
    requires i < n && j < n && n <= |s|
    ensures multiset(Swapped(s, i, j)[..n]) == multiset(s[..n]) && Swapped(s, i, j)[n..] == s[n..]
  {
    assert Swapped(s, i, j)[..n] == Swapped(s[..n], i, j);
  }

  /** The first n elements are permuted, the others unchanged. */
  ghost predicate Shuffled<T>(s: seq<T>, r: seq<T>, n: nat) {
    n <= |s| == |r| && multiset(r[..n]) == multiset(s[..n]) && r[n..] == s[n..]
  }

  lemma ShuffledAgain<T(!new)>(s: seq<T>, r: seq<T>, i: nat, j: nat, n: nat)
    requires Shuffled(s, r, n) && i < n && j < n
    ensures Shuffled(s, Swapped(r, i, j), n)
  {
    SwapPermutes(r, i, j, n);
  }

  /** The larger child of an element that has one. */
  method LargerOf<T(!new)>(a: array<T>, comp: (T, T) -> int, par: nat, elemMax: nat) returns (chi: nat)
    requires Orders(comp) && 1 <= par && elemMax <= a.Length && 2 * par <= elemMax
    ensures chi / 2 == par && 2 <= chi <= elemMax
    ensures forall c :: 2 <= c <= elemMax && c / 2 == par ==> comp(a[chi - 1], a[c - 1]) >= 0
  {
    chi := par * 2;
    if chi < elemMax {
      if comp(a[chi - 1], a[chi]) < 0 {
        chi := chi + 1;
      }
    }
    LargerChild(a[..], comp, par, chi, elemMax);
  }

  /** Sifts the element at an index down into the heap below it. */
  method HeapCombine<T(!new)>(a: array<T>, comp: (T, T) -> int, index: nat, elemMax: nat)
    requires Orders(comp) && 1 <= index && elemMax <= a.Length
    requires Heap(a[..], comp, index + 1, elemMax)
    modifies a
    ensures Heap(a[..], comp, index, elemMax) && Shuffled(old(a[..]), a[..], elemMax)
  {
    hide Orders, Heap, Broken, Under, Shuffled;
    var par := index;
    ghost var s0 := a[..];
    HeapIsBroken(s0, comp, index, elemMax);
    ShuffledSame(s0, elemMax);
    while par * 2 <= elemMax
      invariant index <= par && Broken(a[..], comp, index, elemMax, par) && Shuffled(s0, a[..], elemMax)
      decreases elemMax - par
    {
      ghost var s := a[..];
      var chi := LargerOf(a, comp, par, elemMax);
      if comp(a[par - 1], a[chi - 1]) < 0 {
        MovedDown(s, comp, index, elemMax, par, chi);
        ShuffledAgain(s0, s, par - 1, chi - 1, elemMax);
        SwapBytes(a, par - 1, chi - 1);
        par := chi;
      } else {
        Mended(s, comp, index, elemMax, par, chi);
        return;
      }
    }
    Mended(a[..], comp, index, elemMax, par, par);
  }

  lemma ShuffledSame<T>(s: seq<T>, n: nat)
    requires n <= |s|
    ensures Shuffled(s, s, n)
  {
  }

  lemma HeapIsBroken<T(!new)>(s: seq<T>, comp: (T, T) -> int, index: nat, n: nat)
    requires 1 <= index && n <= |s| && Heap(s, comp, index + 1, n)
    ensures Broken(s, comp, index, n, index)
  {
  }

  lemma LargerChild<T(!new)>(s: seq<T>, comp: (T, T) -> int, par: nat, chi: nat, n: nat)
    requires Orders(comp) && 1 <= par && n <= |s| && 2 * par <= n && (chi == 2 * par || chi == 2 * par + 1) && chi <= n
    requires chi == 2 * par + 1 ==> comp(s[chi - 2], s[chi - 1]) < 0
    requires chi == 2 * par && 2 * par < n ==> comp(s[chi - 1], s[chi]) >= 0
    ensures forall c :: 2 <= c <= n && c / 2 == par ==> comp(s[chi - 1], s[c - 1]) >= 0
  {
    forall x: T ensures comp(x, x) >= 0 { }
  }

  /** What is true of all elements of a sequence is true of all elements of a permutation. */
  lemma SameElements<T(!new)>(s: seq<T>, r: seq<T>, x: T)
    requires multiset(s) == multiset(r) && x in r
    ensures x in s
  {
    assert x in multiset(r);
  }

  /** The root of a heap is not below anything in it. */
  lemma {:induction false} RootIsLargest<T(!new)>(s: seq<T>, comp: (T, T) -> int, n: nat, c: nat)
    requires Orders(comp) && n <= |s| && Heap(s, comp, 1, n) && 1 <= c <= n
    ensures comp(s[0], s[c - 1]) >= 0
    decreases c
  {
    if c > 1 {
      RootIsLargest(s, comp, n, c / 2);
      assert Under(s, comp, c);
    }
  }

  /** Everything from n on is sorted and not below anything before. */
  ghost predicate Settled<T(!new)>(s: seq<T>, comp: (T, T) -> int, n: int) {
    forall i, j :: 0 <= i < j < |s| && n <= j ==> comp(s[j], s[i]) >= 0
  }

  /** Permuting the first elements keeps the rest settled. */
  lemma StaysSettled<T(!new)>(s: seq<T>, r: seq<T>, comp: (T, T) -> int, n: nat)
    requires Shuffled(s, r, n) && Settled(s, comp, n)
    ensures Settled(r, comp, n)
  {
    forall i, j | 0 <= i < j < |r| && n <= j ensures comp(r[j], r[i]) >= 0 {
      assert r[j] == r[n..][j - n] == s[j];
      if i < n {
        assert r[i] == r[..n][i];
        SameElements(s[..n], r[..n], r[i]);
        var k :| 0 <= k < n && s[..n][k] == r[i];
      } else {
        assert r[i] == r[n..][i - n] == s[i];
      }
    }
  }

  /** Moving the root of the heap behind it settles one more element. */
  lemma SettlesOne<T(!new)>(s: seq<T>, comp: (T, T) -> int, n: nat)
    requires Orders(comp) && 2 <= n <= |s| && Heap(s, comp, 1, n) && Settled(s, comp, n)
    ensures Settled(Swapped(s, n - 1, 0), comp, n - 1) && Heap(Swapped(s, n - 1, 0), comp, 2, n - 1)
  {
    hide Orders, Heap, Shuffled, Under;
    var r := Swapped(s, n - 1, 0);
    ShuffledSame(s, n);
    ShuffledAgain(s, s, n - 1, 0, n);
    StaysSettled(s, r, comp, n);
    forall i | 0 <= i < n - 1 ensures comp(r[n - 1], r[i]) >= 0 {
      RootIsLargest(s, comp, n, if i == 0 then n else i + 1);
    }
    HeapBelowRoot(s, comp, n);
  }

  lemma HeapBelowRoot<T(!new)>(s: seq<T>, comp: (T, T) -> int, n: nat)
    requires 2 <= n <= |s| && Heap(s, comp, 1, n)
    ensures Heap(Swapped(s, n - 1, 0), comp, 2, n - 1)
  {
    var r := Swapped(s, n - 1, 0);
    forall c | 2 <= c <= n - 1 && c / 2 >= 2 ensures Under(r, comp, c) {
      assert Under(s, comp, c);
    }
  }

  /** Without children there is nothing to be above. */
  lemma NoParents<T(!new)>(s: seq<T>, comp: (T, T) -> int, lo: nat, n: nat)
    requires 2 * lo > n
    ensures Heap(s, comp, lo, n)
  {
  }

  lemma NothingSettled<T(!new)>(s: seq<T>, comp: (T, T) -> int)
    ensures Settled(s, comp, |s|)
  {
  }

  lemma AllSettled<T(!new)>(s: seq<T>, comp: (T, T) -> int, n: nat)
    requires Settled(s, comp, n) && n <= 1
    ensures Sorted(s, comp)
  {
  }

  ghost predicate Permutes<T>(s: seq<T>, r: seq<T>) { multiset(r) == multiset(s) }

  lemma PermutesOn<T>(s: seq<T>, r: seq<T>, t: seq<T>, n: nat)
    requires Permutes(s, r) && Shuffled(r, t, n)
    ensures Permutes(s, t)
  {
    assert t == t[..n] + t[n..] && r == r[..n] + r[n..];
  }

  lemma PermutesSame<T>(s: seq<T>)
    ensures Permutes(s, s)
  {
  }

  method SwapBytes<T(!new)>(a: array<T>, i: nat, j: nat)
    requires i < a.Length && j < a.Length
    modifies a
    ensures a[..] == Swapped(old(a[..]), i, j)
  {
    a[i], a[j] := a[j], a[i];
  }

  /** Moves the root of the heap of the first n elements behind it, and mends the heap. */
  method TakeRoot<T(!new)>(a: array<T>, comp: (T, T) -> int, n: nat)
    requires Orders(comp) && 2 <= n <= a.Length && Heap(a[..], comp, 1, n) && Settled(a[..], comp, n)
    modifies a
    ensures Heap(a[..], comp, 1, n - 1) && Settled(a[..], comp, n - 1)
    ensures forall s :: Permutes(s, old(a[..])) ==> Permutes(s, a[..])
  {
    hide Orders, Heap, Settled, Shuffled, Permutes;
    ghost var s := a[..];
    SettlesOne(s, comp, n);
    SwapBytes(a, n - 1, 0);
    ghost var r := a[..];
    ShuffledSame(s, n);
    ShuffledAgain(s, s, n - 1, 0, n);
    HeapCombine(a, comp, 1, n - 1);
    StaysSettled(r, a[..], comp, n - 1);
    forall t | Permutes(t, s) ensures Permutes(t, a[..]) {
      PermutesOn(t, s, r, n);
      PermutesOn(t, r, a[..], n - 1);
    }
  }

  /** Sorts the array; equal elements may change places. */
  method HeapSort<T(!new)>(a: array<T>, comp: (T, T) -> int)
    requires Orders(comp)
    modifies a
    ensures Sorted(a[..], comp) && Permutes(old(a[..]), a[..])
  {
    hide Orders, Heap, Settled, Sorted, Shuffled, Permutes;
    var elemCount := a.Length;
    var i := elemCount / 2;
    NoParents(a[..], comp, i + 1, elemCount);
    PermutesSame(a[..]);
    while i > 0
      invariant 0 <= i <= elemCount / 2 && Heap(a[..], comp, i + 1, elemCount) && Permutes(old(a[..]), a[..])
    {
      ghost var s := a[..];
      HeapCombine(a, comp, i, elemCount);
      PermutesOn(old(a[..]), s, a[..], elemCount);
      i := i - 1;
    }
    i := elemCount;
    NothingSettled(a[..], comp);
    while i > 1
      invariant 0 <= i <= elemCount && Heap(a[..], comp, 1, i) && Settled(a[..], comp, i) && Permutes(old(a[..]), a[..])
    {
      TakeRoot(a, comp, i);
      i := i - 1;
    }
    AllSettled(a[..], comp, i);
  }
}
