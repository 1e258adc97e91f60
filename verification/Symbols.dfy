// The symbol table of a program: its merge sort, and the search for the symbol that covers an address.

module Symbols {
  datatype Symbol = Symbol(value: nat, size: nat, info: nat, name: nat, section: nat)

  /** The order of the sort; the section does not take part. */
  predicate Less(a: Symbol, b: Symbol) {
    if a.value != b.value then a.value < b.value
    else if a.size != b.size then a.size < b.size
    else if a.info != b.info then a.info < b.info
    else a.name < b.name
  }

  ghost predicate Sorted(s: seq<Symbol>) {
    forall i, j :: 0 <= i < j < |s| ==> !Less(s[j], s[i])
  }

  function Merged(x: seq<Symbol>, y: seq<Symbol>): (r: seq<Symbol>)
    ensures |r| == |x| + |y|
    decreases |x| + |y|
  {
    if x == [] then y
    else if y == [] then x
    else if Less(x[0], y[0]) then [x[0]] + Merged(x[1..], y)
    else [y[0]] + Merged(x, y[1..])
  }

  function MergeSorted(s: seq<Symbol>): (r: seq<Symbol>)
    ensures |r| == |s|
    decreases |s|
  {
    if |s| <= 1 then s
    else
      var half := (|s| + 1) / 2;
      Merged(MergeSorted(s[..half]), MergeSorted(s[half..]))
  }

  // ----- a sorted permutation -----

  lemma {:induction false} MergedPermutes(x: seq<Symbol>, y: seq<Symbol>)
    ensures multiset(Merged(x, y)) == multiset(x) + multiset(y)
    decreases |x| + |y|
  {
    hide Less;
    if x != [] && y != [] {
      if Less(x[0], y[0]) {
        MergedPermutes(x[1..], y);
        assert x == [x[0]] + x[1..];
        assert multiset(x) == multiset([x[0]]) + multiset(x[1..]);
      } else {
        MergedPermutes(x, y[1..]);
        assert y == [y[0]] + y[1..];
        assert multiset(y) == multiset([y[0]]) + multiset(y[1..]);
      }
    }
  }

  lemma {:induction false} MergedSorts(x: seq<Symbol>, y: seq<Symbol>)
    requires Sorted(x) && Sorted(y)
    ensures Sorted(Merged(x, y))
    decreases |x| + |y|
  {
    if x != [] && y != [] {
      if Less(x[0], y[0]) {
        MergedSorts(x[1..], y);
        MergedPermutes(x[1..], y);
        Prepended(x[0], x[1..], y, Merged(x[1..], y));
      } else {
        MergedSorts(x, y[1..]);
        MergedPermutes(x, y[1..]);
        Prepended(y[0], x, y[1..], Merged(x, y[1..]));
      }
    }
  }

  /** A symbol that is not above any of the rest can stand before it. */
  lemma Prepended(a: Symbol, x: seq<Symbol>, y: seq<Symbol>, r: seq<Symbol>)
    requires Sorted(r) && multiset(r) == multiset(x) + multiset(y)
    requires (forall b :: b in x ==> !Less(b, a)) && (forall b :: b in y ==> !Less(b, a))
    ensures Sorted([a] + r)
  {
    forall k | 0 <= k < |r| ensures !Less(r[k], a) {
      assert r[k] in multiset(r);
      assert r[k] in multiset(x) || r[k] in multiset(y);
    }
  }

  lemma ShortIsSorted(s: seq<Symbol>)
    requires |s| <= 1
    ensures Sorted(s)
  {
  }

  /** The sort yields a permutation of the symbols in the order of Less. */
  lemma {:induction false} MergeSortedSorts(s: seq<Symbol>)
    ensures Sorted(MergeSorted(s)) && multiset(MergeSorted(s)) == multiset(s)
    decreases |s|
  {
    hide Less, Sorted, Merged;
    if |s| <= 1 {
      ShortIsSorted(s);
    } else {
      var half := (|s| + 1) / 2;
      MergeSortedSorts(s[..half]);
      MergeSortedSorts(s[half..]);
      MergedSorts(MergeSorted(s[..half]), MergeSorted(s[half..]));
      MergedPermutes(MergeSorted(s[..half]), MergeSorted(s[half..]));
      assert s == s[..half] + s[half..];
    }
  }

  // ----- the sort in place -----

  /** One step of interleaving s[l..m] and s[r..n]. */
  lemma MergeStep(s: seq<Symbol>, l: nat, m: nat, r: nat, n: nat)
    requires l <= m <= r <= n <= |s|
    ensures var whole := Merged(s[l..m], s[r..n]);
      && (l == m && r == n ==> whole == [])
      && (l < m && (r == n || Less(s[l], s[r])) ==> whole == [s[l]] + Merged(s[l + 1..m], s[r..n]))
      && (r < n && (l == m || !Less(s[l], s[r])) ==> whole == [s[r]] + Merged(s[l..m], s[r + 1..n]))
  {
    if l < m { assert s[l..m] == [s[l]] + s[l + 1..m] && s[l..m][1..] == s[l + 1..m]; }
    if r < n { assert s[r..n] == [s[r]] + s[r + 1..n] && s[r..n][1..] == s[r + 1..n]; }
  }

  /** Writing the next element of a sequence under construction. */
  lemma Emitted(t: seq<Symbol>, t': seq<Symbol>, i: nat, x: Symbol, rest: seq<Symbol>)
    requires i < |t| == |t'| && t'[..i] == t[..i] && t'[i] == x
    ensures t'[..i + 1] + rest == t[..i] + ([x] + rest)
  {
    assert t'[..i + 1] == t[..i] + [x];
  }

  /** Appends a stretch of the table to what is in the temporary storage. */
  method Append(a: array<Symbol>, tmp: array<Symbol>, indexI: nat, from: nat, end: nat)
    requires a != tmp && from <= end <= a.Length && indexI + end - from <= tmp.Length
    modifies tmp
    ensures tmp[..indexI + end - from] == old(tmp[..indexI]) + a[from..end]
  {
    ghost var t := tmp[..indexI];
    var index := from;
    while index < end
      invariant from <= index <= end
      invariant tmp[..indexI + index - from] == t + a[from..index]
    {
      ghost var was := tmp[..];
      tmp[indexI + index - from] := a[index];
      index := index + 1;
      Emitted(was, tmp[..], indexI + index - 1 - from, a[index - 1], []);
      assert a[from..index] == a[from..index - 1] + [a[index - 1]];
    }
  }

  /** Interleaves two runs of the table until one of them is used up. */
  method InterleaveBoth(a: array<Symbol>, tmp: array<Symbol>, left: nat, mid: nat, right: nat)
    returns (indexL: nat, indexR: nat, indexI: nat)
    requires a != tmp && left <= mid < right < a.Length <= tmp.Length
    modifies tmp
    ensures left <= indexL <= mid + 1 <= indexR <= right + 1 && indexI == indexL - left + indexR - mid - 1
    ensures indexL == mid + 1 || indexR == right + 1
    ensures tmp[..indexI] + Merged(a[indexL..mid + 1], a[indexR..right + 1]) == Merged(a[left..mid + 1], a[mid + 1..right + 1])
  {
    hide Merged, Less;
    ghost var s, m, n := a[..], mid + 1, right + 1;
    ghost var whole := Merged(s[left..m], s[m..n]);
    indexL, indexR, indexI := left, mid + 1, 0;
    while indexL <= mid && indexR <= right
      invariant left <= indexL <= m <= indexR <= n
      invariant indexI == indexL - left + indexR - m && indexI <= tmp.Length
      invariant tmp[..indexI] + Merged(s[indexL..m], s[indexR..n]) == whole
      decreases right + mid - indexL - indexR
    {
      ghost var t := tmp[..];
      MergeStep(s, indexL, m, indexR, n);
      if Less(a[indexL], a[indexR]) {
        tmp[indexI] := a[indexL];
        indexL := indexL + 1;
      } else {
        tmp[indexI] := a[indexR];
        indexR := indexR + 1;
      }
      Emitted(t, tmp[..], indexI, tmp[indexI], Merged(s[indexL..m], s[indexR..n]));
      indexI := indexI + 1;
    }
    assert s[left..m] == a[left..mid + 1] && s[m..n] == a[mid + 1..right + 1];
    assert s[indexL..m] == a[indexL..mid + 1] && s[indexR..n] == a[indexR..right + 1];
  }

  /** Interleaves two runs of the table into the temporary storage. */
  method Interleave(a: array<Symbol>, tmp: array<Symbol>, left: nat, mid: nat, right: nat)
    requires a != tmp && left <= mid < right < a.Length <= tmp.Length
    modifies tmp
    ensures tmp[..right - left + 1] == Merged(a[left..mid + 1], a[mid + 1..right + 1])
  {
    hide Merged;
    var indexL, indexR, indexI := InterleaveBoth(a, tmp, left, mid, right);
    MergedRest(a[indexL..mid + 1], a[indexR..right + 1]);
    Append(a, tmp, indexI, indexL, mid + 1);
    Append(a, tmp, indexI + mid + 1 - indexL, indexR, right + 1);
  }

  /** When one of the runs is used up, the rest of the other follows. */
  lemma MergedRest(x: seq<Symbol>, y: seq<Symbol>)
    requires x == [] || y == []
    ensures Merged(x, y) == x + y
  {
  }

  /** The pieces of a concatenation. */
  lemma Pieces(t: seq<Symbol>, x: seq<Symbol>, y: seq<Symbol>, z: seq<Symbol>)
    requires t == x + y + z
    ensures t[..|x|] == x && t[|x|..|x| + |y|] == y && t[|x| + |y|..] == z
  {
  }

  lemma Regroup(x: seq<Symbol>, s1: seq<Symbol>, s2: seq<Symbol>, z: seq<Symbol>)
    ensures x + s1 + (s2 + z) == (x + s1) + s2 + z == x + (s1 + s2) + z
  {
  }

  lemma Halves(s: seq<Symbol>)
    requires |s| > 1
    ensures var half := (|s| + 1) / 2; MergeSorted(s) == Merged(MergeSorted(s[..half]), MergeSorted(s[half..]))
  {
    hide Merged;
  }

  method ElfSortSymbolsSub(a: array<Symbol>, tmp: array<Symbol>, left: nat, right: int)
    requires a != tmp && left <= right + 1 <= a.Length <= tmp.Length
    modifies a, tmp
    ensures a[..] == old(a[..left]) + MergeSorted(old(a[left..right + 1])) + old(a[right + 1..])
    decreases right - left
  {
    ghost var x, s, z := a[..left], a[left..right + 1], a[right + 1..];
    assert a[..] == x + s + z;
    if left >= right {
      return;
    }
    hide Merged, MergeSorted;
    var mid := (left + right) / 2;
    ghost var half := mid + 1 - left;
    ghost var s1, s2 := s[..half], s[half..];
    ghost var r1, r2 := MergeSorted(s1), MergeSorted(s2);
    assert half == (|s| + 1) / 2 && s == s1 + s2;
    Regroup(x, s1, s2, z);
    Pieces(a[..], x, s1, s2 + z);
    ElfSortSymbolsSub(a, tmp, left, mid);
    assert a[..] == x + r1 + (s2 + z);
    Regroup(x, r1, s2, z);
    Pieces(a[..], x + r1, s2, z);
    ElfSortSymbolsSub(a, tmp, mid + 1, right);
    assert a[..] == x + r1 + r2 + z;
    Regroup(x, r1, r2, z);
    MergeRuns(a, tmp, left, mid, right, x, r1, r2, z);
    Halves(s);
  }

  /** The last part of the sort: two sorted runs become one. */
  method MergeRuns(a: array<Symbol>, tmp: array<Symbol>, left: nat, mid: nat, right: nat,
                   ghost x: seq<Symbol>, ghost r1: seq<Symbol>, ghost r2: seq<Symbol>, ghost z: seq<Symbol>)
    requires a != tmp && left <= mid < right < a.Length <= tmp.Length
    requires a[..] == x + r1 + r2 + z && |x| == left && |r1| == mid + 1 - left && |r2| == right - mid
    modifies a, tmp
    ensures a[..] == x + Merged(r1, r2) + z
  {
    hide Merged;
    Pieces(a[..], x, r1, r2 + z);
    Pieces(a[..], x + r1, r2, z);
    Interleave(a, tmp, left, mid, right);
    CopyBack(a, tmp, left, right - left + 1);
  }

  method CopyBack(a: array<Symbol>, tmp: array<Symbol>, left: nat, n: nat)
    requires a != tmp && left + n <= a.Length && n <= tmp.Length
    modifies a
    ensures a[..] == old(a[..left]) + tmp[..n] + old(a[left + n..])
  {
    forall k | 0 <= k < n {
      a[left + k] := tmp[k];
    }
  }

  /** Sorts the whole table. */
  method ElfSortSymbols(a: array<Symbol>)
    modifies a
    ensures Sorted(a[..]) && multiset(a[..]) == multiset(old(a[..]))
    ensures a[..] == MergeSorted(old(a[..]))
  {
    var tmp := new Symbol[a.Length](_ => Symbol(0, 0, 0, 0, 0));
    ghost var s := a[..];
    assert a[0..a.Length - 1 + 1] == s;
    ElfSortSymbolsSub(a, tmp, 0, a.Length - 1);
    MergeSortedSorts(s);
    assert a[..] == MergeSorted(s);
  }

  // ----- looking an address up -----

  /** The values never fall: what sorting leaves behind. */
  ghost predicate Rising(s: seq<Symbol>) {
    forall i, j :: 0 <= i <= j < |s| ==> s[i].value <= s[j].value
  }

  /** After sorting, the values never fall, which is what looking up asks for. */
  lemma SortedRises(s: seq<Symbol>)
    requires Sorted(s)
    ensures Rising(s)
  {
    forall i, j | 0 <= i <= j < |s| ensures s[i].value <= s[j].value {
      assert i < j ==> !Less(s[j], s[i]);
    }
  }

  /** Sorted means: by value, then by size, then by info, then by name. */
  lemma SortedLexicographic(s: seq<Symbol>)
    ensures Sorted(s) <==> forall i, j :: 0 <= i < j < |s| ==>
      && s[i].value <= s[j].value
      && (s[i].value == s[j].value ==> s[i].size <= s[j].size)
      && (s[i].value == s[j].value && s[i].size == s[j].size ==> s[i].info <= s[j].info)
      && (s[i].value == s[j].value && s[i].size == s[j].size && s[i].info == s[j].info ==> s[i].name <= s[j].name)
  {
    if Sorted(s) {
      forall i, j | 0 <= i < j < |s|
        ensures s[i].value <= s[j].value
        ensures s[i].value == s[j].value ==> s[i].size <= s[j].size
        ensures s[i].value == s[j].value && s[i].size == s[j].size ==> s[i].info <= s[j].info
        ensures s[i].value == s[j].value && s[i].size == s[j].size && s[i].info == s[j].info ==> s[i].name <= s[j].name
      {
        assert !Less(s[j], s[i]);
      }
    }
  }

  /** The address lies in the stretch of symbol i. */
  predicate Covers(s: seq<Symbol>, i: int, address: nat) {
    0 <= i < |s| - 1 && s[i].value <= address < s[i + 1].value
  }

  ghost predicate Shared(s: seq<Symbol>, address: nat) {
    exists i, j :: 0 <= i < j < |s| && s[i].value == address && s[j].value == address
  }

  /** An address from the first value up to the last is covered by exactly one symbol. */
  lemma {:induction false} SomebodyCovers(s: seq<Symbol>, address: nat) returns (i: nat)
    requires Rising(s) && |s| > 0 && s[0].value <= address < s[|s| - 1].value
    ensures Covers(s, i, address)
    ensures forall j :: Covers(s, j, address) ==> j == i
  {
    i := 0;
    while s[i + 1].value <= address
      invariant i < |s| - 1 && s[i].value <= address
      decreases |s| - i
    {
      i := i + 1;
    }
  }

  /** What the search comes to, between two indices. */
  function Bisect(s: seq<Symbol>, address: nat, left: nat, right: nat): int
    requires left <= right < |s|
    decreases right - left
  {
    if left == right then -1
    else
      var middle := (left + right) / 2;
      if Covers(s, middle, address) then middle
      else if s[middle].value < address then Bisect(s, address, middle + 1, right)
      else Bisect(s, address, left, middle)
  }

  /** The symbols from p to q are those that have the address as their value, or q is the one that covers it. */
  ghost predicate Stretch(s: seq<Symbol>, address: nat, p: nat, q: nat) {
    && p <= q && Covers(s, q, address)
    && (forall k :: 0 <= k < p ==> s[k].value < address)
    && (forall k :: p <= k < q ==> s[k].value == address)
  }

  /** The first midpoint of a bisection that falls among the indices from p to q. */
  function FirstProbe(left: nat, right: nat, p: nat, q: nat): (m: nat)
    requires left <= p <= q < right
    ensures p <= m <= q
    decreases right - left
  {
    var middle := (left + right) / 2;
    if middle < p then FirstProbe(middle + 1, right, p, q)
    else if middle > q then FirstProbe(left, middle, p, q)
    else middle
  }

  /** An address from the first value up to the last has one such stretch. */
  lemma {:induction false} StretchExists(s: seq<Symbol>, address: nat) returns (p: nat, q: nat)
    requires Rising(s) && |s| > 0 && s[0].value <= address < s[|s| - 1].value
    ensures Stretch(s, address, p, q)
    ensures forall p': nat, q': nat :: Stretch(s, address, p', q') ==> p' == p && q' == q
  {
    q := SomebodyCovers(s, address);
    p := q;
    while p > 0 && s[p - 1].value == address
      invariant 0 <= p <= q && forall k :: p <= k < q ==> s[k].value == address
    {
      p := p - 1;
    }
    assert p > 0 ==> s[p - 1].value < address;
    forall p': nat, q': nat | Stretch(s, address, p', q') ensures p' == p && q' == q {
      NoEarlier(s, address, p, p', q);
      NoEarlier(s, address, p', p, q);
    }
  }

  lemma NoEarlier(s: seq<Symbol>, address: nat, p: nat, p': nat, q: nat)
    requires Stretch(s, address, p, q) && Stretch(s, address, p', q)
    ensures p <= p'
  {
    if p' < q {
      assert s[p'].value == address;
    }
  }

  /** Once a midpoint falls on a symbol of the stretch but its last, everything searched later is before the last. */
  lemma {:induction false} SearchedBefore(s: seq<Symbol>, address: nat, left: nat, right: nat, q: nat)
    requires Rising(s) && Covers(s, q, address) && left <= right <= q
    ensures Bisect(s, address, left, right) == -1
    decreases right - left
  {
    if left < right {
      var middle := (left + right) / 2;
      assert s[middle + 1].value <= s[q].value;
      SearchedBefore(s, address, middle + 1, right, q);
      SearchedBefore(s, address, left, middle, q);
    }
  }

  /** The search finds the covering symbol exactly when it is the first of its stretch that is looked at. */
  lemma {:induction false} FoundIff(s: seq<Symbol>, address: nat, left: nat, right: nat, p: nat, q: nat)
    requires Rising(s) && Stretch(s, address, p, q) && left <= p && q < right < |s|
    ensures Bisect(s, address, left, right) == if FirstProbe(left, right, p, q) == q then q else -1
    decreases right - left
  {
    var middle := (left + right) / 2;
    if middle < p {
      assert s[middle + 1].value <= s[p].value <= address;
      FoundIff(s, address, middle + 1, right, p, q);
    } else if middle > q {
      assert s[middle].value >= s[q + 1].value;
      FoundIff(s, address, left, middle, p, q);
    } else if middle < q {
      assert s[middle + 1].value <= s[q].value;
      SearchedBefore(s, address, left, middle, q);
    }
  }

  /** An address that is the value of one symbol at most is always found. */
  lemma UnsharedIsFound(s: seq<Symbol>, address: nat)
    requires Rising(s) && |s| > 0 && s[0].value <= address < s[|s| - 1].value && !Shared(s, address)
    ensures Covers(s, Bisect(s, address, 0, |s| - 1), address)
  {
    var p, q := StretchExists(s, address);
    FoundIff(s, address, 0, |s| - 1, p, q);
    SeveralShare(s, address, p, q);
  }

  lemma SeveralShare(s: seq<Symbol>, address: nat, p: nat, q: nat)
    requires Rising(s) && Stretch(s, address, p, q)
    ensures p < q ==> Shared(s, address)
  {
    assert p < q ==> s[p].value == address && s[p].value <= s[q].value;
  }

  const TWINS: seq<Symbol> := [Symbol(0, 0, 0, 1, 0), Symbol(0, 0, 0, 2, 0), Symbol(0, 0, 0, 3, 0), Symbol(1, 0, 0, 4, 0)]

  /** An address that is the value of several symbols can be missed, and it can be found. */
  lemma TwinsAreMissed()
    ensures Sorted(TWINS) && Stretch(TWINS, 0, 0, 2) && Bisect(TWINS, 0, 0, 3) == -1
    ensures Sorted(TWINS[1..]) && Stretch(TWINS[1..], 0, 0, 1) && Bisect(TWINS[1..], 0, 0, 2) == 1
  {
    FoundIff(TWINS, 0, 0, 3, 0, 2);
    FoundIff(TWINS[1..], 0, 0, 2, 0, 1);
  }

  /** The index of the symbol that covers an address; -1 when there is none, or when the search misses it. */
  method ElfGetSymbolAtAddress(s: seq<Symbol>, address: nat) returns (r: int)
    requires |s| > 0 && Rising(s)
    ensures r == if s[0].value <= address < s[|s| - 1].value then Bisect(s, address, 0, |s| - 1) else -1
    ensures r != -1 ==> Covers(s, r, address)
    ensures s[0].value <= address < s[|s| - 1].value ==>
      exists p: nat, q: nat :: Stretch(s, address, p, q) && (r != -1 <==> FirstProbe(0, |s| - 1, p, q) == q)
  {
    if s[|s| - 1].value <= address || address < s[0].value {
      return -1;
    }
    ghost var p, q := StretchExists(s, address);
    FoundIff(s, address, 0, |s| - 1, p, q);
    var left, right := 0, |s| - 1;
    while left < right
      invariant 0 <= left <= right <= |s| - 1
      invariant Bisect(s, address, 0, |s| - 1) == Bisect(s, address, left, right)
    {
      var middle := (left + right) / 2;
      if s[middle].value <= address && s[middle + 1].value > address {
        return middle;
      }
      if s[middle].value < address {
        left := middle + 1;
      } else {
        right := middle;
      }
    }
    return -1;
  }
}
