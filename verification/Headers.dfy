// The headers of the user heap as words in its memory, and how each list operation rewrites them.

module Headers {
  import opened Words
  import opened Blocks

  const USED_1: int := 0xDDEA_FB10
  const USED_2: int := 0x1996_0623
  const FREE_1: int := 0
  const FREE_2: int := 0x534F_534E

  // The fields of a header, in words.
  const MAGIC_1 := 0
  const NEXT := 1
  const PREV := 2
  const LENGTH := 3
  const MAGIC_2 := 4

  function Field(m: Memory, at: int, k: int): int32 { LoadInt(m, at + 4 * k) }

  function SetField(m: Memory, at: int, k: int, v: int): Memory { StoreInt(m, at + 4 * k, v) }

  /** Writing a field changes that field, no other field of any header, and no byte outside the field. */
  lemma SetFieldFrame(m: Memory, at: int, k: int, v: int)
    requires 0 <= k < 5
    ensures var r := SetField(m, at, k, v);
      && Field(r, at, k) == Wrap(v)
      && (forall j :: 0 <= j < 5 && j != k ==> Field(r, at, j) == Field(m, at, j))
      && (forall b, j :: 0 <= j < 5 && (b + HEADER <= at || at + HEADER <= b) ==> Field(r, b, j) == Field(m, b, j))
      && (forall a :: a < at || at + HEADER <= a ==> Read(r, a) == Read(m, a))
  {
    var r := SetField(m, at, k, v);
    LoadStore(m, at + 4 * k, v);
    forall b, j | 0 <= j < 5 && (b + HEADER <= at || at + HEADER <= b || (b == at && j != k))
      ensures Field(r, b, j) == Field(m, b, j)
    {
      LoadSame(m, r, b + 4 * j);
    }
    assert forall j :: 0 <= j < 5 && j != k ==> Field(r, at, j) == Field(m, at, j);
  }

  // ----- the list in memory -----

  function NextOf(bs: seq<Block>, i: int): int { if 0 <= i < |bs| - 1 then bs[i + 1].at else 0 }
  function PrevOf(bs: seq<Block>, i: int): int { if 0 < i < |bs| then bs[i - 1].at else 0 }

  ghost predicate Marked(m: Memory, at: int, free: bool) {
    && Field(m, at, MAGIC_1) == Wrap(if free then FREE_1 else USED_1)
    && Field(m, at, MAGIC_2) == Wrap(if free then FREE_2 else USED_2)
  }

  ghost predicate Links(m: Memory, at: int, next: int, prev: int, size: int) {
    Field(m, at, NEXT) == next && Field(m, at, PREV) == prev && Field(m, at, LENGTH) == size
  }

  /** The header of block i says what the list says. */
  ghost predicate HeaderAt(m: Memory, bs: seq<Block>, i: int) {
    0 <= i < |bs| ==>
      Marked(m, bs[i].at, bs[i].free) && Links(m, bs[i].at, NextOf(bs, i), PrevOf(bs, i), bs[i].size)
  }

  ghost predicate Represents(m: Memory, bs: seq<Block>) {
    forall i :: HeaderAt(m, bs, i)
  }

  /** The five words of a header in memory. */
  lemma HeaderWords(m: Memory, bs: seq<Block>, i: nat)
    requires Represents(m, bs) && i < |bs|
    ensures var at, free := bs[i].at, bs[i].free;
      && LoadInt(m, at) == Wrap(if free then 0 else 0xDDEA_FB10)
      && LoadInt(m, at + 4) == (if i + 1 < |bs| then bs[i + 1].at else 0)
      && LoadInt(m, at + 8) == (if i > 0 then bs[i - 1].at else 0)
      && LoadInt(m, at + 12) == bs[i].size
      && LoadInt(m, at + 16) == Wrap(if free then 0x534F_534E else 0x1996_0623)
  {
    hide LoadInt, Wrap;
    assert HeaderAt(m, bs, i);
  }

  /** The bytes of the live payloads are the same. */
  ghost predicate KeptLive(m: Memory, m': Memory, bs: seq<Block>) {
    forall b, a :: b in Live(bs) && Payload(b) <= a < End(b) ==> Read(m', a) == Read(m, a)
  }

  ghost predicate SameHeader(m: Memory, m': Memory, at: int) {
    forall j :: 0 <= j < 5 ==> Field(m', at, j) == Field(m, at, j)
  }

  /** Nothing was written in the twenty bytes at an address. */
  lemma SameBytesSameHeader(m: Memory, m': Memory, at: int)
    requires forall a :: at <= a < at + HEADER ==> Read(m', a) == Read(m, a)
    ensures SameHeader(m, m', at)
  {
    forall j | 0 <= j < 5 ensures Field(m', at, j) == Field(m, at, j) {
      LoadSame(m, m', at + 4 * j);
    }
  }

  /** Writing to payloads and to nothing leaves the list represented. */
  lemma RepresentsFrame(m: Memory, m': Memory, bs: seq<Block>)
    requires Represents(m, bs)
    requires forall i, a :: 0 <= i < |bs| && bs[i].at <= a < bs[i].at + HEADER ==> Read(m', a) == Read(m, a)
    ensures Represents(m', bs)
  {
    forall i ensures HeaderAt(m', bs, i) {
      assert HeaderAt(m, bs, i);
      if 0 <= i < |bs| {
        SameBytesSameHeader(m, m', bs[i].at);
      }
    }
  }

  /** A header of the list is outside every live payload. */
  lemma HeadersOutsideLive(bs: seq<Block>, i: nat, b: Block)
    requires Spaced(bs) && i < |bs| && b in Live(bs)
    ensures bs[i].at + HEADER <= Payload(b) || End(b) <= bs[i].at
  {
    var j :| 0 <= j < |bs| && bs[j] == b;
    Inside(bs, i);
    if i != j { Disjoint(bs, i, j); }
  }

  // ----- marking -----

  function Mark(m: Memory, at: int, free: bool): Memory {
    SetField(SetField(m, at, MAGIC_1, if free then FREE_1 else USED_1), at, MAGIC_2, if free then FREE_2 else USED_2)
  }

  lemma MarkFrame(m: Memory, at: int, free: bool)
    ensures var r := Mark(m, at, free);
      && Marked(r, at, free)
      && (forall n, p, s :: Links(m, at, n, p, s) ==> Links(r, at, n, p, s))
      && (forall b :: b + HEADER <= at || at + HEADER <= b ==> SameHeader(m, r, b))
      && (forall a :: a < at || at + HEADER <= a ==> Read(r, a) == Read(m, a))
  {
    hide Field, SetField, Read;
    var v, w := if free then FREE_1 else USED_1, if free then FREE_2 else USED_2;
    var n := SetField(m, at, MAGIC_1, v);
    SetFieldFrame(m, at, MAGIC_1, v);
    SetFieldFrame(n, at, MAGIC_2, w);
  }

  /** Marking block i in memory is taking or dropping it in the list. */
  lemma MarkRepresents(m: Memory, bs: seq<Block>, i: nat, free: bool)
    requires Spaced(bs) && Represents(m, bs) && i < |bs|
    ensures Represents(Mark(m, bs[i].at, free), bs[i := bs[i].(free := free)])
  {
    hide Field, Mark, Spaced;
    var r := Mark(m, bs[i].at, free);
    var c := bs[i := bs[i].(free := free)];
    MarkFrame(m, bs[i].at, free);
    forall j ensures HeaderAt(r, c, j) {
      assert HeaderAt(m, bs, j);
      if 0 <= j < |bs| && j != i {
        Inside(bs, i);
        Inside(bs, j);
        Disjoint(bs, i, j);
        assert SameHeader(m, r, bs[j].at);
      }
    }
  }

  // ----- splitting -----

  /** An address that is not in the header at another one. */
  ghost predicate Outside(a: int, h: int) { a < h || h + HEADER <= a }

  /** Two headers that do not overlap. */
  ghost predicate Apart(a: int, b: int) { a + HEADER <= b || b + HEADER <= a }

  /** The writes that cut a free header at n off the block at h, in the order of the program. */
  function SplitMemory(m: Memory, h: int, n: int, sz: int): Memory {
    var m1 := Mark(m, n, true);
    var m2 := SetField(m1, n, LENGTH, Field(m1, h, LENGTH) - HEADER - sz);
    var m3 := SetField(m2, h, LENGTH, sz);
    var m4 := SetField(m3, n, NEXT, Field(m3, h, NEXT));
    var x := Field(m4, h, NEXT);
    var m5 := if x != 0 then SetField(m4, x, PREV, n) else m4;
    SetField(SetField(m5, n, PREV, h), h, NEXT, n)
  }

  /** What the fields are afterwards: those of the two halves, of the following header, and of all others. */
  lemma SplitFields(m: Memory, h: int, n: int, sz: int)
    requires Apart(h, n) && (Field(m, h, NEXT) != 0 ==> Apart(h, Field(m, h, NEXT)) && Apart(n, Field(m, h, NEXT)))
    requires 0 <= sz <= Field(m, h, LENGTH) - HEADER && 0 <= h < LIMIT && 0 <= n < LIMIT
    ensures var r := SplitMemory(m, h, n, sz); var x := Field(m, h, NEXT);
      && (forall f :: Marked(m, h, f) ==> Marked(r, h, f)) && Links(r, h, n, Field(m, h, PREV), sz)
      && Marked(r, n, true) && Links(r, n, x, h, Field(m, h, LENGTH) - HEADER - sz)
      && (x != 0 ==> Links(r, x, Field(m, x, NEXT), n, Field(m, x, LENGTH)))
      && (x != 0 ==> forall f :: Marked(m, x, f) ==> Marked(r, x, f))
      && (forall b :: Apart(b, h) && Apart(b, n) && (x != 0 ==> Apart(b, x)) ==> SameHeader(m, r, b))
      && (forall a :: Outside(a, h) && Outside(a, n) && (x != 0 ==> Outside(a, x)) ==> Read(r, a) == Read(m, a))
  {
    hide Field, SetField, Read, Mark;
    var m1 := Mark(m, n, true);
    MarkFrame(m, n, true);
    assert SameHeader(m, m1, h);
    var s := Field(m1, h, LENGTH) - HEADER - sz;
    var m2 := SetField(m1, n, LENGTH, s);
    SetFieldFrame(m1, n, LENGTH, s);
    var m3 := SetField(m2, h, LENGTH, sz);
    SetFieldFrame(m2, h, LENGTH, sz);
    var x := Field(m3, h, NEXT);
    assert x == Field(m, h, NEXT);
    var m4 := SetField(m3, n, NEXT, x);
    SetFieldFrame(m3, n, NEXT, x);
    var m5 := if x != 0 then SetField(m4, x, PREV, n) else m4;
    if x != 0 { SetFieldFrame(m4, x, PREV, n); assert SameHeader(m, m1, x); }
    var m6 := SetField(m5, n, PREV, h);
    SetFieldFrame(m5, n, PREV, h);
    SetFieldFrame(m6, h, NEXT, n);
    forall b | Apart(b, h) && Apart(b, n) && (x != 0 ==> Apart(b, x))
      ensures SameHeader(m, SplitMemory(m, h, n, sz), b)
    {
      assert SameHeader(m, m1, b);
    }
  }

  /** A header that was not written still says the same. */
  lemma SameHeaderUses(m: Memory, m': Memory, at: int, free: bool, next: int, prev: int, size: int)
    requires SameHeader(m, m', at) && Marked(m, at, free) && Links(m, at, next, prev, size)
    ensures Marked(m', at, free) && Links(m', at, next, prev, size)
  {
    hide Field;
  }

  /** Splitting block i in memory is splitting it in the list. */
  lemma SplitRepresents(m: Memory, bs: seq<Block>, i: nat, sz: nat)
    requires Spaced(bs) && Represents(m, bs) && i < |bs| && bs[i].free && Splits(bs[i], sz) && sz % 4 == 0
    ensures Represents(SplitMemory(m, bs[i].at, bs[i].at + HEADER + sz, sz), Split(bs, i, sz))
  {
    hide Field, SetField, Read, Mark, SplitMemory, Spaced, Marked, Links, SameHeader;
    var h, n := bs[i].at, bs[i].at + HEADER + sz;
    var r := SplitMemory(m, h, n, sz);
    var c := Split(bs, i, sz);
    SplitApart(m, bs, i, sz);
    SplitFields(m, h, n, sz);
    assert HeaderAt(m, bs, i) && HeaderAt(m, bs, i + 1);
    SplitHere(m, bs, i, sz);
    forall j ensures HeaderAt(r, c, j) {
      if 0 <= j < i {
        SplitOther(m, bs, i, sz, j);
      } else if i + 2 < j < |c| {
        SplitOther(m, bs, i, sz, j - 1);
      }
    }
  }

  /** The three headers that a split writes are disjoint. */
  lemma SplitApart(m: Memory, bs: seq<Block>, i: nat, sz: nat)
    requires Spaced(bs) && Represents(m, bs) && i < |bs| && Splits(bs[i], sz)
    ensures var h, n := bs[i].at, bs[i].at + HEADER + sz;
      && 0 < h < n < LIMIT && Apart(h, n) && Field(m, h, LENGTH) == bs[i].size
      && Field(m, h, NEXT) == NextOf(bs, i)
      && (NextOf(bs, i) != 0 ==> Apart(h, NextOf(bs, i)) && Apart(n, NextOf(bs, i)))
  {
    hide Field, Spaced;
    assert HeaderAt(m, bs, i);
    Inside(bs, i);
    if i + 1 < |bs| { Ordered(bs, i, i + 1); }
  }

  lemma SplitHere(m: Memory, bs: seq<Block>, i: nat, sz: nat)
    requires Spaced(bs) && Represents(m, bs) && i < |bs| && bs[i].free && Splits(bs[i], sz)
    ensures var r := SplitMemory(m, bs[i].at, bs[i].at + HEADER + sz, sz); var c := Split(bs, i, sz);
      HeaderAt(r, c, i) && HeaderAt(r, c, i + 1) && HeaderAt(r, c, i + 2)
  {
    hide Field, SetField, Read, Mark, SplitMemory, Spaced, Marked;
    SplitApart(m, bs, i, sz);
    SplitFields(m, bs[i].at, bs[i].at + HEADER + sz, sz);
    assert HeaderAt(m, bs, i) && HeaderAt(m, bs, i + 1);
    if i + 1 < |bs| { Inside(bs, i + 1); }
  }

  lemma SplitOther(m: Memory, bs: seq<Block>, i: nat, sz: nat, j: nat)
    requires Spaced(bs) && Represents(m, bs) && i < |bs| && bs[i].free && Splits(bs[i], sz)
    requires j < |bs| && j != i && j != i + 1
    ensures var r := SplitMemory(m, bs[i].at, bs[i].at + HEADER + sz, sz); var c := Split(bs, i, sz);
      HeaderAt(r, c, if j < i then j else j + 1)
  {
    hide Field, SetField, Read, Mark, SplitMemory, Spaced, Marked, Links, SameHeader;
    SplitApart(m, bs, i, sz);
    SplitFields(m, bs[i].at, bs[i].at + HEADER + sz, sz);
    assert HeaderAt(m, bs, j);
    Inside(bs, j);
    Inside(bs, i);
    Disjoint(bs, i, j);
    if i + 1 < |bs| { Inside(bs, i + 1); Disjoint(bs, i + 1, j); }
    var r := SplitMemory(m, bs[i].at, bs[i].at + HEADER + sz, sz);
    assert SameHeader(m, r, bs[j].at);
    SameHeaderUses(m, r, bs[j].at, bs[j].free, NextOf(bs, j), PrevOf(bs, j), bs[j].size);
  }

  /** Splitting writes to no live payload. */
  lemma SplitKeepsLive(m: Memory, bs: seq<Block>, i: nat, sz: nat)
    requires Spaced(bs) && Represents(m, bs) && i < |bs| && bs[i].free && Splits(bs[i], sz)
    ensures KeptLive(m, SplitMemory(m, bs[i].at, bs[i].at + HEADER + sz, sz), bs)
  {
    hide Field, SetField, Read, Mark, SplitMemory, Spaced, Marked, Links, SameHeader;
    SplitApart(m, bs, i, sz);
    SplitFields(m, bs[i].at, bs[i].at + HEADER + sz, sz);
    var r := SplitMemory(m, bs[i].at, bs[i].at + HEADER + sz, sz);
    forall b, a | b in Live(bs) && Payload(b) <= a < End(b) ensures Read(r, a) == Read(m, a) {
      var j :| 0 <= j < |bs| && bs[j] == b;
      Disjoint(bs, i, j);
      Inside(bs, i);
      if i + 1 < |bs| { HeadersOutsideLive(bs, i + 1, b); }
    }
  }

  // ----- extending -----

  /** The writes that put a used header at n after the last one, at l, in the order of the program. */
  function ExtendMemory(m: Memory, l: int, n: int, sz: int): Memory {
    SetField(SetField(SetField(SetField(Mark(m, n, false), n, PREV, l), n, NEXT, 0), l, NEXT, n), n, LENGTH, sz)
  }

  lemma ExtendFields(m: Memory, l: int, n: int, sz: int)
    requires Apart(l, n) && 0 <= l < LIMIT && 0 <= n < LIMIT && 0 <= sz < LIMIT
    ensures var r := ExtendMemory(m, l, n, sz);
      && (forall f :: Marked(m, l, f) ==> Marked(r, l, f)) && Links(r, l, n, Field(m, l, PREV), Field(m, l, LENGTH))
      && Marked(r, n, false) && Links(r, n, 0, l, sz)
      && (forall b :: Apart(b, l) && Apart(b, n) ==> SameHeader(m, r, b))
      && (forall a :: Outside(a, l) && Outside(a, n) ==> Read(r, a) == Read(m, a))
  {
    hide Field, SetField, Read, Mark;
    var m1 := Mark(m, n, false);
    MarkFrame(m, n, false);
    assert SameHeader(m, m1, l);
    var m2 := SetField(m1, n, PREV, l);
    SetFieldFrame(m1, n, PREV, l);
    var m3 := SetField(m2, n, NEXT, 0);
    SetFieldFrame(m2, n, NEXT, 0);
    var m4 := SetField(m3, l, NEXT, n);
    SetFieldFrame(m3, l, NEXT, n);
    SetFieldFrame(m4, n, LENGTH, sz);
    forall b | Apart(b, l) && Apart(b, n) ensures SameHeader(m, ExtendMemory(m, l, n, sz), b) {
      assert SameHeader(m, m1, b);
    }
  }

  /** Extending in memory is extending the list, and writes to no live payload. */
  lemma ExtendRepresents(m: Memory, bs: seq<Block>, sz: nat)
    requires bs != [] && Spaced(bs) && Represents(m, bs) && Tip(bs) + sz < LIMIT
    ensures var r := ExtendMemory(m, bs[|bs| - 1].at, Tip(bs), sz);
      Represents(r, Extended(bs, sz)) && KeptLive(m, r, bs)
  {
    hide Field, SetField, Read, Mark, ExtendMemory, Spaced, Marked, Links, SameHeader;
    var l, n := bs[|bs| - 1].at, Tip(bs);
    var r, c := ExtendMemory(m, l, n, sz), Extended(bs, sz);
    Inside(bs, |bs| - 1);
    ExtendFields(m, l, n, sz);
    assert HeaderAt(m, bs, |bs| - 1);
    ExtendHere(m, bs, sz);
    forall j ensures HeaderAt(r, c, j) {
      if 0 <= j < |bs| - 1 { ExtendOther(m, bs, sz, j); }
    }
    forall b, a | b in Live(bs) && Payload(b) <= a < End(b) ensures Read(r, a) == Read(m, a) {
      HeadersOutsideLive(bs, |bs| - 1, b);
      var j :| 0 <= j < |bs| && bs[j] == b;
      if j < |bs| - 1 { Ordered(bs, j, |bs| - 1); }
    }
  }

  lemma ExtendHere(m: Memory, bs: seq<Block>, sz: nat)
    requires bs != [] && Spaced(bs) && Represents(m, bs) && Tip(bs) + sz < LIMIT
    ensures var r, c := ExtendMemory(m, bs[|bs| - 1].at, Tip(bs), sz), Extended(bs, sz);
      HeaderAt(r, c, |bs| - 1) && HeaderAt(r, c, |bs|)
  {
    hide Field, SetField, Read, Mark, ExtendMemory, Spaced, Marked;
    Inside(bs, |bs| - 1);
    ExtendFields(m, bs[|bs| - 1].at, Tip(bs), sz);
    assert HeaderAt(m, bs, |bs| - 1);
  }

  lemma ExtendOther(m: Memory, bs: seq<Block>, sz: nat, j: nat)
    requires bs != [] && Spaced(bs) && Represents(m, bs) && Tip(bs) + sz < LIMIT && j < |bs| - 1
    ensures HeaderAt(ExtendMemory(m, bs[|bs| - 1].at, Tip(bs), sz), Extended(bs, sz), j)
  {
    hide Field, SetField, Read, Mark, ExtendMemory, Spaced, Marked, Links, SameHeader;
    Inside(bs, |bs| - 1);
    Inside(bs, j);
    Ordered(bs, j, |bs| - 1);
    ExtendFields(m, bs[|bs| - 1].at, Tip(bs), sz);
    assert HeaderAt(m, bs, j);
    var r := ExtendMemory(m, bs[|bs| - 1].at, Tip(bs), sz);
    assert SameHeader(m, r, bs[j].at);
    SameHeaderUses(m, r, bs[j].at, bs[j].free, NextOf(bs, j), PrevOf(bs, j), bs[j].size);
  }

  // ----- joining -----

  /** The writes that merge the header at x, the one after the header at h, into the latter. */
  function JoinMemory(m: Memory, h: int, x: int): Memory {
    var m1 := SetField(m, h, LENGTH, Field(m, h, LENGTH) + Field(m, x, LENGTH) + HEADER);
    var m2 := SetField(m1, h, NEXT, Field(m1, x, NEXT));
    var y := Field(m2, x, NEXT);
    var m3 := if y != 0 then SetField(m2, y, PREV, h) else m2;
    SetField(SetField(m3, x, MAGIC_1, 0), x, MAGIC_2, 0)
  }

  lemma JoinFields(m: Memory, h: int, x: int)
    requires Apart(h, x) && (Field(m, x, NEXT) != 0 ==> Apart(h, Field(m, x, NEXT)) && Apart(x, Field(m, x, NEXT)))
    requires 0 <= Field(m, h, LENGTH) + Field(m, x, LENGTH) + HEADER < 0x8000_0000 && 0 <= h < LIMIT
    ensures var r := JoinMemory(m, h, x); var y := Field(m, x, NEXT);
      && (forall f :: Marked(m, h, f) ==> Marked(r, h, f))
      && Links(r, h, y, Field(m, h, PREV), Field(m, h, LENGTH) + Field(m, x, LENGTH) + HEADER)
      && (y != 0 ==> Links(r, y, Field(m, y, NEXT), h, Field(m, y, LENGTH)))
      && (y != 0 ==> forall f :: Marked(m, y, f) ==> Marked(r, y, f))
      && (forall b :: Apart(b, h) && Apart(b, x) && (y != 0 ==> Apart(b, y)) ==> SameHeader(m, r, b))
      && (forall a :: Outside(a, h) && Outside(a, x) && (y != 0 ==> Outside(a, y)) ==> Read(r, a) == Read(m, a))
  {
    hide Field, SetField, Read;
    var s := Field(m, h, LENGTH) + Field(m, x, LENGTH) + HEADER;
    var m1 := SetField(m, h, LENGTH, s);
    SetFieldFrame(m, h, LENGTH, s);
    var y := Field(m1, x, NEXT);
    var m2 := SetField(m1, h, NEXT, y);
    SetFieldFrame(m1, h, NEXT, y);
    var m3 := if y != 0 then SetField(m2, y, PREV, h) else m2;
    if y != 0 { SetFieldFrame(m2, y, PREV, h); }
    var m4 := SetField(m3, x, MAGIC_1, 0);
    SetFieldFrame(m3, x, MAGIC_1, 0);
    SetFieldFrame(m4, x, MAGIC_2, 0);
  }

  lemma JoinApart(m: Memory, bs: seq<Block>, i: nat)
    requires Spaced(bs) && Represents(m, bs) && i + 1 < |bs|
    ensures var h, x, y := bs[i].at, bs[i + 1].at, NextOf(bs, i + 1);
      && 0 < h < LIMIT && Apart(h, x) && Field(m, h, LENGTH) == bs[i].size && Field(m, x, LENGTH) == bs[i + 1].size
      && Field(m, x, NEXT) == y && 0 <= bs[i].size + bs[i + 1].size + HEADER < 0x8000_0000
      && (y != 0 ==> Apart(h, y) && Apart(x, y))
  {
    hide Field, Spaced;
    assert HeaderAt(m, bs, i) && HeaderAt(m, bs, i + 1);
    Inside(bs, i);
    Inside(bs, i + 1);
    Ordered(bs, i, i + 1);
    if i + 2 < |bs| { Ordered(bs, i, i + 2); Ordered(bs, i + 1, i + 2); }
  }

  /** Joining in memory is joining in the list. */
  lemma JoinRepresents(m: Memory, bs: seq<Block>, i: nat)
    requires Spaced(bs) && Represents(m, bs) && i + 1 < |bs|
    ensures Represents(JoinMemory(m, bs[i].at, bs[i + 1].at), Join(bs, i))
  {
    hide Field, SetField, Read, JoinMemory, Spaced, Marked, Links, SameHeader;
    var r := JoinMemory(m, bs[i].at, bs[i + 1].at);
    JoinHere(m, bs, i);
    forall j ensures HeaderAt(r, Join(bs, i), j) {
      if 0 <= j < i {
        JoinOther(m, bs, i, j);
      } else if i + 1 < j < |bs| - 1 {
        JoinOther(m, bs, i, j + 1);
      }
    }
  }

  lemma JoinHere(m: Memory, bs: seq<Block>, i: nat)
    requires Spaced(bs) && Represents(m, bs) && i + 1 < |bs|
    ensures var r := JoinMemory(m, bs[i].at, bs[i + 1].at);
      HeaderAt(r, Join(bs, i), i) && HeaderAt(r, Join(bs, i), i + 1)
  {
    hide Field, SetField, Read, JoinMemory, Spaced, Marked;
    JoinApart(m, bs, i);
    JoinFields(m, bs[i].at, bs[i + 1].at);
    assert HeaderAt(m, bs, i) && HeaderAt(m, bs, i + 1) && HeaderAt(m, bs, i + 2);
    if i + 2 < |bs| { Inside(bs, i + 2); }
  }

  lemma JoinOther(m: Memory, bs: seq<Block>, i: nat, j: nat)
    requires Spaced(bs) && Represents(m, bs) && i + 1 < |bs| && j < |bs| && (j < i || j > i + 2)
    ensures HeaderAt(JoinMemory(m, bs[i].at, bs[i + 1].at), Join(bs, i), if j < i then j else j - 1)
  {
    hide Field, SetField, Read, JoinMemory, Spaced, Marked, Links, SameHeader;
    JoinApart(m, bs, i);
    JoinFields(m, bs[i].at, bs[i + 1].at);
    assert HeaderAt(m, bs, j);
    Inside(bs, j);
    Inside(bs, i);
    Inside(bs, i + 1);
    Disjoint(bs, i, j);
    Disjoint(bs, i + 1, j);
    if i + 2 < |bs| { Inside(bs, i + 2); Disjoint(bs, i + 2, j); }
    var r := JoinMemory(m, bs[i].at, bs[i + 1].at);
    assert SameHeader(m, r, bs[j].at);
    SameHeaderUses(m, r, bs[j].at, bs[j].free, NextOf(bs, j), PrevOf(bs, j), bs[j].size);
  }

  lemma JoinKeepsPayloads(m: Memory, bs: seq<Block>, i: nat)
    requires Spaced(bs) && Represents(m, bs) && i + 1 < |bs|
    ensures KeptLive(m, JoinMemory(m, bs[i].at, bs[i + 1].at), bs)
  {
    hide Field, SetField, Read, JoinMemory, Spaced, Marked, Links, SameHeader;
    JoinApart(m, bs, i);
    JoinFields(m, bs[i].at, bs[i + 1].at);
    var r := JoinMemory(m, bs[i].at, bs[i + 1].at);
    forall b, a | b in Live(bs) && Payload(b) <= a < End(b) ensures Read(r, a) == Read(m, a) {
      HeadersOutsideLive(bs, i, b);
      HeadersOutsideLive(bs, i + 1, b);
      if i + 2 < |bs| { HeadersOutsideLive(bs, i + 2, b); }
    }
  }

  lemma MarkKeepsPayloads(m: Memory, bs: seq<Block>, i: nat, free: bool)
    requires Spaced(bs) && i < |bs|
    ensures KeptLive(m, Mark(m, bs[i].at, free), bs)
  {
    hide Field, Mark, Spaced, Read;
    MarkFrame(m, bs[i].at, free);
    var r := Mark(m, bs[i].at, free);
    forall b, a | b in Live(bs) && Payload(b) <= a < End(b) ensures Read(r, a) == Read(m, a) {
      HeadersOutsideLive(bs, i, b);
    }
  }
}
