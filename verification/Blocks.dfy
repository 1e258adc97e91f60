// The user heap as a list of blocks in address order, and what allocation and release do to the list.

module Blocks {
  import opened Words

  const BASE := 0x4000_0000
  const SIZE := 0x4000_0000
  const LIMIT := BASE + SIZE
  const HEADER := 20
  const TOLERANCE := 32

  datatype Block = Block(at: int, size: int, free: bool)

  /** The first address after the block. */
  function End(b: Block): int { b.at + HEADER + b.size }

  /** The payload starts after the header. */
  function Payload(b: Block): int { b.at + HEADER }

  /** Sizes are rounded up to four bytes, in 32-bit arithmetic. */
  function Pad(sz: nat): (r: nat) {
    (sz + 3) % TWO32 / 4 * 4
  }

  /** Rounding up reaches the request, except for the three largest ones, which become zero. */
  lemma PadUp(sz: nat)
    requires sz < TWO32
    ensures Pad(sz) % 4 == 0
    ensures if sz <= TWO32 - 4 then sz <= Pad(sz) < sz + 4 else Pad(sz) == 0
  {
  }

  // ----- the shape of the list -----

  ghost predicate Aligned(b: Block) { b.size >= 0 && b.at % 4 == 0 }

  /** Block i + 1 starts at or after the end of block i. */
  ghost predicate AfterAt(bs: seq<Block>, i: int) { 0 <= i < |bs| - 1 ==> End(bs[i]) <= bs[i + 1].at }

  /** Block i + 1 starts exactly where block i ends. */
  ghost predicate MeetsAt(bs: seq<Block>, i: int) { 0 <= i < |bs| - 1 ==> End(bs[i]) == bs[i + 1].at }

  /** Block i and block i + 1 are not both free. */
  ghost predicate ApartAt(bs: seq<Block>, i: int) { 0 <= i < |bs| - 1 ==> !(bs[i].free && bs[i + 1].free) }

  /** The blocks lie in the arena in address order and do not overlap. */
  ghost predicate Spaced(bs: seq<Block>) {
    && |bs| > 0 && bs[0].at == BASE && End(bs[|bs| - 1]) <= LIMIT
    && (forall i :: 0 <= i < |bs| ==> Aligned(bs[i]))
    && (forall i :: AfterAt(bs, i))
  }

  /** Nothing of the arena is outside the blocks. */
  ghost predicate Tiled(bs: seq<Block>) {
    && Spaced(bs) && End(bs[|bs| - 1]) == LIMIT
    && (forall i :: MeetsAt(bs, i))
  }

  /** No two neighbours are both free. */
  ghost predicate Coalesced(bs: seq<Block>) {
    forall i :: ApartAt(bs, i)
  }

  const INITIAL: seq<Block> := [Block(BASE, SIZE - HEADER, true)]

  lemma {:induction false} Ordered(bs: seq<Block>, i: nat, j: nat)
    requires Spaced(bs) && i < j < |bs|
    ensures End(bs[i]) <= bs[j].at
    decreases j
  {
    assert AfterAt(bs, j - 1);
    if i + 1 < j {
      Ordered(bs, i, j - 1);
      assert Aligned(bs[j - 1]);
    }
  }

  /** Every block lies in the arena. */
  lemma Inside(bs: seq<Block>, i: nat)
    requires Spaced(bs) && i < |bs|
    ensures BASE <= bs[i].at && bs[i].size >= 0 && End(bs[i]) <= LIMIT
  {
    assert Aligned(bs[i]) && Aligned(bs[0]) && Aligned(bs[|bs| - 1]);
    if i > 0 { Ordered(bs, 0, i); }
    if i < |bs| - 1 { Ordered(bs, i, |bs| - 1); }
  }

  /** Different blocks, headers included, share no address. */
  lemma Disjoint(bs: seq<Block>, i: nat, j: nat)
    requires Spaced(bs) && i < |bs| && j < |bs| && i != j
    ensures End(bs[i]) <= bs[j].at || End(bs[j]) <= bs[i].at
    ensures bs[i].at != bs[j].at
  {
    Inside(bs, i);
    Inside(bs, j);
    if i < j { Ordered(bs, i, j); } else { Ordered(bs, j, i); }
  }

  lemma NotBothFree(bs: seq<Block>, i: nat)
    requires Coalesced(bs) && i + 1 < |bs|
    ensures !(bs[i].free && bs[i + 1].free)
  {
    assert ApartAt(bs, i);
  }

  /** In a tiled arena a block reaches up to the next one, or to the end. */
  lemma ReachesNext(bs: seq<Block>, i: nat)
    requires Tiled(bs) && i < |bs|
    ensures End(bs[i]) == if i + 1 < |bs| then bs[i + 1].at else LIMIT
  {
    assert MeetsAt(bs, i);
  }

  /** Once everything is free again the arena is one block. */
  lemma AllFreeIsInitial(bs: seq<Block>)
    requires Tiled(bs) && Coalesced(bs) && forall i :: 0 <= i < |bs| ==> bs[i].free
    ensures bs == INITIAL
  {
    if |bs| > 1 {
      NotBothFree(bs, 0);
    }
  }

  // ----- first fit -----

  predicate Fits(b: Block, sz: nat) { b.free && b.size >= sz }

  /** The index of the lowest free block that is large enough, from index i on; the length when there is none. */
  function FirstFit(bs: seq<Block>, sz: nat, i: nat): (k: nat)
    requires i <= |bs|
    ensures i <= k <= |bs| && (k < |bs| ==> Fits(bs[k], sz))
    ensures forall j :: i <= j < k ==> !Fits(bs[j], sz)
    decreases |bs| - i
  {
    if i == |bs| || Fits(bs[i], sz) then i else FirstFit(bs, sz, i + 1)
  }

  // ----- the end of the list -----

  /** The first address after the last block. */
  function Tip(bs: seq<Block>): int
    requires bs != []
  {
    End(bs[|bs| - 1])
  }

  /** When nothing fits, the new block is put after the last one if its end looks lower than the limit. */
  predicate Expands(bs: seq<Block>, sz: nat) {
    bs != [] && FirstFit(bs, sz, 0) == |bs| && (Tip(bs) + sz) % TWO32 < LIMIT
  }

  /** The list with a live block after the last one. */
  function Extended(bs: seq<Block>, sz: nat): seq<Block>
    requires bs != []
  {
    bs + [Block(Tip(bs), sz, false)]
  }

  /** A block after the last one would be aligned and wholly in the arena. */
  predicate Placeable(bs: seq<Block>, sz: nat)
    requires bs != []
  {
    Tip(bs) % 4 == 0 && Tip(bs) + HEADER + sz <= LIMIT
  }

  /** Whether a request is given a block, and where the block is put. */
  predicate Served(bs: seq<Block>, sz: nat) {
    FirstFit(bs, sz, 0) < |bs| || Expands(bs, sz)
  }

  function Site(bs: seq<Block>, sz: nat): int
    requires bs != []
  {
    var i := FirstFit(bs, sz, 0);
    if i < |bs| then bs[i].at else Tip(bs)
  }

  /** The index of the block with its header at a given address, from index i on; the length when there is none. */
  function IndexOf(bs: seq<Block>, at: int, i: nat): (k: nat)
    requires i <= |bs|
    ensures i <= k <= |bs| && (k < |bs| ==> bs[k].at == at)
    ensures forall j :: i <= j < k ==> bs[j].at != at
    decreases |bs| - i
  {
    if i == |bs| || bs[i].at == at then i else IndexOf(bs, at, i + 1)
  }

  /** Whether a block is split for a request of sz bytes. */
  predicate Splits(b: Block, sz: nat) { b.size >= sz + HEADER + TOLERANCE }

  /** Cuts block i so that it holds sz bytes; the rest becomes a free block. */
  function Split(bs: seq<Block>, i: nat, sz: nat): seq<Block>
    requires i < |bs|
  {
    var b := bs[i];
    bs[..i] + [b.(size := sz), Block(b.at + HEADER + sz, b.size - HEADER - sz, true)] + bs[i + 1..]
  }

  function Take(bs: seq<Block>, i: nat): seq<Block>
    requires i < |bs|
  {
    bs[i := bs[i].(free := false)]
  }

  /** Allocates sz bytes in block i, leaving the rest as a free block when it is worth it. */
  function Carve(bs: seq<Block>, i: nat, sz: nat): seq<Block>
    requires i < |bs|
  {
    if Splits(bs[i], sz) then Take(Split(bs, i, sz), i) else Take(bs, i)
  }

  /** Joins block i with the one after it. */
  function Join(bs: seq<Block>, i: nat): seq<Block>
    requires i + 1 < |bs|
  {
    bs[..i] + [bs[i].(size := bs[i].size + bs[i + 1].size + HEADER)] + bs[i + 2..]
  }

  function JoinNext(bs: seq<Block>, i: nat): seq<Block>
    requires i < |bs|
  {
    if i + 1 < |bs| && bs[i + 1].free then Join(bs, i) else bs
  }

  function JoinPrev(bs: seq<Block>, i: nat): seq<Block>
    requires i < |bs|
  {
    if i > 0 && bs[i - 1].free then Join(bs, i - 1) else bs
  }

  function Drop(bs: seq<Block>, i: nat): seq<Block>
    requires i < |bs|
  {
    bs[i := bs[i].(free := true)]
  }

  /** Frees block i and joins it with free neighbours, the next one first. */
  function Release(bs: seq<Block>, i: nat): seq<Block>
    requires i < |bs|
  {
    JoinPrev(JoinNext(Drop(bs, i), i), i)
  }

  /** Gives block i a smaller size, leaving a gap behind it. */
  function Shrink(bs: seq<Block>, i: nat, sz: nat): seq<Block>
    requires i < |bs|
  {
    bs[i := bs[i].(size := sz)]
  }

  // ----- what the operations keep -----

  lemma SplitSpaces(bs: seq<Block>, i: nat, sz: nat)
    requires Spaced(bs) && i < |bs| && Splits(bs[i], sz) && sz % 4 == 0
    ensures Spaced(Split(bs, i, sz))
    ensures Tiled(bs) ==> Tiled(Split(bs, i, sz))
  {
    var r := Split(bs, i, sz);
    assert Aligned(bs[i]) && AfterAt(bs, i);
    forall j | 0 <= j < |r| ensures Aligned(r[j]) {
      assert j < i ==> r[j] == bs[j];
      assert j > i + 1 ==> r[j] == bs[j - 1];
    }
    forall j ensures AfterAt(r, j) && (Tiled(bs) ==> MeetsAt(r, j)) {
      assert AfterAt(bs, j) && AfterAt(bs, j - 1);
      assert Tiled(bs) ==> MeetsAt(bs, j) && MeetsAt(bs, j - 1) && MeetsAt(bs, i);
    }
  }

  lemma TakeSpaces(bs: seq<Block>, i: nat)
    requires Spaced(bs) && i < |bs|
    ensures Spaced(Take(bs, i)) && Spaced(Drop(bs, i))
    ensures Tiled(bs) ==> Tiled(Take(bs, i)) && Tiled(Drop(bs, i))
    ensures Coalesced(bs) ==> Coalesced(Take(bs, i)) && CoalescedBut(Drop(bs, i), i)
  {
    assert Aligned(bs[i]);
    forall j ensures AfterAt(Take(bs, i), j) && AfterAt(Drop(bs, i), j) {
      assert AfterAt(bs, j);
    }
    forall j | Tiled(bs) ensures MeetsAt(Take(bs, i), j) && MeetsAt(Drop(bs, i), j) {
      assert MeetsAt(bs, j);
    }
    forall j | Coalesced(bs)
      ensures ApartAt(Take(bs, i), j) && (j != i && j + 1 != i ==> ApartAt(Drop(bs, i), j))
    {
      assert ApartAt(bs, j);
    }
  }

  /** Extending the list keeps its order exactly when the new block is aligned and in the arena. */
  lemma ExtendKeepsIff(bs: seq<Block>, sz: nat)
    requires Spaced(bs) && Coalesced(bs)
    ensures Spaced(Extended(bs, sz)) <==> Placeable(bs, sz)
    ensures Coalesced(Extended(bs, sz))
  {
    var r, n := Extended(bs, sz), |bs|;
    forall j ensures AfterAt(r, j) && ApartAt(r, j) {
      assert AfterAt(bs, j) && ApartAt(bs, j);
    }
    assert Aligned(r[n]) <==> Tip(bs) % 4 == 0;
    forall j | 0 <= j < n ensures Aligned(r[j]) {
      assert Aligned(bs[j]);
    }
  }

  /** The list is extended for a request that stays below the limit, and for one whose sum wraps around. */
  lemma ExpandsIff(bs: seq<Block>, sz: nat)
    requires Spaced(bs) && sz < TWO32
    ensures Expands(bs, sz) <==> FirstFit(bs, sz, 0) == |bs| && (Tip(bs) + sz < LIMIT || Tip(bs) + sz >= TWO32)
  {
    Inside(bs, |bs| - 1);
  }

  /** Allocation keeps the list in order, keeps the tiling, and leaves no two free neighbours. */
  lemma CarveKeeps(bs: seq<Block>, i: nat, sz: nat)
    requires Spaced(bs) && Coalesced(bs) && i < |bs| && Fits(bs[i], sz) && sz % 4 == 0
    ensures Spaced(Carve(bs, i, sz)) && Coalesced(Carve(bs, i, sz))
    ensures Tiled(bs) ==> Tiled(Carve(bs, i, sz))
  {
    if Splits(bs[i], sz) {
      SplitSpaces(bs, i, sz);
      TakeSpaces(Split(bs, i, sz), i);
      var r := Carve(bs, i, sz);
      forall j ensures ApartAt(r, j) {
        assert ApartAt(bs, j) && ApartAt(bs, j - 1) && ApartAt(bs, i);
      }
    } else {
      TakeSpaces(bs, i);
    }
  }

  /** Joining keeps the order, and the tiling when there is one. */
  lemma JoinSpaces(bs: seq<Block>, i: nat)
    requires Spaced(bs) && i + 1 < |bs|
    ensures Spaced(Join(bs, i))
    ensures Tiled(bs) ==> Tiled(Join(bs, i))
  {
    var r := Join(bs, i);
    assert Aligned(bs[i]) && Aligned(bs[i + 1]) && AfterAt(bs, i);
    assert |r| == |bs| - 1 && End(r[i]) <= End(bs[i + 1]);
    forall j | 0 <= j < |r| ensures Aligned(r[j]) {
      assert j < i ==> r[j] == bs[j];
      assert j > i ==> r[j] == bs[j + 1];
    }
    forall j ensures AfterAt(r, j) {
      assert AfterAt(bs, j) && AfterAt(bs, j + 1);
    }
    if Tiled(bs) {
      assert MeetsAt(bs, i);
      forall j ensures MeetsAt(r, j) {
        assert MeetsAt(bs, j) && MeetsAt(bs, j + 1);
      }
    }
  }

  /** No two free neighbours, except possibly block i with a neighbour. */
  ghost predicate CoalescedBut(bs: seq<Block>, i: nat) {
    forall j :: j != i && j + 1 != i ==> ApartAt(bs, j)
  }

  /** Joining the exceptional block with a free neighbour leaves it the only exception. */
  lemma JoinCoalesces(bs: seq<Block>, i: nat, at: nat)
    requires i + 1 < |bs| && CoalescedBut(bs, at) && (at == i || at == i + 1)
    ensures CoalescedBut(Join(bs, i), i)
  {
    var r := Join(bs, i);
    forall j | j != i && j + 1 != i ensures ApartAt(r, j) {
      assert j + 1 < i ==> ApartAt(bs, j);
      assert j > i ==> ApartAt(bs, j + 1);
    }
  }

  /** Release keeps the list in order, keeps the tiling, and leaves no two free neighbours. */
  lemma ReleaseKeeps(bs: seq<Block>, i: nat)
    requires Spaced(bs) && Coalesced(bs) && i < |bs|
    ensures Spaced(Release(bs, i)) && Coalesced(Release(bs, i))
    ensures Tiled(bs) ==> Tiled(Release(bs, i))
  {
    TakeSpaces(bs, i);
    var b1 := Drop(bs, i);
    var b2 := JoinNext(b1, i);
    if i + 1 < |b1| && b1[i + 1].free {
      JoinSpaces(b1, i);
      JoinCoalesces(b1, i, i);
      assert ApartAt(bs, i + 1);
    }
    assert i + 1 < |b2| ==> !b2[i + 1].free;
    JoinPrevKeeps(b2, i, bs);
  }

  /** The second half of a release: block i is free, the one after it is not. */
  lemma JoinPrevKeeps(b2: seq<Block>, i: nat, bs: seq<Block>)
    requires Spaced(b2) && CoalescedBut(b2, i) && i < |b2| && (i + 1 < |b2| ==> !b2[i + 1].free)
    requires Coalesced(bs) && i < |bs| && b2[..i] == bs[..i]
    ensures Spaced(JoinPrev(b2, i)) && Coalesced(JoinPrev(b2, i))
    ensures Tiled(b2) ==> Tiled(JoinPrev(b2, i))
  {
    var b3 := JoinPrev(b2, i);
    assert forall j :: 0 <= j < i ==> b2[..i][j] == bs[..i][j];
    if i > 0 && b2[i - 1].free {
      JoinSpaces(b2, i - 1);
      JoinCoalesces(b2, i - 1, i);
      assert ApartAt(bs, i - 2);
      forall j ensures ApartAt(b3, j) {
        assert j != i - 1 && j + 1 != i - 1 ==> ApartAt(b3, j);
      }
    } else {
      forall j ensures ApartAt(b3, j) {
        assert j != i && j + 1 != i ==> ApartAt(b3, j);
      }
    }
  }

  /** Shrinking keeps the order, but loses the tiling: it always leaves a gap. */
  lemma ShrinkKeeps(bs: seq<Block>, i: nat, sz: nat)
    requires Spaced(bs) && Coalesced(bs) && i < |bs| && sz < bs[i].size
    ensures Spaced(Shrink(bs, i, sz)) && Coalesced(Shrink(bs, i, sz))
    ensures Tiled(bs) ==> !Tiled(Shrink(bs, i, sz))
  {
    var r := Shrink(bs, i, sz);
    assert Aligned(bs[i]);
    forall j ensures AfterAt(r, j) && ApartAt(r, j) {
      assert AfterAt(bs, j) && ApartAt(bs, j);
    }
    if Tiled(bs) && Tiled(r) {
      ReachesNext(bs, i);
      ReachesNext(r, i);
    }
  }

  /** Freeing what was just allocated gives the same list back. */
  lemma FreeUndoesMalloc(bs: seq<Block>, i: nat, sz: nat)
    requires Coalesced(bs) && i < |bs| && Fits(bs[i], sz)
    ensures Release(Carve(bs, i, sz), i) == bs
  {
    var c := Carve(bs, i, sz);
    assert ApartAt(bs, i) && ApartAt(bs, i - 1);
    if Splits(bs[i], sz) {
      var c1 := Drop(c, i);
      assert c1[..i] == bs[..i] && c1[i + 2..] == bs[i + 1..];
      assert Join(c1, i) == bs[..i] + [bs[i]] + bs[i + 1..] == bs;
    } else {
      assert Drop(c, i) == bs;
    }
  }

  // ----- the live blocks -----

  function Live(bs: seq<Block>): set<Block> {
    set b | b in bs && !b.free
  }

  lemma LiveMember(bs: seq<Block>, i: nat)
    requires i < |bs| && !bs[i].free
    ensures bs[i] in Live(bs)
  {
  }

  /** The block that allocation hands out. */
  function Granted(b: Block, sz: nat): Block {
    Block(b.at, if Splits(b, sz) then sz else b.size, false)
  }

  /** Allocation adds one live block, as large as asked, and touches no other. */
  lemma CarveAddsOne(bs: seq<Block>, i: nat, sz: nat)
    requires Spaced(bs) && i < |bs| && Fits(bs[i], sz)
    ensures Live(Carve(bs, i, sz)) == Live(bs) + {Granted(bs[i], sz)}
    ensures Granted(bs[i], sz) !in Live(bs) && Granted(bs[i], sz).size >= sz
  {
    var c := Carve(bs, i, sz);
    var g := Granted(bs[i], sz);
    if g in Live(bs) {
      var j :| 0 <= j < |bs| && bs[j] == g;
      Disjoint(bs, i, j);
      assert false;
    }
    forall b ensures b in Live(c) <==> b in Live(bs) || b == g {
      if b in Live(bs) {
        var j :| 0 <= j < |bs| && bs[j] == b;
        assert c[if j < i then j else j + |c| - |bs|] == b;
      }
      if b in Live(c) {
        var j :| 0 <= j < |c| && c[j] == b;
        assert j < i ==> b == bs[j];
        assert j > i + |c| - |bs| ==> b == bs[j - (|c| - |bs|)];
      }
      assert c[i] == g;
    }
  }

  /** Extending adds one live block and touches no other. */
  lemma ExtendAddsOne(bs: seq<Block>, sz: nat)
    requires Spaced(bs)
    ensures var g := Block(Tip(bs), sz, false); Live(Extended(bs, sz)) == Live(bs) + {g} && g !in Live(bs)
  {
    var c, g := Extended(bs, sz), Block(Tip(bs), sz, false);
    if g in Live(bs) {
      var j :| 0 <= j < |bs| && bs[j] == g;
      Inside(bs, |bs| - 1);
      if j < |bs| - 1 { Ordered(bs, j, |bs| - 1); }
      assert false;
    }
    forall b ensures b in Live(c) <==> b in Live(bs) || b == g {
      if b in Live(c) {
        var j :| 0 <= j < |c| && c[j] == b;
        assert j < |bs| ==> b == bs[j];
      }
      if b in Live(bs) {
        var j :| 0 <= j < |bs| && bs[j] == b;
        assert c[j] == b;
      }
      assert c[|bs|] == g;
    }
  }

  /** Joining two free blocks touches no live one. */
  lemma JoinKeepsLive(bs: seq<Block>, i: nat)
    requires i + 1 < |bs| && bs[i].free && bs[i + 1].free
    ensures Live(Join(bs, i)) == Live(bs)
  {
    var r := Join(bs, i);
    forall b ensures b in Live(r) <==> b in Live(bs) {
      if b in Live(bs) {
        var j :| 0 <= j < |bs| && bs[j] == b;
        assert r[if j < i then j else j - 1] == b;
      }
      if b in Live(r) {
        var j :| 0 <= j < |r| && r[j] == b;
        assert b == bs[if j < i then j else j + 1];
      }
    }
  }

  /** Release removes exactly the released block from the live ones. */
  lemma ReleaseRemovesOne(bs: seq<Block>, i: nat)
    requires Spaced(bs) && i < |bs| && !bs[i].free
    ensures Live(Release(bs, i)) == Live(bs) - {bs[i]}
  {
    var b1 := Drop(bs, i);
    forall b ensures b in Live(b1) <==> b in Live(bs) && b != bs[i] {
      if b in Live(bs) && b != bs[i] {
        var j :| 0 <= j < |bs| && bs[j] == b;
        assert b1[j] == b;
      }
      if b in Live(b1) {
        var j :| 0 <= j < |b1| && b1[j] == b;
        Disjoint(bs, i, j);
      }
    }
    var b2 := JoinNext(b1, i);
    if i + 1 < |b1| && b1[i + 1].free { JoinKeepsLive(b1, i); }
    if i > 0 && b2[i - 1].free { JoinKeepsLive(b2, i - 1); }
  }
}
