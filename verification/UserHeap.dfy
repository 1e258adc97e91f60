// The allocator itself: the memory it manages, the page reference table, and the program's calls.

module UserHeap {
  import opened Words
  import opened Blocks
  import opened Pages
  import opened Rests
  import opened Arena
  import opened Headers

  /** What a request for memory comes back with. */
  datatype Reply =
    | Pointer(at: int)
    | Null
    | Leaves    // the end of the request wraps around and leaves the page table; not followed any further
    | Strays    // a block to move to is not aligned, or not wholly in the arena; not followed any further
    | Overruns  // a fill or a copy would run past the end of its block; not followed any further
    | Aborts    // the program is stopped

  /** The memory after fresh pages were mapped over the unreferenced pages of a region, up to a page. */
  function Wiped(m: Memory, refs: seq<int>, first: int, limit: int): Memory {
    map a | a in m && !(first <= PageOf(a) < limit && 0 <= PageOf(a) < |refs| && refs[PageOf(a)] == 0) :: m[a]
  }

  /** The memory after mapping fresh pages. */
  function Mapped(m: Memory, first: int, count: int): Memory {
    map a | a in m && !(first <= PageOf(a) < first + count) :: m[a]
  }

  function Range(first: int, count: nat): (r: set<int>)
    ensures forall p :: p in r <==> first <= p < first + count
  {
    if count == 0 then {} else Range(first, count - 1) + {first + count - 1}
  }

  function Always(v: byte, a: int): byte { v }

  /** The memory after writing the same byte n times. */
  function Fill(m: Memory, a: int, n: nat, v: byte): Memory {
    m + map b | a <= b < a + n :: Always(v, b)
  }

  function Source(m: Memory, to: int, from: int, a: int): byte { Read(m, from + (a - to)) }

  /** The memory after copying n bytes. */
  function Copy(m: Memory, to: int, from: int, n: nat): Memory {
    m + map b | to <= b < to + n :: Source(m, to, from, b)
  }

  lemma MappedIsWiped(m: Memory, refs: seq<int>, first: int, start: int, limit: int)
    requires first <= start <= limit <= |refs| && 0 <= first
    requires forall p :: start <= p < limit ==> refs[p] == 0
    ensures Mapped(Wiped(m, refs, first, start), start, limit - start) == Wiped(m, refs, first, limit)
  {
  }

  lemma WipedNothing(m: Memory, refs: seq<int>, first: int)
    ensures Wiped(m, refs, first, first) == m
  {
  }

  lemma WipedSkips(m: Memory, refs: seq<int>, first: int, limit: int)
    requires 0 <= first <= limit < |refs| && refs[limit] != 0
    ensures Wiped(m, refs, first, limit) == Wiped(m, refs, first, limit + 1)
  {
  }

  /** A byte of a header or of a live payload is on a referenced page, so mapping fresh pages spares it. */
  lemma WipedSpares(m: Memory, refs: seq<int>, first: int, limit: int, bs: seq<Block>, i: nat, a: int)
    requires Accounted(refs, bs) && Spaced(bs) && i < |bs|
    requires bs[i].at <= a < bs[i].at + HEADER || (!bs[i].free && Payload(bs[i]) <= a < End(bs[i]))
    ensures Read(Wiped(m, refs, first, limit), a) == Read(m, a)
  {
    hide Users, Spaced;
    var b := bs[i];
    Inside(bs, i);
    var p := PageOf(a);
    assert PageOf(b.at) <= p && (a < b.at + HEADER ==> p <= PageOf(b.at + HEADER));
    assert p <= PageOf(b.at + b.size + HEADER);
    UsersAtLeast(bs, i, p);
    assert Users(bs, p) <= refs[p];
  }

  /** Mapping fresh pages leaves the list, and the live payloads, as they are. */
  lemma WipedKeeps(m: Memory, refs: seq<int>, first: int, limit: int, bs: seq<Block>, cs: seq<Block>)
    requires Accounted(refs, bs) && Spaced(bs) && Represents(m, cs)
    requires |cs| == |bs| && forall i :: 0 <= i < |bs| ==> cs[i].at == bs[i].at
    ensures Represents(Wiped(m, refs, first, limit), cs)
    ensures KeptLive(m, Wiped(m, refs, first, limit), bs)
  {
    hide Users, Spaced, Wiped, Represents, Accounted, Read;
    var r := Wiped(m, refs, first, limit);
    forall i, a | 0 <= i < |cs| && cs[i].at <= a < cs[i].at + HEADER ensures Read(r, a) == Read(m, a) {
      WipedSpares(m, refs, first, limit, bs, i, a);
    }
    RepresentsFrame(m, r, cs);
    forall b, a | b in Live(bs) && Payload(b) <= a < End(b) ensures Read(r, a) == Read(m, a) {
      var i :| 0 <= i < |bs| && bs[i] == b;
      WipedSpares(m, refs, first, limit, bs, i, a);
    }
  }

  /** Two changes that keep some live blocks each keep those they have in common. */
  lemma KeptTwice(m: Memory, n: Memory, r: Memory, bs: seq<Block>, cs: seq<Block>, ds: seq<Block>)
    requires KeptLive(m, n, bs) && KeptLive(n, r, cs) && Live(ds) <= Live(bs) && Live(ds) <= Live(cs)
    ensures KeptLive(m, r, ds)
  {
    hide Read;
    forall b, a | b in Live(ds) && Payload(b) <= a < End(b) ensures Read(r, a) == Read(m, a) {
      assert b in Live(bs) && b in Live(cs);
      assert Read(n, a) == Read(m, a);
    }
  }

  /** What the header of block i holds. */
  lemma HeaderReads(m: Memory, bs: seq<Block>, i: nat)
    requires Spaced(bs) && Represents(m, bs) && i < |bs|
    ensures var h := bs[i].at;
      && BASE <= h < LIMIT && 0 <= bs[i].size && Field(m, h, LENGTH) == bs[i].size
      && Marked(m, h, bs[i].free) && (Field(m, h, MAGIC_1) == 0 <==> bs[i].free)
      && Field(m, h, NEXT) == NextOf(bs, i) && Field(m, h, PREV) == PrevOf(bs, i)
      && (NextOf(bs, i) != 0 <==> i < |bs| - 1) && (PrevOf(bs, i) != 0 <==> 0 < i)
  {
    hide Field, Spaced;
    assert HeaderAt(m, bs, i);
    Inside(bs, i);
    if i < |bs| - 1 { Inside(bs, i + 1); }
    if i > 0 { Inside(bs, i - 1); }
  }

  /** The list after a merge. */
  lemma Merged(h: Heap, i: nat)
    requires h.Heap? ==> i < |h.blocks|
    ensures h.Aborted? ==> MergeNext(h, i) == Aborted && MergePrev(h, i) == Aborted
    ensures MergeNext(h, i).Heap? ==> h.Heap? && MergeNext(h, i).blocks == JoinNext(h.blocks, i)
    ensures MergePrev(h, i).Heap? ==> h.Heap? && MergePrev(h, i).blocks == JoinPrev(h.blocks, i)
    ensures h.Heap? && h.blocks[i].free && MergeNext(h, i).Heap? ==>
      i < |JoinNext(h.blocks, i)| && JoinNext(h.blocks, i)[i].free && JoinNext(h.blocks, i)[i].at == h.blocks[i].at
  {
  }

  /** Writing the payload of one block leaves the list and all other live payloads alone. */
  lemma PayloadWrite(m: Memory, r: Memory, bs: seq<Block>, i: nat)
    requires Spaced(bs) && Represents(m, bs) && i < |bs|
    requires forall a :: a < Payload(bs[i]) || End(bs[i]) <= a ==> Read(r, a) == Read(m, a)
    ensures Represents(r, bs)
    ensures forall b, a :: b in Live(bs) && b != bs[i] && Payload(b) <= a < End(b) ==> Read(r, a) == Read(m, a)
  {
    hide Spaced, Represents, Read;
    forall j, a | 0 <= j < |bs| && bs[j].at <= a < bs[j].at + HEADER ensures Read(r, a) == Read(m, a) {
      Inside(bs, j);
      if j != i { Disjoint(bs, i, j); }
    }
    RepresentsFrame(m, r, bs);
    forall b, a | b in Live(bs) && b != bs[i] && Payload(b) <= a < End(b) ensures Read(r, a) == Read(m, a) {
      var j :| 0 <= j < |bs| && bs[j] == b;
      Disjoint(bs, i, j);
    }
  }

  /** Whether an allocation hands out a block; a request that wraps around does not. */
  ghost predicate Fulfilled(h: Heap, sz: nat) {
    h.Heap? && h.blocks != [] && sz > 0 && Served(h.blocks, Pad(sz)) && Allocate(h, sz).Heap?
  }

  /** Where an allocation puts its block, and what it leaves of the other live ones. */
  lemma AllocatedAt(h: Heap, sz: nat)
    requires Sound(h) && Fulfilled(h, sz)
    ensures var i := FirstFit(h.blocks, Pad(sz), 0); var bs := Allocate(h, sz).blocks;
      && i < |bs| && bs[i].at == Site(h.blocks, Pad(sz))
      && !bs[i].free && bs[i].size >= Pad(sz) && Live(h.blocks) == Live(bs) - {bs[i]}
  {
    var i := FirstFit(h.blocks, Pad(sz), 0);
    if i < |h.blocks| {
      CarveAddsOne(h.blocks, i, Pad(sz));
    } else {
      ExtendAddsOne(h.blocks, Pad(sz));
    }
  }

  lemma FillFrame(m: Memory, at: int, n: nat, v: byte)
    ensures forall a :: Read(Fill(m, at, n, v), a) == if at <= a < at + n then v else Read(m, a)
  {
  }

  lemma CopyFrame(m: Memory, to: int, from: int, n: nat)
    ensures forall a :: a < to || to + n <= a ==> Read(Copy(m, to, from, n), a) == Read(m, a)
    ensures forall a :: to <= a < to + n ==> Read(Copy(m, to, from, n), a) == Read(m, from + (a - to))
  {
  }

  /** Filling the first bytes of a fresh block. */
  lemma FilledKeeps(m0: Memory, h: Heap, m: Memory, sz: nat, n: nat, v: byte)
    requires Sound(h) && Fulfilled(h, sz) && n <= Pad(sz)
    requires var c := Allocate(h, sz).blocks; Spaced(c) && Represents(m, c) && KeptLive(m0, m, h.blocks)
    ensures var c := Allocate(h, sz).blocks; var at := Site(h.blocks, Pad(sz)) + HEADER;
      Represents(Fill(m, at, n, v), c) && KeptLive(m0, Fill(m, at, n, v), h.blocks)
  {
    hide Spaced, Represents, Read, Sound, Allocate, Fill;
    var i := FirstFit(h.blocks, Pad(sz), 0);
    var c := Allocate(h, sz).blocks;
    var at := Site(h.blocks, Pad(sz)) + HEADER;
    var r := Fill(m, at, n, v);
    AllocatedAt(h, sz);
    FillFrame(m, at, n, v);
    PayloadWrite(m, r, c, i);
    forall b, a | b in Live(h.blocks) && Payload(b) <= a < End(b) ensures Read(r, a) == Read(m0, a) {
      assert b in Live(c) && b != c[i];
      assert Read(m, a) == Read(m0, a);
    }
  }

  /** Changing the size of a live block to a smaller one. */
  lemma ShrinkRepresents(m: Memory, bs: seq<Block>, i: nat, sz: nat)
    requires Spaced(bs) && Represents(m, bs) && i < |bs| && sz < bs[i].size
    ensures Represents(SetField(m, bs[i].at, LENGTH, sz), Shrink(bs, i, sz))
    ensures KeptLive(m, SetField(m, bs[i].at, LENGTH, sz), bs)
  {
    hide Field, SetField, Spaced, Read, SameHeader;
    var r := SetField(m, bs[i].at, LENGTH, sz);
    var c := Shrink(bs, i, sz);
    SetFieldFrame(m, bs[i].at, LENGTH, sz);
    Inside(bs, i);
    forall j ensures HeaderAt(r, c, j) {
      assert HeaderAt(m, bs, j);
      if 0 <= j < |bs| && j != i {
        Inside(bs, j);
        Disjoint(bs, i, j);
      }
    }
    forall b, a | b in Live(bs) && Payload(b) <= a < End(b) ensures Read(r, a) == Read(m, a) {
      HeadersOutsideLive(bs, i, b);
    }
  }

  /** The list after a successful release of the live block at a pointer. */
  lemma DeallocatedLive(h: Heap, at: int)
    requires h.Heap? && Spaced(h.blocks) && at != 0 && Deallocate(h, at).Heap?
    ensures var j := IndexOf(h.blocks, at - HEADER, 0);
      j < |h.blocks| && !h.blocks[j].free && Live(Deallocate(h, at).blocks) == Live(h.blocks) - {h.blocks[j]}
  {
    hide Spaced, MergeNext, MergePrev, Live, Release, Releasable;
    var j := IndexOf(h.blocks, at - HEADER, 0);
    var g := GiveUp(h, j);
    Merged(g, j);
    Merged(MergeNext(g, j), j);
    assert Deallocate(h, at).blocks == Release(h.blocks, j) by { ReleaseUnfolds(h.blocks, j); }
    ReleaseRemovesOne(h.blocks, j);
  }

  lemma ReleaseUnfolds(bs: seq<Block>, i: nat)
    requires i < |bs|
    ensures i < |JoinNext(Drop(bs, i), i)| && Release(bs, i) == JoinPrev(JoinNext(Drop(bs, i), i), i)
  {
  }

  /** The bytes that a grown block takes over from the old one. */
  ghost predicate Carried(m: Memory, from: int, r: Memory, to: int, n: int) {
    forall a :: to <= a < to + n ==> Read(r, a) == Read(m, from + (a - to))
  }

  /** Copying a live block's bytes to a fresh block. */
  lemma CopiedKeeps(m0: Memory, h: Heap, m: Memory, sz: nat, was: Block)
    requires Sound(h) && Fulfilled(h, sz) && was in Live(h.blocks) && 0 <= was.size <= Pad(sz)
    requires var c := Allocate(h, sz).blocks; Spaced(c) && Represents(m, c) && KeptLive(m0, m, h.blocks)
    ensures var c := Allocate(h, sz).blocks; var at := Site(h.blocks, Pad(sz)) + HEADER;
      var r := Copy(m, at, Payload(was), was.size);
      Represents(r, c) && KeptLive(m0, r, h.blocks) && Carried(m0, Payload(was), r, at, was.size)
  {
    hide Spaced, Represents, Read, Sound, Allocate, Copy;
    var i := FirstFit(h.blocks, Pad(sz), 0);
    var c := Allocate(h, sz).blocks;
    var at := Site(h.blocks, Pad(sz)) + HEADER;
    var r := Copy(m, at, Payload(was), was.size);
    AllocatedAt(h, sz);
    CopyFrame(m, at, Payload(was), was.size);
    assert Payload(c[i]) == at && at + was.size <= End(c[i]);
    PayloadWrite(m, r, c, i);
    forall b, a | b in Live(h.blocks) && Payload(b) <= a < End(b) ensures Read(r, a) == Read(m0, a) {
      assert b in Live(c) && b != c[i];
      assert Read(m, a) == Read(m0, a);
    }
    forall a | at <= a < at + was.size ensures Read(r, a) == Read(m0, Payload(was) + (a - at)) {
      assert Read(m, Payload(was) + (a - at)) == Read(m0, Payload(was) + (a - at));
    }
  }

  /** What moving a block leaves behind: its bytes carried over, those of all other live blocks untouched. */
  ghost predicate Moved(m: Memory, bs: seq<Block>, from: int, r: Memory, to: int, size: int) {
    && Carried(m, from, r, to, size)
    && forall b, a :: b in Live(bs) && Payload(b) != from && Payload(b) <= a < End(b) ==> Read(r, a) == Read(m, a)
  }

  lemma Unallocated(h: Heap, sz: nat)
    requires h.Heap?
    ensures sz == 0 || !Served(h.blocks, Pad(sz)) ==> Allocate(h, sz) == h
  {
  }

  /** Where a live block stands in the list after an allocation. */
  lemma OldBlock(h: Heap, sz: nat, i: nat) returns (j: nat)
    requires Sound(h) && Fulfilled(h, sz) && i < |h.blocks| && !h.blocks[i].free
    ensures var c := Allocate(h, sz).blocks; j < |c| && c[j] == h.blocks[i]
  {
    AllocatedAt(h, sz);
    var c := Allocate(h, sz).blocks;
    assert h.blocks[i] in Live(h.blocks);
    j :| 0 <= j < |c| && c[j] == h.blocks[i];
  }

  /** A block that stays where it is keeps its bytes. */
  lemma MovedNowhere(m: Memory, r: Memory, bs: seq<Block>, i: nat, size: nat)
    requires i < |bs| && !bs[i].free && size <= bs[i].size && (r == m || KeptLive(m, r, bs))
    ensures Moved(m, bs, Payload(bs[i]), r, Payload(bs[i]), size)
  {
    hide Read;
    assert bs[i] in Live(bs);
  }

  /** After allocating, copying and releasing, the block has moved. */
  lemma MovedHolds(m0: Memory, m: Memory, r: Memory, h: Heap, sz: nat, i: nat, j: nat, last: seq<Block>)
    requires Sound(h) && Fulfilled(h, sz)
    requires var c := Allocate(h, sz).blocks;
      && i < |h.blocks| && j < |c| && c[j] == h.blocks[i] && !c[j].free && 0 <= c[j].size <= Pad(sz)
      && Live(last) == Live(c) - {c[j]} && KeptLive(m0, m, h.blocks) && KeptLive(m, r, last)
      && Carried(m0, Payload(h.blocks[i]), m, Site(h.blocks, Pad(sz)) + HEADER, h.blocks[i].size)
    ensures Moved(m0, h.blocks, Payload(h.blocks[i]), r, Site(h.blocks, Pad(sz)) + HEADER, h.blocks[i].size)
  {
    hide Read, Allocate, Sound;
    var c := Allocate(h, sz).blocks;
    var k := FirstFit(h.blocks, Pad(sz), 0);
    AllocatedAt(h, sz);
    assert c[k] in Live(last);
    forall a | Payload(c[k]) <= a < Payload(c[k]) + h.blocks[i].size ensures Read(r, a) == Read(m, a) {
      assert Payload(c[k]) <= a < End(c[k]);
    }
    forall b, a | b in Live(h.blocks) && Payload(b) != Payload(h.blocks[i]) && Payload(b) <= a < End(b)
      ensures Read(r, a) == Read(m0, a)
    {
      assert b in Live(last);
      assert Read(m, a) == Read(m0, a);
    }
  }

  /** The memory with the header of the one initial block. */
  function FirstHeader(m: Memory): Memory {
    SetField(SetField(SetField(Mark(m, BASE, true), BASE, NEXT, 0), BASE, PREV, 0), BASE, LENGTH, SIZE - HEADER)
  }

  lemma FirstHeaderRepresents(m: Memory)
    ensures Represents(FirstHeader(m), INITIAL)
  {
    hide Field, SetField, Mark, Read;
    var m1 := Mark(m, BASE, true);
    MarkFrame(m, BASE, true);
    var m2 := SetField(m1, BASE, NEXT, 0);
    SetFieldFrame(m1, BASE, NEXT, 0);
    var m3 := SetField(m2, BASE, PREV, 0);
    SetFieldFrame(m2, BASE, PREV, 0);
    SetFieldFrame(m3, BASE, LENGTH, SIZE - HEADER);
    assert HeaderAt(FirstHeader(m), INITIAL, 0);
  }

  /** The list while only the header of the new last block is referenced. */
  ghost function FreeEnd(bs: seq<Block>, sz: nat): seq<Block>
    requires bs != []
  {
    bs + [Block(Tip(bs), sz, true)]
  }

  lemma HeaderAdded(refs: seq<int>, bs: seq<Block>, sz: nat)
    requires Accounted(refs, bs) && Spaced(bs) && bs != [] && Placeable(bs, sz) && Roomy(refs, Tip(bs), HEADER)
    ensures Accounted(Use(refs, Tip(bs), HEADER), FreeEnd(bs, sz)) && Spaced(FreeEnd(bs, sz))
    ensures Live(FreeEnd(bs, sz)) == Live(bs)
  {
    var b := Block(Tip(bs), sz, true);
    forall p | 0 <= p <= PAGES ensures Users(FreeEnd(bs, sz), p) <= Use(refs, Tip(bs), HEADER)[p] < WRAP {
      UsersCat(bs, [b], p);
      UsersOne(b, p);
      assert Users(bs, p) <= refs[p];
    }
    FreeEndSpaced(bs, sz);
    forall c ensures c in Live(FreeEnd(bs, sz)) <==> c in Live(bs) {
      assert c in FreeEnd(bs, sz) <==> c in bs || c == b;
    }
  }

  lemma FreeEndSpaced(bs: seq<Block>, sz: nat)
    requires Spaced(bs) && bs != [] && Placeable(bs, sz)
    ensures Spaced(FreeEnd(bs, sz))
  {
    var r := FreeEnd(bs, sz);
    forall j ensures AfterAt(r, j) {
      assert AfterAt(bs, j);
    }
    assert Aligned(r[|bs|]);
    forall j | 0 <= j < |bs| ensures Aligned(r[j]) {
      assert Aligned(bs[j]);
    }
  }

  lemma AlignedAt(bs: seq<Block>, i: nat)
    requires Spaced(bs) && i < |bs|
    ensures bs[i].at % 4 == 0
  {
    assert Aligned(bs[i]);
  }

  lemma KeptSame(m: Memory, bs: seq<Block>)
    ensures KeptLive(m, m, bs)
  {
  }

  lemma Begins(bs: seq<Block>)
    requires Spaced(bs)
    ensures |bs| > 0 && bs[0].at == BASE
  {
  }

  lemma DropFewerLive(bs: seq<Block>, i: nat)
    requires i < |bs|
    ensures Live(Drop(bs, i)) <= Live(bs)
  {
    forall b | b in Live(Drop(bs, i)) ensures b in Live(bs) {
      var j :| 0 <= j < |bs| && Drop(bs, i)[j] == b;
      assert bs[j] == b;
    }
  }

  lemma SplitSameLive(bs: seq<Block>, i: nat, sz: nat)
    requires i < |bs| && bs[i].free
    ensures Live(Split(bs, i, sz)) == Live(bs)
  {
    var c := Split(bs, i, sz);
    forall b ensures b in Live(c) <==> b in Live(bs) {
      if b in Live(bs) {
        var j :| 0 <= j < |bs| && bs[j] == b;
        assert c[if j < i then j else j + 1] == b;
      }
      if b in Live(c) {
        var j :| 0 <= j < |c| && c[j] == b;
        assert b == bs[if j < i then j else j - 1];
      }
    }
  }

  /** No counter is within two of wrapping around. */
  ghost predicate Low(refs: seq<int>) {
    forall p :: 0 <= p < |refs| ==> refs[p] < WRAP - 2
  }

  /**
   * A request after which the memory still holds the list: it keeps the heap sound, or else no counter is close to
   * wrapping around and a block after the last one is where it should be.
   */
  ghost predicate Harmless(h: Heap, sz: nat)
    requires h.Heap? && |h.refs| == PAGES + 1
  {
    Grantable(h, sz) || (Low(h.refs) && (sz > 0 && Expands(h.blocks, Pad(sz)) ==> Placeable(h.blocks, Pad(sz))))
  }

  lemma LowIsRoomy(refs: seq<int>, a: int)
    ensures Low(refs) ==> Roomy(refs, a, HEADER)
  {
  }

  lemma NotServed(h: Heap, sz: nat)
    requires h.Heap? && Sound(h) && sz > 0 && !Fulfilled(h, sz) && !Allocate(h, sz).Lost?
    ensures !Served(h.blocks, Pad(sz)) && Allocate(h, sz) == h
  {
  }

  /** Whether resizing the block at a pointer asks for a larger one. */
  ghost predicate Grows(h: Heap, at: int, size: nat)
    requires h.Heap?
  {
    var i := IndexOf(h.blocks, at - HEADER, 0);
    i < |h.blocks| && size > h.blocks[i].size
  }

  /** Only a block after the last one can be misplaced. */
  lemma PlacedInArena(h: Heap, sz: nat)
    requires Sound(h) && Fulfilled(h, sz)
    ensures var at := Site(h.blocks, Pad(sz)) + HEADER;
      at % 4 == 0 && at + Pad(sz) <= LIMIT <==> !(Expands(h.blocks, Pad(sz)) && !Placeable(h.blocks, Pad(sz)))
  {
    hide Pad, Spaced, Coalesced, Accounted, Users;
    var i := FirstFit(h.blocks, Pad(sz), 0);
    if i < |h.blocks| {
      Inside(h.blocks, i);
      AlignedAt(h.blocks, i);
    }
  }

  class UserHeap {
    var mem: Memory
    var mapped: set<int>
    const refs: array<int>
    ghost var blocks: seq<Block>

    ghost function State(): Heap
      reads this, refs
    {
      Heap(blocks, refs[..])
    }

    ghost predicate Counted()
      reads this, refs
    {
      Table(refs[..]) && forall p :: 0 <= p <= PAGES && refs[p] > 0 ==> p in mapped
    }

    /** The memory holds the list, and the list is in order. */
    ghost predicate Shaped()
      reads this, refs
    {
      Counted() && Spaced(blocks) && Coalesced(blocks) && Represents(mem, blocks)
    }

    /** In addition every page has as many references as users. */
    ghost predicate Valid()
      reads this, refs
    {
      Shaped() && Accounted(refs[..], blocks)
    }

    /** The heap at program start: one free block, whatever the memory held before. */
    constructor (m: Memory)
      ensures Valid() && State() == Start() && fresh(refs)
    {
      refs := new int[PAGES + 1](_ => 0);
      mem := m;
      mapped := {};
      blocks := INITIAL;
      new;
      hide Field, SetField, Mark, Wiped, Represents, Accounted, Spaced, Coalesced;
      assert refs[..] == seq(PAGES + 1, p => 0);
      UseMemoryRegion(BASE, HEADER);
      ghost var was := mem;
      mem := Mark(mem, BASE, true);
      mem := SetField(mem, BASE, NEXT, 0);
      mem := SetField(mem, BASE, PREV, 0);
      mem := SetField(mem, BASE, LENGTH, SIZE - HEADER);
      FirstHeaderRepresents(was);
      StartSound();
    }

    // ----- pages -----

    method RequestMemMap(first: int, count: nat)
      modifies this`mem, this`mapped
      ensures mem == Mapped(old(mem), first, count)
      ensures forall p :: p in mapped <==> p in old(mapped) || first <= p < first + count
    {
      mem := Mapped(mem, first, count);
      mapped := mapped + Range(first, count);
    }

    method UseMemoryRegion(ptr: int, sz: nat)
      requires Counted() && BASE <= ptr && ptr + sz < LIMIT + PAGE
      modifies this`mem, this`mapped, refs
      ensures Counted() && refs[..] == Use(old(refs[..]), ptr, sz)
      ensures mem == Wiped(old(mem), old(refs[..]), PageOf(ptr), PageOf(ptr + sz) + 1)
    {
      hide Wiped, Mapped;
      var p := ptr - BASE;
      var pageStart, pageEnd := p / PAGE, (p + sz) / PAGE;
      var mmapStreak, pageStartedStreak := 0, 0;
      var page := pageStart;
      ghost var was := refs[..];
      WipedNothing(mem, was, pageStart);
      while page <= pageEnd
        invariant pageStart <= page <= pageEnd + 1 && mmapStreak >= 0
        invariant forall q :: 0 <= q <= PAGES ==> 0 <= was[q] < WRAP
        invariant forall q :: 0 <= q < pageStart || page <= q <= PAGES ==> refs[q] == was[q]
        invariant forall q :: pageStart <= q < page ==> refs[q] == (was[q] + 1) % WRAP
        invariant mmapStreak > 0 ==> pageStart <= pageStartedStreak && pageStartedStreak + mmapStreak == page
        invariant forall q :: pageStartedStreak <= q < page && mmapStreak > 0 ==> was[q] == 0
        invariant mem == Wiped(old(mem), was, pageStart, page - mmapStreak)
        invariant forall q :: 0 <= q <= PAGES && refs[q] > 0 ==> q in mapped || page - mmapStreak <= q < page
      {
        if refs[page] == 0 {
          if mmapStreak == 0 {
            pageStartedStreak := page;
          }
          mmapStreak := mmapStreak + 1;
        } else {
          if mmapStreak > 0 {
            RequestMemMap(pageStartedStreak, mmapStreak);
            MappedIsWiped(old(mem), was, pageStart, pageStartedStreak, page);
            mmapStreak := 0;
          }
          WipedSkips(old(mem), was, pageStart, page);
        }
        refs[page] := (refs[page] + 1) % WRAP;
        page := page + 1;
      }
      if mmapStreak > 0 {
        if pageStartedStreak == 0 {
          pageStartedStreak := pageStart;
        }
        RequestMemMap(pageStartedStreak, mmapStreak);
        MappedIsWiped(old(mem), was, pageStart, pageStartedStreak, page);
      }
      assert refs[..] == Use(was, ptr, sz);
    }

    /** Gives references back; a page without any stops the program, so that no page is ever unmapped here. */
    method FreeMemoryRegion(ptr: int, sz: nat) returns (ok: bool)
      requires Counted() && BASE <= ptr && ptr + sz <= LIMIT
      modifies refs
      ensures ok <==> Releasable(old(refs[..]), ptr, sz)
      ensures ok ==> Counted() && refs[..] == Unuse(old(refs[..]), ptr, sz)
    {
      var p := ptr - BASE;
      var pageStart, pageEnd := p / PAGE, (p + sz) / PAGE;
      var mmapStreak := 0;
      var page := pageStart;
      ghost var was := refs[..];
      while page <= pageEnd
        invariant pageStart <= page <= pageEnd + 1 && mmapStreak == 0
        invariant forall q :: 0 <= q < pageStart || page <= q <= PAGES ==> refs[q] == was[q]
        invariant forall q :: pageStart <= q < page ==> was[q] > 0 && refs[q] == was[q] - 1
      {
        if refs[page] == 0 {
          mmapStreak := mmapStreak + 1;
        } else if mmapStreak > 0 {
          assert false;
        }
        // The reference is removed only now: an unused page is found out before it could be unmapped.
        if refs[page] == 0 {
          assert Covers(ptr, sz, page) && was[page] == 0;
          return false;
        }
        refs[page] := refs[page] - 1;
        page := page + 1;
      }
      return true;
    }

    // ----- allocation -----

    /** Cuts the rest of a free block off, mapping the new header first. */
    method SplitBlock(pHeader: int, sz: nat, ghost i: nat)
      requires Shaped() && i < |blocks| && pHeader == blocks[i].at && blocks[i].free
      requires Splits(blocks[i], sz) && sz % 4 == 0
      modifies this, refs
      ensures Counted() && Spaced(blocks)
      ensures blocks == Split(old(blocks), i, sz)
      ensures refs[..] == Use(old(refs[..]), pHeader + HEADER + sz, HEADER)
      ensures old(Valid()) ==> Represents(mem, blocks) && KeptLive(old(mem), mem, old(blocks))
    {
      hide Field, SetField, Mark, Wiped, Users, Accounted, Spaced, Represents, KeptLive, Coalesced;
      Inside(blocks, i);
      var pNewHdr := pHeader + HEADER + sz;
      ghost var was := refs[..];
      UseMemoryRegion(pNewHdr, HEADER);
      if old(Valid()) {
        WipedKeeps(old(mem), was, PageOf(pNewHdr), PageOf(pNewHdr + HEADER) + 1, blocks, blocks);
      }
      ghost var m := mem;
      mem := Mark(mem, pNewHdr, true);
      mem := SetField(mem, pNewHdr, LENGTH, Field(mem, pHeader, LENGTH) - HEADER - sz);
      mem := SetField(mem, pHeader, LENGTH, sz);
      mem := SetField(mem, pNewHdr, NEXT, Field(mem, pHeader, NEXT));
      if Field(mem, pHeader, NEXT) != 0 {
        mem := SetField(mem, Field(mem, pHeader, NEXT), PREV, pNewHdr);
      }
      mem := SetField(mem, pNewHdr, PREV, pHeader);
      mem := SetField(mem, pHeader, NEXT, pNewHdr);
      assert mem == SplitMemory(m, pHeader, pNewHdr, sz);
      SplitSpaces(blocks, i, sz);
      if old(Valid()) {
        SplitRepresents(m, blocks, i, sz);
        SplitKeepsLive(m, blocks, i, sz);
        KeptTwice(old(mem), m, mem, blocks, blocks, blocks);
      }
      blocks := Split(blocks, i, sz);
    }

    /** Puts a new block after the last one, at whose header the list ends. */
    method ExtendList(pLastHeader: int, pNewHdr: int, sz: nat)
      requires Shaped() && blocks != [] && pLastHeader == blocks[|blocks| - 1].at && pNewHdr == Tip(blocks)
      requires pNewHdr + sz < LIMIT
      modifies this, refs
      ensures Counted() && blocks == Extended(old(blocks), sz)
      ensures refs[..] == Use(Use(old(refs[..]), pNewHdr, HEADER), pNewHdr, sz + HEADER)
      ensures old(Valid()) && Placeable(old(blocks), sz) && Roomy(old(refs[..]), pNewHdr, HEADER) ==>
        Represents(mem, blocks) && KeptLive(old(mem), mem, old(blocks))
    {
      hide Field, SetField, Mark, Wiped, Users, Accounted, Spaced, Represents, KeptLive, Coalesced, Roomy;
      Inside(blocks, |blocks| - 1);
      ghost var was, bs := refs[..], blocks;
      UseMemoryRegion(pNewHdr, HEADER);
      if old(Valid()) {
        WipedKeeps(old(mem), was, PageOf(pNewHdr), PageOf(pNewHdr + HEADER) + 1, bs, bs);
      }
      ghost var m1 := mem;
      mem := Mark(mem, pNewHdr, false);
      mem := SetField(mem, pNewHdr, PREV, pLastHeader);
      mem := SetField(mem, pNewHdr, NEXT, 0);
      mem := SetField(mem, pLastHeader, NEXT, pNewHdr);
      mem := SetField(mem, pNewHdr, LENGTH, sz);
      ghost var m2, used := mem, refs[..];
      assert m2 == ExtendMemory(m1, pLastHeader, pNewHdr, sz);
      if old(Valid()) { ExtendRepresents(m1, bs, sz); }
      blocks := Extended(bs, sz);
      UseMemoryRegion(pNewHdr, sz + HEADER);
      if old(Valid()) && Placeable(bs, sz) && Roomy(was, pNewHdr, HEADER) {
        HeaderAdded(was, bs, sz);
        WipedKeeps(m2, used, PageOf(pNewHdr), PageOf(pNewHdr + sz + HEADER) + 1, FreeEnd(bs, sz), blocks);
        KeptTwice(old(mem), m1, m2, bs, bs, bs);
        KeptTwice(old(mem), m2, mem, bs, FreeEnd(bs, sz), bs);
      }
    }

    /** Marks a block used and references its first sz bytes. */
    method GrantBlock(pHeader: int, sz: nat, ghost i: nat)
      requires Counted() && Spaced(blocks) && i < |blocks| && pHeader == blocks[i].at && Fits(blocks[i], sz)
      modifies this, refs
      ensures Counted() && Spaced(blocks)
      ensures blocks == Take(old(blocks), i) && refs[..] == Use(old(refs[..]), pHeader, sz + HEADER)
      ensures old(Represents(mem, blocks) && Accounted(refs[..], blocks)) ==>
        Represents(mem, blocks) && KeptLive(old(mem), mem, old(blocks))
    {
      hide Field, Mark, Wiped, Users, Accounted, Spaced, Represents, KeptLive, Coalesced;
      Inside(blocks, i);
      ghost var was, bs := refs[..], blocks;
      mem := Mark(mem, pHeader, false);
      ghost var m := mem;
      blocks := Take(blocks, i);
      TakeSpaces(bs, i);
      UseMemoryRegion(pHeader, sz + HEADER);
      if old(Represents(mem, blocks) && Accounted(refs[..], blocks)) {
        MarkRepresents(old(mem), bs, i, false);
        MarkKeepsPayloads(old(mem), bs, i, false);
        WipedKeeps(m, was, PageOf(pHeader), PageOf(pHeader + sz + HEADER) + 1, bs, blocks);
        KeptTwice(old(mem), m, mem, bs, bs, bs);
      }
    }

    predicate IsFree(pHeader: int)
      reads this
    {
      Field(mem, pHeader, MAGIC_1) == 0
    }

    /** Whether an address lies in the arena and holds the two magic numbers of a header. */
    predicate Sane(pHeader: int)
      reads this
    {
      && BASE <= pHeader < LIMIT
      && Field(mem, pHeader, MAGIC_1) in {Wrap(FREE_1), Wrap(USED_1)}
      && Field(mem, pHeader, MAGIC_2) in {Wrap(FREE_2), Wrap(USED_2)}
    }

    /** What the header of block i holds. */
    lemma ReadHeader(i: nat)
      requires Shaped() && i < |blocks|
      ensures var h := blocks[i].at;
        && Sane(h) && (IsFree(h) <==> blocks[i].free) && Field(mem, h, LENGTH) == blocks[i].size
        && Field(mem, h, NEXT) == NextOf(blocks, i) && Field(mem, h, PREV) == PrevOf(blocks, i)
        && 0 < h && blocks[i].size >= 0
        && (Field(mem, h, MAGIC_2) == Wrap(FREE_2) <==> blocks[i].free)
    {
      hide Field, Spaced, Coalesced, Represents;
      HeaderReads(mem, blocks, i);
    }

    /** Allocates in the free block at an address, leaving the rest of it free when that is worth a header. */
    method TakeFit(pHeader: int, sz: nat, ghost i: nat)
      requires Shaped() && i < |blocks| && pHeader == blocks[i].at && Fits(blocks[i], sz) && sz % 4 == 0
      modifies this, refs
      ensures Counted() && Spaced(blocks) && Coalesced(blocks)
      ensures State() == Grant(old(blocks), old(refs[..]), i, sz)
      ensures old(Valid()) && (Low(old(refs[..])) || Covered(old(blocks), old(refs[..]), i, sz)) ==>
        Represents(mem, blocks) && KeptLive(old(mem), mem, old(blocks))
    {
      hide Field, Users, Accounted, Spaced, Represents, KeptLive, Coalesced, Live, Roomy, Low, Spare;
      LowIsRoomy(refs[..], pHeader + HEADER + sz);
      ReadHeader(i);
      CarveKeeps(blocks, i, sz);
      ghost var was, bs, m := refs[..], blocks, mem;
      ghost var n := pHeader + HEADER + sz;
      if Field(mem, pHeader, LENGTH) >= sz + HEADER + TOLERANCE {
        SplitBlock(pHeader, sz, i);
        ghost var m1 := mem;
        GrantBlock(pHeader, sz, i);
        if old(Valid()) && Roomy(was, n, HEADER) {
          SplitAccounted(was, bs, i, sz);
          SplitSameLive(bs, i, sz);
          KeptTwice(m, m1, mem, bs, Split(bs, i, sz), bs);
        }
      } else {
        GrantBlock(pHeader, sz, i);
      }
    }

    /** When nothing fits: a block after the last one, unless its end is beyond the limit. */
    method AllocateAtEnd(pLastHeader: int, size: nat) returns (r: Reply)
      requires Shaped() && 0 < size < TWO32 && blocks != [] && pLastHeader == blocks[|blocks| - 1].at
      requires FirstFit(blocks, Pad(size), 0) == |blocks|
      modifies this, refs
      ensures r.Pointer? || r.Null? || r.Leaves?
      ensures r.Pointer? <==> old(Fulfilled(State(), size))
      ensures r.Leaves? <==> Allocate(old(State()), size).Lost?
      ensures !r.Leaves? ==> State() == Allocate(old(State()), size)
      ensures r.Pointer? ==> r.at == Site(old(blocks), Pad(size)) + HEADER
      ensures !r.Pointer? ==> State() == old(State()) && Shaped() && mem == old(mem) && mapped == old(mapped)
      ensures old(Valid()) && Harmless(old(State()), size) ==> Shaped() && KeptLive(old(mem), mem, old(blocks))
    {
      hide Field, Users, Accounted, Spaced, Represents, KeptLive, Coalesced, Placeable, Extended, Pad;
      KeptSame(mem, blocks);
      var sz := Pad(size);
      ReadHeader(|blocks| - 1);
      var pMem := pLastHeader + HEADER + Field(mem, pLastHeader, LENGTH);
      if (pMem + sz) % TWO32 >= LIMIT {
        return Null;
      }
      if pMem + sz >= LIMIT {
        return Leaves;
      }
      ExtendKeepsIff(blocks, sz);
      LowIsRoomy(refs[..], pMem);
      ExtendList(pLastHeader, pMem, sz);
      return Pointer(pMem + HEADER);
    }

    /** The first block that fits, cut to size if it is much larger. */
    method AllocateMemory(size: nat) returns (r: Reply)
      requires Shaped() && size < TWO32
      modifies this, refs
      ensures r.Pointer? || r.Null? || r.Leaves?
      ensures r.Pointer? <==> old(Fulfilled(State(), size))
      ensures r.Leaves? <==> Allocate(old(State()), size).Lost?
      ensures !r.Leaves? ==> State() == Allocate(old(State()), size)
      ensures r.Pointer? ==> old(blocks) != [] && r.at == Site(old(blocks), Pad(size)) + HEADER
      ensures r.Pointer? ==> Tight(old(State()), State(), Pad(size))
      ensures !r.Pointer? ==> State() == old(State()) && Shaped() && mem == old(mem) && mapped == old(mapped)
      ensures !r.Leaves? && old(Valid()) ==> (Sound(State()) <==> Grantable(old(State()), size))
      ensures old(Valid()) && Harmless(old(State()), size) ==> Shaped() && KeptLive(old(mem), mem, old(blocks))
    {
      hide Field, Users, Accounted, Spaced, Represents, KeptLive, Coalesced, Tiled, Covered, Placeable, Extended, Tight;
      if Valid() { AllocateSound(State(), size); }
      if size > 0 { AllocatesTight(State(), size); }
      Begins(blocks);
      KeptSame(mem, blocks);
      if size == 0 {
        return Null;
      }
      var sz := Pad(size);
      var pHeader, pLastHeader := BASE, 0;
      ghost var i := 0;
      while pHeader != 0
        invariant Shaped() && mem == old(mem) && mapped == old(mapped) && State() == old(State())
        invariant i <= |blocks| && pHeader == (if i < |blocks| then blocks[i].at else 0)
        invariant pLastHeader == (if i > 0 then blocks[i - 1].at else 0)
        invariant i < |blocks| ==> pHeader > 0
        invariant FirstFit(blocks, sz, 0) == FirstFit(blocks, sz, i)
        decreases |blocks| - i
      {
        ReadHeader(i);
        assert Sane(pHeader);
        if IsFree(pHeader) && Field(mem, pHeader, LENGTH) >= sz {
          TakeFit(pHeader, sz, i);
          return Pointer(pHeader + HEADER);
        }
        pLastHeader := pHeader;
        pHeader := Field(mem, pHeader, NEXT);
        i := i + 1;
        if i < |blocks| { ReadHeader(i); }
      }
      r := AllocateAtEnd(pLastHeader, size);
    }

    // ----- release -----

    /** Merges the free block at x, the one after the free block at h, into the latter. */
    method Merge(h: int, x: int, ghost i: nat) returns (ok: bool)
      requires Counted() && Spaced(blocks) && Represents(mem, blocks)
      requires i + 1 < |blocks| && h == blocks[i].at && x == blocks[i + 1].at && blocks[i].free && blocks[i + 1].free
      modifies this, refs
      ensures blocks == Join(old(blocks), i) && Spaced(blocks) && Represents(mem, blocks)
      ensures KeptLive(old(mem), mem, old(blocks)) && Live(blocks) == Live(old(blocks)) && mapped == old(mapped)
      ensures ok <==> Releasable(old(refs[..]), x, 1)
      ensures ok ==> Counted() && refs[..] == Unuse(old(refs[..]), x, 1)
    {
      hide Field, SetField, Spaced, Represents, KeptLive, Coalesced, Releasable, Live;
      Inside(blocks, i + 1);
      mem := SetField(mem, h, LENGTH, Field(mem, h, LENGTH) + Field(mem, x, LENGTH) + HEADER);
      mem := SetField(mem, h, NEXT, Field(mem, x, NEXT));
      if Field(mem, x, NEXT) != 0 {
        mem := SetField(mem, Field(mem, x, NEXT), PREV, h);
      }
      mem := SetField(mem, x, MAGIC_1, 0);
      mem := SetField(mem, x, MAGIC_2, 0);
      assert mem == JoinMemory(old(mem), h, x);
      JoinRepresents(old(mem), blocks, i);
      JoinKeepsPayloads(old(mem), blocks, i);
      JoinSpaces(blocks, i);
      JoinKeepsLive(blocks, i);
      blocks := Join(blocks, i);
      ok := FreeMemoryRegion(x, 1);
    }

    /** Marks a live block free and gives up the pages of all of it. */
    method DropBlock(pHeader: int, ghost i: nat) returns (ok: bool)
      requires Shaped() && i < |blocks| && pHeader == blocks[i].at && !blocks[i].free
      modifies this, refs
      ensures blocks == Drop(old(blocks), i) && Spaced(blocks) && Represents(mem, blocks)
      ensures KeptLive(old(mem), mem, old(blocks)) && mapped == old(mapped)
      ensures ok <==> Releasable(old(refs[..]), pHeader, old(blocks)[i].size + HEADER)
      ensures ok ==> Counted() && refs[..] == Unuse(old(refs[..]), pHeader, old(blocks)[i].size + HEADER)
    {
      hide Field, Mark, Spaced, Represents, KeptLive, Coalesced, Releasable;
      Inside(blocks, i);
      TakeSpaces(blocks, i);
      MarkRepresents(mem, blocks, i, true);
      MarkKeepsPayloads(mem, blocks, i, true);
      mem := Mark(mem, pHeader, true);
      ghost var size := blocks[i].size;
      blocks := Drop(blocks, i);
      HeaderReads(mem, blocks, i);
      ok := FreeMemoryRegion(pHeader, Field(mem, pHeader, LENGTH) + HEADER);
    }

    method MergeWithNext(pHeader: int, ghost i: nat) returns (ok: bool)
      requires Counted() && Spaced(blocks) && Represents(mem, blocks)
      requires i < |blocks| && pHeader == blocks[i].at && blocks[i].free
      modifies this, refs
      ensures ok <==> MergeNext(old(State()), i).Heap?
      ensures ok ==> State() == MergeNext(old(State()), i) && Counted() && Spaced(blocks) && Represents(mem, blocks)
      ensures ok ==> KeptLive(old(mem), mem, old(blocks)) && Live(blocks) == Live(old(blocks)) && mapped == old(mapped)
    {
      hide Field, Spaced, Represents, KeptLive, Coalesced, Releasable, Live;
      KeptSame(mem, blocks);
      HeaderReads(mem, blocks, i);
      var pNext := Field(mem, pHeader, NEXT);
      if pNext != 0 {
        HeaderReads(mem, blocks, i + 1);
        if IsFree(pNext) {
          ok := Merge(pHeader, pNext, i);
          return;
        }
      }
      return true;
    }

    method MergeWithPrev(pHeader: int, ghost i: nat) returns (ok: bool)
      requires Counted() && Spaced(blocks) && Represents(mem, blocks)
      requires i < |blocks| && pHeader == blocks[i].at && blocks[i].free
      modifies this, refs
      ensures ok <==> MergePrev(old(State()), i).Heap?
      ensures ok ==> State() == MergePrev(old(State()), i) && Counted() && Spaced(blocks) && Represents(mem, blocks)
      ensures ok ==> KeptLive(old(mem), mem, old(blocks)) && Live(blocks) == Live(old(blocks)) && mapped == old(mapped)
    {
      hide Field, Spaced, Represents, KeptLive, Coalesced, Releasable, Live;
      KeptSame(mem, blocks);
      HeaderReads(mem, blocks, i);
      var pPrev := Field(mem, pHeader, PREV);
      if pPrev != 0 {
        HeaderReads(mem, blocks, i - 1);
        if IsFree(pPrev) {
          ok := Merge(pPrev, pHeader, i - 1);
          return;
        }
      }
      return true;
    }

    /** Frees a live block and merges it with free neighbours. */
    method GiveBack(pHeader: int, ghost i: nat) returns (ok: bool)
      requires Shaped() && i < |blocks| && pHeader == blocks[i].at && !blocks[i].free
      modifies this, refs
      ensures ok <==> Return(old(State()), i).Heap?
      ensures ok ==> State() == Return(old(State()), i) && Shaped() && KeptLive(old(mem), mem, blocks)
      ensures ok ==> mapped == old(mapped)
    {
      hide Field, Spaced, Represents, KeptLive, Coalesced, Releasable, Live, MergeNext, MergePrev;
      ghost var bs := blocks;
      ReleaseKeeps(blocks, i);
      DropFewerLive(bs, i);
      ok := DropBlock(pHeader, i);
      if !ok {
        Merged(Aborted, i);
        return;
      }
      ghost var m1, b1, h1 := mem, blocks, State();
      Merged(h1, i);
      ok := MergeWithNext(pHeader, i);
      if !ok {
        assert h1 == GiveUp(old(State()), i);
        Merged(Aborted, i);
        return;
      }
      ghost var m2, b2 := mem, blocks;
      KeptTwice(old(mem), m1, m2, bs, b1, b2);
      Merged(State(), i);
      ok := MergeWithPrev(pHeader, i);
      if ok {
        KeptTwice(old(mem), m2, mem, b2, b2, blocks);
      }
    }

    /** Frees a block and merges it with free neighbours; what is recognizably not a live block stops the program. */
    method FreeMemory(pMem: nat) returns (ok: bool)
      requires Shaped()
      requires pMem % 4 == 0 && Sane(pMem - HEADER) ==> exists i :: 0 <= i < |blocks| && blocks[i].at == pMem - HEADER
      modifies this, refs
      ensures ok <==> Deallocate(old(State()), pMem).Heap?
      ensures ok ==> State() == Deallocate(old(State()), pMem) && Shaped() && KeptLive(old(mem), mem, blocks)
      ensures ok ==> mapped == old(mapped)
    {
      hide Field, Spaced, Represents, KeptLive, Coalesced, Releasable, Live, Return;
      if pMem == 0 {
        KeptSame(mem, blocks);
        return true;
      }
      ghost var i := IndexOf(blocks, pMem - HEADER, 0);
      if pMem % 4 != 0 {
        if i < |blocks| { AlignedAt(blocks, i); }
        return false;
      }
      var pHeader := pMem - HEADER;
      if !Sane(pHeader) {
        if i < |blocks| { ReadHeader(i); }
        return false;
      }
      ghost var k :| 0 <= k < |blocks| && blocks[k].at == pHeader;
      IndexFinds(blocks, k);
      ReadHeader(i);
      if IsFree(pHeader) && Field(mem, pHeader, MAGIC_2) == Wrap(FREE_2) {
        return false;
      }
      ok := GiveBack(pHeader, i);
    }

    // ----- the program's calls -----

    lemma ValidIsSound()
      requires Valid()
      ensures Sound(State())
    {
    }

    /** A block of at least sz bytes, its first sz bytes scrubbed. */
    method Malloc(sz: nat) returns (r: Reply)
      requires Shaped() && sz < TWO32
      modifies this, refs
      ensures r.Pointer? || r.Overruns? <==> old(Fulfilled(State(), sz))
      ensures !r.Aborts? && !r.Strays? && (r.Overruns? ==> sz > TWO32 - 4)
      ensures r.Leaves? <==> Allocate(old(State()), sz).Lost?
      ensures if r.Leaves? then State() == old(State()) else State() == Allocate(old(State()), sz)
      ensures r.Pointer? ==> old(blocks) != [] && r.at == Site(old(blocks), Pad(sz)) + HEADER
      ensures r.Null? ==> State() == old(State())
      ensures r.Pointer? ==> forall a :: r.at <= a < r.at + sz ==> Read(mem, a) == 0x69
      ensures !r.Leaves? && old(Valid()) ==> (Sound(State()) <==> Grantable(old(State()), sz))
      ensures !r.Overruns? && old(Valid()) && Harmless(old(State()), sz) ==> Shaped() && KeptLive(old(mem), mem, old(blocks))
    {
      hide Spaced, Represents, KeptLive, Coalesced, Users, Covered, Fill, Accounted, Pad, Harmless, Fulfilled, Sound;
      if Valid() { ValidIsSound(); }
      r := AllocateMemory(sz);
      PadUp(sz);
      if r.Pointer? {
        if sz > Pad(sz) {
          return Overruns;
        }
        if old(Valid()) && Harmless(old(State()), sz) {
          FilledKeeps(old(mem), old(State()), mem, sz, sz, 0x69);
        }
        FillFrame(mem, r.at, sz, 0x69);
        mem := Fill(mem, r.at, sz, 0x69);
      }
    }

    /** A block for the product of the arguments, as it is in 32 bits, filled with zeros. */
    method Calloc(nmemb: nat, size: nat) returns (r: Reply)
      requires Shaped()
      modifies this, refs
      ensures var sz := nmemb * size % TWO32;
        && (r.Pointer? || r.Overruns? <==> old(Fulfilled(State(), nmemb * size % TWO32)))
        && !r.Aborts? && !r.Strays? && (r.Overruns? ==> sz > TWO32 - 4)
        && (r.Leaves? <==> Allocate(old(State()), sz).Lost?)
        && (r.Null? ==> State() == old(State()))
        && (if r.Leaves? then State() == old(State()) else State() == Allocate(old(State()), sz))
        && (r.Pointer? ==> old(blocks) != [] && r.at == Site(old(blocks), Pad(sz)) + HEADER)
        && (r.Pointer? ==> forall a :: r.at <= a < r.at + sz ==> Read(mem, a) == 0)
        && (!r.Leaves? && old(Valid()) ==> (Sound(State()) <==> Grantable(old(State()), sz)))
        && (!r.Overruns? && old(Valid()) && Harmless(old(State()), sz) ==> Shaped() && KeptLive(old(mem), mem, old(blocks)))
    {
      hide Spaced, Represents, KeptLive, Coalesced, Users, Covered, Fill, Accounted, Pad, Harmless, Fulfilled, Sound;
      var sz := nmemb * size % TWO32;
      if Valid() { ValidIsSound(); }
      r := AllocateMemory(sz);
      PadUp(sz);
      if r.Pointer? {
        if sz > Pad(sz) {
          return Overruns;
        }
        if old(Valid()) && Harmless(old(State()), sz) {
          FilledKeeps(old(mem), old(State()), mem, sz, sz, 0);
        }
        FillFrame(mem, r.at, sz, 0);
        mem := Fill(mem, r.at, sz, 0);
      }
    }

    /** Gives a live block a smaller size in place; the bytes behind it stay unused. */
    method ShrinkBlock(pHeader: int, size: nat, ghost i: nat) returns (ok: bool)
      requires Valid() && i < |blocks| && pHeader == blocks[i].at && !blocks[i].free && size < blocks[i].size
      modifies this, refs
      ensures ok <==> Narrow(old(State()), i, size).Heap?
      ensures ok ==> State() == Narrow(old(State()), i, size) && Valid() && KeptLive(old(mem), mem, old(blocks))
    {
      hide Field, SetField, Spaced, Represents, KeptLive, Coalesced, Releasable, Accounted, Users, Wiped, Roomy;
      Inside(blocks, i);
      NarrowSound(State(), i, size);
      ghost var was := refs[..];
      HeaderReads(mem, blocks, i);
      UseMemoryRegion(pHeader, size + HEADER);
      WipedKeeps(old(mem), was, PageOf(pHeader), PageOf(pHeader + size + HEADER) + 1, blocks, blocks);
      HeaderReads(mem, blocks, i);
      ok := FreeMemoryRegion(pHeader, Field(mem, pHeader, LENGTH) + HEADER);
      if ok {
        ghost var m := mem;
        mem := SetField(mem, pHeader, LENGTH, size);
        ShrinkRepresents(m, blocks, i, size);
        KeptTwice(old(mem), m, mem, blocks, blocks, blocks);
        blocks := Shrink(blocks, i, size);
      }
    }

    /** Moves a live block to a larger one, if there is one. */
    method Relocate(pMem: nat, size: nat, ghost i: nat) returns (r: Reply)
      requires Valid() && size < TWO32 && (Low(refs[..]) || Grantable(State(), size))
      requires i < |blocks| && !blocks[i].free && pMem == Payload(blocks[i]) && size > blocks[i].size
      modifies this, refs
      ensures r.Null? || r.Leaves? <==> !old(Fulfilled(State(), size))
      ensures r.Leaves? <==> Allocate(old(State()), size).Lost?
      ensures r.Null? ==> !Served(old(blocks), Pad(size))
      ensures r.Overruns? <==> old(Fulfilled(State(), size)) && size > TWO32 - 4
      ensures r.Strays? ==> old(Expands(blocks, Pad(size)) && !Placeable(blocks, Pad(size)))
      ensures r.Aborts? ==> Deallocate(Allocate(old(State()), size), pMem).Aborted?
      ensures r.Pointer? ==> State() == Deallocate(Allocate(old(State()), size), pMem) && Shaped()
      ensures r.Pointer? ==> r.at == Site(old(blocks), Pad(size)) + HEADER
      ensures r.Pointer? ==> Moved(old(mem), old(blocks), pMem, mem, r.at, old(blocks)[i].size)
      ensures r.Null? || r.Leaves? ==> State() == old(State()) && Valid() && mem == old(mem)
    {
      hide Field, Spaced, Represents, KeptLive, Coalesced, Users, Covered, Copy, Accounted, Pad, Grantable, Read, Allocate,
        Deallocate, Live, Low;
      ghost var h, m0, b := State(), mem, blocks[i];
      HeaderReads(mem, blocks, i);
      Unallocated(h, size);
      r := AllocateMemory(size);
      PadUp(size);
      if !r.Pointer? {
        if r.Null? { NotServed(h, size); }
        return;
      }
      AllocatedAt(h, size);
      if size > Pad(size) {
        return Overruns;
      }
      PlacedInArena(h, size);
      if r.at % 4 != 0 || r.at + Pad(size) > LIMIT {
        return Strays;
      }
      ghost var j := OldBlock(h, size, i);
      HeaderReads(mem, blocks, j);
      LiveMember(h.blocks, i);
      CopiedKeeps(m0, h, mem, size, b);
      mem := Copy(mem, r.at, pMem, Field(mem, pMem - HEADER, LENGTH));
      ghost var m := mem;
      ghost var c := blocks;
      var ok := FreeMemory(pMem);
      if !ok {
        return Aborts;
      }
      IndexFinds(c, j);
      DeallocatedLive(Allocate(h, size), pMem);
      MovedHolds(m0, m, mem, h, size, i, j, blocks);
    }

    /** Resizes the block at a pointer: in place when it shrinks, by moving it when it grows. */
    method ReAllocateMemory(pMem: nat, size: nat) returns (r: Reply)
      requires Valid() && size < TWO32 && pMem != 0
      requires Sane(pMem - HEADER) ==> Owned(State(), pMem)
      requires Grows(State(), pMem, size) ==> Low(refs[..]) || Grantable(State(), size)
      modifies this, refs
      ensures r.Aborts? ==> Resize(old(State()), pMem, size).Aborted?
      ensures r.Pointer? ==> State() == Resize(old(State()), pMem, size) && Shaped()
      ensures r.Pointer? ==> exists b :: (
        && b in Live(old(blocks)) && Payload(b) == pMem
        && Moved(old(mem), old(blocks), pMem, mem, r.at, if size < b.size then size else b.size))
      ensures r.Null? || r.Leaves? ==> State() == old(State()) && Valid() && mem == old(mem)
      ensures r.Null? ==> !Served(old(blocks), Pad(size))
      ensures r.Leaves? ==> Allocate(State(), size).Lost?
      ensures r.Strays? ==> old(Expands(blocks, Pad(size)) && !Placeable(blocks, Pad(size)))
      ensures r.Overruns? ==> size > TWO32 - 4
    {
      hide Field, Spaced, Represents, KeptLive, Coalesced, Users, Covered, Copy, Accounted, Pad, Grantable, Read,
        Allocate, Deallocate, Low, Narrow, Moved;
      var pHeader := pMem - HEADER;
      OwnedIndex(State(), pMem);
      ghost var i := IndexOf(blocks, pHeader, 0);
      if !Sane(pHeader) {
        if i < |blocks| { ReadHeader(i); }
        return Aborts;
      }
      HeaderReads(mem, blocks, i);
      LiveMember(blocks, i);
      if size == Field(mem, pHeader, LENGTH) {
        MovedNowhere(mem, mem, blocks, i, size);
        KeptSame(mem, blocks);
        return Pointer(pMem);
      }
      if size < Field(mem, pHeader, LENGTH) {
        var ok := ShrinkBlock(pHeader, size, i);
        if !ok {
          return Aborts;
        }
        MovedNowhere(old(mem), mem, old(blocks), i, size);
        return Pointer(pMem);
      }
      Unallocated(State(), size);
      r := Relocate(pMem, size, i);
    }

    /** The program's realloc: without a block it allocates one. */
    method Realloc(ptr: nat, size: nat) returns (r: Reply)
      requires Valid() && size < TWO32
      requires ptr != 0 && Sane(ptr - HEADER) ==> Owned(State(), ptr)
      requires ptr == 0 || Grows(State(), ptr, size) ==> Low(refs[..]) || Grantable(State(), size)
      modifies this, refs
      ensures r.Aborts? ==> Resize(old(State()), ptr, size).Aborted?
      ensures r.Pointer? ==> State() == Resize(old(State()), ptr, size)
      ensures r.Pointer? && (ptr != 0 || Harmless(old(State()), size)) ==> Shaped()
      ensures r.Pointer? && ptr != 0 ==> exists b :: (
        && b in Live(old(blocks)) && Payload(b) == ptr
        && Moved(old(mem), old(blocks), ptr, mem, r.at, if size < b.size then size else b.size))
      ensures r.Null? || r.Leaves? ==> State() == old(State())
    {
      hide Sane, Spaced, Represents, KeptLive, Coalesced, Accounted, Pad, Grantable, Allocate, Deallocate, Low, Moved, Expands;
      Unallocated(State(), size);
      if ptr == 0 {
        r := Malloc(size);
        return;
      }
      r := ReAllocateMemory(ptr, size);
    }
  }
}
