// The user heap over whole runs: the block list together with the page counts.

module Arena {
  import opened Words
  import opened Blocks
  import opened Pages

  /**
   * The heap; or the program stopped because a page was released more often than it was used; or lost, after a
   * request so large that its end wrapped around and its pages are not in the page table. A lost run is not followed.
   */
  datatype Heap = Heap(blocks: seq<Block>, refs: seq<int>) | Aborted | Lost

  datatype Call = Malloc(size: nat) | Free(at: int) | Realloc(at: int, size: nat)

  /** Invariant of every run. */
  ghost predicate Sound(h: Heap) {
    h.Heap? && Spaced(h.blocks) && Coalesced(h.blocks) && Accounted(h.refs, h.blocks)
  }

  // ----- one call -----

  /** Allocation of sz bytes in block i. */
  function Grant(bs: seq<Block>, refs: seq<int>, i: nat, sz: nat): (r: Heap)
    requires i < |bs|
    ensures r.Heap?
  {
    var at := bs[i].at;
    if Splits(bs[i], sz) then
      Heap(Take(Split(bs, i, sz), i), Use(Use(refs, at + HEADER + sz, HEADER), at, sz + HEADER))
    else
      Heap(Take(bs, i), Use(refs, at, sz + HEADER))
  }

  /** The list extended by a block of sz bytes after the last one. */
  function Extend(bs: seq<Block>, refs: seq<int>, sz: nat): Heap
    requires bs != []
  {
    var at := Tip(bs);
    if at + sz >= LIMIT then Lost
    else Heap(Extended(bs, sz), Use(Use(refs, at, HEADER), at, sz + HEADER))
  }

  /** A request for sz bytes: the first block that fits, or else a block after the last one, or else nothing. */
  function Allocate(h: Heap, sz: nat): (r: Heap)
    ensures r.Aborted? ==> h.Aborted?
  {
    if !h.Heap? || sz == 0 then h
    else
      var i := FirstFit(h.blocks, Pad(sz), 0);
      if i < |h.blocks| then Grant(h.blocks, h.refs, i, Pad(sz))
      else if Expands(h.blocks, Pad(sz)) then Extend(h.blocks, h.refs, Pad(sz))
      else h
  }

  ghost function Released(h: Heap, at: int, sz: int): (r: Heap)
    ensures !r.Lost?
  {
    if h.Heap? && Releasable(h.refs, at, sz) then h.(refs := Unuse(h.refs, at, sz)) else Aborted
  }

  ghost function GiveUp(h: Heap, i: nat): (r: Heap)
    requires h.Heap? ==> i < |h.blocks|
    ensures r.Lost? ==> h.Lost?
  {
    if !h.Heap? then h
    else
      var b := h.blocks[i];
      var r := Released(h, b.at, b.size + HEADER);
      if r.Aborted? then r else r.(blocks := Drop(h.blocks, i))
  }

  ghost function MergeNext(h: Heap, i: nat): (r: Heap)
    ensures r.Lost? ==> h.Lost?
  {
    if !h.Heap? || i + 1 >= |h.blocks| || !h.blocks[i + 1].free then h
    else
      var r := Released(h, h.blocks[i + 1].at, 1);
      if r.Aborted? then r else r.(blocks := Join(h.blocks, i))
  }

  ghost function MergePrev(h: Heap, i: nat): (r: Heap)
    ensures r.Lost? ==> h.Lost?
  {
    if !h.Heap? || i == 0 || i >= |h.blocks| || !h.blocks[i - 1].free then h
    else
      var r := Released(h, h.blocks[i].at, 1);
      if r.Aborted? then r else r.(blocks := Join(h.blocks, i - 1))
  }

  /** Block i is given up and merged with free neighbours. */
  ghost function Return(h: Heap, i: nat): (r: Heap)
    requires h.Heap? ==> i < |h.blocks|
    ensures r.Lost? ==> h.Lost?
  {
    MergePrev(MergeNext(GiveUp(h, i), i), i)
  }

  /** Freeing a pointer; anything but the payload of a live block stops the program. */
  ghost function Deallocate(h: Heap, at: int): (r: Heap)
    ensures r.Lost? ==> h.Lost?
  {
    if !h.Heap? || at == 0 then h
    else
      var i := IndexOf(h.blocks, at - HEADER, 0);
      if i < |h.blocks| && !h.blocks[i].free then Return(h, i) else Aborted
  }

  ghost function Narrow(h: Heap, i: nat, sz: nat): (r: Heap)
    requires h.Heap? && i < |h.blocks|
    ensures !r.Lost?
  {
    var b := h.blocks[i];
    var r := Released(h.(refs := Use(h.refs, b.at, sz + HEADER)), b.at, b.size + HEADER);
    if r.Aborted? then r else r.(blocks := Shrink(h.blocks, i, sz))
  }

  /** Resizing the block at a pointer: in place when it shrinks, by a move when it grows. Nobody asks whether it is live. */
  ghost function Resize(h: Heap, at: int, sz: nat): Heap {
    if !h.Heap? then h
    else if at == 0 then Allocate(h, sz)
    else
      var i := IndexOf(h.blocks, at - HEADER, 0);
      if i >= |h.blocks| then Aborted
      else if sz == h.blocks[i].size then h
      else if sz < h.blocks[i].size then Narrow(h, i, sz)
      else if !Served(h.blocks, Pad(sz)) then h
      else Deallocate(Allocate(h, sz), at)
  }

  ghost function After(h: Heap, c: Call): Heap {
    match c
    case Malloc(sz) => Allocate(h, sz)
    case Free(at) => Deallocate(h, at)
    case Realloc(at, sz) => Resize(h, at, sz)
  }

  ghost function Run(h: Heap, cs: seq<Call>): Heap
    decreases |cs|
  {
    if cs == [] then h else Run(After(h, cs[0]), cs[1..])
  }

  // ----- which calls keep the counts right -----

  /** No counter wraps. */
  ghost predicate Unwrapped(bs: seq<Block>, refs: seq<int>, i: nat, sz: nat)
    requires i < |bs|
  {
    var at := bs[i].at;
    if Splits(bs[i], sz) then
      Roomy(refs, at + HEADER + sz, HEADER) && Roomy(Use(refs, at + HEADER + sz, HEADER), at, sz + HEADER)
    else Roomy(refs, at, sz + HEADER)
  }

  /** No counter wraps, and a page that the request leaves out has a reference to spare. */
  ghost predicate Covered(bs: seq<Block>, refs: seq<int>, i: nat, sz: nat)
    requires i < |bs| && |refs| == PAGES + 1
  {
    Unwrapped(bs, refs, i, sz) && (!Splits(bs[i], sz) ==> Spare(refs, bs, i, sz))
  }

  /** The counts cover the users after an allocation exactly under this condition. */
  lemma GrantAccounted(bs: seq<Block>, refs: seq<int>, i: nat, sz: nat)
    requires Accounted(refs, bs) && i < |bs| && Fits(bs[i], sz)
    ensures var h := Grant(bs, refs, i, sz); Accounted(h.refs, h.blocks) <==> Covered(bs, refs, i, sz)
  {
    hide Users, Accounted;
    var at := bs[i].at;
    if Splits(bs[i], sz) {
      SplitAccounted(refs, bs, i, sz);
      var s, r := Split(bs, i, sz), Use(refs, at + HEADER + sz, HEADER);
      if Accounted(r, s) {
        TakeAccounted(r, s, i, sz);
      } else {
        WrappedStays(bs, refs, i, sz);
      }
    } else {
      TakeAccounted(refs, bs, i, sz);
    }
  }

  /** A counter that wrapped in the first half of an allocation does not recover in the second. */
  lemma WrappedStays(bs: seq<Block>, refs: seq<int>, i: nat, sz: nat)
    requires Accounted(refs, bs) && i < |bs| && Fits(bs[i], sz) && Splits(bs[i], sz)
    requires !Roomy(refs, bs[i].at + HEADER + sz, HEADER)
    ensures var h := Grant(bs, refs, i, sz); !Accounted(h.refs, h.blocks)
  {
    hide Users, Fits, Splits;
    var b := bs[i];
    var a := b.at + HEADER + sz;
    var p :| 0 <= p < |refs| && Covers(a, HEADER, p) && refs[p] == WRAP - 1;
    var s := Split(bs, i, sz);
    assert s[i] == b.(size := sz) && b.free by { FitsFree(b, sz); }
    UsersOfSplit(bs, i, sz, p);
    UsersSwap(s, i, s[i].(free := false), p);
    assert Users(Take(s, i), p) == Users(bs, p) + 1 + Bit(Covers(b.at, sz + HEADER, p));
    var used := Use(refs, a, HEADER);
    assert used[p] == 0;
    assert Use(used, b.at, sz + HEADER)[p] == Bit(Covers(b.at, sz + HEADER, p));
  }

  lemma FitsFree(b: Block, sz: nat)
    requires Fits(b, sz)
    ensures b.free
  {
  }

  /** Giving up a live block of a sound heap never aborts, and the list is that of a release. */
  lemma ReturnSound(h: Heap, i: nat)
    requires Sound(h) && i < |h.blocks| && !h.blocks[i].free
    ensures Sound(Return(h, i)) && Return(h, i).blocks == Release(h.blocks, i)
  {
    hide Users, Accounted, Spaced, Coalesced;
    DropAccounted(h.refs, h.blocks, i);
    var g := GiveUp(h, i);
    if i + 1 < |g.blocks| && g.blocks[i + 1].free { JoinAccounted(g.refs, g.blocks, i); }
    var m := MergeNext(g, i);
    if i > 0 && m.blocks[i - 1].free { JoinAccounted(m.refs, m.blocks, i - 1); }
    ReleaseKeeps(h.blocks, i);
  }

  /** Shrinking in place: the program goes on exactly when no counter wraps. */
  lemma NarrowSound(h: Heap, i: nat, sz: nat)
    requires Sound(h) && i < |h.blocks| && !h.blocks[i].free && sz < h.blocks[i].size
    ensures Sound(Narrow(h, i, sz)) <==> Roomy(h.refs, h.blocks[i].at, sz + HEADER)
    ensures Narrow(h, i, sz).Heap? <==> Roomy(h.refs, h.blocks[i].at, sz + HEADER)
    ensures Narrow(h, i, sz).Heap? ==> Narrow(h, i, sz).blocks == Shrink(h.blocks, i, sz)
  {
    hide Spaced, Coalesced, Accounted, Users;
    ShrinkKeeps(h.blocks, i, sz);
    if Roomy(h.refs, h.blocks[i].at, sz + HEADER) {
      NarrowAccounted(h.blocks, h.refs, i, sz);
    } else {
      NarrowWraps(h.blocks, h.refs, i, sz);
    }
  }

  lemma NarrowAccounted(bs: seq<Block>, refs: seq<int>, i: nat, sz: nat)
    requires Accounted(refs, bs) && i < |bs| && !bs[i].free && sz < bs[i].size
    requires Roomy(refs, bs[i].at, sz + HEADER)
    ensures var used := Use(refs, bs[i].at, sz + HEADER);
      && Releasable(used, bs[i].at, bs[i].size + HEADER)
      && Accounted(Unuse(used, bs[i].at, bs[i].size + HEADER), Shrink(bs, i, sz))
  {
    hide Users;
    var b := bs[i];
    var used := Use(refs, b.at, sz + HEADER);
    var n := Unuse(used, b.at, b.size + HEADER);
    forall p | 0 <= p <= PAGES
      ensures Covers(b.at, b.size + HEADER, p) ==> used[p] > 0
      ensures Users(Shrink(bs, i, sz), p) <= n[p] && 0 <= n[p] < WRAP
    {
      NarrowPage(bs, refs, i, sz, p);
    }
  }

  lemma NarrowPage(bs: seq<Block>, refs: seq<int>, i: nat, sz: nat, p: int)
    requires Accounted(refs, bs) && i < |bs| && !bs[i].free && sz < bs[i].size && 0 <= p <= PAGES
    requires Roomy(refs, bs[i].at, sz + HEADER)
    ensures var b := bs[i]; var used := Use(refs, b.at, sz + HEADER);
      && (Covers(b.at, b.size + HEADER, p) ==> used[p] > 0)
      && Users(Shrink(bs, i, sz), p) <= used[p] - Bit(Covers(b.at, b.size + HEADER, p)) < WRAP
  {
    hide Users;
    var b := bs[i];
    assert PageOf(b.at + sz + HEADER) <= PageOf(b.at + b.size + HEADER);
    UsersSwap(bs, i, b.(size := sz), p);
    UsersAtLeast(bs, i, p);
    assert Users(bs, p) <= refs[p] < WRAP;
  }

  lemma NarrowWraps(bs: seq<Block>, refs: seq<int>, i: nat, sz: nat)
    requires i < |bs| && sz < bs[i].size && !Roomy(refs, bs[i].at, sz + HEADER)
    ensures !Releasable(Use(refs, bs[i].at, sz + HEADER), bs[i].at, bs[i].size + HEADER)
  {
    var b := bs[i];
    var p :| 0 <= p < |refs| && Covers(b.at, sz + HEADER, p) && refs[p] == WRAP - 1;
    assert PageOf(b.at + sz + HEADER) <= PageOf(b.at + b.size + HEADER);
    assert Covers(b.at, b.size + HEADER, p) && Use(refs, b.at, sz + HEADER)[p] == 0;
  }

  /** In an ordered list a header address identifies its block. */
  lemma IndexFinds(bs: seq<Block>, j: nat)
    requires Spaced(bs) && j < |bs|
    ensures IndexOf(bs, bs[j].at, 0) == j
  {
    var k := IndexOf(bs, bs[j].at, 0);
    if k != j { Disjoint(bs, k, j); }
  }

  /** Whether a pointer is the payload of a live block. */
  ghost predicate Owned(h: Heap, at: int) {
    h.Heap? && exists b :: b in Live(h.blocks) && Payload(b) == at
  }

  lemma OwnedIndex(h: Heap, at: int)
    requires Sound(h)
    ensures var i := IndexOf(h.blocks, at - HEADER, 0);
      Owned(h, at) <==> i < |h.blocks| && !h.blocks[i].free
  {
    if Owned(h, at) {
      var b :| b in Live(h.blocks) && Payload(b) == at;
      var j :| 0 <= j < |h.blocks| && h.blocks[j] == b;
      IndexFinds(h.blocks, j);
    }
    var i := IndexOf(h.blocks, at - HEADER, 0);
    if i < |h.blocks| && !h.blocks[i].free {
      assert h.blocks[i] in Live(h.blocks);
    }
  }

  /** A block after the last one is aligned and in the arena, and no counter wraps. */
  ghost predicate Extendable(bs: seq<Block>, refs: seq<int>, sz: nat)
    requires bs != []
  {
    var a := Tip(bs);
    Placeable(bs, sz) && Roomy(refs, a, HEADER) && Roomy(Use(refs, a, HEADER), a, sz + HEADER)
  }

  /** The condition under which a request keeps the heap sound. */
  ghost predicate Grantable(h: Heap, sz: nat)
    requires h.Heap? && |h.refs| == PAGES + 1
  {
    var i := FirstFit(h.blocks, Pad(sz), 0);
    && (sz > 0 && i < |h.blocks| ==> Covered(h.blocks, h.refs, i, Pad(sz)))
    && (sz > 0 && Expands(h.blocks, Pad(sz)) ==> Extendable(h.blocks, h.refs, Pad(sz)))
  }

  /**
   * Malloc keeps the invariant exactly when no counter wraps, a page that a block given without splitting it is not
   * referenced for has a reference to spare, and a block after the last one is aligned and in the arena.
   */
  lemma AllocateSound(h: Heap, sz: nat)
    requires Sound(h)
    ensures Sound(Allocate(h, sz)) <==> Grantable(h, sz)
    ensures !Allocate(h, sz).Aborted?
    ensures Tiled(h.blocks) && Allocate(h, sz).Heap? ==> Tiled(Allocate(h, sz).blocks)
    ensures Allocate(h, sz).Heap? ==> Live(h.blocks) <= Live(Allocate(h, sz).blocks)
  {
    hide Users, Accounted, Spaced, Coalesced, Tiled, Live, Placeable, Covered, Extended;
    var i := FirstFit(h.blocks, Pad(sz), 0);
    if sz > 0 && i < |h.blocks| {
      CarveKeeps(h.blocks, i, Pad(sz));
      CarveAddsOne(h.blocks, i, Pad(sz));
      GrantAccounted(h.blocks, h.refs, i, Pad(sz));
    } else if sz > 0 && Expands(h.blocks, Pad(sz)) {
      ExtendSound(h, Pad(sz));
    }
  }

  lemma ExtendSound(h: Heap, sz: nat)
    requires Sound(h) && h.blocks != []
    ensures var r := Extend(h.blocks, h.refs, sz);
      && (Sound(r) <==> Extendable(h.blocks, h.refs, sz))
      && (Tiled(h.blocks) ==> !r.Heap?)
      && (r.Heap? ==> Live(h.blocks) <= Live(r.blocks))
  {
    hide Users, Accounted, Spaced, Coalesced, Live, Extended, Roomy;
    ExtendKeepsIff(h.blocks, sz);
    ExtendAddsOne(h.blocks, sz);
    ExtendAccounted(h.refs, h.blocks, sz);
  }

  /** The size of the allocation that a call asks for; 0 when it asks for none. */
  ghost function Asked(h: Heap, c: Call): nat
    requires h.Heap?
  {
    match c
    case Malloc(sz) => sz
    case Free(_) => 0
    case Realloc(at, sz) =>
      if at == 0 then sz
      else
        var i := IndexOf(h.blocks, at - HEADER, 0);
        if i < |h.blocks| && sz > h.blocks[i].size then sz else 0
  }

  /** Pointers are NULL or those of live blocks, and shrinking wraps no counter. */
  ghost predicate Proper(h: Heap, c: Call)
    requires h.Heap? && |h.refs| == PAGES + 1
  {
    match c
    case Malloc(_) => true
    case Free(at) => at == 0 || Owned(h, at)
    case Realloc(at, sz) =>
      at == 0 ||
      (&& Owned(h, at)
       && (var b := h.blocks[IndexOf(h.blocks, at - HEADER, 0)]; sz < b.size ==> Roomy(h.refs, b.at, sz + HEADER)))
  }

  /** What a caller must observe for the invariant to survive a call. */
  ghost predicate Fine(h: Heap, c: Call)
    requires h.Heap? && |h.refs| == PAGES + 1
  {
    Proper(h, c) && Grantable(h, Asked(h, c))
  }

  /** Freeing a live block never aborts, removes it alone, and keeps the invariant and the tiling. */
  lemma DeallocateSound(h: Heap, at: int)
    requires Sound(h) && Owned(h, at) && at != 0
    ensures Sound(Deallocate(h, at))
    ensures Tiled(h.blocks) ==> Tiled(Deallocate(h, at).blocks)
    ensures exists b :: b in Live(h.blocks) && Payload(b) == at && Live(Deallocate(h, at).blocks) == Live(h.blocks) - {b}
  {
    hide Users, Accounted, Spaced, Coalesced, Tiled;
    OwnedIndex(h, at);
    var i := IndexOf(h.blocks, at - HEADER, 0);
    ReturnSound(h, i);
    ReleaseKeeps(h.blocks, i);
    ReleaseRemovesOne(h.blocks, i);
    assert h.blocks[i] in Live(h.blocks) && Payload(h.blocks[i]) == at;
  }

  /** The program is stopped exactly by a pointer that is neither NULL nor the payload of a live block, such as one freed before. */
  lemma FreeAbortsIff(h: Heap, at: int)
    requires Sound(h)
    ensures Deallocate(h, at) == Aborted <==> at != 0 && !Owned(h, at)
  {
    hide Return, Accounted, Coalesced, Spaced;
    OwnedIndex(h, at);
    if at != 0 && Owned(h, at) { DeallocateSound(h, at); }
  }

  /** One call keeps the invariant; the tiling is kept by every call that does not shrink a block. */
  lemma CallKeeps(h: Heap, c: Call)
    requires Sound(h) && Fine(h, c)
    ensures Sound(After(h, c))
    ensures Tiled(h.blocks) && !Shrinks(h, c) ==> Tiled(After(h, c).blocks)
  {
    hide Users, Accounted, Spaced, Coalesced, Tiled, Live, Covered;
    match c
    case Malloc(sz) => AllocateSound(h, sz);
    case Free(at) => if at != 0 { DeallocateSound(h, at); }
    case Realloc(at, sz) =>
      if at == 0 {
        AllocateSound(h, sz);
      } else {
        OwnedIndex(h, at);
        var i := IndexOf(h.blocks, at - HEADER, 0);
        if sz < h.blocks[i].size {
          NarrowSound(h, i, sz);
        } else if sz > h.blocks[i].size && Served(h.blocks, Pad(sz)) {
          AllocateSound(h, sz);
          assert Owned(Allocate(h, sz), at);
          DeallocateSound(Allocate(h, sz), at);
        }
      }
  }

  ghost predicate Shrinks(h: Heap, c: Call)
    requires h.Heap?
  {
    c.Realloc? && c.at != 0 &&
    var i := IndexOf(h.blocks, c.at - HEADER, 0);
    i < |h.blocks| && !h.blocks[i].free && c.size < h.blocks[i].size
  }

  // ----- whole runs -----

  /** Every call of a run is made as it should be. */
  ghost predicate FineRun(h: Heap, cs: seq<Call>)
    decreases |cs|
  {
    cs != [] ==> h.Heap? && |h.refs| == PAGES + 1 && Fine(h, cs[0]) && FineRun(After(h, cs[0]), cs[1..])
  }

  ghost predicate NeverShrinks(h: Heap, cs: seq<Call>)
    decreases |cs|
  {
    cs != [] ==> h.Heap? && !Shrinks(h, cs[0]) && NeverShrinks(After(h, cs[0]), cs[1..])
  }

  /** Over every run the heap stays sound and is never aborted; it stays tiled if no block is shrunk. */
  lemma {:induction false} RunKeeps(h: Heap, cs: seq<Call>)
    requires Sound(h) && FineRun(h, cs)
    ensures Sound(Run(h, cs))
    ensures Tiled(h.blocks) && NeverShrinks(h, cs) ==> Tiled(Run(h, cs).blocks)
    decreases |cs|
  {
    hide Sound, Tiled, Fine, Shrinks, After;
    if cs != [] {
      CallKeeps(h, cs[0]);
      RunKeeps(After(h, cs[0]), cs[1..]);
    }
  }

  /** The heap at program start: one free block, its header referenced. */
  function Start(): Heap {
    Heap(INITIAL, Use(seq(PAGES + 1, p => 0), BASE, HEADER))
  }

  lemma StartSound()
    ensures Sound(Start()) && Tiled(Start().blocks)
  {
    forall p | 0 <= p <= PAGES ensures Users(INITIAL, p) <= Start().refs[p] {
      UsersOne(INITIAL[0], p);
    }
  }

  /** A run that has freed everything it allocated ends with the one block it began with. */
  lemma FreedRunRestores(cs: seq<Call>)
    requires FineRun(Start(), cs) && NeverShrinks(Start(), cs)
    ensures Run(Start(), cs).Heap?
    ensures Live(Run(Start(), cs).blocks) == {} <==> Run(Start(), cs).blocks == INITIAL
  {
    StartSound();
    RunKeeps(Start(), cs);
    var bs := Run(Start(), cs).blocks;
    if Live(bs) == {} {
      forall i | 0 <= i < |bs| ensures bs[i].free {
        if !bs[i].free { LiveMember(bs, i); }
      }
      AllFreeIsInitial(bs);
    }
  }

  /** Over every run the payloads of different live blocks share no address and lie in the arena. */
  lemma PayloadsDisjoint(cs: seq<Call>, b: Block, c: Block)
    requires FineRun(Start(), cs)
    requires var h := Run(Start(), cs); h.Heap? && b in Live(h.blocks) && c in Live(h.blocks) && b != c
    ensures End(b) <= Payload(c) || End(c) <= Payload(b)
    ensures BASE < Payload(b) <= End(b) <= LIMIT
  {
    StartSound();
    RunKeeps(Start(), cs);
    var bs := Run(Start(), cs).blocks;
    var i :| 0 <= i < |bs| && bs[i] == b;
    var j :| 0 <= j < |bs| && bs[j] == c;
    Disjoint(bs, i, j);
    Inside(bs, i);
  }

  // ----- the end of the list -----

  /** On a tiled heap that happens exactly for requests of two gigabytes or more, where the sum wraps. */
  lemma ExpandsIffHuge(bs: seq<Block>, sz: nat)
    requires Tiled(bs) && sz < TWO32
    ensures Expands(bs, sz) <==> sz >= 0x8000_0000
  {
    var k := FirstFit(bs, sz, 0);
    if sz >= 0x8000_0000 && k < |bs| {
      Inside(bs, k);
    }
  }

  // ----- a condition on sizes -----

  /** A request ends on the page where its block ends, and no counter wraps. */
  ghost predicate Snugly(h: Heap, sz: nat)
    requires h.Heap?
  {
    var i := FirstFit(h.blocks, Pad(sz), 0);
    && (sz > 0 && i < |h.blocks| ==> Snug(h.blocks[i], Pad(sz)) && Unwrapped(h.blocks, h.refs, i, Pad(sz)))
    && (sz > 0 && Expands(h.blocks, Pad(sz)) ==> Extendable(h.blocks, h.refs, Pad(sz)))
  }

  ghost predicate CarefulRun(h: Heap, cs: seq<Call>)
    decreases |cs|
  {
    cs != [] ==>
      && h.Heap? && |h.refs| == PAGES + 1 && Proper(h, cs[0]) && Snugly(h, Asked(h, cs[0]))
      && CarefulRun(After(h, cs[0]), cs[1..])
  }

  lemma SnuglyIsGrantable(h: Heap, sz: nat)
    requires h.Heap? && |h.refs| == PAGES + 1 && Snugly(h, sz)
    ensures Grantable(h, sz)
  {
    var i := FirstFit(h.blocks, Pad(sz), 0);
    if sz > 0 && i < |h.blocks| && !Splits(h.blocks[i], Pad(sz)) {
      SnugSpares(h.refs, h.blocks, i, Pad(sz));
    }
  }

  lemma {:induction false} CarefulIsFine(h: Heap, cs: seq<Call>)
    requires CarefulRun(h, cs)
    ensures FineRun(h, cs)
    decreases |cs|
  {
    hide Proper, Snugly, After, Grantable, Asked;
    if cs != [] {
      SnuglyIsGrantable(h, Asked(h, cs[0]));
      CarefulIsFine(After(h, cs[0]), cs[1..]);
    }
  }

  /** A run whose requests end on the page where their blocks end stays sound, whatever references are to spare. */
  lemma CarefulRunKeeps(h: Heap, cs: seq<Call>)
    requires Sound(h) && CarefulRun(h, cs)
    ensures Sound(Run(h, cs))
    ensures Tiled(h.blocks) && NeverShrinks(h, cs) ==> Tiled(Run(h, cs).blocks)
  {
    hide Sound, Tiled, CarefulRun, Run, FineRun, NeverShrinks;
    CarefulIsFine(h, cs);
    RunKeeps(h, cs);
  }

  /** As long as a page has no more references than users, the counts cover the users afterwards exactly then. */
  lemma SnugIff(bs: seq<Block>, refs: seq<int>, i: nat, sz: nat)
    requires Accounted(refs, bs) && Spaced(bs) && i < |bs| && Fits(bs[i], sz) && Unwrapped(bs, refs, i, sz)
    requires forall p :: 0 <= p <= PAGES && LeftOut(bs[i], sz, p) ==> refs[p] == Users(bs, p)
    ensures var h := Grant(bs, refs, i, sz); Accounted(h.refs, h.blocks) <==> Snug(bs[i], sz)
  {
    hide Users, Spaced, Grant, Unwrapped;
    GrantAccounted(bs, refs, i, sz);
    if !Splits(bs[i], sz) {
      if Snug(bs[i], sz) {
        SnugSpares(refs, bs, i, sz);
      } else {
        var p := PageOf(End(bs[i]));
        Inside(bs, i);
        LeftOutIsLast(bs[i], sz, p);
        assert 0 <= p <= PAGES && LeftOut(bs[i], sz, p);
      }
    }
  }

  // ----- the list extended after a shrunk block -----

  /** Everything is allocated at once, and then shrunk. */
  function Shrunk(size: nat): seq<Call> { [Malloc(SIZE - HEADER), Realloc(BASE + HEADER, size)] }

  lemma WholeBlocks()
    ensures Pad(SIZE - HEADER) == SIZE - HEADER && FirstFit(INITIAL, SIZE - HEADER, 0) == 0
    ensures Take(INITIAL, 0) == [Block(BASE, SIZE - HEADER, false)]
    ensures IndexOf([Block(BASE, SIZE - HEADER, false)], BASE, 0) == 0
  {
  }

  const WHOLE: seq<Block> := [Block(BASE, SIZE - HEADER, false)]

  lemma WholeFine()
    ensures Sound(Start()) && Fine(Start(), Malloc(SIZE - HEADER))
    ensures var h := After(Start(), Malloc(SIZE - HEADER)); Sound(h) && h.blocks == WHOLE && Small(h.refs, 2)
  {
    hide Use, Users, Small, Accounted, Spaced, Coalesced, Sound, Spare;
    WholeBlocks();
    StartSound();
    StartSmall();
    var h := Start();
    UseSmall(h.refs, 1, BASE, SIZE);
    SmallTable(h.refs, 1);
    SnugSpares(h.refs, h.blocks, 0, SIZE - HEADER);
    CallKeeps(h, Malloc(SIZE - HEADER));
  }

  lemma NarrowSmall(h: Heap, i: nat, sz: nat, k: int)
    requires Sound(h) && i < |h.blocks| && !h.blocks[i].free && sz < h.blocks[i].size && Small(h.refs, k) && k < 100
    ensures Roomy(h.refs, h.blocks[i].at, sz + HEADER)
    ensures var r := Narrow(h, i, sz); Sound(r) && Small(r.refs, k + 1) && r.blocks == Shrink(h.blocks, i, sz)
  {
    hide Users, Spaced, Coalesced, Accounted, Use;
    var b := h.blocks[i];
    UseSmall(h.refs, k, b.at, sz + HEADER);
    NarrowSound(h, i, sz);
    var used := Use(h.refs, b.at, sz + HEADER);
    var r := Narrow(h, i, sz);
    assert r.refs == Unuse(used, b.at, b.size + HEADER);
    assert Accounted(r.refs, r.blocks);
    assert forall p :: 0 <= p <= PAGES ==> r.refs[p] <= used[p];
    AccountedTable(r.refs, r.blocks);
  }

  lemma AccountedTable(refs: seq<int>, bs: seq<Block>)
    requires Accounted(refs, bs)
    ensures Table(refs)
  {
  }

  lemma ShrunkRuns(size: nat)
    requires size < SIZE - HEADER
    ensures FineRun(Start(), Shrunk(size))
    ensures var h := Run(Start(), Shrunk(size));
      Sound(h) && h.blocks == [Block(BASE, size, false)] && Small(h.refs, 3)
  {
    hide Use, Users, Small, Accounted, Spaced, Coalesced, Sound, Roomy, Start, Narrow, Allocate, Grantable, Table;
    WholeBlocks();
    WholeFine();
    var h := After(Start(), Malloc(SIZE - HEADER));
    NarrowSmall(h, 0, size, 2);
    OwnedIndex(h, BASE + HEADER);
    SoundTable(h);
    var c := Realloc(BASE + HEADER, size);
    assert Resize(h, BASE + HEADER, size) == Narrow(h, 0, size);
    assert Asked(h, c) == 0;
    assert Grantable(h, 0) by { NothingAsked(h); }
    assert Shrunk(size)[1..] == [c] && [c][1..] == [];
    var r := After(h, c);
    assert Run(r, []) == r && FineRun(r, []);
    assert Run(h, [c]) == r && FineRun(h, [c]);
    SoundTable(Start());
  }

  lemma SoundTable(h: Heap)
    requires Sound(h)
    ensures h.Heap? && |h.refs| == PAGES + 1
  {
  }

  lemma NothingAsked(h: Heap)
    requires h.Heap? && |h.refs| == PAGES + 1
    ensures Grantable(h, 0)
  {
  }

  /**
   * After that the list is extended for small requests. The heap stays sound exactly while the new block is aligned
   * and ends in the arena: a request of SIZE - 124 bytes gets a block that ends 16 bytes past it, and after shrinking
   * to a size that is not a multiple of four every new block is misplaced.
   */
  lemma ShrunkThenExtended(size: nat, sz: nat)
    requires size < SIZE - HEADER && 0 < sz && BASE + HEADER + size + Pad(sz) < LIMIT && sz <= SIZE
    ensures var h := Run(Start(), Shrunk(size)); var n := After(h, Malloc(sz));
      && FineRun(Start(), Shrunk(size)) && h.Heap? && Expands(h.blocks, Pad(sz))
      && n.Heap? && n.blocks == [Block(BASE, size, false), Block(BASE + HEADER + size, Pad(sz), false)]
      && (Sound(n) <==> size % 4 == 0 && BASE + size + 2 * HEADER + Pad(sz) <= LIMIT)
  {
    hide Use, Users, Small, Accounted, Spaced, Coalesced, Sound, Start, Run, FineRun, Table;
    ShrunkRuns(size);
    var h := Run(Start(), Shrunk(size));
    SoundTable(h);
    assert FirstFit(h.blocks, Pad(sz), 0) == 1;
    var a := Tip(h.blocks);
    UseSmall(h.refs, 3, a, HEADER);
    UseSmall(Use(h.refs, a, HEADER), 4, a, Pad(sz) + HEADER);
    AllocateSound(h, sz);
  }

  /** Small requests that extend the list, and two of them that spoil it. */
  lemma ExtendedExamples()
    ensures var h := Run(Start(), Shrunk(100));
      Sound(After(h, Malloc(8))) && Block(BASE + 120, 8, false) in Live(After(h, Malloc(8)).blocks)
    ensures var n := After(Run(Start(), Shrunk(100)), Malloc(SIZE - 124));
      n.Heap? && !Sound(n) && exists b :: b in Live(n.blocks) && End(b) == LIMIT + 16
    ensures !Sound(After(Run(Start(), Shrunk(101)), Malloc(8)))
  {
    hide Sound, Run, Start, After;
    ShrunkThenExtended(100, 8);
    ShrunkThenExtended(100, SIZE - 124);
    ShrunkThenExtended(101, 8);
    var n := After(Run(Start(), Shrunk(100)), Malloc(SIZE - 124));
    LiveMember(n.blocks, 1);
    LiveMember(After(Run(Start(), Shrunk(100)), Malloc(8)).blocks, 1);
  }

  // ----- allocating and freeing again -----

  ghost function Round(h: Heap, sz: nat): Heap {
    if !h.Heap? then h
    else
      if sz == 0 || !Served(h.blocks, Pad(sz)) then h
      else Deallocate(Allocate(h, sz), Site(h.blocks, Pad(sz)) + HEADER)
  }

  /** The header cut off by a split lies on two pages. */
  predicate Straddles(b: Block, sz: nat) {
    var a := b.at + HEADER + sz;
    PageOf(a + 1) < PageOf(a + HEADER)
  }

  /** What a round changes at page p: a split loses track of a header's second page, a loose fit of a reference. */
  function Drift(b: Block, sz: nat, p: int): int {
    if Splits(b, sz) then
      var a := b.at + HEADER + sz;
      Bit(Covers(a, HEADER, p) && !Covers(a, 1, p))
    else -Bit(LeftOut(b, sz, p))
  }

  /** A round gives the block list back, and changes the counts by the drift. */
  lemma RoundDrifts(h: Heap, sz: nat)
    requires h.Heap? && Table(h.refs) && Spaced(h.blocks) && Coalesced(h.blocks) && sz > 0
    requires var i := FirstFit(h.blocks, Pad(sz), 0); i < |h.blocks| && Uncrowded(h, i)
    ensures Drifted(h, Round(h, sz), h.blocks[FirstFit(h.blocks, Pad(sz), 0)], Pad(sz))
  {
    hide Spaced, Coalesced, Table, Uncrowded, Deallocate, Drifted, Splits;
    var i := FirstFit(h.blocks, Pad(sz), 0);
    var n := Grant(h.blocks, h.refs, i, Pad(sz));
    CarveKeeps(h.blocks, i, Pad(sz));
    Inside(h.blocks, i);
    IndexFinds(n.blocks, i);
    assert Deallocate(n, Payload(h.blocks[i])) == Return(n, i) by { GrantThenFree(h, i, Pad(sz)); }
    if Splits(h.blocks[i], Pad(sz)) {
      SplitRound(h, i, Pad(sz));
    } else {
      LooseRound(h, i, Pad(sz));
    }
  }

  lemma GrantThenFree(h: Heap, i: nat, sz: nat)
    requires h.Heap? && i < |h.blocks| && h.blocks[i].at >= BASE
    requires var n := Grant(h.blocks, h.refs, i, sz); IndexOf(n.blocks, h.blocks[i].at, 0) == i
    ensures var n := Grant(h.blocks, h.refs, i, sz); Deallocate(n, Payload(h.blocks[i])) == Return(n, i)
  {
  }

  /** What a round leaves behind; the program is stopped when a count would become negative. */
  ghost predicate Drifted(h: Heap, r: Heap, b: Block, sz: nat)
    requires h.Heap?
  {
    && !r.Lost?
    && (r.Heap? <==> forall p :: 0 <= p < |h.refs| ==> h.refs[p] + Drift(b, sz, p) >= 0)
    && (r.Heap? ==> r.blocks == h.blocks && |r.refs| == |h.refs|)
    && (r.Heap? ==> forall p :: 0 <= p < |h.refs| ==> r.refs[p] == h.refs[p] + Drift(b, sz, p))
  }

  lemma SplitRound(h: Heap, i: nat, sz: nat)
    requires h.Heap? && Table(h.refs) && Coalesced(h.blocks) && i < |h.blocks| && Fits(h.blocks[i], sz)
    requires Splits(h.blocks[i], sz) && Uncrowded(h, i)
    ensures Drifted(h, Return(Grant(h.blocks, h.refs, i, sz), i), h.blocks[i], sz)
  {
    hide Use, Unuse, Releasable, Covers, Table, Uncrowded, Coalesced, Return, Grant;
    SplitRefs(h, i, sz);
    SplitReturns(h, i, sz);
  }

  lemma SplitReturns(h: Heap, i: nat, sz: nat)
    requires h.Heap? && Coalesced(h.blocks) && i < |h.blocks| && Fits(h.blocks[i], sz) && Splits(h.blocks[i], sz)
    requires var b := h.blocks[i]; var a := b.at + HEADER + sz;
      var used := Use(Use(h.refs, a, HEADER), b.at, sz + HEADER);
      Releasable(used, b.at, sz + HEADER) && Releasable(Unuse(used, b.at, sz + HEADER), a, 1)
    ensures var b := h.blocks[i]; var a := b.at + HEADER + sz;
      var used := Use(Use(h.refs, a, HEADER), b.at, sz + HEADER);
      Return(Grant(h.blocks, h.refs, i, sz), i) == Heap(h.blocks, Unuse(Unuse(used, b.at, sz + HEADER), a, 1))
  {
    hide Use, Unuse, Releasable, Covers, Coalesced;
    var n := Grant(h.blocks, h.refs, i, sz);
    NoFreeBefore(h.blocks, i);
    FreeUndoesMalloc(h.blocks, i, sz);
    var m := MergeNext(GiveUp(n, i), i);
    assert m.blocks == JoinNext(Drop(n.blocks, i), i);
    assert i > 0 ==> m.blocks[i - 1] == h.blocks[i - 1];
  }

  lemma NoFreeBefore(bs: seq<Block>, i: nat)
    requires Coalesced(bs) && i < |bs| && bs[i].free
    ensures i > 0 ==> !bs[i - 1].free
    ensures i + 1 < |bs| ==> !bs[i + 1].free
  {
    assert ApartAt(bs, i - 1) && ApartAt(bs, i);
  }

  lemma SplitRefs(h: Heap, i: nat, sz: nat)
    requires h.Heap? && Table(h.refs) && i < |h.blocks| && Splits(h.blocks[i], sz) && Uncrowded(h, i)
    ensures var b := h.blocks[i]; var a := b.at + HEADER + sz;
      var used := Use(Use(h.refs, a, HEADER), b.at, sz + HEADER);
      var left := Unuse(used, b.at, sz + HEADER);
      && Releasable(used, b.at, sz + HEADER) && Releasable(left, a, 1)
      && forall p :: 0 <= p < |h.refs| ==> Unuse(left, a, 1)[p] == h.refs[p] + Drift(b, sz, p) >= 0
  {
    var b := h.blocks[i];
    var a := b.at + HEADER + sz;
    assert PageOf(b.at) <= PageOf(a) <= PageOf(a + 1) <= PageOf(a + HEADER) <= PageOf(b.at + b.size + HEADER);
    var used := Use(Use(h.refs, a, HEADER), b.at, sz + HEADER);
    assert forall p :: 0 <= p < |h.refs| ==>
      used[p] == h.refs[p] + Bit(Covers(a, HEADER, p)) + Bit(Covers(b.at, sz + HEADER, p));
  }

  lemma LooseRound(h: Heap, i: nat, sz: nat)
    requires h.Heap? && Table(h.refs) && Coalesced(h.blocks) && i < |h.blocks| && Fits(h.blocks[i], sz)
    requires !Splits(h.blocks[i], sz) && Uncrowded(h, i)
    ensures Drifted(h, Return(Grant(h.blocks, h.refs, i, sz), i), h.blocks[i], sz)
  {
    var b := h.blocks[i];
    var n := Grant(h.blocks, h.refs, i, sz);
    assert PageOf(b.at + sz + HEADER) <= PageOf(b.at + b.size + HEADER);
    assert forall p :: 0 <= p < |h.refs| ==> n.refs[p] == h.refs[p] + Bit(Covers(b.at, sz + HEADER, p));
    assert forall p :: 0 <= p < |h.refs| ==>
      n.refs[p] - Bit(Covers(b.at, b.size + HEADER, p)) == h.refs[p] + Drift(b, sz, p);
    assert ApartAt(h.blocks, i - 1) && ApartAt(h.blocks, i);
    assert Drop(n.blocks, i) == h.blocks;
  }

  /** Allocating and freeing gives back the same heap exactly when neither a header straddles nor the fit is loose. */
  lemma RoundTrip(h: Heap, sz: nat)
    requires Sound(h) && sz > 0
    requires var i := FirstFit(h.blocks, Pad(sz), 0); i < |h.blocks| && Uncrowded(h, i)
    ensures var b := h.blocks[FirstFit(h.blocks, Pad(sz), 0)];
      Round(h, sz) == h <==> Snug(b, Pad(sz)) && !(Splits(b, Pad(sz)) && Straddles(b, Pad(sz)))
  {
    hide Users, Round;
    RoundDrifts(h, sz);
    var i := FirstFit(h.blocks, Pad(sz), 0);
    var b := h.blocks[i];
    Inside(h.blocks, i);
    var q := if Splits(b, Pad(sz)) then PageOf(b.at + 2 * HEADER + Pad(sz)) else PageOf(b.at + b.size + HEADER);
    assert 0 <= q < |h.refs|;
    if Snug(b, Pad(sz)) && !(Splits(b, Pad(sz)) && Straddles(b, Pad(sz))) {
      assert forall p :: 0 <= p < |h.refs| ==> Drift(b, Pad(sz), p) == 0;
      assert Round(h, sz).refs == h.refs;
    } else {
      assert Drift(b, Pad(sz), q) != 0;
    }
  }

  /** No counter near its maximum on the pages of block i. */
  ghost predicate Uncrowded(h: Heap, i: nat)
    requires h.Heap? && i < |h.blocks|
  {
    forall p :: 0 <= p < |h.refs| && Covers(h.blocks[i].at, h.blocks[i].size + HEADER, p) ==> h.refs[p] < WRAP - 2
  }

  ghost function Rounds(h: Heap, sz: nat, n: nat): Heap {
    if n == 0 then h else Round(Rounds(h, sz, n - 1), sz)
  }

  /**
   * Allocating loosely and freeing, again and again, takes one reference of the block's last page each time:
   * the program is stopped at the first round after that page's count has reached zero.
   */
  lemma {:induction false} LooseRoundsAbort(h: Heap, sz: nat, n: nat)
    requires Sound(h) && sz > 0
    requires var i := FirstFit(h.blocks, Pad(sz), 0);
      i < |h.blocks| && Uncrowded(h, i) && !Splits(h.blocks[i], Pad(sz)) && !Snug(h.blocks[i], Pad(sz))
    ensures var q := PageOf(End(h.blocks[FirstFit(h.blocks, Pad(sz), 0)])); var r := Rounds(h, sz, n);
      && 0 <= q < |h.refs|
      && (r.Heap? <==> n <= h.refs[q]) && !r.Lost?
      && (r.Heap? ==> r == Heap(h.blocks, h.refs[q := h.refs[q] - n]))
  {
    hide Users, Round, Splits, Snug, Coalesced;
    var i := FirstFit(h.blocks, Pad(sz), 0);
    var b := h.blocks[i];
    Inside(h.blocks, i);
    var q := PageOf(End(b));
    assert 0 <= h.refs[q] < WRAP;
    if n > 0 {
      LooseRoundsAbort(h, sz, n - 1);
      var before := Rounds(h, sz, n - 1);
      if before.Heap? {
        RoundDrifts(before, sz);
        var r := Round(before, sz);
        forall p | 0 <= p < |h.refs| ensures Drift(b, Pad(sz), p) == -Bit(p == q) {
          LeftOutIsLast(b, Pad(sz), p);
        }
        assert before.refs[q] + Drift(b, Pad(sz), q) >= 0 <==> n <= h.refs[q];
        if r.Heap? {
          assert r.refs == h.refs[q := h.refs[q] - n];
        }
      } else {
        assert Round(before, sz) == Aborted by { RoundOfAborted(sz); }
      }
    }
  }

  lemma RoundOfAborted(sz: nat)
    ensures Round(Aborted, sz) == Aborted
  {
  }

  /** Two allocations of 4076 and 4 bytes, with the first freed again, leave a block that 4060 bytes fit loosely. */
  const PRELUDE: seq<Call> := [Malloc(4076), Malloc(4), Free(BASE + HEADER)]

  ghost predicate Small(refs: seq<int>, k: int) {
    |refs| == PAGES + 1 && forall p :: 0 <= p <= PAGES ==> 0 <= refs[p] <= k
  }

  lemma UseSmall(refs: seq<int>, k: int, a: int, sz: int)
    requires Small(refs, k) && k < 100
    ensures Roomy(refs, a, sz) && Small(Use(refs, a, sz), k + 1)
  {
  }

  /** An allocation that splits a block, on counters far from wrapping. */
  lemma GrantSmall(h: Heap, sz: nat, k: int)
    requires h.Heap? && Small(h.refs, k) && k < 90 && sz > 0
    requires var i := FirstFit(h.blocks, Pad(sz), 0); i < |h.blocks| && Splits(h.blocks[i], Pad(sz))
    ensures Grantable(h, sz) && Small(Allocate(h, sz).refs, k + 2)
  {
    hide Use, Small, Roomy;
    var b := h.blocks[FirstFit(h.blocks, Pad(sz), 0)];
    var a := b.at + HEADER + Pad(sz);
    UseSmall(h.refs, k, a, HEADER);
    UseSmall(Use(h.refs, a, HEADER), k + 1, b.at, Pad(sz) + HEADER);
    assert |h.refs| == PAGES + 1 by { SmallTable(h.refs, k); }
  }

  lemma SmallTable(refs: seq<int>, k: int)
    requires Small(refs, k)
    ensures |refs| == PAGES + 1
  {
  }

  /** Freeing only takes references away. */
  lemma ReturnSmall(h: Heap, i: nat, k: int)
    requires Sound(h) && i < |h.blocks| && !h.blocks[i].free && Small(h.refs, k)
    ensures Return(h, i).Heap? && Small(Return(h, i).refs, k)
  {
    hide Users, Spaced, Coalesced;
    ReturnSound(h, i);
    var g := GiveUp(h, i);
    var m := MergeNext(g, i);
    assert forall p :: 0 <= p <= PAGES ==> g.refs[p] <= h.refs[p];
    assert forall p :: 0 <= p <= PAGES ==> m.refs[p] <= g.refs[p];
    assert forall p :: 0 <= p <= PAGES ==> Return(h, i).refs[p] <= m.refs[p];
  }

  const FIRST: seq<Block> := [Block(BASE, 4076, false), Block(BASE + 4096, SIZE - 4116, true)]
  const SECOND: seq<Block> :=
    [Block(BASE, 4076, false), Block(BASE + 4096, 4, false), Block(BASE + 4120, SIZE - 4140, true)]
  const THIRD: seq<Block> := SECOND[0 := Block(BASE, 4076, true)]

  lemma PreludeBlocks()
    ensures FirstFit(INITIAL, 4076, 0) == 0 && Take(Split(INITIAL, 0, 4076), 0) == FIRST
    ensures FirstFit(FIRST, 4, 0) == 1 && Take(Split(FIRST, 1, 4), 1) == SECOND
    ensures IndexOf(SECOND, BASE, 0) == 0 && Release(SECOND, 0) == THIRD
    ensures FirstFit(THIRD, 4060, 0) == 0
  {
    assert Drop(SECOND, 0) == THIRD;
  }

  lemma PreludeRuns()
    ensures var h := Run(Start(), PRELUDE); h.Heap? && h.blocks == THIRD && Small(h.refs, 5)
    ensures FineRun(Start(), PRELUDE)
  {
    hide Use, Users, Small, Accounted, Spaced, Coalesced, Covered, Return, Split, Take, Sound;
    PreludeBlocks();
    StartSound();
    var h0 := Start();
    StartSmall();
    GrantSmall(h0, 4076, 1);
    var h1 := After(h0, PRELUDE[0]);
    assert h1.blocks == FIRST;
    AllocateSound(h0, 4076);
    GrantSmall(h1, 4, 3);
    var h2 := After(h1, PRELUDE[1]);
    assert h2.blocks == SECOND;
    AllocateSound(h1, 4);
    ReturnSound(h2, 0);
    ReturnSmall(h2, 0, 5);
    var h3 := After(h2, PRELUDE[2]);
    assert h3 == Return(h2, 0);
    OwnedIndex(h2, BASE + HEADER);
    PreludeUnfolds(h1, h2, h3);
  }

  lemma StartSmall()
    ensures Small(Start().refs, 1)
  {
  }

  lemma PreludeUnfolds(h1: Heap, h2: Heap, h3: Heap)
    requires h1 == After(Start(), Malloc(4076)) && h2 == After(h1, Malloc(4)) && h3 == After(h2, Free(BASE + HEADER))
    requires Sound(Start()) && Fine(Start(), Malloc(4076)) && Sound(h1) && Fine(h1, Malloc(4))
    requires Sound(h2) && Fine(h2, Free(BASE + HEADER))
    ensures Run(Start(), PRELUDE) == h3 && FineRun(Start(), PRELUDE)
  {
    hide After, Fine, Users, Spaced, Coalesced;
    assert PRELUDE[1..] == [Malloc(4), Free(BASE + HEADER)];
    assert PRELUDE[1..][1..] == [Free(BASE + HEADER)];
    assert PRELUDE[1..][1..][1..] == [];
    assert Run(h3, []) == h3;
    assert Run(h2, [Free(BASE + HEADER)]) == h3;
    assert Run(h1, PRELUDE[1..]) == h3;
    assert FineRun(h3, []);
    assert FineRun(h2, [Free(BASE + HEADER)]);
    assert FineRun(h1, PRELUDE[1..]);
  }

  lemma SmallUncrowded(h: Heap, i: nat)
    requires h.Heap? && i < |h.blocks| && Small(h.refs, 5)
    ensures Uncrowded(h, i) && |h.refs| == PAGES + 1 && h.refs[1] >= 0
  {
  }

  /** A program that only allocates and frees its own memory can be stopped by the page counts. */
  lemma LooseFitHappens()
    ensures exists n :: Rounds(Run(Start(), PRELUDE), 4060, n) == Aborted
  {
    hide Run, Rounds, Sound, Small, FineRun, Start, FirstFit;
    PreludeRuns();
    PreludeBlocks();
    StartSound();
    RunKeeps(Start(), PRELUDE);
    SmallUncrowded(Run(Start(), PRELUDE), 0);
    var h := Run(Start(), PRELUDE);
    var n := h.refs[1] + 1;
    LooseRoundsAbort(h, 4060, n);
  }

  // ----- a counter that wraps around -----

  /** A request from the initial block whose cut-off header lies on two pages: every round adds a reference to page 1. */
  const STRADDLING := 4060

  lemma StraddlingDrift(p: int)
    ensures Pad(STRADDLING) == STRADDLING && FirstFit(INITIAL, STRADDLING, 0) == 0 && Splits(INITIAL[0], STRADDLING)
    ensures Drift(INITIAL[0], STRADDLING, p) == Bit(p == 1)
  {
  }

  lemma Referenced(n: int)
    requires 0 <= n < WRAP
    ensures var refs := Start().refs; |refs| == PAGES + 1 && refs[0] == 1 && forall p :: 1 <= p <= PAGES ==> refs[p] == 0
    ensures Sound(Heap(INITIAL, Start().refs[1 := n]))
  {
    StartSound();
    var h := Heap(INITIAL, Start().refs[1 := n]);
    forall p | 0 <= p <= PAGES ensures Users(INITIAL, p) <= h.refs[p] {
      UsersOne(INITIAL[0], p);
      assert Users(INITIAL, p) <= Start().refs[p];
    }
  }

  lemma {:induction false} StraddlingRounds(n: nat)
    requires n <= WRAP - 2
    ensures Rounds(Start(), STRADDLING, n) == Heap(INITIAL, Start().refs[1 := n])
    decreases n
  {
    hide Round, Users, Start, Drift, Splits;
    StartRefs();
    Referenced(n);
    if n > 0 {
      StraddlingRounds(n - 1);
      Referenced(n - 1);
      var h := Rounds(Start(), STRADDLING, n - 1);
      StraddlingDrift(1);
      RoundDrifts(h, STRADDLING);
      var r := Round(h, STRADDLING);
      forall p | 0 <= p < |h.refs| ensures h.refs[p] + Drift(INITIAL[0], STRADDLING, p) == Start().refs[1 := n][p] >= 0 {
        StraddlingDrift(p);
      }
      assert r.refs == Start().refs[1 := n];
    }
  }

  lemma StartRefs()
    ensures Start().Heap? && Start().blocks == INITIAL && |Start().refs| == PAGES + 1 && Start().refs == Start().refs[1 := 0]
  {
  }

  /** So after enough rounds of allocating and freeing, two more allocations wrap a counter, and the heap is not sound. */
  lemma WrapHappens()
    ensures var h := Rounds(Start(), STRADDLING, WRAP - 2); var h1 := Allocate(h, STRADDLING); var h2 := Allocate(h1, 4);
      Sound(h) && Sound(h1) && h1.refs[1] == WRAP - 1 && h2.Heap? && h2.refs[1] == 1 && !Sound(h2)
  {
    hide Rounds, Users, Start, Sound, Accounted;
    StraddlingRounds(WRAP - 2);
    Referenced(WRAP - 2);
    StraddlingDrift(1);
    var h := Rounds(Start(), STRADDLING, WRAP - 2);
    var h1 := Allocate(h, STRADDLING);
    WrapFirst(h);
    AllocateSound(h, STRADDLING);
    WrapSecond(h1);
    AllocateSound(h1, 4);
  }

  lemma WrapFirst(h: Heap)
    requires h.Heap? && h.blocks == INITIAL && |h.refs| == PAGES + 1
    requires h.refs[0] == 1 && h.refs[1] == WRAP - 2 && forall p :: 2 <= p <= PAGES ==> h.refs[p] == 0
    ensures Grantable(h, STRADDLING)
    ensures var r := Allocate(h, STRADDLING);
      && r.Heap? && |r.refs| == PAGES + 1 && r.refs[1] == WRAP - 1
      && r.blocks == [Block(BASE, 4060, false), Block(BASE + 4080, SIZE - 4100, true)]
  {
    StraddlingDrift(1);
    assert Take(Split(INITIAL, 0, 4060), 0) == [Block(BASE, 4060, false), Block(BASE + 4080, SIZE - 4100, true)];
  }

  lemma WrapSecond(h: Heap)
    requires h.Heap? && |h.refs| == PAGES + 1 && h.refs[1] == WRAP - 1
    requires h.blocks == [Block(BASE, 4060, false), Block(BASE + 4080, SIZE - 4100, true)]
    ensures !Grantable(h, 4) && Allocate(h, 4).Heap? && |Allocate(h, 4).refs| == PAGES + 1 && Allocate(h, 4).refs[1] == 1
  {
    assert FirstFit(h.blocks, 4, 0) == 1;
    assert Covers(BASE + 4104, HEADER, 1) && Covers(BASE + 4080, 4 + HEADER, 1);
  }
}
