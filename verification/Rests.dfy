// What a request takes from the arena and what it leaves for the next one, in bytes and pages written out.

module Rests {
  import opened Blocks
  import opened Pages
  import opened Arena

  /** The arena is one gigabyte, at one gigabyte: a free block behind a header of 20 bytes, in pages of 4096 bytes. */
  lemma StartInNumbers()
    ensures Start().blocks == [Block(0x4000_0000, 0x3FFF_FFEC, true)]
    ensures |Start().refs| == 0x4_0001 && Start().refs[0] == 1 && forall p :: 1 <= p <= 0x4_0000 ==> Start().refs[p] == 0
  {
    assert Covers(BASE, HEADER, 0);
  }

  /** The last byte counted is the one after the region; a count of 65535 goes round to zero. */
  lemma UseInNumbers(refs: seq<int>, a: int, sz: nat, p: nat)
    requires p < |refs| && 0 <= refs[p] <= 65535
    ensures var touched := a < 0x4000_0000 + 4096 * p + 4096 && 0x4000_0000 + 4096 * p <= a + sz;
      && Use(refs, a, sz)[p] == (if !touched then refs[p] else if refs[p] == 65535 then 0 else refs[p] + 1)
      && Unuse(refs, a, sz)[p] == (if touched then refs[p] - 1 else refs[p])
  {
  }

  /** A block given to a request of sz bytes, padded, is less than 52 bytes larger. */
  lemma GrantIsTight(bs: seq<Block>, i: nat, sz: nat)
    requires i < |bs| && Fits(bs[i], sz)
    ensures var c := Carve(bs, i, sz);
      && i < |c| && c[i].at == bs[i].at && !c[i].free && sz <= c[i].size < sz + 52
      && (bs[i].size < sz + 52 ==> c == bs[..i] + [Block(bs[i].at, bs[i].size, false)] + bs[i + 1..])
      && (bs[i].size >= sz + 52 ==>
          c == bs[..i] + [Block(bs[i].at, sz, false), Block(bs[i].at + 20 + sz, bs[i].size - sz - 20, true)] + bs[i + 1..])
  {
  }

  /** What a call of malloc hands out of a free block: at its start, as large as asked, and less than 52 bytes larger. */
  ghost predicate Tight(before: Heap, after: Heap, sz: nat) {
    before.Heap? && after.Heap? ==>
      var i := FirstFit(before.blocks, sz, 0);
      i < |before.blocks| ==>
        && i < |after.blocks| && after.blocks[i].at == before.blocks[i].at && !after.blocks[i].free
        && sz <= after.blocks[i].size < sz + 52
  }

  lemma AllocatesTight(h: Heap, size: nat)
    requires h.Heap? && size > 0
    ensures Tight(h, Allocate(h, size), Pad(size))
  {
    hide Use, Pad;
    var i := FirstFit(h.blocks, Pad(size), 0);
    if i < |h.blocks| { GrantIsTight(h.blocks, i, Pad(size)); }
  }

  /** The lowest free block of enough bytes is taken, and nothing is refused that one of them could hold. */
  lemma RefusedIff(h: Heap, sz: nat)
    requires h.Heap? && Spaced(h.blocks) && 0 < sz <= 0x7FFF_FFFC
    ensures Served(h.blocks, Pad(sz)) <==>
      || (exists i :: 0 <= i < |h.blocks| && h.blocks[i].free && h.blocks[i].size >= Pad(sz))
      || Tip(h.blocks) + Pad(sz) < 0x8000_0000
  {
    Inside(h.blocks, |h.blocks| - 1);
    var k := FirstFit(h.blocks, Pad(sz), 0);
    assert k < |h.blocks| ==> Fits(h.blocks[k], Pad(sz));
    forall i | 0 <= i < |h.blocks| && h.blocks[i].free && h.blocks[i].size >= Pad(sz) ensures k < |h.blocks| {
      assert Fits(h.blocks[i], Pad(sz));
    }
  }

  /** Whether a call of malloc leaves one more live block, of a given size at least. */
  ghost predicate Gains(before: Heap, after: Heap, size: nat) {
    && before.Heap? && after.Heap?
    && exists b: Block :: b.size >= size && b !in Live(before.blocks) && Live(after.blocks) == Live(before.blocks) + {b}
  }

  lemma FitGains(h: Heap, sz: nat, j: nat)
    requires h.Heap? && Spaced(h.blocks) && sz > 0
    requires j < |h.blocks| && h.blocks[j].free && h.blocks[j].size >= Pad(sz)
    ensures Gains(h, Allocate(h, sz), Pad(sz))
    ensures Allocate(h, sz).blocks == Carve(h.blocks, FirstFit(h.blocks, Pad(sz), 0), Pad(sz))
  {
    hide Use, Spaced, Live;
    assert Fits(h.blocks[j], Pad(sz));
    var i := FirstFit(h.blocks, Pad(sz), 0);
    CarveAddsOne(h.blocks, i, Pad(sz));
  }

  /** What a large enough block has left over serves the next request that fits it, exactly or not. */
  lemma RestServes(h: Heap, sz: nat, more: nat)
    requires h.Heap? && Spaced(h.blocks) && Coalesced(h.blocks) && sz > 0 && more > 0
    requires var i := FirstFit(h.blocks, Pad(sz), 0);
      i < |h.blocks| && h.blocks[i].size >= Pad(sz) + 52 && Pad(more) <= h.blocks[i].size - Pad(sz) - 20
    ensures var h1 := Allocate(h, sz);
      Gains(h, h1, Pad(sz)) && Gains(h1, Allocate(h1, more), Pad(more))
  {
    hide Gains, Carve, Allocate, Spaced, Coalesced;
    var i := FirstFit(h.blocks, Pad(sz), 0);
    GrantIsTight(h.blocks, i, Pad(sz));
    FitGains(h, sz, i);
    CarveKeeps(h.blocks, i, Pad(sz));
    var h1 := Allocate(h, sz);
    assert h1.Heap? by { GainsHeap(h, sz); }
    assert h1.blocks[i + 1] == Block(h.blocks[i].at + 20 + Pad(sz), h.blocks[i].size - Pad(sz) - 20, true);
    FitGains(h1, more, i + 1);
  }

  lemma GainsHeap(h: Heap, sz: nat)
    requires Gains(h, Allocate(h, sz), Pad(sz))
    ensures Allocate(h, sz).Heap?
  {
  }

  /** All but 1040 bytes of the arena, and then 100 of the 1000 bytes left. */
  lemma NearlyAllThenMore()
    ensures var h1 := Allocate(Start(), 0x3FFF_FBF0);
      Gains(Start(), h1, 0x3FFF_FBF0) && Gains(h1, Allocate(h1, 100), 100) && Gains(h1, Allocate(h1, 1000), 1000)
  {
    hide Gains, Allocate, Use;
    StartSound();
    RestServes(Start(), 0x3FFF_FBF0, 100);
    RestServes(Start(), 0x3FFF_FBF0, 1000);
  }
}
