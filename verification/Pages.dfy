// The page reference table of the user heap, and when its counts cover every user of a page.

module Pages {
  import opened Blocks

  const PAGE := 4096
  const PAGES := SIZE / PAGE
  const WRAP := 65536

  /** One 16-bit counter per page, and one entry past the table, which a block at the arena's end reaches. */
  ghost predicate Table(refs: seq<int>) {
    |refs| == PAGES + 1 && forall p :: 0 <= p < |refs| ==> 0 <= refs[p] < WRAP
  }

  function PageOf(a: int): int { (a - BASE) / PAGE }

  /** Whether a region of sz bytes at a touches page p; the byte after the region counts too. */
  predicate Covers(a: int, sz: int, p: int) {
    PageOf(a) <= p <= PageOf(a + sz)
  }

  function Bit(c: bool): int { if c then 1 else 0 }

  /** One more reference to every page of a region. */
  function Use(refs: seq<int>, a: int, sz: int): (r: seq<int>)
    ensures |r| == |refs|
  {
    seq(|refs|, p requires 0 <= p < |refs| => if Covers(a, sz, p) then (refs[p] + 1) % WRAP else refs[p])
  }

  /** One reference less to every page of a region. */
  function Unuse(refs: seq<int>, a: int, sz: int): (r: seq<int>)
    ensures |r| == |refs|
  {
    seq(|refs|, p requires 0 <= p < |refs| => refs[p] - Bit(Covers(a, sz, p)))
  }

  /** Whether the counters of a region can all be decremented; otherwise the program is aborted. */
  ghost predicate Releasable(refs: seq<int>, a: int, sz: int) {
    forall p :: 0 <= p < |refs| && Covers(a, sz, p) ==> refs[p] > 0
  }

  // ----- who uses a page -----

  /** The header of a block uses its pages, and so does, once more, the whole block when it is live. */
  function Uses(b: Block, p: int): int {
    Bit(Covers(b.at, HEADER, p)) + Bit(!b.free && Covers(b.at, b.size + HEADER, p))
  }

  function Users(bs: seq<Block>, p: int): (n: int)
    ensures n >= 0
  {
    if bs == [] then 0 else Uses(bs[0], p) + Users(bs[1..], p)
  }

  lemma {:induction false} UsersCat(a: seq<Block>, b: seq<Block>, p: int)
    ensures Users(a + b, p) == Users(a, p) + Users(b, p)
  {
    if a == [] {
      assert a + b == b;
    } else {
      UsersCat(a[1..], b, p);
      assert (a + b)[1..] == a[1..] + b;
    }
  }

  /** The users of a page around a piece of the list. */
  lemma UsersAround(a: seq<Block>, mid: seq<Block>, c: seq<Block>, p: int)
    ensures Users(a + mid + c, p) == Users(a, p) + Users(mid, p) + Users(c, p)
  {
    UsersCat(a, mid, p);
    UsersCat(a + mid, c, p);
  }

  lemma UsersOne(b: Block, p: int)
    ensures Users([b], p) == Uses(b, p)
  {
    assert [b][1..] == [];
  }

  lemma UsersTwo(b: Block, c: Block, p: int)
    ensures Users([b, c], p) == Uses(b, p) + Uses(c, p)
  {
    assert [b, c] == [b] + [c];
    UsersCat([b], [c], p);
    UsersOne(b, p);
    UsersOne(c, p);
  }

  /** Replacing one block changes the users by what the two blocks use. */
  lemma UsersSwap(bs: seq<Block>, i: nat, b: Block, p: int)
    requires i < |bs|
    ensures Users(bs[i := b], p) == Users(bs, p) - Uses(bs[i], p) + Uses(b, p)
  {
    assert bs == bs[..i] + [bs[i]] + bs[i + 1..];
    assert bs[i := b] == bs[..i] + [b] + bs[i + 1..];
    UsersAround(bs[..i], [bs[i]], bs[i + 1..], p);
    UsersAround(bs[..i], [b], bs[i + 1..], p);
    UsersOne(b, p);
    UsersOne(bs[i], p);
  }

  lemma UsersOfSplit(bs: seq<Block>, i: nat, sz: nat, p: int)
    requires i < |bs| && bs[i].free
    ensures Users(Split(bs, i, sz), p) == Users(bs, p) + Bit(Covers(bs[i].at + HEADER + sz, HEADER, p))
  {
    var r := Split(bs, i, sz);
    assert bs == bs[..i] + [bs[i]] + bs[i + 1..];
    UsersAround(bs[..i], [bs[i]], bs[i + 1..], p);
    UsersAround(bs[..i], [r[i], r[i + 1]], bs[i + 1..], p);
    UsersOne(bs[i], p);
    UsersTwo(r[i], r[i + 1], p);
  }

  lemma UsersOfJoin(bs: seq<Block>, i: nat, p: int)
    requires i + 1 < |bs| && bs[i].free && bs[i + 1].free
    ensures Users(Join(bs, i), p) == Users(bs, p) - Bit(Covers(bs[i + 1].at, HEADER, p))
  {
    var r := Join(bs, i);
    assert bs == bs[..i] + [bs[i], bs[i + 1]] + bs[i + 2..];
    UsersAround(bs[..i], [bs[i], bs[i + 1]], bs[i + 2..], p);
    UsersAround(bs[..i], [r[i]], bs[i + 2..], p);
    UsersTwo(bs[i], bs[i + 1], p);
    UsersOne(r[i], p);
  }

  /** A page that a block touches has users. */
  lemma UsersAtLeast(bs: seq<Block>, i: nat, p: int)
    requires i < |bs|
    ensures Users(bs, p) >= Uses(bs[i], p)
  {
    UsersSwap(bs, i, bs[i], p);
    assert bs == bs[..i] + [bs[i]] + bs[i + 1..];
    UsersAround(bs[..i], [bs[i]], bs[i + 1..], p);
    UsersOne(bs[i], p);
  }

  // ----- the counts cover the users -----

  /** Every page has at least as many references as users. */
  ghost predicate Accounted(refs: seq<int>, bs: seq<Block>) {
    Table(refs) && forall p :: 0 <= p <= PAGES ==> Users(bs, p) <= refs[p]
  }

  /** No counter of the region is about to wrap around. */
  ghost predicate Roomy(refs: seq<int>, a: int, sz: int) {
    forall p :: 0 <= p < |refs| && Covers(a, sz, p) ==> refs[p] != WRAP - 1
  }

  /**
   * Splitting maps the new header. The counts cover the users afterwards exactly when no counter wraps.
   */
  lemma SplitAccounted(refs: seq<int>, bs: seq<Block>, i: nat, sz: nat)
    requires Accounted(refs, bs) && i < |bs| && bs[i].free
    ensures Accounted(Use(refs, bs[i].at + HEADER + sz, HEADER), Split(bs, i, sz))
      <==> Roomy(refs, bs[i].at + HEADER + sz, HEADER)
  {
    var a := bs[i].at + HEADER + sz;
    var r := Use(refs, a, HEADER);
    forall p | 0 <= p <= PAGES
      ensures Users(Split(bs, i, sz), p) <= r[p] <==> !(Covers(a, HEADER, p) && refs[p] == WRAP - 1)
    {
      UsersOfSplit(bs, i, sz, p);
      assert Users(bs, p) <= refs[p];
    }
  }

  /**
   * Taking a block references sz + 20 bytes, though the block may be larger. The counts cover the users
   * afterwards exactly when no counter wraps and the pages that were left out had a reference to spare.
   */
  lemma TakeAccounted(refs: seq<int>, bs: seq<Block>, i: nat, sz: nat)
    requires Accounted(refs, bs) && i < |bs| && Fits(bs[i], sz)
    ensures Accounted(Use(refs, bs[i].at, sz + HEADER), Take(bs, i))
      <==> Roomy(refs, bs[i].at, sz + HEADER) && Spare(refs, bs, i, sz)
  {
    var b := bs[i];
    var r := Use(refs, b.at, sz + HEADER);
    forall p | 0 <= p <= PAGES
      ensures Users(Take(bs, i), p) <= r[p] <==>
        !(Covers(b.at, sz + HEADER, p) && refs[p] == WRAP - 1) && (LeftOut(b, sz, p) ==> Users(bs, p) < refs[p])
    {
      UsersSwap(bs, i, b.(free := false), p);
      assert Users(bs, p) <= refs[p];
      assert PageOf(b.at + sz + HEADER) <= PageOf(b.at + b.size + HEADER);
    }
  }

  /**
   * Extending the list references the new header once, and the new block once more. The counts cover the users
   * afterwards exactly when no counter wraps.
   */
  lemma ExtendAccounted(refs: seq<int>, bs: seq<Block>, sz: nat)
    requires Accounted(refs, bs) && bs != []
    ensures var a := Tip(bs);
      Accounted(Use(Use(refs, a, HEADER), a, sz + HEADER), Extended(bs, sz)) <==>
        Roomy(refs, a, HEADER) && Roomy(Use(refs, a, HEADER), a, sz + HEADER)
  {
    var a := Tip(bs);
    var b := Block(a, sz, false);
    var u := Use(refs, a, HEADER);
    var r := Use(u, a, sz + HEADER);
    assert PageOf(a + HEADER) <= PageOf(a + sz + HEADER);
    forall p | 0 <= p <= PAGES
      ensures 0 <= r[p] < WRAP
      ensures Users(Extended(bs, sz), p) <= r[p] <==>
        !(Covers(a, HEADER, p) && refs[p] == WRAP - 1) && !(Covers(a, sz + HEADER, p) && u[p] == WRAP - 1)
    {
      UsersCat(bs, [b], p);
      UsersOne(b, p);
      assert Users(bs, p) <= refs[p];
    }
  }

  /** A page that belongs to the whole block, but not to its first sz bytes. */
  predicate LeftOut(b: Block, sz: int, p: int) {
    Covers(b.at, b.size + HEADER, p) && !Covers(b.at, sz + HEADER, p)
  }

  ghost predicate Spare(refs: seq<int>, bs: seq<Block>, i: nat, sz: nat)
    requires |refs| == PAGES + 1 && i < |bs|
  {
    forall p :: 0 <= p <= PAGES && LeftOut(bs[i], sz, p) ==> Users(bs, p) < refs[p]
  }

  /** The request ends on the same page as the block it is given. */
  predicate Snug(b: Block, sz: nat) {
    Splits(b, sz) || PageOf(b.at + sz + HEADER) == PageOf(b.at + b.size + HEADER)
  }

  /** A request that ends on its block's last page leaves no page out. */
  lemma SnugSpares(refs: seq<int>, bs: seq<Block>, i: nat, sz: nat)
    requires |refs| == PAGES + 1 && i < |bs| && !Splits(bs[i], sz) && Snug(bs[i], sz)
    ensures Spare(refs, bs, i, sz)
  {
  }

  /** A request that ends earlier leaves out one page, the one where the next block starts. */
  lemma LeftOutIsLast(b: Block, sz: nat, p: int)
    requires Fits(b, sz) && !Splits(b, sz) && !Snug(b, sz)
    ensures LeftOut(b, sz, p) <==> p == PageOf(b.at + b.size + HEADER)
  {
    assert PageOf(b.at + sz + HEADER) + 1 == PageOf(b.at + b.size + HEADER);
  }

  /** Dropping a live block: no counter is zero, and the counts go on covering the users. */
  lemma DropAccounted(refs: seq<int>, bs: seq<Block>, i: nat)
    requires Accounted(refs, bs) && i < |bs| && !bs[i].free
    ensures Releasable(refs, bs[i].at, bs[i].size + HEADER)
    ensures Accounted(Unuse(refs, bs[i].at, bs[i].size + HEADER), Drop(bs, i))
  {
    var b := bs[i];
    forall p | 0 <= p <= PAGES
      ensures Covers(b.at, b.size + HEADER, p) ==> refs[p] > 0
      ensures Users(Drop(bs, i), p) <= refs[p] - Bit(Covers(b.at, b.size + HEADER, p))
    {
      UsersSwap(bs, i, b.(free := true), p);
      UsersAtLeast(bs, i, p);
      assert Users(bs, p) <= refs[p];
    }
  }

  /** Joining gives up the header of the second block, but only its first page. */
  lemma JoinAccounted(refs: seq<int>, bs: seq<Block>, i: nat)
    requires Accounted(refs, bs) && i + 1 < |bs| && bs[i].free && bs[i + 1].free
    ensures Releasable(refs, bs[i + 1].at, 1)
    ensures Accounted(Unuse(refs, bs[i + 1].at, 1), Join(bs, i))
  {
    var b := bs[i + 1];
    forall p | 0 <= p <= PAGES
      ensures Covers(b.at, 1, p) ==> refs[p] > 0
      ensures Users(Join(bs, i), p) <= refs[p] - Bit(Covers(b.at, 1, p))
    {
      UsersOfJoin(bs, i, p);
      UsersAtLeast(bs, i + 1, p);
      assert Users(bs, p) <= refs[p];
      assert PageOf(b.at + 1) <= PageOf(b.at + HEADER);
    }
  }
}
