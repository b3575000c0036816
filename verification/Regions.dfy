/**
 The page allocator of the user heap (mem/memRegion*.c): a table with one
 record per page, and two lists of records, free and allocated.
 */
module Regions {
  import opened Common
  import opened FreeBlocks
  import opened RegionLists

  const SEGMENT := 0x2000_0000

  /** roundpage and truncpage in 32-bit arithmetic. */
  function RoundPage(x: int): (r: int)
    requires 0 <= x < WORD
    ensures 0 <= r < WORD
    ensures x <= 0xFFFF_F000 ==> x <= r < x + PAGE_SIZE && r == PAGE_SIZE * (r / PAGE_SIZE)
    ensures r == 0 <==> x == 0 || x > 0xFFFF_F000
  {
    (4095 + x) % WORD / PAGE_SIZE * PAGE_SIZE
  }

  function TruncPage(x: int): (r: int)
    requires 0 <= x
    ensures r <= x < r + PAGE_SIZE
  {
    x / PAGE_SIZE * PAGE_SIZE
  }

  predicate PageAligned(x: int) { x % PAGE_SIZE == 0 }

  /** The addresses that memRegionInit puts in the first record: from the rounded start, for this many bytes. */
  function InitialLength(start: int, size: int): int
    requires 0 <= start && 0 <= size
  {
    TruncPage(start + size) - start
  }

  /** memRegionInit trims the end but not, by the same amount, the length: right exactly for an aligned start. */
  lemma InitExact(start: int, size: int)
    requires 0 <= start <= 0xFFFF_F000 && 0 <= size
    ensures RoundPage(start) + InitialLength(start, size) == TruncPage(start + size) <==> PageAligned(start)
    ensures !PageAligned(start) ==> RoundPage(start) + InitialLength(start, size) > TruncPage(start + size)
  {
  }

  /** Every page belongs to exactly one listed block. */
  ghost predicate Tiled(free: seq<Block>, alloc: seq<Block>, n: int) {
    && Canonical(free) && Ascending(alloc)
    && (forall x :: 0 <= x < n ==> (Covers(free, x) <==> !Covers(alloc, x)))
    && (forall x :: Covers(free, x) || Covers(alloc, x) ==> 0 <= x < n)
  }

  lemma ListsCovers(bs: seq<Block>, a: int)
    requires Ascending(bs)
    ensures Lists(bs, a) ==> Covers(bs, a)
  {
    if Lists(bs, a) {
      var i :| 0 <= i < |bs| && bs[i].addr == a;
      assert Holds(bs[i], a);
    }
  }

  /** No record is on both lists. */
  ghost predicate Apart(free: seq<Block>, alloc: seq<Block>) {
    forall a :: !(Lists(free, a) && Lists(alloc, a))
  }

  /** The record of a page inside a block, other than its first, is on neither list. */
  lemma InnerPageUnlisted(free: seq<Block>, alloc: seq<Block>, n: int, k: nat, a: int)
    requires Tiled(free, alloc, n) && k < |free| && free[k].addr < a < End(free[k])
    ensures !Lists(free, a) && !Lists(alloc, a)
  {
    assert Holds(free[k], a);
    ListsCovers(alloc, a);
  }

  /** Record 0 is always listed, so regtab[0].start stays what it was. */
  lemma FirstRecordListed(free: seq<Block>, alloc: seq<Block>, n: int)
    requires Tiled(free, alloc, n) && n > 0
    ensures Lists(free, 0) || Lists(alloc, 0)
  {
    assert Covers(free, 0) || Covers(alloc, 0);
    var bs := if Covers(free, 0) then free else alloc;
    var i :| 0 <= i < |bs| && Holds(bs[i], 0);
    assert bs[i].len > 0 && Holds(bs[i], bs[i].addr);
    assert Covers(bs, bs[i].addr);
  }

  lemma DeletionCovers(bs: seq<Block>, k: nat, x: int)
    requires Ascending(bs) && k < |bs|
    ensures Covers(Deletion(bs, k), x) <==> Covers(bs, x) && !Holds(bs[k], x)
  {
    hide Covers;
    SpliceCovers(bs, k, k + 1, [], x);
    assert bs[..k] + [] + bs[k + 1..] == Deletion(bs, k);
    assert bs[k..k + 1] == [bs[k]];
    CoversOne(bs[k], x);
    CoversNone(x);
    if Holds(bs[k], x) { OutsideBlock(bs, k, x); }
  }

  lemma DeletionCanonical(bs: seq<Block>, k: nat)
    requires Canonical(bs) && k < |bs|
    ensures Canonical(Deletion(bs, k))
  {
    RemovalCanonical(bs, k);
    assert bs[..k] + [] + bs[k + 1..] == Deletion(bs, k);
  }

  lemma InsertionCovers(bs: seq<Block>, k: nat, b: Block, x: int)
    requires k <= |bs|
    ensures Covers(Insertion(bs, k, b), x) <==> Covers(bs, x) || Holds(b, x)
  {
    hide Covers;
    SpliceCovers(bs, k, k, [b], x);
    assert bs[k..k] == [];
    CoversNone(x);
    CoversOne(b, x);
  }

  lemma InsertionAscending(bs: seq<Block>, b: Block)
    requires Ascending(bs) && b.len > 0 && !HitsNeighbour(bs, b.addr, b.len)
    ensures Ascending(Insertion(bs, Pos(bs, b.addr), b))
  {
    hide Pos, Insertion;
    var k := Pos(bs, b.addr);
    var r := Insertion(bs, k, b);
    forall i | 0 <= i < |r| ensures r[i].len > 0 { InsertionNth(bs, k, b, i); }
    forall i, j | 0 <= i < j < |r| ensures End(r[i]) <= r[j].addr {
      InsertionNth(bs, k, b, i);
      InsertionNth(bs, k, b, j);
      if j == k && i < k - 1 { assert End(bs[i]) <= bs[k - 1].addr; }
      if i == k && k < j - 1 { assert End(bs[k]) <= bs[j - 1].addr; }
    }
  }

  lemma BlockCovered(bs: seq<Block>, k: nat, x: int)
    requires k < |bs|
    ensures Holds(bs[k], x) ==> Covers(bs, x)
  {
  }

  /** The rest of a split block goes back where the block was, and nothing merges with it. */
  lemma RestGoesBack(bs: seq<Block>, k: nat, n: int)
    requires Canonical(bs) && k < |bs| && 0 < n < bs[k].len
    ensures var rest := Block(bs[k].addr + n, bs[k].len - n);
      && Canonical(Deletion(bs, k))
      && !HitsNeighbour(Deletion(bs, k), rest.addr, rest.len)
      && Freed(Deletion(bs, k), rest.addr, rest.len) == TakenLow(bs, k, n)
  {
    hide Covers, HitsNeighbour, Freed, TakenLow, Deletion;
    var rest := Block(bs[k].addr + n, bs[k].len - n);
    var less := Deletion(bs, k);
    CanonicalAscending(bs);
    DeletionCanonical(bs, k);
    CanonicalAscending(less);
    forall x ensures Covers(less, x) <==> Covers(bs, x) && !Holds(bs[k], x) { DeletionCovers(bs, k, x); }
    NeighbourTestExact(less, rest.addr, rest.len);
    FreedCanonical(less, rest.addr, rest.len);
    TakenCanonical(bs, k, n);
    forall x ensures Covers(Freed(less, rest.addr, rest.len), x) <==> Covers(TakenLow(bs, k, n), x) {
      FreedCovers(less, rest.addr, rest.len, x);
      TakenCovers(bs, k, n, x);
      BlockCovered(bs, k, x);
    }
    CanonicalUnique(Freed(less, rest.addr, rest.len), TakenLow(bs, k, n));
  }

  /** Allocating the first n pages of free block k keeps the heap tiled. */
  lemma AllocTiles(free: seq<Block>, alloc: seq<Block>, pages: int, k: nat, n: int)
    requires Tiled(free, alloc, pages) && k < |free| && 0 < n < free[k].len
    ensures var got := Block(free[k].addr, n);
      && !HitsNeighbour(alloc, got.addr, n)
      && Tiled(TakenLow(free, k, n), Insertion(alloc, Pos(alloc, got.addr), got), pages)
      && !Lists(TakenLow(free, k, n), got.addr) && !Lists(alloc, got.addr)
  {
    hide Covers, HitsNeighbour, TakenLow, Insertion, Pos, Canonical, Ascending;
    var got := Block(free[k].addr, n);
    forall x ensures Holds(got, x) ==> Covers(free, x) { BlockCovered(free, k, x); }
    NeighbourTestExact(alloc, got.addr, n);
    InsertionAscending(alloc, got);
    TakenCanonical(free, k, n);
    CanonicalAscending(TakenLow(free, k, n));
    forall x
      ensures Covers(TakenLow(free, k, n), x) <==> Covers(free, x) && !Holds(got, x)
      ensures Covers(Insertion(alloc, Pos(alloc, got.addr), got), x) <==> Covers(alloc, x) || Holds(got, x)
    {
      TakenCovers(free, k, n, x);
      InsertionCovers(alloc, Pos(alloc, got.addr), got, x);
    }
    assert Holds(got, got.addr);
    ListsCovers(TakenLow(free, k, n), got.addr);
    ListsCovers(alloc, got.addr);
  }

  /** Freeing allocated block j keeps the heap tiled. */
  lemma ReclaimTiles(free: seq<Block>, alloc: seq<Block>, pages: int, j: nat)
    requires Tiled(free, alloc, pages) && j < |alloc|
    ensures var b := alloc[j];
      && b.len > 0 && !HitsNeighbour(free, b.addr, b.len) && !Lists(free, b.addr)
      && Tiled(Freed(free, b.addr, b.len), Deletion(alloc, j), pages)
  {
    var b := alloc[j];
    assert b.len > 0 && Ascending(Deletion(alloc, j));
    hide Covers, HitsNeighbour, Freed, Deletion, Canonical;
    forall x ensures Holds(b, x) ==> Covers(alloc, x) { BlockCovered(alloc, j, x); }
    CanonicalAscending(free);
    NeighbourTestExact(free, b.addr, b.len);
    FreedCanonical(free, b.addr, b.len);
    forall x
      ensures Covers(Freed(free, b.addr, b.len), x) <==> Covers(free, x) || Holds(b, x)
      ensures Covers(Deletion(alloc, j), x) <==> Covers(alloc, x) && !Holds(b, x)
    {
      FreedCovers(free, b.addr, b.len, x);
      DeletionCovers(alloc, j, x);
    }
    assert Holds(b, b.addr);
    ListsCovers(free, b.addr);
  }

  /** The free list is determined by the allocated one. */
  lemma FreeDetermined(free: seq<Block>, free': seq<Block>, alloc: seq<Block>, pages: int)
    requires Tiled(free, alloc, pages) && Tiled(free', alloc, pages)
    ensures free == free'
  {
    hide Covers, Canonical;
    forall x ensures Covers(free, x) <==> Covers(free', x) {}
    CanonicalUnique(free, free');
  }

  // ---------- finding the record of a page ----------

  /** memRegionDiscover: the page of an address, relative to the start of record 0, high bits ignored. */
  function Discover(address: int, start: int): int
    requires 0 <= address
  {
    (TruncPage(address) % SEGMENT - start % SEGMENT) / PAGE_SIZE
  }

  lemma DiscoverPage(base: int, pages: int, p: int)
    requires 0 <= base && PageAligned(base) && base % SEGMENT + PAGE_SIZE * pages <= SEGMENT && 0 <= p < pages
    ensures Discover(base + PAGE_SIZE * p, base) == p
  {
    var a := base + PAGE_SIZE * p;
    assert a % PAGE_SIZE == 0;
    assert TruncPage(a) == a;
    assert a % SEGMENT == base % SEGMENT + PAGE_SIZE * p;
  }

  /**
   The record that a split finds for the remainder is the region's own record
   exactly when nothing is asked for: a request of 0 bytes would put one record
   on both lists.
   */
  lemma SplitAliases(base: int, pages: int, p: int, n: int)
    requires 0 <= base && PageAligned(base) && base % SEGMENT + PAGE_SIZE * pages <= SEGMENT
    requires 0 <= p && 0 <= n && p + n < pages
    ensures Discover(base + PAGE_SIZE * p + PAGE_SIZE * n, base) == p <==> n == 0
  {
    DiscoverPage(base, pages, p + n);
    assert base + PAGE_SIZE * p + PAGE_SIZE * n == base + PAGE_SIZE * (p + n);
  }
}
