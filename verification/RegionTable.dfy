/**
 The region table and the operations that rewrite its records in place.
 */
module RegionTables {
  import opened Common
  import opened FreeBlocks
  import opened RegionLists
  import opened Regions

  /** The records differ at most in their links. */
  predicate SameExtent(r: Region, s: Region) {
    r.start == s.start && r.length == s.length && r.threadId == s.threadId
  }

  datatype Which = FreeList | AllocList

  /** Block k merged with its right and then its left neighbour, where they touch. */
  function Coalesced(bs: seq<Block>, k: nat): seq<Block>
    requires k < |bs|
  {
    var r := MergedRight(bs, k);
    if k > 0 && End(r[k - 1]) == r[k].addr then Merged(r, k - 1) else r
  }

  function MergedRight(bs: seq<Block>, k: nat): (r: seq<Block>)
    requires k < |bs|
    ensures |r| > k && forall i :: 0 <= i < k ==> r[i] == bs[i]
    ensures r[k].addr == bs[k].addr
  {
    if k + 1 < |bs| && End(bs[k]) == bs[k + 1].addr then Merged(bs, k) else bs
  }

  lemma InsertionIs(bs: seq<Block>, b: Block, k: nat)
    requires k <= |bs|
    ensures var r := Insertion(bs, k, b);
      && r == bs[..k] + [b] + bs[k..] && r[..k] == bs[..k] && r[k] == b && r[k + 1..] == bs[k..]
  {
  }

  lemma MergeInserted(bs: seq<Block>, b: Block, k: nat)
    requires k < |bs|
    ensures Insertion(bs, k, b)[k + 1] == bs[k]
    ensures Merged(Insertion(bs, k, b), k) == bs[..k] + [Block(b.addr, b.len + bs[k].len)] + bs[k + 1..]
  {
    hide Insertion;
    InsertionIs(bs, b, k);
    var r := Insertion(bs, k, b);
    assert r[k + 1] == r[k + 1..][0];
    assert r[k + 2..] == r[k + 1..][1..];
  }

  lemma CoalescedRight(bs: seq<Block>, b: Block, k: nat)
    requires k == Pos(bs, b.addr)
    ensures var r := MergedRight(Insertion(bs, k, b), k);
      if JoinsNext(bs, b.addr, b.len) then r == bs[..k] + [Block(b.addr, b.len + bs[k].len)] + bs[k + 1..]
      else r == bs[..k] + [b] + bs[k..]
  {
    hide Pos, Insertion, Merged;
    if k < |bs| { MergeInserted(bs, b, k); }
    assert Insertion(bs, k, b) == bs[..k] + [b] + bs[k..] by { InsertionIs(bs, b, k); }
  }

  /** Inserting a block and coalescing it is giving it back. */
  lemma CoalescedIsFreed(bs: seq<Block>, b: Block)
    requires Canonical(bs) && b.len > 0 && !HitsNeighbour(bs, b.addr, b.len)
    ensures Coalesced(Insertion(bs, Pos(bs, b.addr), b), Pos(bs, b.addr)) == Freed(bs, b.addr, b.len)
  {
    hide Pos, Canonical, MergedRight;
    var k := Pos(bs, b.addr);
    CoalescedRight(bs, b, k);
    var ins := Insertion(bs, k, b);
    var r := MergedRight(ins, k);
    if JoinsPrev(bs, b.addr) {
      assert r[..k - 1] == bs[..k - 1];
    }
  }

  lemma MergedAscending(bs: seq<Block>, k: nat)
    requires Ascending(bs) && k + 1 < |bs|
    ensures Ascending(Merged(bs, k)) || End(bs[k]) != bs[k + 1].addr
  {
    var r := Merged(bs, k);
    if End(bs[k]) == bs[k + 1].addr {
      forall i, j | 0 <= i < j < |r| ensures End(r[i]) <= r[j].addr {
        MergedNth(bs, k, i);
        MergedNth(bs, k, j);
      }
    }
  }

  lemma InsertionLists(bs: seq<Block>, k: nat, b: Block, a: int)
    requires k <= |bs|
    ensures Lists(Insertion(bs, k, b), a) <==> Lists(bs, a) || a == b.addr
  {
    var r := Insertion(bs, k, b);
    InsertionNth(bs, k, b, k);
    if Lists(bs, a) {
      var i :| 0 <= i < |bs| && bs[i].addr == a;
      InsertionNth(bs, k, b, if i < k then i else i + 1);
      assert r[if i < k then i else i + 1].addr == a;
    }
    if Lists(r, a) {
      var i :| 0 <= i < |r| && r[i].addr == a;
      InsertionNth(bs, k, b, i);
    }
  }

  lemma DeletionLists(bs: seq<Block>, k: nat, a: int)
    requires k < |bs| && Ascending(bs)
    ensures Lists(Deletion(bs, k), a) <==> Lists(bs, a) && a != bs[k].addr
  {
    var r := Deletion(bs, k);
    if Lists(bs, a) && a != bs[k].addr {
      var i :| 0 <= i < |bs| && bs[i].addr == a;
      DeletionNth(bs, k, if i < k then i else i - 1);
      assert r[if i < k then i else i - 1].addr == a;
    }
    if Lists(r, a) {
      var i :| 0 <= i < |r| && r[i].addr == a;
      DeletionNth(bs, k, i);
      AddrsDiffer(bs, if i < k then i else i + 1, k);
    }
  }

  lemma MergedLists(bs: seq<Block>, k: nat, a: int)
    requires k + 1 < |bs|
    ensures Lists(Merged(bs, k), a) ==> Lists(bs, a)
  {
    var r := Merged(bs, k);
    if Lists(r, a) {
      var i :| 0 <= i < |r| && r[i].addr == a;
      MergedNth(bs, k, i);
      assert bs[if i <= k then i else i + 1].addr == a;
    }
  }

  class RegionTable {
    const base: int
    const regtab: array<Region>
    var regfreelist: int
    var regalloclist: int
    ghost var free: seq<Block>
    ghost var alloc: seq<Block>

    ghost predicate TwoLists()
      reads this, regtab
    {
      && Linked(regtab[..], base, regfreelist, free)
      && Linked(regtab[..], base, regalloclist, alloc)
      && Ascending(free) && Ascending(alloc) && Apart(free, alloc)
    }

    /**
     The listed records tile the user heap, which lies within one 512 MB
     segment.  Since exact fits are passed over, the free list never runs empty.
     */
    ghost predicate Valid()
      reads this, regtab
    {
      && 0 < regtab.Length && 0 <= base && PageAligned(base) && base % SEGMENT + PAGE_SIZE * regtab.Length <= SEGMENT
      && TwoLists() && Tiled(free, alloc, regtab.Length) && free != []
    }

    function HeadOf(w: Which): int reads this { if w.FreeList? then regfreelist else regalloclist }
    ghost function ListOf(w: Which): seq<Block> reads this { if w.FreeList? then free else alloc }

    method SetHead(w: Which, a: int)
      modifies this`regfreelist, this`regalloclist
      ensures regfreelist == if w.FreeList? then a else old(regfreelist)
      ensures regalloclist == if w.FreeList? then old(regalloclist) else a
    {
      if w.FreeList? { regfreelist := a; } else { regalloclist := a; }
    }

    /** The writes of memRegionRemove. */
    method Unlink(region: int, w: Which)
      requires 0 <= region < regtab.Length
      requires -1 <= regtab[region].prev < regtab.Length && -1 <= regtab[region].next < regtab.Length
      requires regtab[region].prev != region && regtab[region].next != region
      modifies this`regfreelist, this`regalloclist, regtab
      ensures regtab[..] == LinkOut(old(regtab[..]), region)
      ensures var h := if old(regtab[region]).prev == SYSERR then old(regtab[region]).next else old(HeadOf(w));
              HeadOf(w) == h
      ensures w.FreeList? ==> regalloclist == old(regalloclist)
      ensures w.AllocList? ==> regfreelist == old(regfreelist)
    {
      if regtab[region].prev != SYSERR {
        regtab[regtab[region].prev] := regtab[regtab[region].prev].(next := regtab[region].next);
      } else {
        SetHead(w, regtab[region].next);
      }
      if regtab[region].next != SYSERR {
        regtab[regtab[region].next] := regtab[regtab[region].next].(prev := regtab[region].prev);
      }
      regtab[region] := regtab[region].(prev := SYSERR);
      regtab[region] := regtab[region].(next := SYSERR);
      assert regtab[..] == LinkOut(old(regtab[..]), region);
    }

    /** memRegionRemove. */
    method Remove(region: int, w: Which, ghost k: nat)
      requires TwoLists() && k < |ListOf(w)| && ListOf(w)[k].addr == region
      modifies this, regtab
      ensures TwoLists()
      ensures ListOf(w) == Deletion(old(ListOf(w)), k)
      ensures w.FreeList? ==> alloc == old(alloc)
      ensures w.AllocList? ==> free == old(free)
      ensures 0 <= region < regtab.Length
      ensures regtab[region] == old(regtab[region]).(prev := SYSERR, next := SYSERR)
      ensures forall a :: 0 <= a < regtab.Length ==> SameExtent(regtab[a], old(regtab[a]))
    {
      hide Ascending, LinkOut, Deletion, Linked, Lists;
      ghost var tab, bs := regtab[..], ListOf(w);
      LinkOutLinks(tab, base, HeadOf(w), bs, k);
      LinkOutFrame(tab, base, HeadOf(w), bs, k);
      LinkOutWrites(tab, region);
      DeletionKeeps(bs, k);
      LinkOutOther(tab, base, HeadOf(w), bs, k, if w.FreeList? then regalloclist else regfreelist, if w.FreeList? then alloc else free);
      Unlink(region, w);
      assert forall a :: 0 <= a < regtab.Length ==> regtab[a] == regtab[..][a];
      if w.FreeList? { free := Deletion(bs, k); } else { alloc := Deletion(bs, k); }
    }

    /** The walk of memRegionInsert: the first record of the list that does not start below region. */
    method FindAfter(region: int, w: Which) returns (current: int, previous: int, ghost k: nat)
      requires Linked(regtab[..], base, HeadOf(w), ListOf(w))
      requires 0 <= region < regtab.Length && regtab[region].start == base + PAGE_SIZE * region
      ensures current == At(ListOf(w), Pos(ListOf(w), region)) && previous == At(ListOf(w), Pos(ListOf(w), region) - 1)
      ensures k == Pos(ListOf(w), region)
    {
      ghost var bs := ListOf(w);
      current, previous, k := HeadOf(w), SYSERR, 0;
      while true
        invariant 0 <= k <= |bs| && current == At(bs, k) && previous == At(bs, k - 1)
        invariant forall i :: 0 <= i < k ==> bs[i].addr < region
        decreases |bs| - k
      {
        assert k < |bs| ==> Node(regtab[..], base, bs, k);
        if !(current != SYSERR && regtab[current].start < regtab[region].start) { break; }
        previous := current;
        current := regtab[current].next;
        k := k + 1;
      }
      PosIs(bs, region, k);
    }

    /** The link writes of memRegionInsert, before `current` or, when there is none, after `previous`. */
    method LinkBetween(region: int, w: Which, current: int, previous: int)
      requires 0 <= region < regtab.Length && -1 <= previous < regtab.Length && -1 <= current < regtab.Length
      requires region != previous && region != current && (previous != current) && HeadOf(w) != SYSERR
      requires current != SYSERR ==> regtab[current].prev == previous
      modifies this`regfreelist, this`regalloclist, regtab
      ensures regtab[..] == LinkIn(old(regtab[..]), region, previous, current)
      ensures HeadOf(w) == if previous == SYSERR then region else old(HeadOf(w))
      ensures w.FreeList? ==> regalloclist == old(regalloclist)
      ensures w.AllocList? ==> regfreelist == old(regfreelist)
    {
      if current == SYSERR {
        regtab[previous] := regtab[previous].(next := region);
        regtab[region] := regtab[region].(prev := previous);
        regtab[region] := regtab[region].(next := SYSERR);
      } else {
        regtab[region] := regtab[region].(prev := regtab[current].prev);
        regtab[region] := regtab[region].(next := current);
        if regtab[current].prev != SYSERR {
          regtab[regtab[current].prev] := regtab[regtab[current].prev].(next := region);
        } else {
          SetHead(w, region);
        }
        regtab[current] := regtab[current].(prev := region);
      }
      assert regtab[..] == LinkIn(old(regtab[..]), region, previous, current);
    }

    /** Half of memRegionCoalesce: record a takes over its successor. */
    method SwallowNext(a: int)
      requires 0 <= a < regtab.Length && 0 <= regtab[a].next < regtab.Length
      requires var adjacent := regtab[a].next; adjacent != a && -1 <= regtab[adjacent].next < regtab.Length && regtab[adjacent].next != a && regtab[adjacent].next != adjacent
      modifies regtab
      ensures regtab[..] == Swallow(old(regtab[..]), a)
    {
      var adjacent := regtab[a].next;
      regtab[a] := regtab[a].(length := regtab[a].length + regtab[adjacent].length);
      regtab[a] := regtab[a].(next := regtab[adjacent].next);
      if regtab[adjacent].next != SYSERR {
        regtab[regtab[adjacent].next] := regtab[regtab[adjacent].next].(prev := a);
      }
      assert regtab[..] == Swallow(old(regtab[..]), a);
    }

    /** SwallowNext on the free list. */
    method MergeAt(ghost k: nat, a: int)
      requires TwoLists() && k + 1 < |free| && a == free[k].addr && End(free[k]) == free[k + 1].addr
      modifies this`free, regtab
      ensures TwoLists() && free == Merged(old(free), k)
      ensures forall x :: 0 <= x < regtab.Length && !Lists(old(free), x) ==> regtab[x] == old(regtab[x])
      ensures forall x :: 0 <= x < regtab.Length ==> regtab[x].threadId == old(regtab[x].threadId)
    {
      hide Ascending, Swallow, Merged, Linked, Lists;
      ghost var tab, bs := regtab[..], free;
      SwallowLinks(tab, base, regfreelist, bs, k);
      SwallowFrame(tab, base, regfreelist, bs, k, regalloclist, alloc);
      MergedAscending(bs, k);
      forall x ensures Lists(Merged(bs, k), x) ==> Lists(bs, x) { MergedLists(bs, k, x); }
      SwallowNext(a);
      assert forall x :: 0 <= x < regtab.Length ==> regtab[x] == regtab[..][x];
      free := Merged(bs, k);
    }

    /** memRegionCoalesce. */
    method Coalesce(region: int, ghost k: nat)
      requires TwoLists() && k < |free| && region == free[k].addr
      modifies this`free, regtab
      ensures TwoLists() && free == Coalesced(old(free), k)
      ensures forall x :: 0 <= x < regtab.Length && !Lists(old(free), x) ==> regtab[x] == old(regtab[x])
      ensures forall x :: 0 <= x < regtab.Length ==> regtab[x].threadId == old(regtab[x].threadId)
    {
      hide Ascending, Merged, Lists;
      assert Node(regtab[..], base, free, k);
      assert k + 1 < |free| ==> Node(regtab[..], base, free, k + 1);
      var adjacent := regtab[region].next;
      if adjacent != SYSERR && regtab[region].start + regtab[region].length == regtab[adjacent].start {
        MergeAt(k, region);
      }
      assert free == MergedRight(old(free), k);
      if k + 1 < |old(free)| { forall x ensures Lists(Merged(old(free), k), x) ==> Lists(old(free), x) { MergedLists(old(free), k, x); } }
      assert Node(regtab[..], base, free, k);
      assert k > 0 ==> Node(regtab[..], base, free, k - 1);
      adjacent := regtab[region].prev;
      if adjacent != SYSERR && regtab[adjacent].start + regtab[adjacent].length == regtab[region].start {
        MergeAt(k - 1, adjacent);
      }
    }

    /** memRegionInsert. */
    method Insert(region: int, w: Which, ghost b: Block)
      requires TwoLists() && Canonical(free) && 0 <= region < regtab.Length && b.addr == region && b.len > 0
      requires !Lists(free, region) && !Lists(alloc, region) && !HitsNeighbour(ListOf(w), region, b.len)
      requires var r := regtab[region];
        r.prev == SYSERR && r.next == SYSERR && r.start == base + PAGE_SIZE * region && r.length == PAGE_SIZE * b.len
      modifies this, regtab
      ensures TwoLists() && Canonical(free)
      ensures w.FreeList? ==> free == Freed(old(free), region, b.len) && alloc == old(alloc)
      ensures w.AllocList? ==> free == old(free) && alloc == Insertion(old(alloc), Pos(old(alloc), region), b)
      ensures forall x :: 0 <= x < regtab.Length ==> regtab[x].threadId == old(regtab[x].threadId)
      ensures forall x :: 0 <= x < regtab.Length && x != region && !Lists(old(ListOf(w)), x) ==> regtab[x] == old(regtab[x])
    {
      hide Ascending, Canonical, Insertion, Freed, HitsNeighbour, Linked, Lists, Coalesced, LinkIn, Pos;
      ghost var tab, bs := regtab[..], ListOf(w);
      if w.FreeList? {
        FreedCanonical(bs, region, b.len);
        CoalescedIsFreed(bs, b);
      }
      InsertionAscending(bs, b);
      ghost var k := Pos(bs, region);
      forall x ensures Lists(Insertion(bs, k, b), x) <==> Lists(bs, x) || x == region { InsertionLists(bs, k, b, x); }
      LinkInLinks(tab, base, HeadOf(w), bs, k, b);
      LinkInFrame(tab, base, HeadOf(w), bs, k, region, if w.FreeList? then regalloclist else regfreelist, if w.FreeList? then alloc else free);
      if HeadOf(w) == SYSERR {
        EmptyList(tab, base, bs, b, k);
        SetHead(w, region);
      } else {
        var current, previous, k0 := FindAfter(region, w);
        LinkBetween(region, w, current, previous);
      }
      assert forall x :: 0 <= x < regtab.Length ==> regtab[x] == regtab[..][x];
      if w.FreeList? { free := Insertion(bs, k, b); } else { alloc := Insertion(bs, k, b); }
      assert TwoLists();
      HeadsApart(regtab[..], base, regfreelist, free, regalloclist, alloc);
      InsertionAt(bs, k, b, k);
      if HeadOf(w) == regfreelist {
        Coalesce(region, k);
      }
    }

    /** memRegionInit for a page-aligned start: one free region that spans the heap. */
    constructor (memoryStart: int, memorySize: int)
      requires 0 <= memoryStart <= 0xFFFF_F000 && PageAligned(memoryStart) && PAGE_SIZE <= memorySize
      requires memoryStart % SEGMENT + memorySize <= SEGMENT
      ensures Valid() && base == memoryStart && regtab.Length == memorySize / PAGE_SIZE
      ensures free == [Block(0, memorySize / PAGE_SIZE)] && alloc == []
    {
      InitPages(memoryStart, memorySize);
      var size := TruncPage(memoryStart + memorySize) - memoryStart;
      var start := RoundPage(memoryStart);
      var maxRegions := size / PAGE_SIZE;
      base := start;
      regtab := new Region[maxRegions](_ => Region(SYSERR, SYSERR, 0, 0, 0));
      regfreelist, regalloclist := 0, SYSERR;
      free, alloc := [Block(0, maxRegions)], [];
      new;
      regtab[0] := Region(SYSERR, SYSERR, start, size, 0);
      forall x ensures Covers(free, x) <==> 0 <= x < maxRegions { CoversOne(free[0], x); }
    }

    /** memRegionSplit of a region that is on no list. */
    method Split(region: int, length: int, ghost b: Block, ghost n: int) returns (remainder: Rest)
      requires TwoLists() && 0 < regtab.Length && 0 <= base && PageAligned(base)
      requires base % SEGMENT + PAGE_SIZE * regtab.Length <= SEGMENT
      requires regtab[0].start == base
      requires 0 <= region == b.addr && End(b) <= regtab.Length && 0 < n < b.len && length == PAGE_SIZE * n
      requires regtab[region].start == base + PAGE_SIZE * region && regtab[region].length == PAGE_SIZE * b.len
      requires !Lists(free, region) && !Lists(alloc, region) && !Lists(free, region + n) && !Lists(alloc, region + n)
      modifies regtab
      ensures TwoLists()
      ensures remainder == Record(region + n)
      ensures regtab[region] == old(regtab[region]).(length := length)
      ensures regtab[region + n] == Region(SYSERR, SYSERR, base + PAGE_SIZE * (region + n), PAGE_SIZE * (b.len - n), 0)
      ensures forall x :: 0 <= x < regtab.Length && x != region && x != region + n ==> regtab[x] == old(regtab[x])
    {
      hide Linked, Lists, Ascending, Apart, RoundPage, Discover, PageAligned;
      ghost var tab := regtab[..];
      RoundWhole(n, length);
      if regtab[region].length < RoundPage(length) { return Error; }
      if regtab[region].length == RoundPage(length) { return Nothing; }
      var remStart := regtab[region].start + RoundPage(length);
      DiscoverPage(base, regtab.Length, region + n);
      var r := Discover(remStart, regtab[0].start);
      regtab[r] := Region(SYSERR, SYSERR, remStart, regtab[region].length - RoundPage(length), 0);
      regtab[region] := regtab[region].(length := RoundPage(length));
      LinkedFrame(tab, regtab[..], base, regfreelist, free);
      LinkedFrame(tab, regtab[..], base, regalloclist, alloc);
      remainder := Record(r);
    }

    /** The search of memRegionAlloc: the first free region that is strictly longer. */
    method FindLonger(nbytes: int, ghost n: int) returns (region: int, ghost k: nat)
      requires Valid() && nbytes == PAGE_SIZE * n
      ensures region == At(free, FirstLonger(free, n))
      ensures k == FirstLonger(free, n) && (region == SYSERR <==> k == |free|)
    {
      hide Ascending, Canonical, Tiled, Apart, PageAligned;
      region, k := regfreelist, 0;
      while true
        invariant 0 <= k <= |free| && region == At(free, k)
        invariant forall i :: 0 <= i < k ==> free[i].len <= n
        decreases |free| - k
      {
        assert k < |free| ==> Node(regtab[..], base, free, k);
        if region == SYSERR || regtab[region].length > nbytes { break; }
        region := regtab[region].next;
        k := k + 1;
      }
      FirstLongerIs(free, n, k);
    }

    /** memRegionInsert of a record without pages; there is nothing for it to coalesce with. */
    method InsertEmpty(region: int, w: Which)
      requires 0 <= region < regtab.Length && regtab[region].start == base + PAGE_SIZE * region && regtab[region].length == 0
      requires Linked(regtab[..], base, HeadOf(w), ListOf(w)) && !Lists(ListOf(w), region)
      requires w.FreeList? ==> Pos(free, region) == 0
      requires w.AllocList? ==> regfreelist == region
      modifies this`regfreelist, this`regalloclist, regtab
      ensures At(ListOf(w), Pos(ListOf(w), region) - 1) < regtab.Length
      ensures var previous := At(ListOf(w), Pos(ListOf(w), region) - 1);
              if previous == SYSERR then HeadOf(w) == region
              else HeadOf(w) == old(HeadOf(w)) && 0 <= previous && regtab[previous].next == region
      ensures w.FreeList? ==> regalloclist == old(regalloclist)
      ensures w.AllocList? ==> regfreelist == old(regfreelist)
      ensures SameExtent(regtab[region], old(regtab[region]))
      ensures forall x :: 0 <= x < regtab.Length && x != region && !Lists(ListOf(w), x) ==> regtab[x] == old(regtab[x])
    {
      hide Pos;
      ghost var bs, k := ListOf(w), Pos(ListOf(w), region);
      assert bs != [] ==> Node(regtab[..], base, bs, 0) && Lists(bs, bs[0].addr);
      assert k > 0 ==> Node(regtab[..], base, bs, k - 1) && Lists(bs, bs[k - 1].addr);
      assert k < |bs| ==> Node(regtab[..], base, bs, k) && Lists(bs, bs[k].addr);
      if HeadOf(w) == SYSERR {
        SetHead(w, region);
        return;
      }
      var current, previous, k0 := FindAfter(region, w);
      ghost var tab := regtab[..];
      LinkBetween(region, w, current, previous);
      forall x | 0 <= x < regtab.Length ensures regtab[x] == LinkIn(tab, region, previous, current)[x] { assert regtab[x] == regtab[..][x]; }
      if HeadOf(w) == regfreelist {
        var adjacent := regtab[region].next;
        assert adjacent == SYSERR || regtab[region].start + regtab[region].length != regtab[adjacent].start;
        adjacent := regtab[region].prev;
        assert adjacent == SYSERR;
      }
    }

    /**
     memRegionAlloc for a request that rounds to 0: every free region is longer,
     so the first one is taken; the record that memRegionSplit finds for the
     remainder is the region's own, so it is left without pages and is inserted
     in both lists.
     */
    method AllocNothing(tid: int) returns (region: int)
      requires Valid()
      modifies this, regtab
      ensures 0 <= region < regtab.Length && region == old(free)[0].addr
      ensures regfreelist == region && regtab[region].length == 0 && regtab[region].threadId == tid
      ensures alloc == old(alloc) && At(alloc, Pos(alloc, region) - 1) < regtab.Length
      ensures var previous := At(alloc, Pos(alloc, region) - 1);
              if previous == SYSERR then regalloclist == region else 0 <= previous && regtab[previous].next == region
    {
      hide Linked, Lists, Ascending, Canonical, Apart, Tiled, PageAligned, Deletion, Pos;
      ghost var k;
      NothingFacts(regtab[..], base, regfreelist, free, regalloclist, alloc);
      FirstRecordStart(regtab[..], base, regfreelist, free, regalloclist, alloc);
      region, k := FindLonger(RoundPage(0), 0);
      Remove(region, FreeList, k);
      var remStart := regtab[region].start + RoundPage(0);
      DiscoverPage(base, regtab.Length, region);
      var remainder := Discover(remStart, regtab[0].start);
      ghost var tab := regtab[..];
      regtab[remainder] := Region(SYSERR, SYSERR, remStart, regtab[region].length - RoundPage(0), 0);
      regtab[region] := regtab[region].(length := RoundPage(0));
      LinkedFrame(tab, regtab[..], base, regfreelist, free);
      LinkedFrame(tab, regtab[..], base, regalloclist, alloc);
      tab := regtab[..];
      InsertEmpty(remainder, FreeList);
      LinkedFrame(tab, regtab[..], base, regalloclist, alloc);
      InsertEmpty(region, AllocList);
      regtab[region] := regtab[region].(threadId := tid);
    }

    /** The two lists in the table tile the heap. */
    ghost predicate Intact()
      reads this, regtab
    {
      Tiles(regtab[..], base, regfreelist, regalloclist)
    }

    /**
     memRegionAlloc: takes the low pages of the first strictly longer free
     region.  The lists still tile the heap afterwards if and only if the
     request does not round to 0.
     */
    method Alloc(request: int, tid: int) returns (region: int)
      requires Valid() && 0 <= request < WORD
      modifies this, regtab
      ensures Intact() <==> RoundPage(request) != 0
      ensures RoundPage(request) != 0 ==> Valid()
      ensures RoundPage(request) == 0 ==>
              && 0 <= region < regtab.Length && region == old(free)[0].addr
              && regfreelist == region && regtab[region].length == 0 && regtab[region].threadId == tid
              && At(old(alloc), Pos(old(alloc), region) - 1) < regtab.Length
              && var previous := At(old(alloc), Pos(old(alloc), region) - 1);
                 if previous == SYSERR then regalloclist == region else 0 <= previous && regtab[previous].next == region
      ensures RoundPage(request) != 0 ==> AllocSpec(RoundPage(request) / PAGE_SIZE, old(free), old(alloc), region, tid)
      ensures RoundPage(request) != 0 ==>
        forall a :: 0 <= a < regtab.Length && Lists(old(alloc), a) ==> regtab[a].threadId == old(regtab[a].threadId)
    {
      hide Linked, Lists, Ascending, Canonical, Apart, Tiled, RoundPage, PageAligned, Pos, AllocSpec, Tiles;
      if RoundPage(request) == 0 {
        region := AllocNothing(tid);
        EmptyBreaks(regtab[..], base, regfreelist, regalloclist);
      } else {
        region := AllocPages(request, tid);
        TilesIfValid(regtab[..], base, regfreelist, free, regalloclist, alloc);
      }
    }

    /** The outcome of a request for n pages: from the first free region of more than n pages, if there is one. */
    ghost predicate AllocSpec(n: int, bs: seq<Block>, others: seq<Block>, region: int, tid: int)
      reads this, regtab
    {
      var k := FirstLonger(bs, n);
      if k == |bs| then region == SYSERR && free == bs && alloc == others
      else && region == bs[k].addr && 0 <= region < regtab.Length && n > 0
           && free == TakenLow(bs, k, n)
           && alloc == Insertion(others, Pos(others, region), Block(region, n))
           && regtab[region].threadId == tid
    }

    /** memRegionAlloc for a request of at least one page. */
    method AllocPages(request: int, tid: int) returns (region: int)
      requires Valid() && 0 < request <= 0xFFFF_F000
      modifies this, regtab
      ensures Valid()
      ensures AllocSpec(RoundPage(request) / PAGE_SIZE, old(free), old(alloc), region, tid)
      ensures forall a :: 0 <= a < regtab.Length && Lists(old(alloc), a) ==> regtab[a].threadId == old(regtab[a].threadId)
    {
      hide Linked, Lists, Ascending, Canonical, Apart, Tiled, RoundPage, PageAligned, TakenLow, Insertion, Pos, Deletion,
           FirstLonger, Freed, HitsNeighbour;
      var nbytes := RoundPage(request);
      ghost var n := nbytes / PAGE_SIZE;
      ghost var free0, alloc0 := free, alloc;
      RangeFacts(regtab[..], base, regfreelist, free, regalloclist, alloc);
      FirstRecordStart(regtab[..], base, regfreelist, free, regalloclist, alloc);
      ghost var k;
      region, k := FindLonger(nbytes, n);
      if region == SYSERR { return; }
      ghost var b := free[k];
      AllocFacts(regtab[..], base, regfreelist, free, alloc, k, n);
      Remove(region, FreeList, k);
      if regtab[region].length > nbytes {
        var remainder := Split(region, nbytes, b, n);
        if remainder.Record? {
          Insert(remainder.index, FreeList, Block(region + n, b.len - n));
        }
      }
      Insert(region, AllocList, Block(region, n));
      SetOwner(region, tid);
    }

    /** Moves allocated region j to the free list: one round of memRegionReclaim. */
    method Reclaim1(region: int, ghost j: nat)
      requires Valid() && j < |alloc| && alloc[j].addr == region
      modifies this, regtab
      ensures Valid() && alloc == Deletion(old(alloc), j)
      ensures forall x :: 0 <= x < regtab.Length ==> regtab[x].threadId == old(regtab[x].threadId)
    {
      hide Linked, Lists, Ascending, Canonical, Apart, Tiled, PageAligned, Deletion, Freed, HitsNeighbour;
      ghost var b := alloc[j];
      ReclaimFacts(regtab[..], base, regalloclist, free, alloc, j);
      Remove(region, AllocList, j);
      Insert(region, FreeList, b);
    }

    /** One round of the walk of memRegionReclaim; the successor is read before the lists change. */
    method ReclaimIfOwned(region: int, tid: int, ghost orig: seq<Block>, ghost own: seq<int>, ghost i: nat, ghost j: nat)
      returns (nextregion: int, ghost j': nat)
      requires Valid() && Owners(regtab[..]) == own && InTable(orig, |own|)
      requires Progress(orig, own, tid, i, alloc, j) && j < |alloc| && region == alloc[j].addr
      modifies this, regtab
      ensures Valid() && Owners(regtab[..]) == own
      ensures i < |orig| && Progress(orig, own, tid, i + 1, alloc, j')
      ensures nextregion == At(alloc, j') && (nextregion == SYSERR <==> j' == |alloc|)
    {
      hide Linked, Ascending, Canonical, Tiled, PageAligned, Apart, Kept, Deletion, Progress;
      ProgressStep(orig, own, tid, i, alloc, j);
      NodeFacts(regtab[..], base, regalloclist, alloc, j);
      NodeFacts(regtab[..], base, regalloclist, alloc, j + 1);
      nextregion := regtab[region].next;
      j' := j + 1;
      if regtab[region].threadId == tid {
        DeletionAt(alloc, j, j);
        Reclaim1(region, j);
        assert Owners(regtab[..]) == own;
        j' := j;
      }
    }

    /** memRegionReclaim: frees every region of thread tid, in one walk over the list that it shrinks. */
    method Reclaim(tid: int)
      requires Valid()
      modifies this, regtab
      ensures Valid()
      ensures InTable(old(alloc), regtab.Length) && alloc == Kept(old(alloc), old(Owners(regtab[..])), tid)
      ensures Owners(regtab[..]) == old(Owners(regtab[..]))
      ensures forall x :: Covers(free, x) <==> Covers(old(free), x) || Covers(OwnedBy(old(alloc), old(Owners(regtab[..])), tid), x)
    {
      hide Linked, Ascending, Canonical, Tiled, PageAligned, Apart, Kept, Deletion, Progress, Covers;
      ghost var orig, own := alloc, Owners(regtab[..]);
      RangeFacts(regtab[..], base, regfreelist, free, regalloclist, alloc);
      NodeFacts(regtab[..], base, regalloclist, alloc, 0);
      var region := regalloclist;
      ghost var i, j := 0, 0;
      ProgressStart(orig, own, tid);
      while region != SYSERR
        invariant Valid() && Owners(regtab[..]) == own && InTable(orig, |own|)
        invariant Progress(orig, own, tid, i, alloc, j)
        invariant region == At(alloc, j) && (region == SYSERR <==> j == |alloc|)
        decreases |orig| - i
      {
        region, j := ReclaimIfOwned(region, tid, orig, own, i, j);
        i := i + 1;
      }
      ProgressEnd(orig, own, tid, i, alloc, j);
      forall x ensures Covers(free, x) <==> Covers(old(free), x) || Covers(OwnedBy(orig, own, tid), x) {
        ReclaimedPages(old(free), free, orig, own, tid, regtab.Length, x);
      }
    }

    method SetOwner(region: int, tid: int)
      requires TwoLists() && 0 <= region < regtab.Length
      modifies regtab
      ensures TwoLists() && regtab[region].threadId == tid
      ensures forall x :: 0 <= x < regtab.Length && x != region ==> regtab[x] == old(regtab[x])
    {
      hide Ascending, Apart;
      ghost var tab := regtab[..];
      regtab[region] := regtab[region].(threadId := tid);
      LinkedFrame(tab, regtab[..], base, regfreelist, free);
      LinkedFrame(tab, regtab[..], base, regalloclist, alloc);
    }
  }

  predicate InTable(bs: seq<Block>, n: int) {
    forall i :: 0 <= i < |bs| ==> 0 <= bs[i].addr < n
  }

  /** The owners of all records. */
  function Owners(tab: seq<Region>): (r: seq<int>)
    ensures |r| == |tab| && forall i :: 0 <= i < |tab| ==> r[i] == tab[i].threadId
  {
    seq(|tab|, i requires 0 <= i < |tab| => tab[i].threadId)
  }

  /** The blocks that do not belong to tid, in order. */
  function Kept(bs: seq<Block>, own: seq<int>, tid: int): (r: seq<Block>)
    requires InTable(bs, |own|)
  {
    if bs == [] then []
    else Kept(bs[..|bs| - 1], own, tid) + (if own[bs[|bs| - 1].addr] == tid then [] else [bs[|bs| - 1]])
  }

  /** The blocks that belong to tid, in order. */
  function OwnedBy(bs: seq<Block>, own: seq<int>, tid: int): (r: seq<Block>)
    requires InTable(bs, |own|)
  {
    if bs == [] then []
    else OwnedBy(bs[..|bs| - 1], own, tid) + (if own[bs[|bs| - 1].addr] == tid then [bs[|bs| - 1]] else [])
  }

  /** After i regions of `orig`, those kept are in front, and position j comes next. */
  ghost predicate Progress(orig: seq<Block>, own: seq<int>, tid: int, i: int, alloc: seq<Block>, j: int)
    requires InTable(orig, |own|)
  {
    && 0 <= i <= |orig| && j == |Kept(orig[..i], own, tid)|
    && alloc == Kept(orig[..i], own, tid) + orig[i..]
  }

  lemma ProgressStart(orig: seq<Block>, own: seq<int>, tid: int)
    requires InTable(orig, |own|)
    ensures Progress(orig, own, tid, 0, orig, 0)
  {
  }

  lemma ProgressStep(orig: seq<Block>, own: seq<int>, tid: int, i: int, alloc: seq<Block>, j: int)
    requires InTable(orig, |own|) && Progress(orig, own, tid, i, alloc, j) && j < |alloc|
    ensures 0 <= j && 0 <= i < |orig| && 0 <= alloc[j].addr < |own|
    ensures own[alloc[j].addr] == tid ==> Progress(orig, own, tid, i + 1, Deletion(alloc, j), j)
    ensures own[alloc[j].addr] != tid ==> Progress(orig, own, tid, i + 1, alloc, j + 1)
  {
    assert alloc[j] == orig[i];
    assert orig[..i + 1][..i] == orig[..i];
  }

  lemma ProgressEnd(orig: seq<Block>, own: seq<int>, tid: int, i: int, alloc: seq<Block>, j: int)
    requires InTable(orig, |own|) && Progress(orig, own, tid, i, alloc, j) && j == |alloc|
    ensures alloc == Kept(orig, own, tid)
  {
    assert orig[..|orig|] == orig;
  }

  lemma NodeFacts(tab: seq<Region>, base: int, h: int, bs: seq<Block>, j: nat)
    requires Linked(tab, base, h, bs) && j <= |bs|
    ensures h == At(bs, 0) && (At(bs, j) == SYSERR <==> j == |bs|)
    ensures j < |bs| ==> 0 <= bs[j].addr < |tab| && tab[bs[j].addr].next == At(bs, j + 1)
  {
    if j < |bs| { assert Node(tab, base, bs, j); }
  }

  lemma {:induction false} KeptCovers(bs: seq<Block>, own: seq<int>, tid: int, x: int)
    requires InTable(bs, |own|)
    ensures Covers(bs, x) <==> Covers(Kept(bs, own, tid), x) || Covers(OwnedBy(bs, own, tid), x)
  {
    if bs != [] {
      var n := |bs| - 1;
      var last := [bs[n]];
      assert bs == bs[..n] + last;
      KeptCovers(bs[..n], own, tid, x);
      CoversConcat(bs[..n], last, x);
      CoversConcat(Kept(bs[..n], own, tid), last, x);
      CoversConcat(OwnedBy(bs[..n], own, tid), last, x);
      assert forall s: seq<Block> :: s + [] == s;
    }
  }

  lemma {:induction false} OwnedElements(bs: seq<Block>, own: seq<int>, tid: int)
    requires InTable(bs, |own|)
    ensures forall b :: b in Kept(bs, own, tid) ==> b in bs && own[b.addr] != tid
    ensures forall b :: b in OwnedBy(bs, own, tid) ==> b in bs && own[b.addr] == tid
  {
    if bs != [] { OwnedElements(bs[..|bs| - 1], own, tid); }
  }

  lemma KeptApart(bs: seq<Block>, own: seq<int>, tid: int, x: int)
    requires InTable(bs, |own|) && Ascending(bs)
    ensures !(Covers(Kept(bs, own, tid), x) && Covers(OwnedBy(bs, own, tid), x))
  {
    OwnedElements(bs, own, tid);
    if Covers(Kept(bs, own, tid), x) && Covers(OwnedBy(bs, own, tid), x) {
      var i :| 0 <= i < |Kept(bs, own, tid)| && Holds(Kept(bs, own, tid)[i], x);
      var j :| 0 <= j < |OwnedBy(bs, own, tid)| && Holds(OwnedBy(bs, own, tid)[j], x);
      SameHolder(bs, Kept(bs, own, tid)[i], OwnedBy(bs, own, tid)[j], x);
    }
  }

  lemma SameHolder(bs: seq<Block>, b: Block, c: Block, x: int)
    requires Ascending(bs) && b in bs && c in bs && Holds(b, x) && Holds(c, x)
    ensures b == c
  {
    var i :| 0 <= i < |bs| && bs[i] == b;
    var j :| 0 <= j < |bs| && bs[j] == c;
  }

  /** After a reclaim, exactly the pages of the thread's regions have become free. */
  lemma ReclaimedPages(free: seq<Block>, free': seq<Block>, alloc: seq<Block>, own: seq<int>, tid: int, pages: int, x: int)
    requires Tiled(free, alloc, pages) && InTable(alloc, |own|)
    requires Tiled(free', Kept(alloc, own, tid), pages)
    ensures Covers(free', x) <==> Covers(free, x) || Covers(OwnedBy(alloc, own, tid), x)
  {
    hide Covers, Canonical, Ascending;
    KeptCovers(alloc, own, tid, x);
    KeptApart(alloc, own, tid, x);
  }

  lemma ReclaimFacts(tab: seq<Region>, base: int, h: int, free: seq<Block>, alloc: seq<Block>, j: nat)
    requires Linked(tab, base, h, alloc) && Tiled(free, alloc, |tab|) && j < |alloc|
    ensures var b := alloc[j];
      && 0 <= b.addr < |tab| && b.len > 0
      && tab[b.addr].start == base + PAGE_SIZE * b.addr && tab[b.addr].length == PAGE_SIZE * b.len
      && Canonical(free) && !HitsNeighbour(free, b.addr, b.len) && !Lists(free, b.addr)
      && !Lists(Deletion(alloc, j), b.addr)
      && Tiled(Freed(free, b.addr, b.len), Deletion(alloc, j), |tab|) && Freed(free, b.addr, b.len) != []
  {
    hide Deletion, HitsNeighbour, Lists, Pos;
    assert Node(tab, base, alloc, j);
    ReclaimTiles(free, alloc, |tab|, j);
    DeletionLists(alloc, j, alloc[j].addr);
  }

  datatype Rest = Error | Nothing | Record(index: int)

  /** The first block of more than n pages. */
  function FirstLonger(bs: seq<Block>, n: int): (k: nat)
    ensures k <= |bs|
    ensures forall i :: 0 <= i < k ==> bs[i].len <= n
    ensures k < |bs| ==> bs[k].len > n
  {
    if bs == [] || bs[0].len > n then 0 else 1 + FirstLonger(bs[1..], n)
  }

  lemma FirstLongerIs(bs: seq<Block>, n: int, k: nat)
    requires k <= |bs|
    requires forall i :: 0 <= i < k ==> bs[i].len <= n
    requires k < |bs| ==> bs[k].len > n
    ensures k == FirstLonger(bs, n)
  {
  }

  lemma InitPages(start: int, size: int)
    requires 0 <= start <= 0xFFFF_F000 && PageAligned(start) && PAGE_SIZE <= size
    ensures RoundPage(start) == start
    ensures var s := TruncPage(start + size) - start;
      s / PAGE_SIZE == size / PAGE_SIZE && s == PAGE_SIZE * (size / PAGE_SIZE) && s <= size && size / PAGE_SIZE > 0
  {
  }

  lemma RoundWhole(n: int, length: int)
    requires length == PAGE_SIZE * n && 0 < length <= SEGMENT
    ensures RoundPage(length) == length
  {
  }

  lemma RangeFacts(tab: seq<Region>, base: int, hf: int, free: seq<Block>, ha: int, alloc: seq<Block>)
    requires Linked(tab, base, hf, free) && Linked(tab, base, ha, alloc)
    ensures forall i :: 0 <= i < |free| ==> 0 <= free[i].addr < |tab|
    ensures forall i :: 0 <= i < |alloc| ==> 0 <= alloc[i].addr < |tab|
  {
    forall i | 0 <= i < |free| ensures 0 <= free[i].addr < |tab| { assert Node(tab, base, free, i); }
    forall i | 0 <= i < |alloc| ensures 0 <= alloc[i].addr < |tab| { assert Node(tab, base, alloc, i); }
  }
  /** All that the steps of memRegionAlloc rely on, from the tiling before the call. */
  lemma AllocFacts(tab: seq<Region>, base: int, h: int, free: seq<Block>, alloc: seq<Block>, k: nat, n: int)
    requires Linked(tab, base, h, free) && Tiled(free, alloc, |tab|) && k < |free| && 0 < n < free[k].len
    ensures var b := free[k];
      var less, rest := Deletion(free, k), Block(b.addr + n, b.len - n);
      && 0 <= b.addr && End(b) <= |tab|
      && tab[b.addr].start == base + PAGE_SIZE * b.addr && tab[b.addr].length == PAGE_SIZE * b.len
      && Canonical(less) && !HitsNeighbour(less, rest.addr, rest.len)
      && Freed(less, rest.addr, rest.len) == TakenLow(free, k, n)
      && !HitsNeighbour(alloc, b.addr, n)
      && Tiled(TakenLow(free, k, n), Insertion(alloc, Pos(alloc, b.addr), Block(b.addr, n)), |tab|)
      && Canonical(TakenLow(free, k, n)) && TakenLow(free, k, n) != []
      && !Lists(TakenLow(free, k, n), b.addr) && !Lists(alloc, b.addr) && !Lists(less, b.addr)
      && !Lists(less, rest.addr) && !Lists(alloc, rest.addr)
  {
    hide Insertion, Pos, Deletion, Freed, HitsNeighbour, Lists;
    assert Node(tab, base, free, k);
    RestGoesBack(free, k, n);
    AllocTiles(free, alloc, |tab|, k, n);
    InnerPageUnlisted(free, alloc, |tab|, k, free[k].addr + n);
    CanonicalAscending(free);
    DeletionLists(free, k, free[k].addr);
    DeletionLists(free, k, free[k].addr + n);
    assert Holds(free[k], End(free[k]) - 1);
    assert Covers(free, End(free[k]) - 1);
  }

  /** The lists that start at hf and ha tile the heap. */
  ghost predicate Tiles(tab: seq<Region>, base: int, hf: int, ha: int) {
    exists free: seq<Block>, alloc: seq<Block> ::
      Linked(tab, base, hf, free) && Linked(tab, base, ha, alloc) && free != [] && Tiled(free, alloc, |tab|)
  }

  lemma TilesIfValid(tab: seq<Region>, base: int, hf: int, free: seq<Block>, ha: int, alloc: seq<Block>)
    requires Linked(tab, base, hf, free) && Linked(tab, base, ha, alloc) && free != [] && Tiled(free, alloc, |tab|)
    ensures Tiles(tab, base, hf, ha)
  {
  }

  /** A record without pages at the head of the free list: the lists tile nothing. */
  lemma EmptyBreaks(tab: seq<Region>, base: int, hf: int, ha: int)
    requires 0 <= hf < |tab| && tab[hf].length == 0
    ensures !Tiles(tab, base, hf, ha)
  {
    forall free: seq<Block> | Linked(tab, base, hf, free) && free != [] ensures !Canonical(free) {
      assert Node(tab, base, free, 0);
    }
  }

  /** The first free region, before and after it is taken off the list. */
  lemma NothingFacts(tab: seq<Region>, base: int, hf: int, free: seq<Block>, ha: int, alloc: seq<Block>)
    requires Linked(tab, base, hf, free) && Linked(tab, base, ha, alloc) && Tiled(free, alloc, |tab|) && free != []
    requires Apart(free, alloc)
    ensures FirstLonger(free, 0) == 0 && hf == free[0].addr && 0 <= hf < |tab| && tab[hf].start == base + PAGE_SIZE * hf
    ensures !Lists(alloc, hf) && !Lists(Deletion(free, 0), hf) && Pos(Deletion(free, 0), hf) == 0
    ensures Apart(Deletion(free, 0), alloc)
  {
    assert Node(tab, base, free, 0) && Lists(free, free[0].addr);
    CanonicalAscending(free);
    DeletionKeeps(free, 0);
    if |free| > 1 { DeletionNth(free, 0, 0); }
    PosIs(Deletion(free, 0), hf, 0);
  }

  lemma FirstRecordStart(tab: seq<Region>, base: int, hf: int, free: seq<Block>, ha: int, alloc: seq<Block>)
    requires Linked(tab, base, hf, free) && Linked(tab, base, ha, alloc) && Tiled(free, alloc, |tab|) && |tab| > 0
    ensures tab[0].start == base
  {
    FirstRecordListed(free, alloc, |tab|);
    var bs := if Lists(free, 0) then free else alloc;
    var i :| 0 <= i < |bs| && bs[i].addr == 0;
    assert Node(tab, base, bs, i);
  }

  lemma LinkOutFrame(tab: seq<Region>, base: int, h: int, bs: seq<Block>, k: nat)
    requires Linked(tab, base, h, bs) && Ascending(bs) && k < |bs|
    ensures var a := bs[k].addr;
      && 0 <= a < |tab| && -1 <= tab[a].prev < |tab| && -1 <= tab[a].next < |tab|
      && tab[a].prev != a && tab[a].next != a
      && (tab[a].prev != SYSERR ==> Lists(bs, tab[a].prev)) && (tab[a].next != SYSERR ==> Lists(bs, tab[a].next))
      && (tab[a].prev == tab[a].next ==> tab[a].prev == SYSERR)
      && (tab[a].prev == SYSERR <==> k == 0)
  {
    assert Node(tab, base, bs, k);
    assert k > 0 ==> Node(tab, base, bs, k - 1);
    assert k + 1 < |bs| ==> Node(tab, base, bs, k + 1);
    if k > 0 { AddrsDiffer(bs, k, k - 1); }
    if k + 1 < |bs| { AddrsDiffer(bs, k, k + 1); }
    if 0 < k && k + 1 < |bs| { AddrsDiffer(bs, k - 1, k + 1); }
  }

  lemma LinkOutWrites(tab: seq<Region>, a: int)
    requires 0 <= a < |tab| && -1 <= tab[a].prev < |tab| && -1 <= tab[a].next < |tab|
    requires a != tab[a].prev && a != tab[a].next
    ensures forall x :: 0 <= x < |tab| ==> SameExtent(LinkOut(tab, a)[x], tab[x])
    ensures LinkOut(tab, a)[a] == tab[a].(prev := SYSERR, next := SYSERR)
  {
    hide LinkOut;
    forall x | 0 <= x < |tab| ensures SameExtent(LinkOut(tab, a)[x], tab[x]) { LinkOutField(tab, a, x); }
    LinkOutField(tab, a, a);
  }

  lemma DeletionKeeps(bs: seq<Block>, k: nat)
    requires Ascending(bs) && k < |bs|
    ensures Ascending(Deletion(bs, k))
    ensures forall a :: Lists(Deletion(bs, k), a) <==> Lists(bs, a) && a != bs[k].addr
  {
    hide Deletion, Lists;
    var r := Deletion(bs, k);
    forall i | 0 <= i < |r| ensures r[i].len > 0 { DeletionNth(bs, k, i); }
    forall i, j | 0 <= i < j < |r| ensures End(r[i]) <= r[j].addr {
      DeletionNth(bs, k, i);
      DeletionNth(bs, k, j);
    }
    forall a ensures Lists(r, a) <==> Lists(bs, a) && a != bs[k].addr { DeletionLists(bs, k, a); }
  }

  /** Unlinking from one list leaves the other list linked. */
  lemma LinkOutOther(tab: seq<Region>, base: int, h: int, bs: seq<Block>, k: nat, head: int, other: seq<Block>)
    requires Linked(tab, base, h, bs) && Ascending(bs) && k < |bs|
    requires Linked(tab, base, head, other) && Apart(bs, other)
    ensures 0 <= bs[k].addr < |tab| && -1 <= tab[bs[k].addr].prev < |tab| && -1 <= tab[bs[k].addr].next < |tab|
    ensures Linked(LinkOut(tab, bs[k].addr), base, head, other)
  {
    hide LinkOut, Linked, Ascending;
    LinkOutFrame(tab, base, h, bs, k);
    var a := bs[k].addr;
    assert Lists(bs, a);
    forall x | 0 <= x < |tab| && Lists(other, x)
      ensures LinkOut(tab, a)[x].(threadId := tab[x].threadId) == tab[x]
    {
      LinkOutField(tab, a, x);
    }
    LinkedFrame(tab, LinkOut(tab, a), base, head, other);
  }

  lemma PosIs(bs: seq<Block>, p: int, k: nat)
    requires k <= |bs|
    requires forall i :: 0 <= i < k ==> bs[i].addr < p
    requires k < |bs| ==> bs[k].addr >= p
    ensures k == Pos(bs, p)
  {
  }

  /** Swallowing touches no record of the other list and no owner. */
  lemma SwallowFrame(tab: seq<Region>, base: int, h: int, bs: seq<Block>, k: nat, head: int, other: seq<Block>)
    requires Linked(tab, base, h, bs) && Ascending(bs) && k + 1 < |bs|
    requires Linked(tab, base, head, other) && Apart(bs, other)
    ensures var a := bs[k].addr;
      && 0 <= a < |tab| && 0 <= tab[a].next < |tab| && -1 <= tab[tab[a].next].next < |tab|
      && tab[a].next != a && tab[tab[a].next].next != a && tab[tab[a].next].next != tab[a].next
      && Linked(Swallow(tab, a), base, head, other)
      && (forall x :: 0 <= x < |tab| ==> Swallow(tab, a)[x].threadId == tab[x].threadId)
      && (forall x :: 0 <= x < |tab| && !Lists(bs, x) ==> Swallow(tab, a)[x] == tab[x])
  {
    hide Swallow, Ascending;
    var a := bs[k].addr;
    assert Node(tab, base, bs, k) && Node(tab, base, bs, k + 1);
    AddrsDiffer(bs, k, k + 1);
    if k + 2 < |bs| {
      assert Node(tab, base, bs, k + 2);
      AddrsDiffer(bs, k, k + 2);
      AddrsDiffer(bs, k + 1, k + 2);
      assert Lists(bs, bs[k + 2].addr);
    }
    assert Lists(bs, a);
    forall x | 0 <= x < |tab|
      ensures Swallow(tab, a)[x].threadId == tab[x].threadId
      ensures Lists(other, x) ==> Swallow(tab, a)[x] == tab[x]
      ensures !Lists(bs, x) ==> Swallow(tab, a)[x] == tab[x]
    {
      SwallowField(tab, a, x);
    }
    LinkedFrame(tab, Swallow(tab, a), base, head, other);
  }

  /** Linking in touches no record of the other list and no owner. */
  lemma LinkInFrame(tab: seq<Region>, base: int, h: int, bs: seq<Block>, k: nat, a: int, head: int, other: seq<Block>)
    requires Linked(tab, base, h, bs) && Ascending(bs) && k <= |bs|
    requires Linked(tab, base, head, other) && Apart(bs, other)
    requires 0 <= a < |tab| && !Lists(bs, a) && !Lists(other, a)
    ensures var prev, next := At(bs, k - 1), At(bs, k);
      && -1 <= prev < |tab| && -1 <= next < |tab| && prev != a && next != a && (prev == next ==> bs == [])
      && (next != SYSERR ==> tab[next].prev == prev) && (prev == SYSERR <==> k == 0) && (h == SYSERR <==> bs == [])
      && Linked(LinkIn(tab, a, prev, next), base, head, other)
      && (forall x :: 0 <= x < |tab| ==> LinkIn(tab, a, prev, next)[x].threadId == tab[x].threadId)
      && (forall x :: 0 <= x < |tab| && x != a && !Lists(bs, x) ==> LinkIn(tab, a, prev, next)[x] == tab[x])
  {
    hide LinkIn, Ascending;
    var prev, next := At(bs, k - 1), At(bs, k);
    if bs != [] { assert Node(tab, base, bs, 0); }
    if k > 0 { assert Node(tab, base, bs, k - 1) && Lists(bs, bs[k - 1].addr); }
    if k < |bs| { assert Node(tab, base, bs, k) && Lists(bs, bs[k].addr); }
    if 0 < k < |bs| { AddrsDiffer(bs, k - 1, k); }
    forall x | 0 <= x < |tab|
      ensures LinkIn(tab, a, prev, next)[x].threadId == tab[x].threadId
      ensures Lists(other, x) ==> LinkIn(tab, a, prev, next)[x] == tab[x]
      ensures x != a && !Lists(bs, x) ==> LinkIn(tab, a, prev, next)[x] == tab[x]
    {
      LinkInField(tab, a, prev, next, x);
    }
    LinkedFrame(tab, LinkIn(tab, a, prev, next), base, head, other);
  }

  lemma EmptyList(tab: seq<Region>, base: int, bs: seq<Block>, b: Block, k: nat)
    requires Linked(tab, base, SYSERR, bs) && k <= |bs| && 0 <= b.addr < |tab|
    requires tab[b.addr].prev == SYSERR && tab[b.addr].next == SYSERR
    ensures bs == [] && k == 0 && LinkIn(tab, b.addr, SYSERR, SYSERR) == tab
  {
    assert bs != [] ==> Node(tab, base, bs, 0);
    assert tab[b.addr].(prev := SYSERR, next := SYSERR) == tab[b.addr];
    assert tab[b.addr := tab[b.addr]] == tab;
  }

  lemma HeadsApart(tab: seq<Region>, base: int, hf: int, free: seq<Block>, ha: int, alloc: seq<Block>)
    requires Linked(tab, base, hf, free) && Linked(tab, base, ha, alloc) && Apart(free, alloc)
    ensures hf == ha ==> hf == SYSERR && free == [] && alloc == []
  {
    if free != [] { assert Node(tab, base, free, 0) && Lists(free, free[0].addr); }
    if alloc != [] { assert Node(tab, base, alloc, 0) && Lists(alloc, alloc[0].addr); }
  }
}
