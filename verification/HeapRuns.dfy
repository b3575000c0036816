/**
 Whole runs of the kernel heap: free and handed-out memory always partition the
 heap, whatever the order of requests and returns.
 */
module HeapRuns {
  import opened FreeBlocks
  import opened Heaps
  import opened Common

  /** The free list and the blocks that are out. */
  datatype HeapState = HeapState(free: seq<Block>, out: set<Block>)

  datatype Request = Get(nbytes: int) | Stack(nbytes: int) | Return(block: Block)

  /** Sizes that do not wrap around when rounded, and returns of blocks that are out. */
  predicate Legal(h: HeapState, op: Request) {
    match op
    case Get(nbytes) => 0 < nbytes <= 0xFFFF_FFF8
    case Stack(nbytes) => 0 < nbytes <= 0xFFFF_FFF8
    case Return(b) => b in h.out
  }

  function Serve(h: HeapState, op: Request): HeapState
    requires Legal(h, op)
  {
    match op
    case Get(nbytes) =>
      var n := RoundMb(nbytes);
      var k := FirstFit(h.free, n);
      if k == |h.free| then h
      else HeapState(TakenLow(h.free, k, n), h.out + {Block(h.free[k].addr, n)})
    case Stack(nbytes) =>
      var n := RoundMb(nbytes);
      var k := LastFit(h.free, n);
      if k == -1 then h
      else HeapState(TakenHigh(h.free, k, n), h.out + {Block(End(h.free[k]) - n, n)})
    case Return(b) =>
      HeapState(Freed(h.free, b.addr, b.len), h.out - {b})
  }

  ghost predicate OutCovers(out: set<Block>, x: int) {
    exists b :: b in out && Holds(b, x)
  }

  /** The free list is canonical and in the heap; every heap address is in exactly one free or handed-out block. */
  ghost predicate Partition(h: HeapState, lo: int, hi: int) {
    && Canonical(h.free) && InHeap(h.free, lo, hi)
    && (forall b :: b in h.out ==> b.len > 0 && Fits(b, lo, hi))
    && (forall b, c, x :: b in h.out && c in h.out && Holds(b, x) && Holds(c, x) ==> b == c)
    && (forall x :: OutCovers(h.out, x) ==> !Covers(h.free, x))
    && (forall x :: lo <= x < hi ==> Covers(h.free, x) || OutCovers(h.out, x))
  }

  lemma OutAdded(out: set<Block>, b: Block, x: int)
    ensures OutCovers(out + {b}, x) <==> OutCovers(out, x) || Holds(b, x)
  {
    if Holds(b, x) { assert b in out + {b}; }
    if OutCovers(out, x) { var c :| c in out && Holds(c, x); assert c in out + {b}; }
  }

  /** Handing out the block b, which the free list loses. */
  lemma HandOut(h: HeapState, h': HeapState, b: Block, lo: int, hi: int)
    requires Partition(h, lo, hi) && Canonical(h'.free) && InHeap(h'.free, lo, hi)
    requires h'.out == h.out + {b} && b.len > 0 && Fits(b, lo, hi)
    requires forall x :: Holds(b, x) ==> Covers(h.free, x)
    requires forall x :: Covers(h'.free, x) <==> Covers(h.free, x) && !Holds(b, x)
    ensures Partition(h', lo, hi)
  {
    hide Canonical, InHeap, Covers, Fits;
    forall x ensures OutCovers(h'.out, x) <==> OutCovers(h.out, x) || Holds(b, x) { OutAdded(h.out, b, x); }
    forall c, d, x | c in h'.out && d in h'.out && Holds(c, x) && Holds(d, x) ensures c == d {
      assert c in h.out || d in h.out ==> OutCovers(h.out, x) || c == d;
      assert OutCovers(h.out, x) ==> !Holds(b, x);
    }
  }

  lemma CoversBlock(bs: seq<Block>, k: nat, x: int)
    requires k < |bs| && Holds(bs[k], x)
    ensures Covers(bs, x)
  {
  }

  lemma GetKeeps(h: HeapState, nbytes: int, lo: int, hi: int)
    requires Partition(h, lo, hi) && 0 < nbytes <= 0xFFFF_FFF8
    ensures Partition(Serve(h, Get(nbytes)), lo, hi)
  {
    hide RoundMb, FirstFit, Aligned, OutCovers, Canonical, Covers, TakenLow, TakenHigh, Total;
    var n := RoundMb(nbytes);
    var k := FirstFit(h.free, n);
    if k < |h.free| {
      var b := Block(h.free[k].addr, n);
      TakenValid(h.free, k, n, lo, hi);
      assert Fits(h.free[k], lo, hi);
      forall x
        ensures Holds(b, x) ==> Covers(h.free, x)
        ensures Covers(TakenLow(h.free, k, n), x) <==> Covers(h.free, x) && !Holds(b, x)
      {
        TakenCovers(h.free, k, n, x);
        if Holds(b, x) { CoversBlock(h.free, k, x); }
      }
      HandOut(h, Serve(h, Get(nbytes)), b, lo, hi);
    }
  }

  lemma StackKeeps(h: HeapState, nbytes: int, lo: int, hi: int)
    requires Partition(h, lo, hi) && 0 < nbytes <= 0xFFFF_FFF8
    ensures Partition(Serve(h, Stack(nbytes)), lo, hi)
  {
    hide RoundMb, LastFit, Aligned, OutCovers, Canonical, Covers, TakenLow, TakenHigh, Total;
    var n := RoundMb(nbytes);
    var k := LastFit(h.free, n);
    if k >= 0 {
      var b := Block(End(h.free[k]) - n, n);
      TakenValid(h.free, k, n, lo, hi);
      assert Fits(h.free[k], lo, hi);
      AlignedSum(h.free[k].addr, h.free[k].len);
      AlignedSum(End(h.free[k]), n);
      forall x
        ensures Holds(b, x) ==> Covers(h.free, x)
        ensures Covers(TakenHigh(h.free, k, n), x) <==> Covers(h.free, x) && !Holds(b, x)
      {
        TakenCovers(h.free, k, n, x);
        if Holds(b, x) { CoversBlock(h.free, k, x); }
      }
      HandOut(h, Serve(h, Stack(nbytes)), b, lo, hi);
    }
  }

  /** A block that is out overlaps no free block, so `memfree` accepts it. */
  lemma ReturnAccepted(h: HeapState, b: Block, lo: int, hi: int)
    requires Partition(h, lo, hi) && b in h.out
    ensures !Overlaps(h.free, b.addr, b.len) && !HitsNeighbour(h.free, b.addr, b.len)
  {
    hide HitsNeighbour, Canonical, InHeap;
    forall x | b.addr <= x < b.addr + b.len ensures !Covers(h.free, x) {
      assert Holds(b, x);
      assert OutCovers(h.out, x);
    }
    CanonicalAscending(h.free);
    NeighbourTestExact(h.free, b.addr, b.len);
  }

  lemma OutRemoved(out: set<Block>, b: Block, x: int)
    requires b in out
    requires forall c, d, y :: c in out && d in out && Holds(c, y) && Holds(d, y) ==> c == d
    ensures OutCovers(out - {b}, x) <==> OutCovers(out, x) && !Holds(b, x)
  {
    if OutCovers(out, x) && !Holds(b, x) { var c :| c in out && Holds(c, x); assert c in out - {b}; }
    if OutCovers(out - {b}, x) { var c :| c in out - {b} && Holds(c, x); assert c in out; }
  }

  lemma ReturnKeeps(h: HeapState, b: Block, lo: int, hi: int)
    requires Partition(h, lo, hi) && b in h.out
    ensures Partition(Serve(h, Return(b)), lo, hi)
  {
    hide Canonical, InHeap, HitsNeighbour, Freed, Covers, OutCovers, Aligned;
    ReturnAccepted(h, b, lo, hi);
    assert Fits(b, lo, hi);
    FreedValid(h.free, b.addr, b.len, lo, hi);
    forall x
      ensures Covers(Freed(h.free, b.addr, b.len), x) <==> Covers(h.free, x) || Holds(b, x)
      ensures OutCovers(h.out - {b}, x) <==> OutCovers(h.out, x) && !Holds(b, x)
    {
      FreedCovers(h.free, b.addr, b.len, x);
      OutRemoved(h.out, b, x);
    }
  }

  ghost predicate HeapRun(hs: seq<HeapState>, ops: seq<Request>) {
    && |hs| == |ops| + 1
    && (forall i :: 0 <= i < |ops| ==> Legal(hs[i], ops[i]) && hs[i + 1] == Serve(hs[i], ops[i]))
  }

  /** What sysinit makes: the whole heap in one free block. */
  predicate Booted(h: HeapState, lo: int, hi: int) {
    h == HeapState([Block(lo, hi - lo)], {})
  }

  /** In every run from boot, free and handed-out blocks partition the heap and the free list is canonical. */
  lemma {:induction false} AlwaysPartition(hs: seq<HeapState>, ops: seq<Request>, i: nat, lo: int, hi: int)
    requires HeapRun(hs, ops) && Booted(hs[0], lo, hi) && lo < hi && Aligned(lo) && Aligned(hi) && i < |hs|
    ensures Partition(hs[i], lo, hi)
  {
    hide Partition, Serve, Aligned;
    if i == 0 {
      BootPartition(hs[0], lo, hi);
    } else {
      AlwaysPartition(hs, ops, i - 1, lo, hi);
      assert hs[i - 1 + 1] == Serve(hs[i - 1], ops[i - 1]);
      match ops[i - 1]
      case Get(nbytes) => GetKeeps(hs[i - 1], nbytes, lo, hi);
      case Stack(nbytes) => StackKeeps(hs[i - 1], nbytes, lo, hi);
      case Return(b) => ReturnKeeps(hs[i - 1], b, lo, hi);
    }
  }

  lemma BootPartition(h: HeapState, lo: int, hi: int)
    requires Booted(h, lo, hi) && lo < hi && Aligned(lo) && Aligned(hi)
    ensures Partition(h, lo, hi)
  {
    hide Aligned;
    AlignedSum(hi, lo);
    forall x ensures Covers(h.free, x) <==> lo <= x < hi { CoversOne(h.free[0], x); }
  }

  /**
   Whatever was requested and in whatever order it was returned: once nothing
   is out, the free list is the single block that boot made.
   */
  lemma AllReturned(hs: seq<HeapState>, ops: seq<Request>, i: nat, lo: int, hi: int)
    requires HeapRun(hs, ops) && Booted(hs[0], lo, hi) && lo < hi && Aligned(lo) && Aligned(hi) && i < |hs|
    requires hs[i].out == {}
    ensures hs[i].free == [Block(lo, hi - lo)]
  {
    AlwaysPartition(hs, ops, i, lo, hi);
    BootPartition(hs[0], lo, hi);
    var h := hs[i];
    forall x ensures Covers(h.free, x) <==> Covers(hs[0].free, x) {
      assert !OutCovers(h.out, x) && !OutCovers(hs[0].out, x);
      CoveredInHeap(h.free, x, lo, hi);
      CoveredInHeap(hs[0].free, x, lo, hi);
    }
    CanonicalUnique(h.free, hs[0].free);
  }

  lemma CoveredInHeap(bs: seq<Block>, x: int, lo: int, hi: int)
    requires InHeap(bs, lo, hi)
    ensures Covers(bs, x) ==> lo <= x < hi
  {
    if Covers(bs, x) {
      var i :| 0 <= i < |bs| && Holds(bs[i], x);
      assert Fits(bs[i], lo, hi);
    }
  }

  /** Returning a block at once undoes the request, exactly: `memfree(memget(n), n)` and `stkfree(stkget(n), n)`. */
  lemma ReturnUndoes(h: HeapState, op: Request, lo: int, hi: int)
    requires Partition(h, lo, hi) && Legal(h, op) && !op.Return?
    requires Serve(h, op) != h
    ensures var n := RoundMb(op.nbytes);
      var b := if op.Get? then Block(h.free[FirstFit(h.free, n)].addr, n) else Block(End(h.free[LastFit(h.free, n)]) - n, n);
      b in Serve(h, op).out && Serve(Serve(h, op), Return(b)) == h
  {
    hide RoundMb, FirstFit, LastFit, Freed, HitsNeighbour;
    var n := RoundMb(op.nbytes);
    var k := if op.Get? then FirstFit(h.free, n) else LastFit(h.free, n);
    TakeThenFree(h.free, k, n);
    var b := Block(if op.Get? then h.free[k].addr else End(h.free[k]) - n, n);
    assert Holds(b, b.addr) && Holds(h.free[k], b.addr);
    assert Covers(h.free, b.addr);
    assert b in h.out ==> OutCovers(h.out, b.addr);
  }

  // ---------- the calls themselves serve these requests ----------

  method ServeGet(heap: Heap, nbytes: int, ghost h: HeapState) returns (r: int)
    requires heap.Valid() && h.free == heap.free && Legal(h, Get(nbytes))
    modifies heap
    ensures heap.Valid() && heap.free == Serve(h, Get(nbytes)).free
    ensures if r == SYSERR then Serve(h, Get(nbytes)) == h else Serve(h, Get(nbytes)).out == h.out + {Block(r, RoundMb(nbytes))}
  {
    hide RoundMb, TakenLow;
    InHeapAddresses(heap.free, heap.memheap, heap.maxaddr);
    r := heap.Memget(nbytes);
  }

  method ServeStack(heap: Heap, nbytes: int, ghost h: HeapState) returns (r: int)
    requires heap.Valid() && h.free == heap.free && Legal(h, Stack(nbytes))
    modifies heap
    ensures heap.Valid() && heap.free == Serve(h, Stack(nbytes)).free
    ensures if r == SYSERR then Serve(h, Stack(nbytes)) == h
            else Serve(h, Stack(nbytes)).out == h.out + {Block(r + 4 - RoundMb(nbytes), RoundMb(nbytes))}
  {
    hide RoundMb, TakenHigh;
    InHeapAddresses(heap.free, heap.memheap, heap.maxaddr);
    r := heap.Stkget(nbytes);
  }

  method ServeReturn(heap: Heap, b: Block, ghost h: HeapState) returns (r: int)
    requires heap.Valid() && h.free == heap.free && Partition(h, heap.memheap, heap.maxaddr) && Legal(h, Return(b))
    modifies heap
    ensures heap.Valid() && r == 0 && heap.free == Serve(h, Return(b)).free && Serve(h, Return(b)).out == h.out - {b}
  {
    hide Freed, Overlaps, Covers, Canonical, OutCovers, RoundMb;
    ReturnAccepted(h, b, heap.memheap, heap.maxaddr);
    assert Fits(b, heap.memheap, heap.maxaddr);
    RoundAligned(b.len);
    r := heap.Memfree(b.addr, b.len);
  }

  lemma RoundAligned(x: int)
    requires 0 <= x <= 0xFFFF_FFF8 && Aligned(x)
    ensures RoundMb(x) == x
  {
  }

  /** Free blocks do not start at -1, nor does their last word. */
  lemma InHeapAddresses(bs: seq<Block>, lo: int, hi: int)
    requires Canonical(bs) && InHeap(bs, lo, hi) && lo > 0
    ensures forall i :: 0 <= i < |bs| ==> bs[i].addr > 0 && End(bs[i]) - 4 > -1
  {
    forall i | 0 <= i < |bs| ensures bs[i].addr > 0 && End(bs[i]) - 4 > -1 { assert Fits(bs[i], lo, hi); }
  }
}
