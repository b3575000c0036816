/** The kernel heap (system/memget.c, system/memfree.c, system/stkget.c). */
module Heaps {
  import opened Common
  import opened FreeBlocks

  const NULL := 0

  datatype MemBlock = MemBlock(next: int, length: int)

  predicate Aligned(x: int) { x == 8 * (x / 8) }

  lemma AlignedSum(x: int, y: int)
    requires Aligned(x) && Aligned(y)
    ensures Aligned(x + y) && Aligned(x - y)
  {
  }

  /** roundmb in 32-bit arithmetic: up to a multiple of 8, wrapping to 0 above 0xFFFFFFF8. */
  function RoundMb(x: int): (r: int)
    requires 0 <= x < WORD
    ensures Aligned(r) && 0 <= r < WORD
    ensures x <= 0xFFFF_FFF8 ==> x <= r < x + 8
    ensures x > 0xFFFF_FFF8 ==> r == 0
  {
    (7 + x) % WORD / 8 * 8
  }

  lemma RoundTwice(x: int)
    requires 0 <= x <= 0xFFFF_FFF8
    ensures RoundMb(x) <= 0xFFFF_FFF8 && RoundMb(RoundMb(x)) == RoundMb(x) && (RoundMb(x) == 0 <==> x == 0)
  {
  }

  /** A request for x bytes whose size was computed in 32 bits gets a block of x bytes if and only if nothing wraps. */
  lemma BlockHolds(x: int)
    requires 0 <= x
    ensures x <= RoundMb(x % WORD) <==> x <= 0xFFFF_FFF8
  {
    hide RoundMb;
    var r := x % WORD;
    if x < WORD { assert r == x; } else { assert r <= x - WORD; }
  }

  function AddrAt(bs: seq<Block>, k: nat): int {
    if k < |bs| then bs[k].addr else NULL
  }

  function PrevAt(bs: seq<Block>, k: nat): int
    requires k <= |bs|
  {
    if k == 0 then NULL else bs[k - 1].addr
  }

  /** The headers in memory spell out the list `bs`. */
  ghost predicate Linked(mem: map<int, MemBlock>, head: int, bs: seq<Block>) {
    && head == AddrAt(bs, 0)
    && (forall i :: 0 <= i < |bs| ==> Header(mem, bs, i))
  }

  ghost predicate Header(mem: map<int, MemBlock>, bs: seq<Block>, i: nat)
    requires i < |bs|
  {
    bs[i].addr in mem && mem[bs[i].addr] == MemBlock(AddrAt(bs, i + 1), bs[i].len)
  }

  /** A multiple of 8 bytes at a multiple of 8, between lo and hi. */
  predicate Fits(b: Block, lo: int, hi: int) {
    lo <= b.addr && End(b) <= hi && Aligned(b.addr) && Aligned(b.len)
  }

  ghost predicate InHeap(bs: seq<Block>, lo: int, hi: int) {
    forall i :: 0 <= i < |bs| ==> Fits(bs[i], lo, hi)
  }

  /** The first block of at least n bytes. */
  function FirstFit(bs: seq<Block>, n: int): (k: nat)
    ensures k <= |bs|
    ensures forall i :: 0 <= i < k ==> bs[i].len < n
    ensures k < |bs| ==> bs[k].len >= n
  {
    if bs == [] || bs[0].len >= n then 0 else 1 + FirstFit(bs[1..], n)
  }

  /** The last block of at least n bytes; -1 if there is none. */
  function LastFit(bs: seq<Block>, n: int): (k: int)
    ensures -1 <= k < |bs|
    ensures forall i :: k < i < |bs| ==> bs[i].len < n
    ensures k >= 0 ==> bs[k].len >= n
  {
    if bs == [] then -1
    else if bs[|bs| - 1].len >= n then |bs| - 1
    else LastFit(bs[..|bs| - 1], n)
  }

  /** fits and fitsprev are the last block of the first k that is large enough, and its predecessor. */
  ghost predicate BestSoFar(bs: seq<Block>, k: nat, n: int, fits: int, fitsprev: int) {
    && k <= |bs|
    && var f := LastFit(bs[..k], n);
       if f == -1 then fits == NULL else fits == bs[f].addr && fitsprev == PrevAt(bs, f)
  }

  lemma BestStart(bs: seq<Block>, n: int)
    ensures BestSoFar(bs, 0, n, NULL, NULL)
  {
  }

  lemma BestStep(bs: seq<Block>, k: nat, n: int, fits: int, fitsprev: int)
    requires BestSoFar(bs, k, n, fits, fitsprev) && k < |bs|
    ensures bs[k].len < n ==> BestSoFar(bs, k + 1, n, fits, fitsprev)
    ensures bs[k].len >= n ==> BestSoFar(bs, k + 1, n, bs[k].addr, PrevAt(bs, k))
  {
    assert bs[..k + 1][..k] == bs[..k];
  }

  lemma BestEnd(bs: seq<Block>, n: int, fits: int, fitsprev: int)
    requires BestSoFar(bs, |bs|, n, fits, fitsprev)
    ensures var f := LastFit(bs, n);
            if f == -1 then fits == NULL else fits == bs[f].addr && fitsprev == PrevAt(bs, f)
  {
    assert bs[..|bs|] == bs;
  }

  /**
   A free list threaded through the free memory itself.  `mem` holds the two-word
   header at each address where one was written; address 0 stands for NULL as a
   `next` pointer and for the list head `memlist` as a predecessor.
   */
  class Heap {
    const memheap: int
    const maxaddr: int
    var mem: map<int, MemBlock>
    var memlist: MemBlock
    ghost var free: seq<Block>

    /** The linked list in memory is the canonical list `free`, and its total length is right. */
    ghost predicate WellLinked()
      reads this
    {
      && Linked(mem, memlist.next, free)
      && Canonical(free)
      && memlist.length == Total(free)
    }

    ghost predicate Valid()
      reads this
    {
      && 0 < memheap < maxaddr < WORD && Aligned(memheap) && Aligned(maxaddr)
      && WellLinked() && InHeap(free, memheap, maxaddr)
    }

    /** sysinit: one free block from memheap to maxaddr. */
    constructor (memheap: int, maxaddr: int)
      requires 0 < memheap < maxaddr < WORD && Aligned(memheap) && Aligned(maxaddr)
      ensures Valid() && free == [Block(memheap, maxaddr - memheap)]
      ensures this.memheap == memheap && this.maxaddr == maxaddr
    {
      this.memheap := memheap;
      this.maxaddr := maxaddr;
      this.memlist := MemBlock(memheap, maxaddr - memheap);
      this.mem := map[memheap := MemBlock(NULL, maxaddr - memheap)];
      this.free := [Block(memheap, maxaddr - memheap)];
    }

    /** prev->next = a, where NULL as prev is the list head. */
    method SetNext(prev: int, a: int)
      requires prev == NULL || prev in mem
      modifies this`mem, this`memlist
      ensures prev == NULL ==> memlist == old(memlist).(next := a) && mem == old(mem)
      ensures prev != NULL ==> memlist == old(memlist) && mem == old(mem)[prev := old(mem)[prev].(next := a)]
    {
      if prev == NULL {
        memlist := memlist.(next := a);
      } else {
        mem := mem[prev := mem[prev].(next := a)];
      }
    }

    /** The walk of memget. */
    method FindFirst(n: int) returns (prev: int, curr: int, ghost k: nat)
      requires Valid()
      ensures prev == PrevAt(free, FirstFit(free, n)) && curr == AddrAt(free, FirstFit(free, n))
      ensures k == FirstFit(free, n) && (curr == NULL <==> k == |free|)
    {
      hide Aligned, Total, InHeap, Canonical;
      NonNull(free, memheap, maxaddr);
      prev, curr, k := NULL, memlist.next, 0;
      while curr != NULL
        invariant 0 <= k <= |free| && curr == AddrAt(free, k) && prev == PrevAt(free, k)
        invariant forall i :: 0 <= i < k ==> free[i].len < n
        decreases |free| - k
      {
        assert Header(mem, free, k);
        if mem[curr].length >= n { break; }
        prev := curr;
        curr := mem[curr].next;
        k := k + 1;
      }
      FirstFitUnique(free, n, k);
    }

    method Memget(nbytes: int) returns (r: int)
      requires Valid() && 0 <= nbytes < WORD
      modifies this
      ensures Valid()
      ensures var n, bs := RoundMb(nbytes), old(free);
              var k := FirstFit(bs, n);
              if nbytes == 0 || k == |bs| then r == SYSERR && free == bs
              else r == bs[k].addr && free == TakenLow(bs, k, n)
    {
      hide Aligned, RoundMb, Total, InHeap, Canonical, FirstFit, Linked, TakenLow;
      NonNull(free, memheap, maxaddr);
      if nbytes == 0 { return SYSERR; }
      var n := RoundMb(nbytes);
      var prev, curr, k := FindFirst(n);
      if curr == NULL { return SYSERR; }
      ghost var bs := free;
      if n > 0 { TakenValid(bs, k, n, memheap, maxaddr); } else { TakenNothing(bs, k); }
      TakeLowLinked(mem, memlist.next, bs, k, n);
      if mem[curr].length == n {
        SetNext(prev, mem[curr].next);
      } else {
        var leftover := curr + n;
        var next, length := mem[curr].next, mem[curr].length;
        SetNext(prev, leftover);
        mem := mem[leftover := MemBlock(next, length - n)];
      }
      memlist := memlist.(length := memlist.length - n);
      free := TakenLow(bs, k, n);
      r := curr;
    }

    /** The scan of stkget. */
    method FindLast(n: int) returns (fits: int, fitsprev: int, ghost f: int)
      requires Valid()
      ensures if LastFit(free, n) == -1 then fits == NULL
              else fits == free[LastFit(free, n)].addr != NULL && fitsprev == PrevAt(free, LastFit(free, n))
      ensures f == LastFit(free, n)
    {
      hide Aligned, Total, InHeap, Canonical, LastFit, BestSoFar;
      NonNull(free, memheap, maxaddr);
      BestStart(free, n);
      var prev, next := NULL, memlist.next;
      fits, fitsprev := NULL, NULL;
      ghost var k := 0;
      while next != NULL
        invariant 0 <= k <= |free| && next == AddrAt(free, k) && prev == PrevAt(free, k)
        invariant BestSoFar(free, k, n, fits, fitsprev)
        decreases |free| - k
      {
        BestStep(free, k, n, fits, fitsprev);
        assert Header(mem, free, k);
        if mem[next].length >= n {
          fits := next;
          fitsprev := prev;
        }
        prev := next;
        next := mem[next].next;
        k := k + 1;
      }
      BestEnd(free, n, fits, fitsprev);
      f := LastFit(free, n);
    }

    method Stkget(nbytes: int) returns (r: int)
      requires Valid() && 0 <= nbytes < WORD
      modifies this
      ensures Valid()
      ensures var n, bs := RoundMb(nbytes), old(free);
              var k := LastFit(bs, n);
              if nbytes == 0 || k == -1 then r == SYSERR && free == bs
              else r == End(bs[k]) - 4 && free == TakenHigh(bs, k, n)
    {
      hide Aligned, RoundMb, Total, InHeap, Canonical, LastFit;
      if nbytes == 0 { return SYSERR; }
      var n := RoundMb(nbytes);
      var fits, fitsprev, f := FindLast(n);
      if fits == NULL { return SYSERR; }
      NonNull(free, memheap, maxaddr);
      ghost var bs := free;
      if n > 0 { TakenValid(bs, f, n, memheap, maxaddr); } else { TakenNothing(bs, f); }
      TakeHighLinked(mem, memlist.next, bs, f, n);
      if n == mem[fits].length {
        SetNext(fitsprev, mem[fits].next);
      } else {
        mem := mem[fits := mem[fits].(length := mem[fits].length - n)];
        fits := fits + mem[fits].length;
      }
      memlist := memlist.(length := memlist.length - n);
      free := TakenHigh(bs, f, n);
      r := fits + n - 4;
    }

    /** The walk of memfree: the blocks on either side of address a. */
    method FindAround(a: int) returns (prev: int, next: int, ghost k: nat)
      requires Valid()
      ensures prev == PrevAt(free, Pos(free, a)) && next == AddrAt(free, Pos(free, a))
      ensures k == Pos(free, a)
    {
      hide Aligned, Total, InHeap;
      NonNull(free, memheap, maxaddr);
      prev, next, k := NULL, memlist.next, 0;
      while next != NULL && next < a
        invariant 0 <= k <= |free| && next == AddrAt(free, k) && prev == PrevAt(free, k)
        invariant forall i :: 0 <= i < k ==> free[i].addr < a
        decreases |free| - k
      {
        assert Header(mem, free, k);
        prev := next;
        next := mem[next].next;
        k := k + 1;
      }
      PosUnique(free, a, k);
    }

    /**
     The range must not wrap around the address space.  The code tests neither
     the alignment nor where the range ends; the heap stays as it should be
     exactly when both are right.
     */
    method Memfree(memptr: int, nbytes: int) returns (r: int)
      requires Valid() && 0 <= nbytes <= 0xFFFF_FFF8
      requires 0 <= memptr && memptr + RoundMb(nbytes) < WORD
      modifies this
      ensures var n, bs := RoundMb(nbytes), old(free);
              if nbytes == 0 || memptr < memheap || memptr > maxaddr || Overlaps(bs, memptr, n)
              then r == SYSERR && free == bs && Valid()
              else r == 0 && free == Freed(bs, memptr, n) && WellLinked()
                   && (Valid() <==> Aligned(memptr) && memptr + n <= maxaddr)
    {
      hide Aligned, RoundMb, Total, InHeap, Pos;
      NonNull(free, memheap, maxaddr);
      if nbytes == 0 || memptr < memheap || memptr > maxaddr { return SYSERR; }
      var n := RoundMb(nbytes);
      CanonicalAscending(free);
      NeighbourTestExact(free, memptr, n);
      var block := memptr;
      var prev, next, k := FindAround(block);
      assert k > 0 ==> Header(mem, free, k - 1);
      var top := if prev == NULL then NULL else prev + mem[prev].length;
      if top > block || (next != NULL && block + n > next) { return SYSERR; }
      FreedCanonical(free, block, n);
      FreedCovers(free, block, n, 0);
      FreeBeyondHeap(free, block, n, memheap, maxaddr);
      memlist := memlist.(length := memlist.length + n);
      PutBetween(block, n, prev, next, top, k);
      r := 0;
    }

    /** The relinking of memfree: put the block in, then merge it on either side. */
    method PutBetween(memptr: int, n: int, prev: int, next: int, top: int, ghost k: nat)
      requires Linked(mem, memlist.next, free) && Canonical(free) && memptr > 0 && n > 0
      requires forall i :: 0 <= i < |free| ==> free[i].addr > 0
      requires k == Pos(free, memptr) && prev == PrevAt(free, k) && next == AddrAt(free, k)
      requires top == (if k == 0 then NULL else End(free[k - 1])) && !HitsNeighbour(free, memptr, n)
      modifies this`mem, this`memlist, this`free
      ensures Linked(mem, memlist.next, free) && free == Freed(old(free), memptr, n)
      ensures memlist.length == old(memlist.length)
    {
      hide Pos, Canonical, Linked, HitsNeighbour, Freed;
      PutLinked(mem, memlist.next, free, memptr, n);
      PutFacts(mem, memlist.next, free, memptr, n);
      var block := memptr;
      if top == block {
        mem := mem[prev := mem[prev].(length := mem[prev].length + n)];
        block := prev;
      } else {
        mem := mem[block := MemBlock(next, n)];
        SetNext(prev, block);
      }
      if block + mem[block].length == next {
        mem := mem[block := mem[block].(length := mem[block].length + mem[next].length)];
        mem := mem[block := mem[block].(next := mem[next].next)];
      }
      ghost var (m, h) := PutBack(old(mem), old(memlist.next), old(free), memptr, n);
      assert memlist.next == h;
      assert mem == m;
      free := Freed(free, memptr, n);
    }

    /** The macro stkfree, with 4-byte words. */
    method Stkfree(p: int, len: int) returns (r: int)
      requires Valid() && 0 <= len <= 0xFFFF_FFF8
      requires 0 <= p - RoundMb(len) + 4 && p + 4 < WORD
      modifies this
      ensures var n, bs := RoundMb(len), old(free);
              var a := p - n + 4;
              if len == 0 || a < memheap || a > maxaddr || Overlaps(bs, a, n) then r == SYSERR && free == bs && Valid()
              else r == 0 && free == Freed(bs, a, n) && WellLinked() && (Valid() <==> Aligned(a) && p + 4 <= maxaddr)
    {
      RoundTwice(len);
      hide Aligned, RoundMb, Total, InHeap, Canonical;
      r := Memfree(p - RoundMb(len) + 4, RoundMb(len));
    }
  }

  /** The memory and the list head after prev->next = a. */
  function NextSet(mem: map<int, MemBlock>, head: int, prev: int, a: int): (map<int, MemBlock>, int)
    requires prev == NULL || prev in mem
  {
    if prev == NULL then (mem, a) else (mem[prev := mem[prev].(next := a)], head)
  }

  lemma TakeLowLinked(mem: map<int, MemBlock>, head: int, bs: seq<Block>, k: nat, n: int)
    requires Linked(mem, head, bs) && Canonical(bs) && (forall i :: 0 <= i < |bs| ==> bs[i].addr > 0)
    requires k < |bs| && 0 <= n <= bs[k].len
    ensures var curr, prev := bs[k].addr, PrevAt(bs, k);
      && curr in mem && mem[curr].length == bs[k].len && (prev != NULL ==> prev in mem)
      && var (m, h) := NextSet(mem, head, prev, if bs[k].len == n then mem[curr].next else curr + n);
         var m' := if bs[k].len == n then m else m[curr + n := MemBlock(mem[curr].next, bs[k].len - n)];
         Linked(m', h, TakenLow(bs, k, n))
  {
    assert Header(mem, bs, k) && (k > 0 ==> Header(mem, bs, k - 1));
    var curr, prev := bs[k].addr, PrevAt(bs, k);
    var (m, h) := NextSet(mem, head, prev, if bs[k].len == n then mem[curr].next else curr + n);
    var m' := if bs[k].len == n then m else m[curr + n := MemBlock(mem[curr].next, bs[k].len - n)];
    StartsElsewhere(bs, k, curr + n);
    forall i | 0 <= i < |bs| && i != k && i != k - 1 ensures Same(mem, m', bs[i].addr) {
      if k > 0 { StartsElsewhere(bs, k - 1, bs[k - 1].addr); }
    }
    SpliceLinked(mem, head, m', h, bs, k, k + 1, RestHigh(bs[k], n));
  }

  lemma TakeHighLinked(mem: map<int, MemBlock>, head: int, bs: seq<Block>, k: nat, n: int)
    requires Linked(mem, head, bs) && Canonical(bs) && (forall i :: 0 <= i < |bs| ==> bs[i].addr > 0)
    requires k < |bs| && 0 <= n <= bs[k].len
    ensures var curr, prev := bs[k].addr, PrevAt(bs, k);
      && curr in mem && mem[curr].length == bs[k].len && (prev != NULL ==> prev in mem)
      && var (m, h) := if bs[k].len == n then NextSet(mem, head, prev, mem[curr].next)
                       else (mem[curr := mem[curr].(length := bs[k].len - n)], head);
         Linked(m, h, TakenHigh(bs, k, n))
  {
    assert Header(mem, bs, k) && (k > 0 ==> Header(mem, bs, k - 1));
    var curr, prev := bs[k].addr, PrevAt(bs, k);
    var (m, h) := if bs[k].len == n then NextSet(mem, head, prev, mem[curr].next)
                  else (mem[curr := mem[curr].(length := bs[k].len - n)], head);
    StartsElsewhere(bs, k, curr);
    forall i | 0 <= i < |bs| && i != k && i != k - 1 ensures Same(mem, m, bs[i].addr) {
      if k > 0 { StartsElsewhere(bs, k - 1, bs[k - 1].addr); }
    }
    SpliceLinked(mem, head, m, h, bs, k, k + 1, RestLow(bs[k], n));
  }

  /** The memory and the list head after memfree's writes at position k. */
  ghost function PutBack(mem: map<int, MemBlock>, head: int, bs: seq<Block>, p: int, n: int): (map<int, MemBlock>, int)
    requires Linked(mem, head, bs)
  {
    var k := Pos(bs, p);
    assert k > 0 ==> Header(mem, bs, k - 1);
    var (m, h) := if JoinsPrev(bs, p)
                  then (mem[bs[k - 1].addr := mem[bs[k - 1].addr].(length := bs[k - 1].len + n)], head)
                  else NextSet(mem[p := MemBlock(AddrAt(bs, k), n)], head, PrevAt(bs, k), p);
    if JoinsNext(bs, p, n)
    then (m[FreedBlock(bs, p, n).addr := MemBlock(AddrAt(bs, k + 1), FreedBlock(bs, p, n).len)], h)
    else (m, h)
  }

  lemma PutLinked(mem: map<int, MemBlock>, head: int, bs: seq<Block>, p: int, n: int)
    requires Linked(mem, head, bs) && Canonical(bs) && (forall i :: 0 <= i < |bs| ==> bs[i].addr > 0)
    requires p > 0 && n > 0 && !HitsNeighbour(bs, p, n)
    ensures var (m, h) := PutBack(mem, head, bs, p, n); Linked(m, h, Freed(bs, p, n))
  {
    hide Pos;
    var k := Pos(bs, p);
    var (m, h) := PutBack(mem, head, bs, p, n);
    var lo := if JoinsPrev(bs, p) then k - 1 else k;
    var hi := if JoinsNext(bs, p, n) then k + 1 else k;
    if k > 0 { StartsElsewhere(bs, k - 1, bs[k - 1].addr); }
    assert k > 0 ==> Header(mem, bs, k - 1);
    assert k < |bs| ==> Header(mem, bs, k);
    assert k < |bs| ==> bs[k].addr > p;
    assert lo > 0 ==> Header(mem, bs, lo - 1);
    assert lo > 0 && JoinsPrev(bs, p) ==> bs[lo - 1].addr < bs[lo].addr;
    forall i | 0 <= i < |bs| && (i < lo - 1 || i >= hi) ensures Same(mem, m, bs[i].addr) {
      PutFrame(mem, head, bs, p, n, i);
    }
    SpliceLinked(mem, head, m, h, bs, lo, hi, [FreedBlock(bs, p, n)]);
  }

  /** memfree writes no header but those of the blocks it merges and the one in front. */
  lemma PutFrame(mem: map<int, MemBlock>, head: int, bs: seq<Block>, p: int, n: int, i: nat)
    requires Linked(mem, head, bs) && Canonical(bs) && p > 0 && n > 0 && !HitsNeighbour(bs, p, n) && i < |bs|
    requires i < Pos(bs, p) - (if JoinsPrev(bs, p) then 2 else 1) || i >= Pos(bs, p) + (if JoinsNext(bs, p, n) then 1 else 0)
    ensures Same(mem, PutBack(mem, head, bs, p, n).0, bs[i].addr)
  {
    hide Pos;
    var k := Pos(bs, p);
    assert k > 0 ==> Header(mem, bs, k - 1);
    assert k < |bs| ==> p < bs[k].addr;
    if k > 0 { StartsElsewhere(bs, k - 1, bs[k - 1].addr); }
  }

  lemma PutFacts(mem: map<int, MemBlock>, head: int, bs: seq<Block>, p: int, n: int)
    requires Linked(mem, head, bs) && Canonical(bs) && (forall i :: 0 <= i < |bs| ==> bs[i].addr > 0)
    requires p > 0 && n > 0 && !HitsNeighbour(bs, p, n)
    ensures var k := Pos(bs, p);
      && (k > 0 ==> bs[k - 1].addr in mem && mem[bs[k - 1].addr] == MemBlock(AddrAt(bs, k), bs[k - 1].len))
      && (k > 0 ==> 0 < bs[k - 1].addr < p && End(bs[k - 1]) <= p)
      && (k < |bs| ==> bs[k].addr in mem && mem[bs[k].addr] == MemBlock(AddrAt(bs, k + 1), bs[k].len) && p + n <= bs[k].addr)
  {
    var k := Pos(bs, p);
    assert k > 0 ==> Header(mem, bs, k - 1);
    assert k < |bs| ==> Header(mem, bs, k);
  }

  predicate Same(mem: map<int, MemBlock>, mem': map<int, MemBlock>, a: int) {
    a in mem ==> a in mem' && mem'[a] == mem[a]
  }

  /** Replacing blocks lo..hi-1 of the list by `mid` with the corresponding header writes. */
  lemma SpliceLinked(mem: map<int, MemBlock>, head: int, mem': map<int, MemBlock>, head': int,
                     bs: seq<Block>, lo: nat, hi: nat, mid: seq<Block>)
    requires Linked(mem, head, bs) && lo <= hi <= |bs| && |mid| <= 1
    requires forall i :: 0 <= i < |bs| && (i < lo - 1 || i >= hi) ==> Same(mem, mem', bs[i].addr)
    requires var a := if mid == [] then AddrAt(bs, hi) else mid[0].addr;
      if lo == 0 then head' == a
      else head' == head && bs[lo - 1].addr in mem' && mem'[bs[lo - 1].addr] == MemBlock(a, bs[lo - 1].len)
    requires mid != [] ==> mid[0].addr in mem' && mem'[mid[0].addr] == MemBlock(AddrAt(bs, hi), mid[0].len)
    ensures Linked(mem', head', bs[..lo] + mid + bs[hi..])
  {
    var r := bs[..lo] + mid + bs[hi..];
    forall i | 0 <= i < |r| ensures Header(mem', r, i) {
      if i < lo - 1 {
        assert Header(mem, bs, i);
        assert r[i] == bs[i] && r[i + 1] == bs[i + 1];
      } else if i == lo - 1 {
        assert r[i] == bs[i];
        assert AddrAt(r, lo) == if mid == [] then AddrAt(bs, hi) else mid[0].addr;
      } else if i < lo + |mid| {
        assert r[i] == mid[0];
        assert AddrAt(r, i + 1) == AddrAt(bs, hi);
      } else {
        var j := i - lo - |mid| + hi;
        assert Header(mem, bs, j);
        assert r[i] == bs[j] && AddrAt(r, i + 1) == AddrAt(bs, j + 1);
      }
    }
  }

  lemma NonNull(bs: seq<Block>, lo: int, hi: int)
    requires InHeap(bs, lo, hi) && lo > 0
    ensures forall i :: 0 <= i < |bs| ==> bs[i].addr > 0
  {
    forall i | 0 <= i < |bs| ensures bs[i].addr > 0 { assert Fits(bs[i], lo, hi); }
  }

  lemma FirstFitUnique(bs: seq<Block>, n: int, k: nat)
    requires k <= |bs|
    requires forall i :: 0 <= i < k ==> bs[i].len < n
    requires k < |bs| ==> bs[k].len >= n
    ensures k == FirstFit(bs, n)
  {
  }

  lemma PosUnique(bs: seq<Block>, p: int, k: nat)
    requires Canonical(bs) && k <= |bs|
    requires forall i :: 0 <= i < k ==> bs[i].addr < p
    requires k < |bs| ==> bs[k].addr >= p
    ensures k == Pos(bs, p)
  {
  }

  lemma TakenNothing(bs: seq<Block>, k: nat)
    requires Canonical(bs) && k < |bs|
    ensures TakenLow(bs, k, 0) == bs && TakenHigh(bs, k, 0) == bs
  {
  }

  lemma SpliceInHeap(bs: seq<Block>, k: nat, mid: seq<Block>, lo: int, hi: int)
    requires InHeap(bs, lo, hi) && k < |bs| && |mid| <= 1 && (mid != [] ==> Fits(mid[0], lo, hi))
    ensures InHeap(bs[..k] + mid + bs[k + 1..], lo, hi)
  {
  }

  lemma TakenValid(bs: seq<Block>, k: nat, n: int, lo: int, hi: int)
    requires Canonical(bs) && InHeap(bs, lo, hi) && k < |bs| && 0 < n <= bs[k].len && Aligned(n)
    ensures Canonical(TakenLow(bs, k, n)) && InHeap(TakenLow(bs, k, n), lo, hi)
    ensures Canonical(TakenHigh(bs, k, n)) && InHeap(TakenHigh(bs, k, n), lo, hi)
    ensures Total(TakenLow(bs, k, n)) == Total(bs) - n && Total(TakenHigh(bs, k, n)) == Total(bs) - n
  {
    hide Aligned, Canonical, Covers, Total;
    TakenCanonical(bs, k, n);
    TakenCovers(bs, k, n, 0);
    assert Fits(bs[k], lo, hi);
    AlignedSum(bs[k].addr, n);
    AlignedSum(bs[k].len, n);
    SpliceInHeap(bs, k, RestHigh(bs[k], n), lo, hi);
    SpliceInHeap(bs, k, RestLow(bs[k], n), lo, hi);
  }

  lemma FreedFits(bs: seq<Block>, p: int, n: int, lo: int, hi: int)
    requires Canonical(bs) && InHeap(bs, lo, hi) && n > 0 && !HitsNeighbour(bs, p, n)
    requires lo <= p && p + n <= hi && Aligned(p) && Aligned(n)
    ensures Fits(FreedBlock(bs, p, n), lo, hi)
  {
    hide Aligned;
    var k := Pos(bs, p);
    if k > 0 { assert Fits(bs[k - 1], lo, hi); }
    if k < |bs| { assert Fits(bs[k], lo, hi); }
    var start := if JoinsPrev(bs, p) then bs[k - 1].addr else p;
    var end := if JoinsNext(bs, p, n) then End(bs[k]) else p + n;
    AlignedSum(p, n);
    if JoinsNext(bs, p, n) { AlignedSum(bs[k].addr, bs[k].len); }
    AlignedSum(end, start);
  }

  lemma FreedValid(bs: seq<Block>, p: int, n: int, lo: int, hi: int)
    requires Canonical(bs) && InHeap(bs, lo, hi) && n > 0 && !HitsNeighbour(bs, p, n)
    requires lo <= p && p + n <= hi && Aligned(p) && Aligned(n)
    ensures Canonical(Freed(bs, p, n)) && InHeap(Freed(bs, p, n), lo, hi)
    ensures Total(Freed(bs, p, n)) == Total(bs) + n
  {
    hide Aligned, Covers, Total;
    FreedCanonical(bs, p, n);
    FreedCovers(bs, p, n, 0);
    FreedFits(bs, p, n, lo, hi);
  }

  /**
   memfree tests only where the range starts: a nonoverlapping range that
   starts in the heap is accepted, and the list stays aligned and inside the
   heap exactly when the range is aligned and also ends there.
   */
  lemma FreeBeyondHeap(bs: seq<Block>, p: int, n: int, lo: int, hi: int)
    requires Canonical(bs) && InHeap(bs, lo, hi) && n > 0 && !HitsNeighbour(bs, p, n)
    requires lo <= p && Aligned(n)
    ensures InHeap(Freed(bs, p, n), lo, hi) <==> Aligned(p) && p + n <= hi
  {
    hide Aligned, Pos, Canonical;
    if Aligned(p) && p + n <= hi {
      FreedValid(bs, p, n, lo, hi);
    } else if p + n > hi {
      FreedCovers(bs, p, n, p + n - 1);
      var r := Freed(bs, p, n);
      var i :| 0 <= i < |r| && Holds(r[i], p + n - 1);
      assert !Fits(r[i], lo, hi);
    } else {
      UnalignedStart(bs, p, n, lo, hi);
    }
  }

  lemma UnalignedStart(bs: seq<Block>, p: int, n: int, lo: int, hi: int)
    requires InHeap(bs, lo, hi) && !Aligned(p)
    ensures !InHeap(Freed(bs, p, n), lo, hi)
  {
    hide Aligned, Pos;
    var k, r := Pos(bs, p), Freed(bs, p, n);
    if JoinsPrev(bs, p) {
      assert Fits(bs[k - 1], lo, hi);
      AlignedSum(bs[k - 1].addr, bs[k - 1].len);
    } else {
      assert r[k] == FreedBlock(bs, p, n) && !Fits(r[k], lo, hi);
    }
  }

  /** The neighbour test as the code computes it, with a sum that wraps. */
  predicate HitsNeighbour32(bs: seq<Block>, p: int, n: int) {
    var k := Pos(bs, p);
    (k > 0 && End(bs[k - 1]) > p) || (k < |bs| && (p + n) % WORD > bs[k].addr)
  }

  /**
   In 32 bits the test is exact if and only if the range does not wrap, or the
   block in front decides, or there is no block behind to miss.
   */
  lemma WrappedTestExact(bs: seq<Block>, p: int, n: int, lo: int, hi: int)
    requires Canonical(bs) && InHeap(bs, lo, hi) && hi < WORD && 0 <= p < WORD && 0 < n < WORD
    ensures (HitsNeighbour32(bs, p, n) <==> Overlaps(bs, p, n)) <==>
            var k := Pos(bs, p); p + n < WORD || k == |bs| || (k > 0 && End(bs[k - 1]) > p)
  {
    hide Pos, Overlaps, Canonical, Aligned;
    var k := Pos(bs, p);
    CanonicalAscending(bs);
    NeighbourTestExact(bs, p, n);
    if k < |bs| { assert Fits(bs[k], lo, hi); }
    if p + n < WORD { assert (p + n) % WORD == p + n; } else { assert (p + n) % WORD == p + n - WORD; }
  }
}
