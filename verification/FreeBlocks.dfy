/**
 Sorted, fully coalesced lists of free blocks: in bytes for `memget`, in pages
 for `memRegionAlloc`.
 */
module FreeBlocks {

  datatype Block = Block(addr: int, len: int)

  function End(b: Block): int { b.addr + b.len }

  predicate Holds(b: Block, x: int) { b.addr <= x < End(b) }

  /** Nonempty blocks in ascending order, with a gap between any two. */
  ghost predicate Canonical(bs: seq<Block>) {
    && (forall i :: 0 <= i < |bs| ==> bs[i].len > 0)
    && (forall i, j :: 0 <= i < j < |bs| ==> End(bs[i]) < bs[j].addr)
  }

  /** Nonempty, disjoint blocks in ascending order; they may touch. */
  ghost predicate Ascending(bs: seq<Block>) {
    && (forall i :: 0 <= i < |bs| ==> bs[i].len > 0)
    && (forall i, j :: 0 <= i < j < |bs| ==> End(bs[i]) <= bs[j].addr)
  }

  lemma CanonicalAscending(bs: seq<Block>)
    requires Canonical(bs)
    ensures Ascending(bs)
  {
  }

  ghost predicate Covers(bs: seq<Block>, x: int) {
    exists i :: 0 <= i < |bs| && Holds(bs[i], x)
  }

  function Total(bs: seq<Block>): int {
    if bs == [] then 0 else bs[0].len + Total(bs[1..])
  }

  lemma {:induction false} TotalConcat(a: seq<Block>, b: seq<Block>)
    ensures Total(a + b) == Total(a) + Total(b)
  {
    if a == [] {
      assert a + b == b;
    } else {
      assert (a + b)[1..] == a[1..] + b;
      TotalConcat(a[1..], b);
    }
  }

  lemma CoversConcat(a: seq<Block>, b: seq<Block>, x: int)
    ensures Covers(a + b, x) <==> Covers(a, x) || Covers(b, x)
  {
    if Covers(a, x) {
      var i :| 0 <= i < |a| && Holds(a[i], x);
      assert Holds((a + b)[i], x);
    }
    if Covers(b, x) {
      var i :| 0 <= i < |b| && Holds(b[i], x);
      assert Holds((a + b)[|a| + i], x);
    }
  }

  // ---------- a canonical list is determined by what it covers ----------

  lemma TailCovers(bs: seq<Block>, x: int)
    requires Canonical(bs) && bs != []
    ensures Canonical(bs[1..])
    ensures Covers(bs, x) <==> Holds(bs[0], x) || Covers(bs[1..], x)
    ensures Covers(bs[1..], x) ==> x > End(bs[0])
  {
    assert bs == [bs[0]] + bs[1..];
    CoversConcat([bs[0]], bs[1..], x);
    assert Covers([bs[0]], x) <==> Holds(bs[0], x) by {
      if Holds(bs[0], x) { assert Holds([bs[0]][0], x); }
    }
  }

  lemma FirstCovered(bs: seq<Block>, x: int)
    requires Canonical(bs) && bs != []
    ensures Covers(bs, bs[0].addr)
    ensures Covers(bs, x) ==> x >= bs[0].addr
    ensures bs[0].addr <= x < End(bs[0]) ==> Covers(bs, x)
    ensures !Covers(bs, End(bs[0]))
  {
    assert Holds(bs[0], bs[0].addr);
    TailCovers(bs, x);
    TailCovers(bs, End(bs[0]));
  }

  lemma HeadsEqual(a: seq<Block>, b: seq<Block>)
    requires Canonical(a) && Canonical(b) && a != [] && b != []
    requires forall x :: Covers(a, x) <==> Covers(b, x)
    ensures a[0] == b[0]
  {
    FirstCovered(a, b[0].addr);
    FirstCovered(b, a[0].addr);
    FirstCovered(a, End(b[0]));
    FirstCovered(b, End(a[0]));
  }

  /** Two canonical lists that cover the same addresses are the same list. */
  lemma {:induction false} CanonicalUnique(a: seq<Block>, b: seq<Block>)
    requires Canonical(a) && Canonical(b)
    requires forall x :: Covers(a, x) <==> Covers(b, x)
    ensures a == b
  {
    if a == [] {
      if b != [] { FirstCovered(b, b[0].addr); }
    } else if b == [] {
      FirstCovered(a, a[0].addr);
    } else {
      HeadsEqual(a, b);
      forall x ensures Covers(a[1..], x) <==> Covers(b[1..], x) {
        TailCovers(a, x);
        TailCovers(b, x);
      }
      CanonicalUnique(a[1..], b[1..]);
    }
  }

  // ---------- giving a block back ----------

  /** How many blocks start below p. */
  function Pos(bs: seq<Block>, p: int): (k: nat)
    ensures k <= |bs|
    ensures forall i :: 0 <= i < k ==> bs[i].addr < p
    ensures k < |bs| ==> bs[k].addr >= p
  {
    if bs == [] || bs[0].addr >= p then 0 else 1 + Pos(bs[1..], p)
  }

  ghost predicate Overlaps(bs: seq<Block>, p: int, n: int) {
    exists x :: p <= x < p + n && Covers(bs, x)
  }

  /** The test on the two neighbours only. */
  predicate HitsNeighbour(bs: seq<Block>, p: int, n: int) {
    var k := Pos(bs, p);
    (k > 0 && End(bs[k - 1]) > p) || (k < |bs| && p + n > bs[k].addr)
  }

  /** On a sorted list of disjoint blocks the neighbour test is exact. */
  lemma NeighbourTestExact(bs: seq<Block>, p: int, n: int)
    requires Ascending(bs) && n > 0
    ensures HitsNeighbour(bs, p, n) <==> Overlaps(bs, p, n)
  {
    var k := Pos(bs, p);
    if k > 0 && End(bs[k - 1]) > p {
      assert Holds(bs[k - 1], p);
      assert Covers(bs, p);
    }
    if k < |bs| && p + n > bs[k].addr {
      assert Holds(bs[k], bs[k].addr);
      assert Covers(bs, bs[k].addr);
    }
    if Overlaps(bs, p, n) {
      var x :| p <= x < p + n && Covers(bs, x);
      var i :| 0 <= i < |bs| && Holds(bs[i], x);
      if i < k - 1 { assert End(bs[i]) <= bs[k - 1].addr; }
      if i > k { assert End(bs[k]) <= bs[i].addr; }
    }
  }

  predicate JoinsPrev(bs: seq<Block>, p: int) {
    var k := Pos(bs, p); k > 0 && End(bs[k - 1]) == p
  }

  predicate JoinsNext(bs: seq<Block>, p: int, n: int) {
    var k := Pos(bs, p); k < |bs| && p + n == bs[k].addr
  }

  /** The list with [p, p+n) put in and merged with the neighbours it touches. */
  function Freed(bs: seq<Block>, p: int, n: int): seq<Block> {
    var k := Pos(bs, p);
    var lo := if JoinsPrev(bs, p) then k - 1 else k;
    var hi := if JoinsNext(bs, p, n) then k + 1 else k;
    bs[..lo] + [FreedBlock(bs, p, n)] + bs[hi..]
  }

  /** The block that [p, p+n) becomes part of. */
  function FreedBlock(bs: seq<Block>, p: int, n: int): Block {
    var k := Pos(bs, p);
    var start := if JoinsPrev(bs, p) then bs[k - 1].addr else p;
    var end := if JoinsNext(bs, p, n) then End(bs[k]) else p + n;
    Block(start, end - start)
  }

  /** Replacing neighbours k.. of a list by one block that keeps its distance keeps it canonical. */
  lemma SplicePair(bs: seq<Block>, lo: nat, hi: nat, b: Block, i: nat, j: nat)
    requires Canonical(bs) && lo <= hi <= |bs| && i < j < |bs[..lo] + [b] + bs[hi..]|
    requires forall x :: 0 <= x < lo ==> End(bs[x]) < b.addr
    requires forall x :: hi <= x < |bs| ==> End(b) < bs[x].addr
    ensures var r := bs[..lo] + [b] + bs[hi..]; End(r[i]) < r[j].addr
  {
    if i > lo {
      var x, y := hi + (i - lo - 1), hi + (j - lo - 1);
      assert End(bs[x]) < bs[y].addr;
    } else if i < lo && j != lo {
      var y := if j < lo then j else hi + (j - lo - 1);
      assert End(bs[i]) < bs[y].addr;
    }
  }

  lemma SpliceCanonical(bs: seq<Block>, lo: nat, hi: nat, b: Block)
    requires Canonical(bs) && lo <= hi <= |bs| && b.len > 0
    requires lo > 0 ==> End(bs[lo - 1]) < b.addr
    requires hi < |bs| ==> End(b) < bs[hi].addr
    ensures Canonical(bs[..lo] + [b] + bs[hi..])
  {
    var r := bs[..lo] + [b] + bs[hi..];
    assert forall i :: 0 <= i < lo ==> End(bs[i]) < b.addr by {
      assert forall i :: 0 <= i < lo - 1 ==> End(bs[i]) < bs[lo - 1].addr;
    }
    assert forall i :: hi <= i < |bs| ==> End(b) < bs[i].addr by {
      assert forall i :: hi < i < |bs| ==> End(bs[hi]) < bs[i].addr;
    }
    forall i, j | 0 <= i < j < |r| ensures End(r[i]) < r[j].addr {
      SplicePair(bs, lo, hi, b, i, j);
    }
  }

  lemma FreedCanonical(bs: seq<Block>, p: int, n: int)
    requires Canonical(bs) && n > 0 && !HitsNeighbour(bs, p, n)
    ensures Canonical(Freed(bs, p, n))
  {
    var k := Pos(bs, p);
    var lo := if JoinsPrev(bs, p) then k - 1 else k;
    var hi := if JoinsNext(bs, p, n) then k + 1 else k;
    assert lo > 0 && JoinsPrev(bs, p) ==> End(bs[lo - 1]) < bs[lo].addr;
    assert hi < |bs| && JoinsNext(bs, p, n) ==> End(bs[hi - 1]) < bs[hi].addr;
    SpliceCanonical(bs, lo, hi, FreedBlock(bs, p, n));
  }

  lemma CoversOne(b: Block, x: int)
    ensures Covers([b], x) <==> Holds(b, x)
    ensures Total([b]) == b.len
  {
    if Holds(b, x) { assert Holds([b][0], x); }
  }

  /** What a list covers when its middle part, blocks lo..hi-1, is replaced. */
  lemma SpliceCovers(bs: seq<Block>, lo: nat, hi: nat, mid: seq<Block>, x: int)
    requires lo <= hi <= |bs|
    ensures Covers(bs[..lo] + mid + bs[hi..], x) <==> Covers(bs[..lo], x) || Covers(mid, x) || Covers(bs[hi..], x)
    ensures Covers(bs, x) <==> Covers(bs[..lo], x) || Covers(bs[lo..hi], x) || Covers(bs[hi..], x)
    ensures Total(bs[..lo] + mid + bs[hi..]) == Total(bs) - Total(bs[lo..hi]) + Total(mid)
  {
    CoversConcat(bs[..lo] + mid, bs[hi..], x);
    CoversConcat(bs[..lo], mid, x);
    TotalConcat(bs[..lo] + mid, bs[hi..]);
    TotalConcat(bs[..lo], mid);
    assert bs == bs[..lo] + bs[lo..hi] + bs[hi..];
    CoversConcat(bs[..lo] + bs[lo..hi], bs[hi..], x);
    CoversConcat(bs[..lo], bs[lo..hi], x);
    TotalConcat(bs[..lo] + bs[lo..hi], bs[hi..]);
    TotalConcat(bs[..lo], bs[lo..hi]);
  }

  lemma PairCovers(a: Block, b: Block, x: int)
    ensures Covers([a, b], x) <==> Holds(a, x) || Holds(b, x)
    ensures Total([a, b]) == a.len + b.len
  {
    assert [a, b] == [a] + [b];
    CoversConcat([a], [b], x);
    CoversOne(a, x);
    CoversOne(b, x);
    TotalConcat([a], [b]);
  }

  /** Giving back adds exactly [p, p+n) to what is covered, and n to the total. */
  lemma FreedCovers(bs: seq<Block>, p: int, n: int, x: int)
    requires Canonical(bs) && n > 0 && !HitsNeighbour(bs, p, n)
    ensures Covers(Freed(bs, p, n), x) <==> Covers(bs, x) || p <= x < p + n
    ensures Total(Freed(bs, p, n)) == Total(bs) + n
  {
    hide Covers, Total;
    var k := Pos(bs, p);
    var lo := if JoinsPrev(bs, p) then k - 1 else k;
    var hi := if JoinsNext(bs, p, n) then k + 1 else k;
    var b := FreedBlock(bs, p, n);
    SpliceCovers(bs, lo, hi, [b], x);
    CoversOne(b, x);
    if JoinsPrev(bs, p) && JoinsNext(bs, p, n) {
      assert bs[lo..hi] == [bs[k - 1], bs[k]];
      PairCovers(bs[k - 1], bs[k], x);
    } else if JoinsPrev(bs, p) {
      assert bs[lo..hi] == [bs[k - 1]];
      CoversOne(bs[k - 1], x);
    } else if JoinsNext(bs, p, n) {
      assert bs[lo..hi] == [bs[k]];
      CoversOne(bs[k], x);
    } else {
      assert bs[lo..hi] == [];
      CoversNone(x);
    }
  }

  lemma CoversNone(x: int)
    ensures !Covers([], x) && Total([]) == 0
  {
  }

  // ---------- taking a block ----------

  /** What is left of b without its first n addresses. */
  function RestHigh(b: Block, n: int): seq<Block> {
    if b.len == n then [] else [Block(b.addr + n, b.len - n)]
  }

  /** What is left of b without its last n addresses. */
  function RestLow(b: Block, n: int): seq<Block> {
    if b.len == n then [] else [Block(b.addr, b.len - n)]
  }

  /** Block k loses its first n addresses. */
  function TakenLow(bs: seq<Block>, k: nat, n: int): seq<Block>
    requires k < |bs|
  {
    bs[..k] + RestHigh(bs[k], n) + bs[k + 1..]
  }

  /** Block k loses its last n addresses. */
  function TakenHigh(bs: seq<Block>, k: nat, n: int): seq<Block>
    requires k < |bs|
  {
    bs[..k] + RestLow(bs[k], n) + bs[k + 1..]
  }

  lemma RemovalCanonical(bs: seq<Block>, k: nat)
    requires Canonical(bs) && k < |bs|
    ensures Canonical(bs[..k] + [] + bs[k + 1..])
  {
    var r := bs[..k] + [] + bs[k + 1..];
    forall i, j | 0 <= i < j < |r| ensures End(r[i]) < r[j].addr {
      assert r[i] == bs[if i < k then i else i + 1] && r[j] == bs[if j < k then j else j + 1];
    }
  }

  lemma TakenCanonical(bs: seq<Block>, k: nat, n: int)
    requires Canonical(bs) && k < |bs| && 0 < n <= bs[k].len
    ensures Canonical(TakenLow(bs, k, n)) && Canonical(TakenHigh(bs, k, n))
  {
    RemovalCanonical(bs, k);
    if n < bs[k].len {
      SpliceCanonical(bs, k, k + 1, Block(bs[k].addr + n, bs[k].len - n));
      SpliceCanonical(bs, k, k + 1, Block(bs[k].addr, bs[k].len - n));
    }
  }

  lemma OutsideBlock(bs: seq<Block>, k: nat, x: int)
    requires Ascending(bs) && k < |bs| && Holds(bs[k], x)
    ensures !Covers(bs[..k], x) && !Covers(bs[k + 1..], x)
  {
  }

  /** Taking removes exactly the addresses handed out, and n from the total. */
  lemma TakenCovers(bs: seq<Block>, k: nat, n: int, x: int)
    requires Canonical(bs) && k < |bs| && 0 < n <= bs[k].len
    ensures Covers(TakenLow(bs, k, n), x) <==> Covers(bs, x) && !(bs[k].addr <= x < bs[k].addr + n)
    ensures Covers(TakenHigh(bs, k, n), x) <==> Covers(bs, x) && !(End(bs[k]) - n <= x < End(bs[k]))
    ensures Total(TakenLow(bs, k, n)) == Total(bs) - n && Total(TakenHigh(bs, k, n)) == Total(bs) - n
  {
    hide Covers, Total;
    CanonicalAscending(bs);
    assert bs[k..k + 1] == [bs[k]];
    CoversOne(bs[k], x);
    if Holds(bs[k], x) { OutsideBlock(bs, k, x); }
    SpliceCovers(bs, k, k + 1, RestHigh(bs[k], n), x);
    SpliceCovers(bs, k, k + 1, RestLow(bs[k], n), x);
    RestCovers(bs[k], n, x);
  }

  lemma RestCovers(b: Block, n: int, x: int)
    requires 0 < n <= b.len
    ensures Covers(RestHigh(b, n), x) <==> b.addr + n <= x < End(b)
    ensures Covers(RestLow(b, n), x) <==> b.addr <= x < End(b) - n
    ensures Total(RestHigh(b, n)) == Total(RestLow(b, n)) == b.len - n
  {
    CoversOne(Block(b.addr + n, b.len - n), x);
    CoversOne(Block(b.addr, b.len - n), x);
  }

  /** No other block starts inside block k. */
  lemma StartsElsewhere(bs: seq<Block>, k: nat, a: int)
    requires Canonical(bs) && k < |bs| && bs[k].addr <= a <= End(bs[k])
    ensures forall i :: 0 <= i < |bs| && i != k ==> bs[i].addr != a
  {
  }

  /** A block taken from the list can be given back, and that restores the list exactly. */
  lemma TakeThenFree(bs: seq<Block>, k: nat, n: int)
    requires Canonical(bs) && k < |bs| && 0 < n <= bs[k].len
    ensures !HitsNeighbour(TakenLow(bs, k, n), bs[k].addr, n)
    ensures Freed(TakenLow(bs, k, n), bs[k].addr, n) == bs
    ensures !HitsNeighbour(TakenHigh(bs, k, n), End(bs[k]) - n, n)
    ensures Freed(TakenHigh(bs, k, n), End(bs[k]) - n, n) == bs
  {
    hide Canonical, Covers, HitsNeighbour, Freed, TakenLow, TakenHigh;
    TakenCanonical(bs, k, n);
    forall x
      ensures Covers(TakenLow(bs, k, n), x) <==> Covers(bs, x) && !(bs[k].addr <= x < bs[k].addr + n)
      ensures Covers(TakenHigh(bs, k, n), x) <==> Covers(bs, x) && !(End(bs[k]) - n <= x < End(bs[k]))
    {
      TakenCovers(bs, k, n, x);
    }
    GiveBack(bs, TakenLow(bs, k, n), k, bs[k].addr, n);
    GiveBack(bs, TakenHigh(bs, k, n), k, End(bs[k]) - n, n);
  }

  lemma GiveBack(bs: seq<Block>, rest: seq<Block>, k: nat, p: int, n: int)
    requires Canonical(bs) && Canonical(rest) && k < |bs| && n > 0
    requires bs[k].addr <= p && p + n <= End(bs[k])
    requires forall x :: Covers(rest, x) <==> Covers(bs, x) && !(p <= x < p + n)
    ensures !HitsNeighbour(rest, p, n) && Freed(rest, p, n) == bs
  {
    CanonicalAscending(rest);
    NeighbourTestExact(rest, p, n);
    FreedCanonical(rest, p, n);
    forall x ensures Covers(Freed(rest, p, n), x) <==> Covers(bs, x) {
      FreedCovers(rest, p, n, x);
      if p <= x < p + n { assert Holds(bs[k], x); }
    }
    CanonicalUnique(Freed(rest, p, n), bs);
  }
}
