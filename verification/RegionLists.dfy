/**
 Doubly linked lists of memory regions (mem/memRegionInsert.c,
 mem/memRegionRemove.c).  Record i of the table belongs to page i of the user
 heap; a listed record stands for the block of pages that starts at its own
 page.  This module relates the link writes to operations on sequences of
 blocks, counted in pages.
 */
module RegionLists {
  import opened Common
  import opened FreeBlocks

  const PAGE_SIZE := 4096

  datatype Region = Region(prev: int, next: int, start: int, length: int, threadId: int)

  /** The record that stands for position i of the list; SYSERR beyond either end. */
  function At(bs: seq<Block>, i: int): int {
    if 0 <= i < |bs| then bs[i].addr else SYSERR
  }

  ghost predicate Node(tab: seq<Region>, base: int, bs: seq<Block>, i: int)
    requires 0 <= i < |bs|
  {
    && 0 <= bs[i].addr < |tab|
    && tab[bs[i].addr].prev == At(bs, i - 1)
    && tab[bs[i].addr].next == At(bs, i + 1)
    && tab[bs[i].addr].start == base + PAGE_SIZE * bs[i].addr
    && tab[bs[i].addr].length == PAGE_SIZE * bs[i].len
  }

  /** The records from `head` on are a doubly linked list of the blocks `bs`. */
  ghost predicate Linked(tab: seq<Region>, base: int, head: int, bs: seq<Block>) {
    && head == At(bs, 0)
    && (forall i :: 0 <= i < |bs| ==> Node(tab, base, bs, i))
  }

  ghost predicate Lists(bs: seq<Block>, a: int) {
    exists i :: 0 <= i < |bs| && bs[i].addr == a
  }

  /** Records of the list that were not written keep it linked. */
  lemma LinkedFrame(tab: seq<Region>, tab': seq<Region>, base: int, head: int, bs: seq<Block>)
    requires Linked(tab, base, head, bs) && |tab'| == |tab|
    requires forall a :: 0 <= a < |tab| && Lists(bs, a) ==> tab'[a].(threadId := tab[a].threadId) == tab[a]
    ensures Linked(tab', base, head, bs)
  {
    forall i | 0 <= i < |bs| ensures Node(tab', base, bs, i) {
      assert Node(tab, base, bs, i);
      assert Lists(bs, bs[i].addr);
    }
  }

  // ---------- insertion ----------

  function Insertion(bs: seq<Block>, k: nat, b: Block): (r: seq<Block>)
    requires k <= |bs|
    ensures |r| == |bs| + 1
  {
    bs[..k] + [b] + bs[k..]
  }

  /** The table after linking record a in between records prev and next. */
  function LinkIn(tab: seq<Region>, a: int, prev: int, next: int): (r: seq<Region>)
    requires 0 <= a < |tab| && -1 <= prev < |tab| && -1 <= next < |tab|
    ensures |r| == |tab|
  {
    var t1 := tab[a := tab[a].(prev := prev, next := next)];
    var t2 := if prev == SYSERR then t1 else t1[prev := t1[prev].(next := a)];
    if next == SYSERR then t2 else t2[next := t2[next].(prev := a)]
  }

  lemma InsertionAt(bs: seq<Block>, k: nat, b: Block, i: int)
    requires k <= |bs|
    ensures At(Insertion(bs, k, b), i) == if i < k then At(bs, i) else if i == k then b.addr else At(bs, i - 1)
  {
  }

  lemma InsertionNth(bs: seq<Block>, k: nat, b: Block, i: nat)
    requires k <= |bs| && i <= |bs|
    ensures Insertion(bs, k, b)[i] == if i < k then bs[i] else if i == k then b else bs[i - 1]
  {
  }

  lemma LinkInField(tab: seq<Region>, a: int, prev: int, next: int, x: int)
    requires 0 <= a < |tab| && -1 <= prev < |tab| && -1 <= next < |tab| && a != prev && a != next
    requires prev != next || prev == SYSERR
    requires 0 <= x < |tab|
    ensures LinkIn(tab, a, prev, next)[x] ==
      if x == a then tab[a].(prev := prev, next := next)
      else tab[x].(next := if x == prev then a else tab[x].next, prev := if x == next then a else tab[x].prev)
  {
  }

  lemma LinkInLinks(tab: seq<Region>, base: int, head: int, bs: seq<Block>, k: nat, b: Block)
    requires Linked(tab, base, head, bs) && Ascending(bs) && k <= |bs|
    requires 0 <= b.addr < |tab| && !Lists(bs, b.addr)
    requires tab[b.addr].start == base + PAGE_SIZE * b.addr && tab[b.addr].length == PAGE_SIZE * b.len
    ensures var prev, next := At(bs, k - 1), At(bs, k);
      && -1 <= prev < |tab| && -1 <= next < |tab|
      && Linked(LinkIn(tab, b.addr, prev, next), base, if k == 0 then b.addr else head, Insertion(bs, k, b))
  {
    hide Insertion, LinkIn, Ascending;
    var prev, next := At(bs, k - 1), At(bs, k);
    assert k > 0 ==> Node(tab, base, bs, k - 1) && Lists(bs, bs[k - 1].addr);
    assert k < |bs| ==> Node(tab, base, bs, k) && Lists(bs, bs[k].addr);
    if 0 < k < |bs| { AddrsDiffer(bs, k - 1, k); }
    var r := Insertion(bs, k, b);
    InsertionAt(bs, k, b, 0);
    forall i | 0 <= i < |r| ensures Node(LinkIn(tab, b.addr, prev, next), base, r, i) {
      InsertionNth(bs, k, b, i);
      InsertionAt(bs, k, b, i - 1);
      InsertionAt(bs, k, b, i + 1);
      if i != k {
        var j := if i < k then i else i - 1;
        assert Node(tab, base, bs, j) && Lists(bs, bs[j].addr);
        if k > 0 && j != k - 1 { AddrsDiffer(bs, j, k - 1); }
        if k < |bs| && j != k { AddrsDiffer(bs, j, k); }
      }
      LinkInField(tab, b.addr, prev, next, r[i].addr);
    }
  }

  lemma AddrsDiffer(bs: seq<Block>, i: nat, j: nat)
    requires Ascending(bs) && i < |bs| && j < |bs| && i != j
    ensures bs[i].addr != bs[j].addr
  {
    assert if i < j then End(bs[i]) <= bs[j].addr else End(bs[j]) <= bs[i].addr;
  }

  // ---------- removal ----------

  function Deletion(bs: seq<Block>, k: nat): (r: seq<Block>)
    requires k < |bs|
    ensures |r| == |bs| - 1
  {
    bs[..k] + bs[k + 1..]
  }

  /** The table after taking record a from between its neighbours. */
  function LinkOut(tab: seq<Region>, a: int): (r: seq<Region>)
    requires 0 <= a < |tab| && -1 <= tab[a].prev < |tab| && -1 <= tab[a].next < |tab|
    ensures |r| == |tab|
  {
    var prev, next := tab[a].prev, tab[a].next;
    var t1 := if prev == SYSERR then tab else tab[prev := tab[prev].(next := next)];
    var t2 := if next == SYSERR then t1 else t1[next := t1[next].(prev := prev)];
    t2[a := t2[a].(prev := SYSERR, next := SYSERR)]
  }

  lemma DeletionAt(bs: seq<Block>, k: nat, i: int)
    requires k < |bs|
    ensures At(Deletion(bs, k), i) == if i < k then At(bs, i) else At(bs, i + 1)
  {
  }

  lemma DeletionNth(bs: seq<Block>, k: nat, i: nat)
    requires k < |bs| && i < |bs| - 1
    ensures Deletion(bs, k)[i] == if i < k then bs[i] else bs[i + 1]
  {
  }

  lemma LinkOutField(tab: seq<Region>, a: int, x: int)
    requires 0 <= a < |tab| && -1 <= tab[a].prev < |tab| && -1 <= tab[a].next < |tab|
    requires a != tab[a].prev && a != tab[a].next && 0 <= x < |tab|
    ensures var prev, next := tab[a].prev, tab[a].next;
      LinkOut(tab, a)[x] ==
      if x == a then tab[a].(prev := SYSERR, next := SYSERR)
      else tab[x].(next := if x == prev then next else tab[x].next, prev := if x == next then prev else tab[x].prev)
  {
  }

  lemma LinkOutLinks(tab: seq<Region>, base: int, head: int, bs: seq<Block>, k: nat)
    requires Linked(tab, base, head, bs) && Ascending(bs) && k < |bs|
    ensures var a := bs[k].addr;
      && 0 <= a < |tab| && -1 <= tab[a].prev < |tab| && -1 <= tab[a].next < |tab|
      && tab[a].prev == At(bs, k - 1) && tab[a].next == At(bs, k + 1)
      && Linked(LinkOut(tab, a), base, if k == 0 then tab[a].next else head, Deletion(bs, k))
  {
    hide Deletion, LinkOut, Ascending;
    var a := bs[k].addr;
    assert Node(tab, base, bs, k);
    assert k > 0 ==> Node(tab, base, bs, k - 1);
    assert k + 1 < |bs| ==> Node(tab, base, bs, k + 1);
    if k > 0 { AddrsDiffer(bs, k, k - 1); }
    if k + 1 < |bs| { AddrsDiffer(bs, k, k + 1); }
    var r := Deletion(bs, k);
    DeletionAt(bs, k, 0);
    forall i | 0 <= i < |r| ensures Node(LinkOut(tab, a), base, r, i) {
      DeletionNth(bs, k, i);
      DeletionAt(bs, k, i);
      DeletionAt(bs, k, i - 1);
      DeletionAt(bs, k, i + 1);
      var j := if i < k then i else i + 1;
      assert Node(tab, base, bs, j);
      AddrsDiffer(bs, j, k);
      if k > 0 && j != k - 1 { AddrsDiffer(bs, j, k - 1); }
      if k + 1 < |bs| && j != k + 1 { AddrsDiffer(bs, j, k + 1); }
      LinkOutField(tab, a, r[i].addr);
    }
  }

  // ---------- merging neighbours ----------

  /** Blocks k and k+1 become one. */
  function Merged(bs: seq<Block>, k: nat): (r: seq<Block>)
    requires k + 1 < |bs|
    ensures |r| == |bs| - 1
  {
    bs[..k] + [Block(bs[k].addr, bs[k].len + bs[k + 1].len)] + bs[k + 2..]
  }

  /** The table after record a swallowed its successor. */
  function Swallow(tab: seq<Region>, a: int): (r: seq<Region>)
    requires 0 <= a < |tab| && 0 <= tab[a].next < |tab| && -1 <= tab[tab[a].next].next < |tab|
    ensures |r| == |tab|
  {
    var adjacent := tab[a].next;
    var t1 := tab[a := tab[a].(length := tab[a].length + tab[adjacent].length, next := tab[adjacent].next)];
    if tab[adjacent].next == SYSERR then t1
    else t1[tab[adjacent].next := t1[tab[adjacent].next].(prev := a)]
  }

  lemma MergedAt(bs: seq<Block>, k: nat, i: int)
    requires k + 1 < |bs|
    ensures At(Merged(bs, k), i) == if i <= k then At(bs, i) else At(bs, i + 1)
  {
  }

  lemma MergedNth(bs: seq<Block>, k: nat, i: nat)
    requires k + 1 < |bs| && i < |bs| - 1
    ensures Merged(bs, k)[i] ==
      if i < k then bs[i] else if i == k then Block(bs[k].addr, bs[k].len + bs[k + 1].len) else bs[i + 1]
  {
  }

  lemma SwallowField(tab: seq<Region>, a: int, x: int)
    requires 0 <= a < |tab| && 0 <= tab[a].next < |tab| && -1 <= tab[tab[a].next].next < |tab|
    requires a != tab[tab[a].next].next && 0 <= x < |tab|
    ensures var adjacent := tab[a].next;
      Swallow(tab, a)[x] ==
      if x == a then tab[a].(length := tab[a].length + tab[adjacent].length, next := tab[adjacent].next)
      else tab[x].(prev := if x == tab[adjacent].next then a else tab[x].prev)
  {
  }

  lemma SwallowLinks(tab: seq<Region>, base: int, head: int, bs: seq<Block>, k: nat)
    requires Linked(tab, base, head, bs) && Ascending(bs) && k + 1 < |bs|
    ensures var a := bs[k].addr;
      && 0 <= a < |tab| && tab[a].next == bs[k + 1].addr && 0 <= tab[a].next < |tab|
      && tab[tab[a].next].next == At(bs, k + 2) && -1 <= tab[tab[a].next].next < |tab|
      && Linked(Swallow(tab, a), base, head, Merged(bs, k))
  {
    hide Merged, Swallow, Ascending;
    var a := bs[k].addr;
    assert Node(tab, base, bs, k) && Node(tab, base, bs, k + 1);
    assert k + 2 < |bs| ==> Node(tab, base, bs, k + 2);
    if k + 2 < |bs| { AddrsDiffer(bs, k, k + 2); }
    var r := Merged(bs, k);
    MergedAt(bs, k, 0);
    forall i | 0 <= i < |r| ensures Node(Swallow(tab, a), base, r, i) {
      MergedNth(bs, k, i);
      MergedAt(bs, k, i - 1);
      MergedAt(bs, k, i + 1);
      var j := if i <= k then i else i + 1;
      assert Node(tab, base, bs, j);
      if j != k { AddrsDiffer(bs, j, k); }
      if k + 2 < |bs| && j != k + 2 { AddrsDiffer(bs, j, k + 2); }
      SwallowField(tab, a, r[i].addr);
    }
  }
}
