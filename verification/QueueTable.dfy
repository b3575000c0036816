/**
 The table `quetab` itself and the operations that rewrite it in place.  Each
 method is specified by what it does to `Q`, the sequences that the links
 represent, and to the keys of the threads.
 */
module QueueTables {
  import opened Common
  import opened Queues

  /** The keys stored with the threads. */
  function KeysOf(tab: seq<Queent>, nt: nat): (keys: seq<int>)
    requires nt <= |tab|
    ensures |keys| == nt
    ensures forall t :: 0 <= t < nt ==> keys[t] == tab[t].key
  {
    seq(nt, t requires 0 <= t < nt => tab[t].key)
  }

  /** isbadtid: `live[t]` says that thrtab[t] is not THRFREE. */
  predicate BadTid(live: seq<bool>, t: int) {
    t >= |live| || t < 0 || !live[t]
  }

  class QueueTable {
    const nthread: nat
    const nqueue: nat
    const quetab: array<Queent>
    var nextqid: int
    ghost var Q: seq<seq<int>>

    ghost predicate Valid()
      reads this, quetab
    {
      && quetab.Length == nthread + 2 * nqueue
      && nextqid == nthread + 2 * |Q|
      && Linked(quetab[..], nthread, Q)
    }

    ghost function Keys(): seq<int>
      requires Valid()
      reads this, quetab
    {
      KeysOf(quetab[..], nthread)
    }

    predicate BadQid(q: int) {
      q < 0 || q + 1 >= nthread + 2 * nqueue
    }

    constructor (nthread: nat, nqueue: nat)
      ensures this.nthread == nthread && this.nqueue == nqueue
      ensures Valid() && Q == [] && fresh(quetab) && nextqid == nthread
    {
      this.nthread := nthread;
      this.nqueue := nqueue;
      this.quetab := new Queent[nthread + 2 * nqueue](_ => Queent(0, 0, 0));
      this.nextqid := nthread;
      this.Q := [];
    }

    /** The guard lets nextqid == NQENT through, so the caller must not ask for one queue too many. */
    method Queinit() returns (q: int)
      requires Valid()
      requires |Q| != nqueue
      modifies this`nextqid, this`Q, quetab
      ensures Valid()
      ensures q == Head(nthread, |old(Q)|) && Q == old(Q) + [[]]
      ensures Keys() == old(Keys())
    {
      if nextqid > quetab.Length { return SYSERR; }
      q := nextqid;
      nextqid := nextqid + 2;
      ghost var tab := quetab[..];
      quetab[q] := Queent(MAXKEY, q + 1, EMPTY);
      quetab[q + 1] := Queent(MINKEY, EMPTY, q);
      QueueAppended(tab, quetab[..], nthread, Q);
      Q := Q + [[]];
    }

    method Getitem(tid: int, ghost i: nat) returns (r: int)
      requires Valid() && i < |Q| && tid in Q[i]
      modifies this`Q, quetab
      ensures Valid() && r == tid
      ensures Q == old(Q)[i := Without(old(Q)[i], tid)]
      ensures Keys() == old(Keys())
    {
      ghost var k := IndexOf(Q[i], tid);
      LinkOutRemoves(quetab[..], nthread, Q, i, k);
      ghost var tab := LinkOut(quetab[..], tid);
      var next := quetab[tid].next;
      var prev := quetab[tid].prev;
      quetab[prev] := quetab[prev].(next := next);
      quetab[next] := quetab[next].(prev := prev);
      quetab[tid] := quetab[tid].(next := EMPTY);
      quetab[tid] := quetab[tid].(prev := EMPTY);
      Q := Q[i := Removed(Q[i], k)];
      assert quetab[..] == tab;
      r := tid;
    }

    /** isempty(q): the slot after the head sentinel is not a thread. */
    method IsEmpty(q: int, ghost i: nat) returns (empty: bool)
      requires Valid() && i < |Q| && q == Head(nthread, i)
      ensures empty == (Q[i] == [])
      ensures !empty ==> quetab[q].next == Q[i][0] && Below(Q[i], nthread)
    {
      ghost var p := Path(nthread, i, Q[i]);
      assert LinkedPath(quetab[..], p) && Below(Q[i], nthread);
      assert p[0] == q;
      assert quetab[..][p[0]].next == p[1];
      empty := quetab[q].next >= nthread;
    }

    method Getfirst(q: int, ghost i: nat) returns (r: int)
      requires Valid() && (BadQid(q) || (i < |Q| && q == Head(nthread, i)))
      modifies this`Q, quetab
      ensures Valid() && Keys() == old(Keys())
      ensures BadQid(q) ==> r == SYSERR && Q == old(Q)
      ensures !BadQid(q) && old(Q)[i] == [] ==> r == EMPTY && Q == old(Q)
      ensures !BadQid(q) && old(Q)[i] != [] ==>
                r == old(Q)[i][0] && Q == old(Q)[i := old(Q)[i][1..]]
    {
      if BadQid(q) { return SYSERR; }
      var empty := IsEmpty(q, i);
      if empty { return EMPTY; }
      r := Getitem(quetab[q].next, i);
      assert Without(old(Q)[i], r) == old(Q)[i][1..];
    }

    method Getlast(q: int, ghost i: nat) returns (r: int)
      requires Valid() && (BadQid(q) || (i < |Q| && q == Head(nthread, i)))
      modifies this`Q, quetab
      ensures Valid() && Keys() == old(Keys())
      ensures BadQid(q) ==> r == SYSERR && Q == old(Q)
      ensures !BadQid(q) && old(Q)[i] == [] ==> r == EMPTY && Q == old(Q)
      ensures !BadQid(q) && old(Q)[i] != [] ==>
                && r == old(Q)[i][|old(Q)[i]| - 1]
                && Q == old(Q)[i := old(Q)[i][..|old(Q)[i]| - 1]]
    {
      if BadQid(q) { return SYSERR; }
      var empty := IsEmpty(q, i);
      if empty { return EMPTY; }
      ghost var s := Q[i];
      ghost var p := Path(nthread, i, s);
      assert LinkedPath(quetab[..], p);
      assert p[|s| + 1] == q + 1 && p[|s|] == s[|s| - 1];
      assert quetab[..][p[|s| + 1]].prev == p[|s|];
      r := Getitem(quetab[q + 1].prev, i);
      LastIndex(s);
    }

    method Dequeue(q: int, live: seq<bool>, ghost i: nat) returns (r: int)
      requires Valid() && (BadQid(q) || (i < |Q| && q == Head(nthread, i)))
      requires |live| == nthread
      modifies this`Q, quetab
      ensures Valid() && Keys() == old(Keys())
      ensures BadQid(q) ==> r == SYSERR && Q == old(Q)
      ensures !BadQid(q) && old(Q)[i] == [] ==> r == EMPTY && Q == old(Q)
      ensures !BadQid(q) && old(Q)[i] != [] ==>
                r == old(Q)[i][0] && 0 <= r < nthread && Q == old(Q)[i := old(Q)[i][1..]]
    {
      if BadQid(q) { return SYSERR; }
      var empty := IsEmpty(q, i);
      if empty { return EMPTY; }
      assert Below(Q[i], nthread);
      assert NoDup(Q[i]) && Disjoint(nthread, Q);
      r := Getfirst(q, i);
      if !BadTid(live, r) {
        assert Unqueued(Q, r);
        ghost var tab := quetab[..];
        quetab[r] := quetab[r].(prev := EMPTY);
        quetab[r] := quetab[r].(next := EMPTY);
        FreeSlotFrame(tab, quetab[..], nthread, Q, r);
      }
    }

    method Enqueue(tid: int, q: int, live: seq<bool>, ghost i: nat) returns (r: int)
      requires Valid() && (BadQid(q) || (i < |Q| && q == Head(nthread, i)))
      requires |live| == nthread
      requires !BadTid(live, tid) ==> Unqueued(Q, tid)
      modifies this`Q, quetab
      ensures Valid() && Keys() == old(Keys())
      ensures BadQid(q) || BadTid(live, tid) ==> r == SYSERR && Q == old(Q)
      ensures !BadQid(q) && !BadTid(live, tid) ==> r == tid && Q == old(Q)[i := old(Q)[i] + [tid]]
    {
      if BadQid(q) || BadTid(live, tid) { return SYSERR; }
      ghost var s := Q[i];
      ghost var p := Path(nthread, i, s);
      LinkInInserts(quetab[..], nthread, Q, i, |s|, tid, quetab[tid].key);
      assert LinkedPath(quetab[..], p);
      assert p[|s| + 1] == q + 1;
      assert quetab[..][p[|s| + 1]].prev == p[|s|];
      ghost var tab := LinkIn(quetab[..], tid, p[|s|], p[|s| + 1], quetab[tid].key);
      var tail := q + 1;
      var prev := quetab[tail].prev;
      quetab[tid] := quetab[tid].(next := tail);
      quetab[tid] := quetab[tid].(prev := prev);
      quetab[prev] := quetab[prev].(next := tid);
      quetab[tail] := quetab[tail].(prev := tid);
      assert quetab[..] == tab;
      assert Inserted(s, |s|, tid) == s + [tid];
      Q := Q[i := s + [tid]];
      r := tid;
    }

    /** Writes thread tid, with its key, between the neighbouring slots at position k of queue i. */
    method LinkBetween(tid: int, prev: int, next: int, key: int, ghost i: nat, ghost k: nat)
      requires Valid() && i < |Q| && k <= |Q[i]|
      requires 0 <= tid < nthread && Unqueued(Q, tid)
      requires var p := Path(nthread, i, Q[i]); prev == p[k] && next == p[k + 1]
      modifies this`Q, quetab
      ensures Valid()
      ensures Q == old(Q)[i := Inserted(old(Q)[i], k, tid)]
      ensures Keys() == old(Keys())[tid := key]
    {
      LinkInInserts(quetab[..], nthread, Q, i, k, tid, key);
      ghost var tab := LinkIn(quetab[..], tid, prev, next, key);
      quetab[tid] := quetab[tid].(next := next);
      quetab[tid] := quetab[tid].(prev := prev);
      quetab[tid] := quetab[tid].(key := key);
      quetab[prev] := quetab[prev].(next := tid);
      quetab[next] := quetab[next].(prev := tid);
      assert quetab[..] == tab;
      Q := Q[i := Inserted(Q[i], k, tid)];
    }

    /** The walk of `insert`: the first slot whose key is below `key`. */
    method FindBelow(q: int, key: int, ghost i: nat) returns (next: int, ghost k: nat)
      requires Valid() && i < |Q| && q == Head(nthread, i) && MINKEY < key
      ensures Below(Q[i], nthread)
      ensures k == InsertPos(Keys(), Q[i], key)
      ensures next == Path(nthread, i, Q[i])[k + 1] && 0 <= next < quetab.Length
    {
      ghost var s := Q[i];
      ghost var p := Path(nthread, i, s);
      assert LinkedPath(quetab[..], p) && Sentinels(quetab[..], nthread, i) && Below(s, nthread);
      assert p[0] == q && quetab[..][p[0]].next == p[1];
      next := quetab[q].next;
      k := 0;
      while quetab[next].key >= key
        invariant 0 <= k <= |s| && next == p[k + 1] && 0 <= next < quetab.Length
        invariant forall j :: 0 <= j < k ==> Keys()[s[j]] >= key
        decreases |s| - k
      {
        assert k == |s| ==> next == Tail(nthread, i);
        assert quetab[..][p[k + 1]].next == p[k + 2];
        assert p[k + 1] == s[k];
        next := quetab[next].next;
        k := k + 1;
      }
      InsertPosUnique(Keys(), s, key, k);
    }

    /** Needs a key above MINKEY: only then does the walk stop at the tail sentinel. */
    method Insert(tid: int, q: int, key: int, live: seq<bool>, ghost i: nat) returns (r: int)
      requires Valid() && (BadQid(q) || (i < |Q| && q == Head(nthread, i)))
      requires |live| == nthread && MINKEY < key
      requires !BadTid(live, tid) ==> Unqueued(Q, tid)
      modifies this`Q, quetab
      ensures Valid()
      ensures BadQid(q) || BadTid(live, tid) ==> r == SYSERR && Q == old(Q) && Keys() == old(Keys())
      ensures !BadQid(q) && !BadTid(live, tid) ==>
                && r == 0
                && Below(old(Q)[i], nthread)
                && Q == old(Q)[i := Inserted(old(Q)[i], InsertPos(old(Keys()), old(Q)[i], key), tid)]
                && Keys() == old(Keys())[tid := key]
    {
      if BadQid(q) || BadTid(live, tid) { return SYSERR; }
      var next, k := FindBelow(q, key, i);
      assert LinkedPath(quetab[..], Path(nthread, i, Q[i]));
      assert quetab[..][next].prev == Path(nthread, i, Q[i])[k];
      LinkBetween(tid, quetab[next].prev, next, key, i, k);
      r := 0;
    }

    /** The walk of `insertd`: subtracts the deltas that are passed. */
    method FindDelta(q: int, delta: int, ghost i: nat) returns (prev: int, next: int, key: int, ghost k: nat)
      requires Valid() && i < |Q| && q == Head(nthread, i)
      ensures Below(Q[i], nthread)
      ensures var (p, rest) := DeltaPos(Keys(), Q[i], delta);
        k == p && key == rest && prev == Path(nthread, i, Q[i])[p] && next == Path(nthread, i, Q[i])[p + 1]
    {
      ghost var s := Q[i];
      ghost var p := Path(nthread, i, s);
      ghost var keys := Keys();
      assert LinkedPath(quetab[..], p) && Below(s, nthread);
      assert p[0] == q && quetab[..][p[0]].next == p[1];
      prev, next, key, k := q, quetab[q].next, delta, 0;
      DeltaWalkStart(keys, s, delta);
      while quetab[next].key <= key && next != q + 1
        invariant 0 <= k <= |s| && prev == p[k] && next == p[k + 1] && 0 <= next < quetab.Length
        invariant DeltaWalk(keys, s, delta, k, key)
        decreases |s| - k
      {
        assert k == |s| ==> next == q + 1;
        assert quetab[..][p[k + 1]].next == p[k + 2];
        assert p[k + 1] == s[k];
        DeltaWalkStep(keys, s, delta, k, key);
        key := key - quetab[next].key;
        prev := next;
        next := quetab[next].next;
        k := k + 1;
      }
      assert k < |s| ==> next == s[k];
      DeltaWalkEnd(keys, s, delta, k, key);
    }

    method Insertd(tid: int, q: int, delta: int, live: seq<bool>, ghost i: nat) returns (r: int)
      requires Valid() && (BadQid(q) || (i < |Q| && q == Head(nthread, i)))
      requires |live| == nthread
      requires !BadTid(live, tid) ==> Unqueued(Q, tid)
      modifies this`Q, quetab
      ensures Valid()
      ensures BadQid(q) || BadTid(live, tid) ==> r == SYSERR && Q == old(Q) && Keys() == old(Keys())
      ensures !BadQid(q) && !BadTid(live, tid) ==>
                && r == 0
                && Below(old(Q)[i], nthread)
                && Q == old(Q)[i := DeltaQueue(old(Keys()), old(Q)[i], tid, delta)]
                && Keys() == DeltaKeys(old(Keys()), old(Q)[i], tid, delta)
    {
      if BadQid(q) || BadTid(live, tid) { return SYSERR; }
      var prev, next, key, k := FindDelta(q, delta, i);
      LinkBetween(tid, prev, next, key, i, k);
      assert k < |old(Q)[i]| ==> next == old(Q)[i][k];
      if next != q + 1 {
        AddKey(next, -key);
      }
      r := 0;
    }

    /** Adds `amount` to the key of thread t, as the clock and the early wake-ups do. */
    method AddKey(t: int, amount: int)
      requires Valid() && 0 <= t < nthread
      modifies quetab
      ensures Valid() && Keys() == old(Keys())[t := old(Keys())[t] + amount]
    {
      ghost var tab := quetab[..];
      quetab[t] := quetab[t].(key := quetab[t].key + amount);
      KeyFrame(tab, quetab[..], nthread, Q);
    }

    /** What reading quetab[tid].next of a queued thread yields. */
    method NextOf(tid: int, ghost i: nat) returns (next: int)
      requires Valid() && i < |Q| && tid in Q[i]
      ensures var k := IndexOf(Q[i], tid);
              if k + 1 < |Q[i]| then next == Q[i][k + 1] && 0 <= next < nthread else next >= nthread
    {
      ghost var k := IndexOf(Q[i], tid);
      ghost var p := Path(nthread, i, Q[i]);
      assert LinkedPath(quetab[..], p) && Below(Q[i], nthread);
      assert p[k + 1] == tid && quetab[..][p[k + 1]].next == p[k + 2];
      next := quetab[tid].next;
    }
  }

  /** The queue after `insertd(t, q, key)`. */
  function DeltaQueue(keys: seq<int>, s: seq<int>, t: int, key: int): seq<int>
    requires Below(s, |keys|)
  {
    Inserted(s, DeltaPos(keys, s, key).0, t)
  }

  /** The keys after `insertd(t, q, key)`. */
  function DeltaKeys(keys: seq<int>, s: seq<int>, t: int, key: int): (r: seq<int>)
    requires Below(s, |keys|) && 0 <= t < |keys|
    ensures |r| == |keys|
  {
    var (p, d) := DeltaPos(keys, s, key);
    var k1 := keys[t := d];
    if p < |s| then k1[s[p] := k1[s[p]] - d] else k1
  }

  /** After passing k deltas, `key` is what is left of `delta`. */
  ghost predicate DeltaWalk(keys: seq<int>, s: seq<int>, delta: int, k: int, key: int)
    requires Below(s, |keys|)
  {
    && 0 <= k <= |s|
    && DeltaPos(keys, s, delta) == (k + DeltaPos(keys, s[k..], key).0, DeltaPos(keys, s[k..], key).1)
  }

  lemma DeltaWalkStart(keys: seq<int>, s: seq<int>, delta: int)
    requires Below(s, |keys|)
    ensures DeltaWalk(keys, s, delta, 0, delta)
  {
    assert s[0..] == s;
  }

  lemma DeltaWalkStep(keys: seq<int>, s: seq<int>, delta: int, k: nat, key: int)
    requires Below(s, |keys|) && DeltaWalk(keys, s, delta, k, key)
    requires k < |s| && keys[s[k]] <= key
    ensures DeltaWalk(keys, s, delta, k + 1, key - keys[s[k]])
  {
    assert s[k..][0] == s[k] && s[k..][1..] == s[k + 1..];
  }

  lemma DeltaWalkEnd(keys: seq<int>, s: seq<int>, delta: int, k: nat, key: int)
    requires Below(s, |keys|) && DeltaWalk(keys, s, delta, k, key)
    requires k < |s| ==> keys[s[k]] > key
    ensures DeltaPos(keys, s, delta) == (k, key)
  {
    assert k < |s| ==> s[k..][0] == s[k];
  }

  lemma LastIndex(s: seq<int>)
    requires |s| > 0 && NoDup(s)
    ensures Without(s, s[|s| - 1]) == s[..|s| - 1]
  {
    var k := IndexOf(s, s[|s| - 1]);
    assert k == |s| - 1;
  }

  /** Changing only keys of threads changes no queue. */
  lemma KeyFrame(tab: seq<Queent>, tab': seq<Queent>, nt: nat, Q: seq<seq<int>>)
    requires Linked(tab, nt, Q) && |tab'| == |tab|
    requires forall a :: 0 <= a < |tab| ==> tab'[a].next == tab[a].next && tab'[a].prev == tab[a].prev
    requires forall a :: nt <= a < |tab| ==> tab'[a].key == tab[a].key
    ensures Linked(tab', nt, Q)
  {
    forall i | 0 <= i < |Q| ensures Sentinels(tab', nt, i) && LinkedPath(tab', Path(nt, i, Q[i])) {
      assert Sentinels(tab, nt, i) && LinkedPath(tab, Path(nt, i, Q[i]));
    }
  }

  /** Rewriting the links of a thread that is in no queue changes no queue. */
  lemma FreeSlotFrame(tab: seq<Queent>, tab': seq<Queent>, nt: nat, Q: seq<seq<int>>, t: int)
    requires Linked(tab, nt, Q) && |tab'| == |tab| && 0 <= t < nt && Unqueued(Q, t)
    requires forall a :: 0 <= a < |tab| && a != t ==> tab'[a] == tab[a]
    ensures Linked(tab', nt, Q)
  {
    forall i | 0 <= i < |Q| ensures Sentinels(tab', nt, i) && LinkedPath(tab', Path(nt, i, Q[i])) {
      assert Sentinels(tab, nt, i);
      PathElements(nt, i, Q[i], t);
      PathFrame(tab, tab', Path(nt, i, Q[i]));
    }
  }

  /** A fresh pair of sentinels is a new empty queue. */
  lemma QueueAppended(tab: seq<Queent>, tab': seq<Queent>, nt: nat, Q: seq<seq<int>>)
    requires Linked(tab, nt, Q) && |tab'| == |tab| && Tail(nt, |Q|) < |tab|
    requires forall a :: 0 <= a < Head(nt, |Q|) ==> tab'[a] == tab[a]
    requires tab'[Head(nt, |Q|)] == Queent(MAXKEY, Tail(nt, |Q|), EMPTY)
    requires tab'[Tail(nt, |Q|)] == Queent(MINKEY, EMPTY, Head(nt, |Q|))
    ensures Linked(tab', nt, Q + [[]])
  {
    var Q' := Q + [[]];
    forall i | 0 <= i < |Q'| ensures Sentinels(tab', nt, i) && LinkedPath(tab', Path(nt, i, Q'[i])) {
      if i < |Q| {
        assert Sentinels(tab, nt, i) && Below(Q[i], nt);
        PathFrame(tab, tab', Path(nt, i, Q[i]));
      }
    }
  }

  /** The guard of `queinit` accepts exactly one call more than the table has room for. */
  lemma QueinitGuard(nt: nat, nq: nat, made: nat)
    ensures var nextqid, nqent := nt + 2 * made, nt + 2 * nq;
            (!(nextqid > nqent) <==> made <= nq) && (nextqid + 1 < nqent <==> made < nq)
  {
  }
}
