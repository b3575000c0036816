/**
 Thread queues.  Every queue of the kernel is a doubly linked list threaded
 through the one array `quetab` (system/queue.c, include/queue.h): slots
 0..nthread-1 are threads, and queue number i owns the two sentinel slots
 nthread+2i (head) and nthread+2i+1 (tail).  This module shows that the link
 writes made by the queue operations implement operations on plain sequences,
 one per queue.
 */
module Queues {

  const EMPTY := -2
  const MAXKEY := 0x7FFF_FFFF
  const MINKEY := -0x8000_0000

  datatype Queent = Queent(key: int, next: int, prev: int)

  // ---------- sequences of thread ids ----------

  function Inserted(s: seq<int>, k: nat, t: int): (r: seq<int>)
    requires k <= |s|
  {
    s[..k] + [t] + s[k..]
  }

  function Removed(s: seq<int>, k: nat): (r: seq<int>)
    requires k < |s|
  {
    s[..k] + s[k+1..]
  }

  predicate NoDup(s: seq<int>) {
    forall a, b :: 0 <= a < b < |s| ==> s[a] != s[b]
  }

  predicate Below(s: seq<int>, n: nat) {
    forall a :: 0 <= a < |s| ==> 0 <= s[a] < n
  }

  /** The position of `t`, which must occur. */
  function IndexOf(s: seq<int>, t: int): (k: nat)
    requires t in s
    ensures k < |s| && s[k] == t
    ensures t !in s[..k]
  {
    if s[0] == t then 0 else 1 + IndexOf(s[1..], t)
  }

  /** `s` with (the first occurrence of) `t` taken out. */
  function Without(s: seq<int>, t: int): (r: seq<int>)
  {
    if t in s then Removed(s, IndexOf(s, t)) else s
  }

  lemma TailElements(s: seq<int>)
    requires s != [] && NoDup(s)
    ensures NoDup(s[1..])
    ensures forall x :: x in s[1..] <==> x in s && x != s[0]
  {
    forall x | x in s && x != s[0] ensures x in s[1..] {
      assert s[1..][IndexOf(s, x) - 1] == x;
    }
  }

  lemma WithoutElements(s: seq<int>, t: int)
    requires NoDup(s)
    ensures NoDup(Without(s, t))
    ensures forall x :: x in Without(s, t) <==> x in s && x != t
    ensures t in s ==> |Without(s, t)| == |s| - 1
  {
    if t in s {
      var k := IndexOf(s, t);
      var r := Removed(s, k);
      forall x | x in s && x != t ensures x in r {
        var j :| 0 <= j < |s| && s[j] == x;
        assert r[if j < k then j else j - 1] == x;
      }
      assert forall j :: 0 <= j < |r| ==> r[j] == s[if j < k then j else j + 1];
    }
  }

  lemma InsertedElements(s: seq<int>, k: nat, t: int)
    requires k <= |s| && NoDup(s) && t !in s
    ensures NoDup(Inserted(s, k, t))
    ensures forall x :: x in Inserted(s, k, t) <==> x in s || x == t
  {
    var r := Inserted(s, k, t);
    assert forall j :: 0 <= j < |r| ==> r[j] == if j < k then s[j] else if j == k then t else s[j - 1];
    forall x | x in s ensures x in r {
      var j :| 0 <= j < |s| && s[j] == x;
      assert r[if j < k then j else j + 1] == x;
    }
    assert r[k] == t;
  }

  /** Where `insert` puts a new key: in front of the first strictly smaller key. */
  function InsertPos(keys: seq<int>, s: seq<int>, key: int): (k: nat)
    requires Below(s, |keys|)
    ensures k <= |s|
    ensures forall j :: 0 <= j < k ==> keys[s[j]] >= key
    ensures k < |s| ==> keys[s[k]] < key
  {
    if s == [] || keys[s[0]] < key then 0
    else
      1 + InsertPos(keys, s[1..], key)
  }

  lemma InsertPosUnique(keys: seq<int>, s: seq<int>, key: int, k: nat)
    requires Below(s, |keys|)
    requires k <= |s|
    requires forall j :: 0 <= j < k ==> keys[s[j]] >= key
    requires k < |s| ==> keys[s[k]] < key
    ensures k == InsertPos(keys, s, key)
  {
  }

  /** Where `insertd` puts a new delta, and the delta that is left there. */
  function DeltaPos(keys: seq<int>, s: seq<int>, key: int): (r: (nat, int))
    requires Below(s, |keys|)
    ensures r.0 <= |s|
    ensures r.0 < |s| ==> keys[s[r.0]] > r.1
  {
    if s == [] || keys[s[0]] > key then (0, key)
    else
      var (p, d) := DeltaPos(keys, s[1..], key - keys[s[0]]);
      (p + 1, d)
  }

  // ---------- linked representation ----------

  function Head(nt: nat, i: nat): nat { nt + 2 * i }
  function Tail(nt: nat, i: nat): nat { nt + 2 * i + 1 }

  /** All the slots of queue i in list order, sentinels included. */
  function Path(nt: nat, i: nat, s: seq<int>): seq<int> {
    [Head(nt, i)] + s + [Tail(nt, i)]
  }

  ghost predicate LinkedPath(tab: seq<Queent>, p: seq<int>) {
    && (forall j :: 0 <= j < |p| ==> 0 <= p[j] < |tab|)
    && (forall j :: 0 <= j < |p| - 1 ==> tab[p[j]].next == p[j+1])
    && (forall j :: 0 < j < |p| ==> tab[p[j]].prev == p[j-1])
  }

  ghost predicate Sentinels(tab: seq<Queent>, nt: nat, i: nat) {
    && Tail(nt, i) < |tab|
    && tab[Head(nt, i)].key == MAXKEY && tab[Head(nt, i)].prev == EMPTY
    && tab[Tail(nt, i)].key == MINKEY && tab[Tail(nt, i)].next == EMPTY
  }

  /** Queues hold threads, no thread twice and no thread in two queues. */
  ghost predicate Disjoint(nt: nat, Q: seq<seq<int>>) {
    && (forall i :: 0 <= i < |Q| ==> Below(Q[i], nt) && NoDup(Q[i]))
    && (forall i, j, t :: 0 <= i < j < |Q| ==> !(t in Q[i] && t in Q[j]))
  }

  /** `tab` represents the queues `Q`. */
  ghost predicate Linked(tab: seq<Queent>, nt: nat, Q: seq<seq<int>>) {
    && nt + 2 * |Q| <= |tab|
    && Disjoint(nt, Q)
    && (forall i :: 0 <= i < |Q| ==> Sentinels(tab, nt, i))
    && (forall i :: 0 <= i < |Q| ==> LinkedPath(tab, Path(nt, i, Q[i])))
  }

  ghost predicate Unqueued(Q: seq<seq<int>>, t: int) {
    forall i :: 0 <= i < |Q| ==> t !in Q[i]
  }

  /** Table after writing `t` between slots `prev` and `next`. */
  function LinkIn(tab: seq<Queent>, t: int, prev: int, next: int, key: int): seq<Queent>
    requires 0 <= t < |tab| && 0 <= prev < |tab| && 0 <= next < |tab|
  {
    var a := tab[t := Queent(key, next, prev)];
    var b := a[prev := a[prev].(next := t)];
    b[next := b[next].(prev := t)]
  }

  /** Table after taking `t` from between its neighbours. */
  function LinkOut(tab: seq<Queent>, t: int): seq<Queent>
    requires 0 <= t < |tab| && 0 <= tab[t].next < |tab| && 0 <= tab[t].prev < |tab|
  {
    var next, prev := tab[t].next, tab[t].prev;
    var a := tab[prev := tab[prev].(next := next)];
    var b := a[next := a[next].(prev := prev)];
    b[t := b[t].(next := EMPTY, prev := EMPTY)]
  }

  lemma PathSlots(nt: nat, Q: seq<seq<int>>, i: nat)
    requires Disjoint(nt, Q) && i < |Q|
    ensures NoDup(Path(nt, i, Q[i]))
  {
    var p := Path(nt, i, Q[i]);
    assert Below(Q[i], nt) && NoDup(Q[i]);
    forall a, b | 0 <= a < b < |p| ensures p[a] != p[b] {
      if 0 < a && b < |p| - 1 { assert p[a] == Q[i][a-1] && p[b] == Q[i][b-1]; }
    }
  }

  lemma PathElements(nt: nat, i: nat, s: seq<int>, x: int)
    ensures x in Path(nt, i, s) <==> x == Head(nt, i) || x == Tail(nt, i) || x in s
  {
    var p := Path(nt, i, s);
    assert p[0] == Head(nt, i) && p[|s| + 1] == Tail(nt, i);
    if x in s { assert p[IndexOf(s, x) + 1] == x; }
  }

  lemma PathsDisjoint(nt: nat, Q: seq<seq<int>>, i: nat, j: nat, x: int)
    requires Disjoint(nt, Q) && i < |Q| && j < |Q| && i != j
    requires x in Path(nt, i, Q[i])
    ensures x !in Path(nt, j, Q[j])
  {
    PathElements(nt, i, Q[i], x);
    PathElements(nt, j, Q[j], x);
    assert Below(Q[i], nt) && Below(Q[j], nt);
  }

  lemma DisjointUpdate(nt: nat, Q: seq<seq<int>>, i: nat, s: seq<int>, t: int)
    requires Disjoint(nt, Q) && i < |Q| && NoDup(s) && 0 <= t < nt
    requires forall x :: x in s ==> x in Q[i] || (x == t && Unqueued(Q, t))
    ensures Disjoint(nt, Q[i := s])
  {
    var Q' := Q[i := s];
    forall a | 0 <= a < |s| ensures 0 <= s[a] < nt {
      assert s[a] in s;
      if s[a] in Q[i] { assert Q[i][IndexOf(Q[i], s[a])] == s[a]; }
    }
    forall a, b, x | 0 <= a < b < |Q'| ensures !(x in Q'[a] && x in Q'[b]) {
      assert !(x in Q[a] && x in Q[b]);
      assert x in s && x !in Q[i] ==> x !in Q[a] && x !in Q[b];
    }
  }

  lemma LinkInPath(tab: seq<Queent>, p: seq<int>, k: nat, t: int, key: int)
    requires LinkedPath(tab, p) && NoDup(p) && k + 1 < |p|
    requires 0 <= t < |tab| && t !in p
    ensures LinkedPath(LinkIn(tab, t, p[k], p[k+1], key), p[..k+1] + [t] + p[k+1..])
  {
    var tab' := LinkIn(tab, t, p[k], p[k+1], key);
    var p' := p[..k+1] + [t] + p[k+1..];
    assert p[k] != p[k+1];
    forall j | 0 <= j < |p'| - 1 ensures tab'[p'[j]].next == p'[j+1] {
      if j < k { assert p'[j] == p[j] && p[j] != p[k]; }
      else if j > k + 1 { assert p'[j] == p[j-1] && p[j-1] != p[k]; }
    }
    forall j | 0 < j < |p'| ensures tab'[p'[j]].prev == p'[j-1] {
      if j <= k { assert p'[j] == p[j] && p[j] != p[k+1]; }
      else if j > k + 2 { assert p'[j] == p[j-1] && p[j-1] != p[k+1]; }
    }
  }

  lemma LinkOutPath(tab: seq<Queent>, p: seq<int>, k: nat)
    requires LinkedPath(tab, p) && NoDup(p) && 0 < k < |p| - 1
    ensures tab[p[k]].next == p[k+1] && tab[p[k]].prev == p[k-1]
    ensures LinkedPath(LinkOut(tab, p[k]), p[..k] + p[k+1..])
  {
    assert tab[p[k]].next == p[k+1] && tab[p[k]].prev == p[k-1];
    var tab' := LinkOut(tab, p[k]);
    var p' := p[..k] + p[k+1..];
    assert p[k-1] != p[k+1] && p[k-1] != p[k] && p[k] != p[k+1];
    forall j | 0 <= j < |p'| - 1 ensures tab'[p'[j]].next == p'[j+1] {
      if j < k - 1 { assert p'[j] == p[j] && p[j] != p[k-1] && p[j] != p[k]; }
      else if j >= k { assert p'[j] == p[j+1] && p[j+1] != p[k-1] && p[j+1] != p[k]; }
    }
    forall j | 0 < j < |p'| ensures tab'[p'[j]].prev == p'[j-1] {
      if j < k { assert p'[j] == p[j] && p[j] != p[k+1] && p[j] != p[k]; }
      else if j > k { assert p'[j] == p[j+1] && p[j+1] != p[k+1] && p[j+1] != p[k]; }
    }
  }

  /** A path none of whose slots was written is still linked. */
  lemma PathFrame(tab: seq<Queent>, tab': seq<Queent>, p: seq<int>)
    requires LinkedPath(tab, p) && |tab'| == |tab|
    requires forall j :: 0 <= j < |p| ==> tab'[p[j]].next == tab[p[j]].next && tab'[p[j]].prev == tab[p[j]].prev
    ensures LinkedPath(tab', p)
  {
  }

  /** Linking `t` in at position k inserts it in that queue and changes no other. */
  lemma LinkInInserts(tab: seq<Queent>, nt: nat, Q: seq<seq<int>>, i: nat, k: nat, t: int, key: int)
    requires Linked(tab, nt, Q) && i < |Q| && k <= |Q[i]|
    requires 0 <= t < nt && Unqueued(Q, t)
    ensures var p := Path(nt, i, Q[i]);
            && 0 <= p[k] < |tab| && 0 <= p[k+1] < |tab|
            && Linked(LinkIn(tab, t, p[k], p[k+1], key), nt, Q[i := Inserted(Q[i], k, t)])
  {
    var p := Path(nt, i, Q[i]);
    assert LinkedPath(tab, p);
    var s' := Inserted(Q[i], k, t);
    var Q' := Q[i := s'];
    var tab' := LinkIn(tab, t, p[k], p[k+1], key);
    InsertedElements(Q[i], k, t);
    DisjointUpdate(nt, Q, i, s', t);
    PathSlots(nt, Q, i);
    PathElements(nt, i, Q[i], t);
    LinkInPath(tab, p, k, t, key);
    assert Path(nt, i, s') == p[..k+1] + [t] + p[k+1..];
    forall j | 0 <= j < |Q'| ensures Sentinels(tab', nt, j) {
      assert Sentinels(tab, nt, j);
      SentinelOf(nt, Q, i, j, k);
    }
    forall j | 0 <= j < |Q'| && j != i ensures LinkedPath(tab', Path(nt, j, Q'[j])) {
      LinkInFrame(tab, nt, Q, i, j, k, t, key);
    }
  }

  lemma LinkInFrame(tab: seq<Queent>, nt: nat, Q: seq<seq<int>>, i: nat, j: nat, k: nat, t: int, key: int)
    requires Linked(tab, nt, Q) && i < |Q| && k <= |Q[i]| && j < |Q| && j != i
    requires 0 <= t < nt && Unqueued(Q, t)
    ensures var p := Path(nt, i, Q[i]);
            && 0 <= p[k] < |tab| && 0 <= p[k+1] < |tab|
            && LinkedPath(LinkIn(tab, t, p[k], p[k+1], key), Path(nt, j, Q[j]))
  {
    hide NoDup;
    var p := Path(nt, i, Q[i]);
    assert LinkedPath(tab, p) && LinkedPath(tab, Path(nt, j, Q[j]));
    PathSlots(nt, Q, i);
    PathsDisjoint(nt, Q, i, j, p[k]);
    PathsDisjoint(nt, Q, i, j, p[k+1]);
    PathElements(nt, j, Q[j], t);
    PathFrame(tab, LinkIn(tab, t, p[k], p[k+1], key), Path(nt, j, Q[j]));
  }

  lemma SentinelOf(nt: nat, Q: seq<seq<int>>, i: nat, j: nat, k: nat)
    requires Disjoint(nt, Q) && i < |Q| && j < |Q| && k <= |Q[i]|
    ensures Path(nt, i, Q[i])[k] != Tail(nt, j)
    ensures Path(nt, i, Q[i])[k+1] != Head(nt, j)
  {
    assert Below(Q[i], nt);
  }

  /** Unlinking the thread at position k removes it from that queue and changes no other. */
  lemma LinkOutRemoves(tab: seq<Queent>, nt: nat, Q: seq<seq<int>>, i: nat, k: nat)
    requires Linked(tab, nt, Q) && i < |Q| && k < |Q[i]|
    ensures var t, p := Q[i][k], Path(nt, i, Q[i]);
            && 0 <= t < nt
            && tab[t].next == p[k+2] && 0 <= p[k+2] < |tab|
            && tab[t].prev == p[k] && 0 <= p[k] < |tab|
            && Linked(LinkOut(tab, t), nt, Q[i := Removed(Q[i], k)])
  {
    var p := Path(nt, i, Q[i]);
    var t := Q[i][k];
    assert p[k+1] == t;
    assert Below(Q[i], nt);
    assert LinkedPath(tab, p);
    PathSlots(nt, Q, i);
    LinkOutPath(tab, p, k + 1);
    var tab' := LinkOut(tab, t);
    var s' := Removed(Q[i], k);
    var Q' := Q[i := s'];
    RemovedElements(Q[i], k);
    DisjointUpdate(nt, Q, i, s', t);
    assert Path(nt, i, s') == p[..k+1] + p[k+2..];
    forall j | 0 <= j < |Q'| ensures Sentinels(tab', nt, j) {
      assert Sentinels(tab, nt, j);
      SentinelOf(nt, Q, i, j, k);
      SentinelOf(nt, Q, i, j, k + 1);
    }
    forall j | 0 <= j < |Q'| && j != i ensures LinkedPath(tab', Path(nt, j, Q'[j])) {
      PathsDisjoint(nt, Q, i, j, p[k]);
      PathsDisjoint(nt, Q, i, j, p[k+1]);
      PathsDisjoint(nt, Q, i, j, p[k+2]);
      PathFrame(tab, tab', Path(nt, j, Q[j]));
    }
  }

  lemma RemovedElements(s: seq<int>, k: nat)
    requires NoDup(s) && k < |s|
    ensures NoDup(Removed(s, k))
    ensures forall x :: x in Removed(s, k) ==> x in s
  {
    var r := Removed(s, k);
    assert forall j :: 0 <= j < |r| ==> r[j] == s[if j < k then j else j + 1];
  }
}
