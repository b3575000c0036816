/**
 The delta coding of the sleep queue: each key is the time after the sleeper in
 front, so a sleeper's remaining time is the sum of the keys up to its own.
 */
module DeltaQueues {
  import opened Queues
  import opened QueueTables
  import opened KernelState

  /** The remaining time of sleeper t. */
  ghost function Remaining(keys: seq<int>, s: seq<int>, t: int): int
    requires Below(s, |keys|) && t in s
  {
    if s[0] == t then keys[t] else keys[s[0]] + Remaining(keys, s[1..], t)
  }

  ghost predicate NonNegative(keys: seq<int>, s: seq<int>)
    requires Below(s, |keys|)
  {
    forall a :: 0 <= a < |s| ==> keys[s[a]] >= 0
  }

  lemma {:induction false} RemainingFrame(keys: seq<int>, keys': seq<int>, s: seq<int>, t: int)
    requires Below(s, |keys|) && |keys'| == |keys| && t in s
    requires forall a :: 0 <= a < |s| ==> keys'[s[a]] == keys[s[a]]
    ensures Remaining(keys', s, t) == Remaining(keys, s, t)
  {
    if s[0] != t { RemainingFrame(keys, keys', s[1..], t); }
  }

  lemma RemainingBehind(keys: seq<int>, s: seq<int>, t: int)
    requires Below(s, |keys|) && t in s && NoDup(s)
    ensures t == s[0] ==> Remaining(keys, s, t) == keys[t]
    ensures t in s[1..] ==> Remaining(keys, s, t) == keys[s[0]] + Remaining(keys, s[1..], t)
  {
  }

  /** Changing the first key shifts every remaining time. */
  lemma ShiftHead(keys: seq<int>, keys': seq<int>, s: seq<int>, d: int, t: int)
    requires Below(s, |keys|) && |keys'| == |keys| && t in s && NoDup(s)
    requires keys'[s[0]] == keys[s[0]] + d
    requires forall a :: 0 < a < |s| ==> keys'[s[a]] == keys[s[a]]
    ensures Remaining(keys', s, t) == Remaining(keys, s, t) + d
  {
    if s[0] != t { RemainingFrame(keys, keys', s[1..], t); }
  }

  lemma {:induction false} RemainingNonNegative(keys: seq<int>, s: seq<int>, t: int)
    requires Below(s, |keys|) && t in s && NonNegative(keys, s)
    ensures Remaining(keys, s, t) >= keys[s[0]] >= 0
    ensures Remaining(keys, s, t) >= keys[t] >= 0
  {
    if s[0] != t { RemainingNonNegative(keys, s[1..], t); }
  }

  lemma DeltaUnfold(keys: seq<int>, s: seq<int>, t: int, delta: int)
    requires Below(s, |keys|) && 0 <= t < |keys| && s != [] && keys[s[0]] <= delta
    ensures DeltaQueue(keys, s, t, delta) == [s[0]] + DeltaQueue(keys, s[1..], t, delta - keys[s[0]])
    ensures DeltaKeys(keys, s, t, delta) == DeltaKeys(keys, s[1..], t, delta - keys[s[0]])
  {
    var (p, d) := DeltaPos(keys, s[1..], delta - keys[s[0]]);
    assert Inserted(s, p + 1, t) == [s[0]] + Inserted(s[1..], p, t);
  }

  lemma DeltaAtHead(keys: seq<int>, s: seq<int>, t: int, delta: int)
    requires Below(s, |keys|) && NoDup(s) && 0 <= t < |keys| && t !in s && (s == [] || keys[s[0]] > delta)
    ensures DeltaQueue(keys, s, t, delta) == [t] + s
    ensures var keys' := DeltaKeys(keys, s, t, delta);
      && keys'[t] == delta
      && (s != [] ==> keys'[s[0]] == keys[s[0]] - delta)
      && (forall a :: 0 < a < |s| ==> keys'[s[a]] == keys[s[a]])
  {
    assert forall a :: 0 <= a < |s| ==> s[a] != t;
  }

  lemma DeltaKeysElsewhere(keys: seq<int>, s: seq<int>, t: int, delta: int, u: int)
    requires Below(s, |keys|) && 0 <= t < |keys| && 0 <= u < |keys| && u !in s && u != t
    ensures DeltaKeys(keys, s, t, delta)[u] == keys[u]
  {
  }

  lemma TailFacts(s: seq<int>)
    requires s != [] && NoDup(s)
    ensures NoDup(s[1..]) && s[0] !in s[1..]
    ensures forall u :: u in s && u != s[0] ==> u in s[1..]
  {
  }

  lemma ConsFacts(x: int, s: seq<int>)
    ensures ([x] + s)[1..] == s
    ensures forall u :: u in [x] + s <==> u == x || u in s
  {
  }

  lemma {:induction false} InsertdSelf(keys: seq<int>, s: seq<int>, t: int, delta: int)
    requires Below(s, |keys|) && NoDup(s) && 0 <= t < |keys| && t !in s
    ensures var s' := DeltaQueue(keys, s, t, delta);
      t in s' && Below(s', |keys|) && Remaining(DeltaKeys(keys, s, t, delta), s', t) == delta
  {
    hide DeltaQueue, DeltaKeys, DeltaPos;
    if s == [] || keys[s[0]] > delta {
      DeltaAtHead(keys, s, t, delta);
    } else {
      TailFacts(s);
      InsertdSelf(keys, s[1..], t, delta - keys[s[0]]);
      DeltaUnfold(keys, s, t, delta);
      ConsFacts(s[0], DeltaQueue(keys, s[1..], t, delta - keys[s[0]]));
      DeltaKeysElsewhere(keys, s[1..], t, delta - keys[s[0]], s[0]);
    }
  }

  lemma {:induction false} InsertdOther(keys: seq<int>, s: seq<int>, t: int, delta: int, u: int)
    requires Below(s, |keys|) && NoDup(s) && 0 <= t < |keys| && t !in s && u in s
    ensures var s' := DeltaQueue(keys, s, t, delta);
      && u in s' && Below(s', |keys|)
      && Remaining(DeltaKeys(keys, s, t, delta), s', u) == Remaining(keys, s, u)
  {
    hide DeltaQueue, DeltaKeys, DeltaPos;
    InsertdSelf(keys, s, t, delta);
    if s == [] || keys[s[0]] > delta {
      DeltaAtHead(keys, s, t, delta);
      ConsFacts(t, s);
      ShiftHead(keys, DeltaKeys(keys, s, t, delta), s, -delta, u);
    } else {
      TailFacts(s);
      DeltaUnfold(keys, s, t, delta);
      ConsFacts(s[0], DeltaQueue(keys, s[1..], t, delta - keys[s[0]]));
      DeltaKeysElsewhere(keys, s[1..], t, delta - keys[s[0]], s[0]);
      if u != s[0] { InsertdOther(keys, s[1..], t, delta - keys[s[0]], u); }
    }
  }

  lemma {:induction false} InsertdNonNegative(keys: seq<int>, s: seq<int>, t: int, delta: int)
    requires Below(s, |keys|) && NoDup(s) && 0 <= t < |keys| && t !in s && delta >= 0 && NonNegative(keys, s)
    ensures Below(DeltaQueue(keys, s, t, delta), |keys|)
    ensures NonNegative(DeltaKeys(keys, s, t, delta), DeltaQueue(keys, s, t, delta))
    ensures (s == [] || keys[s[0]] > 0) && delta > 0 ==>
              DeltaKeys(keys, s, t, delta)[DeltaQueue(keys, s, t, delta)[0]] > 0
  {
    InsertdSelf(keys, s, t, delta);
    if s == [] || keys[s[0]] > delta {
      DeltaAtHead(keys, s, t, delta);
    } else {
      TailFacts(s);
      InsertdNonNegative(keys, s[1..], t, delta - keys[s[0]]);
      DeltaUnfold(keys, s, t, delta);
      DeltaKeysElsewhere(keys, s[1..], t, delta - keys[s[0]], s[0]);
    }
  }

  lemma {:induction false} InsertdOrder(keys: seq<int>, s: seq<int>, delta: int, a: nat)
    requires Below(s, |keys|) && NoDup(s) && NonNegative(keys, s) && a < |s|
    ensures Remaining(keys, s, s[a]) <= delta <==> a < DeltaPos(keys, s, delta).0
  {
    if keys[s[0]] > delta {
      RemainingNonNegative(keys, s, s[a]);
    } else if a > 0 {
      TailFacts(s);
      InsertdOrder(keys, s[1..], delta - keys[s[0]], a - 1);
      assert s[1..][a - 1] == s[a];
    }
  }

  /**
   `insertd` refines insertion by absolute time: the newcomer's remaining time
   is the one asked for, every other sleeper keeps its own, the newcomer comes
   after exactly those that are due no later, and no delta becomes negative.
   */
  lemma InsertdTimes(keys: seq<int>, s: seq<int>, t: int, delta: int)
    requires Below(s, |keys|) && NoDup(s) && 0 <= t < |keys| && t !in s && delta >= 0 && NonNegative(keys, s)
    ensures var s', keys', p := DeltaQueue(keys, s, t, delta), DeltaKeys(keys, s, t, delta), DeltaPos(keys, s, delta).0;
      && s' == s[..p] + [t] + s[p..]
      && Below(s', |keys|) && NonNegative(keys', s')
      && t in s' && Remaining(keys', s', t) == delta
      && (forall u :: u in s ==> u in s' && Remaining(keys', s', u) == Remaining(keys, s, u))
      && (forall a :: 0 <= a < |s| ==> (Remaining(keys, s, s[a]) <= delta <==> a < p))
  {
    hide DeltaPos, Remaining, NonNegative;
    InsertdSelf(keys, s, t, delta);
    InsertdNonNegative(keys, s, t, delta);
    forall u | u in s
      ensures u in DeltaQueue(keys, s, t, delta)
      ensures Remaining(DeltaKeys(keys, s, t, delta), DeltaQueue(keys, s, t, delta), u) == Remaining(keys, s, u)
    {
      InsertdOther(keys, s, t, delta, u);
    }
    forall a | 0 <= a < |s| ensures Remaining(keys, s, s[a]) <= delta <==> a < DeltaPos(keys, s, delta).0 {
      InsertdOrder(keys, s, delta, a);
    }
  }

  lemma WithoutUnfold(keys: seq<int>, s: seq<int>, t: int)
    requires Below(s, |keys|) && t in s && s[0] != t
    ensures Without(s, t) == [s[0]] + Without(s[1..], t)
    ensures KeysWithout(keys, s, t) == KeysWithout(keys, s[1..], t)
  {
    var j := IndexOf(s[1..], t);
    assert IndexOf(s, t) == 1 + j;
    assert Removed(s, 1 + j) == [s[0]] + Removed(s[1..], j);
  }

  lemma WithoutHead(keys: seq<int>, s: seq<int>)
    requires Below(s, |keys|) && NoDup(s) && s != []
    ensures Without(s, s[0]) == s[1..]
    ensures var keys' := KeysWithout(keys, s, s[0]);
      && (|s| > 1 ==> keys'[s[1]] == keys[s[1]] + keys[s[0]])
      && (forall a :: 1 < a < |s| ==> keys'[s[a]] == keys[s[a]])
  {
    assert IndexOf(s, s[0]) == 0;
  }

  lemma WithoutFrame(keys: seq<int>, s: seq<int>, t: int)
    requires Below(s, |keys|) && t in s
    ensures Below(Without(s, t), |keys|)
    ensures forall u :: 0 <= u < |keys| && u !in s ==> KeysWithout(keys, s, t)[u] == keys[u]
  {
  }

  /** Early removal leaves another sleeper's remaining time as it was. */
  lemma {:induction false} RemovalOther(keys: seq<int>, s: seq<int>, t: int, u: int)
    requires Below(s, |keys|) && NoDup(s) && t in s && u in s && u != t
    ensures var s' := Without(s, t);
      u in s' && Below(s', |keys|) && Remaining(KeysWithout(keys, s, t), s', u) == Remaining(keys, s, u)
  {
    hide Without, KeysWithout, IndexOf;
    TailFacts(s);
    WithoutFrame(keys, s, t);
    if s[0] == t {
      WithoutHead(keys, s);
      ShiftHead(keys, KeysWithout(keys, s, t), s[1..], keys[t], u);
    } else {
      WithoutUnfold(keys, s, t);
      ConsFacts(s[0], Without(s[1..], t));
      WithoutFrame(keys, s[1..], t);
      if u != s[0] { RemovalOther(keys, s[1..], t, u); }
    }
  }

  lemma {:induction false} RemovalNonNegative(keys: seq<int>, s: seq<int>, t: int)
    requires Below(s, |keys|) && NoDup(s) && t in s && NonNegative(keys, s)
    ensures var s', keys' := Without(s, t), KeysWithout(keys, s, t);
      && Below(s', |keys|) && NonNegative(keys', s')
      && (s' != [] ==> keys'[s'[0]] >= keys[s[0]])
  {
    hide Without, KeysWithout, IndexOf;
    TailFacts(s);
    WithoutFrame(keys, s, t);
    if s[0] == t {
      WithoutHead(keys, s);
    } else {
      WithoutUnfold(keys, s, t);
      RemovalNonNegative(keys, s[1..], t);
      WithoutFrame(keys, s[1..], t);
    }
  }
}
