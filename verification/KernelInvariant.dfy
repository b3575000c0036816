/**
 What every kernel call keeps: a thread's state fixes the one queue it is in,
 a semaphore's count fixes the length of its queue, exactly one thread is
 running, and the null thread can always run.
 */
module KernelInvariant {
  import opened Queues
  import opened QueueTables
  import opened KernelState

  /** The number of the only queue that may hold thread t; -1 for none. */
  function Home(k: Kernel, t: int): int
    requires 0 <= t < |k.thr|
  {
    match k.thr[t].state
    case Ready => k.R()
    case Sleep => k.S()
    case Tmout => k.S()
    case Wait => k.thr[t].sem
    case _ => -1
  }

  /** Every thread but x is exactly in its home queue; x is in none (x == -1: no exception). */
  ghost predicate Placed(k: Kernel, x: int) {
    && (forall i, t {:trigger t in k.q[i]} :: 0 <= i < |k.q| && t in k.q[i] ==> t != x && 0 <= t < |k.thr| && Home(k, t) == i)
    && (forall t :: 0 <= t < |k.thr| && t != x && Home(k, t) != -1 ==>
          0 <= Home(k, t) < |k.q| && t in k.q[Home(k, t)])
    && (forall t :: 0 <= t < |k.thr| && k.thr[t].state.Wait? && t != x ==> 0 <= k.thr[t].sem < |k.sem|)
    && (forall i :: 0 <= i < |k.q| ==> NoDup(k.q[i]))
  }

  function Waiting(s: Semaphore): nat {
    if s.used && s.count < 0 then -s.count else 0
  }

  /** A used semaphore has max(0, -count) waiters and a free one has none. */
  ghost predicate SemLaw(sem: seq<Semaphore>, q: seq<seq<int>>)
    requires |q| == |sem| + 2
  {
    forall s :: 0 <= s < |sem| ==> |q[s]| == Waiting(sem[s])
  }

  ghost predicate NullRuns(k: Kernel, x: int)
    requires |k.thr| > 0
  {
    x == NULLTHREAD || k.thr[NULLTHREAD].state.Ready? || k.thr[NULLTHREAD].state.Curr?
  }

  ghost predicate SortedBy(key: seq<int>, s: seq<int>)
    requires Below(s, |key|)
  {
    forall a, b :: 0 <= a < b < |s| ==> key[s[a]] >= key[s[b]]
  }

  ghost predicate LegalPriorities(k: Kernel) {
    forall t :: 0 <= t < |k.thr| && !k.thr[t].state.Free? ==> k.thr[t].prio > MINKEY
  }

  ghost predicate OnlyCur(k: Kernel) {
    forall t :: 0 <= t < |k.thr| && k.thr[t].state.Curr? ==> t == k.cur
  }

  /** All of the invariant but that the running thread is in state CURR, with x unplaced. */
  ghost predicate CoreExcept(k: Kernel, x: int) {
    && Shape(k)
    && Placed(k, x)
    && SemLaw(k.sem, k.q)
    && OnlyCur(k)
    && NullRuns(k, x)
    && LegalPriorities(k)
    && SortedBy(k.key, k.q[k.R()])
    && k.mode != Lost
  }

  ghost predicate Core(k: Kernel) { CoreExcept(k, -1) }

  ghost predicate Inv(k: Kernel) {
    Core(k) && k.thr[k.cur].state.Curr?
  }

  // ---------- the building blocks keep it ----------

  /** Fields that the invariant does not mention may change. */
  lemma CoreFrame(k: Kernel, k': Kernel, x: int)
    requires CoreExcept(k, x) && Shape(k') && SameSize(k, k')
    requires k'.q == k.q && k'.key == k.key && k'.sem == k.sem && k'.cur == k.cur && k'.mode != Lost
    requires forall t :: 0 <= t < |k.thr| ==>
      k'.thr[t].state == k.thr[t].state && k'.thr[t].sem == k.thr[t].sem && k'.thr[t].prio == k.thr[t].prio
    ensures CoreExcept(k', x)
  {
    assert forall t :: 0 <= t < |k.thr| ==> Home(k', t) == Home(k, t);
  }

  lemma Lift(k: Kernel, x: int)
    requires Core(k) && 0 <= x < |k.thr| && Home(k, x) == -1
    ensures CoreExcept(k, x)
  {
  }

  /** An unplaced thread may be given any state without a queue. */
  lemma Settle(k: Kernel, x: int, st: ThreadState)
    requires CoreExcept(k, x) && 0 < x < |k.thr|
    requires st.Free? || st.Susp? || st.Recv?
    requires st.Free? || !k.thr[x].state.Free?
    ensures Core(WithState(k, x, st))
  {
    var k' := WithState(k, x, st);
    assert forall t :: 0 <= t < |k.thr| && t != x ==> Home(k', t) == Home(k, t);
  }

  lemma InsertedSorted(key: seq<int>, s: seq<int>, t: int, prio: int)
    requires Below(s, |key|) && 0 <= t < |key| && t !in s && SortedBy(key, s)
    ensures var r := Inserted(s, InsertPos(key, s, prio), t);
            Below(r, |key|) && SortedBy(key[t := prio], r)
  {
    var p := InsertPos(key, s, prio);
    var r := Inserted(s, p, t);
    var key' := key[t := prio];
    forall a | 0 <= a < |r| ensures 0 <= r[a] < |key| {
      InsertedAt(s, p, t, a);
    }
    forall a, b | 0 <= a < b < |r| ensures key'[r[a]] >= key'[r[b]] {
      InsertedAt(s, p, t, a);
      InsertedAt(s, p, t, b);
      if a == p && p < b - 1 { assert key[s[p]] >= key[s[b - 1]]; }
    }
  }

  lemma InsertedAt(s: seq<int>, p: nat, t: int, a: nat)
    requires p <= |s| && a <= |s|
    ensures Inserted(s, p, t)[a] == if a < p then s[a] else if a == p then t else s[a - 1]
  {
  }

  lemma MakeReadyKeeps(k: Kernel, x: int)
    requires CoreExcept(k, x) && 0 <= x < |k.thr| && !k.thr[x].state.Free?
    ensures Core(MakeReady(k, x))
    ensures x in MakeReady(k, x).q[k.R()]
  {
    var k' := MakeReady(k, x);
    var s := k.q[k.R()];
    var p := InsertPos(k.key, s, k.thr[x].prio);
    InsertedElements(s, p, x);
    InsertedSorted(k.key, s, x, k.thr[x].prio);
    assert forall t :: 0 <= t < |k.thr| && t != x ==> Home(k', t) == Home(k, t);
    assert k'.q[k.R()] == Inserted(s, p, x);
    assert forall i :: 0 <= i < |k.q| && i != k.R() ==> k'.q[i] == k.q[i];
  }

  lemma WithoutSorted(key: seq<int>, s: seq<int>, t: int)
    requires Below(s, |key|) && SortedBy(key, s) && t in s
    ensures Below(Without(s, t), |key|) && SortedBy(key, Without(s, t))
  {
    var k := IndexOf(s, t);
    var r := Without(s, t);
    forall a | 0 <= a < |r| ensures 0 <= r[a] < |key| {
      RemovedAt(s, k, a);
    }
    forall a, b | 0 <= a < b < |r| ensures key[r[a]] >= key[r[b]] {
      RemovedAt(s, k, a);
      RemovedAt(s, k, b);
    }
  }

  lemma RemovedAt(s: seq<int>, k: nat, a: nat)
    requires k < |s| && a < |s| - 1
    ensures Removed(s, k)[a] == if a < k then s[a] else s[a + 1]
  {
  }

  lemma PoppedIsUnlinked(k: Kernel, i: int)
    requires Shape(k) && 0 <= i < |k.q| && k.q[i] != []
    ensures Popped(k, i) == Unlinked(k, i, k.q[i][0])
  {
    assert IndexOf(k.q[i], k.q[i][0]) == 0;
    assert Removed(k.q[i], 0) == k.q[i][1..];
  }

  /** A thread taken out of the ready list or the sleep queue is unplaced. */
  lemma UnlinkedKeeps(k: Kernel, i: int, t: int)
    requires Core(k) && k.R() <= i <= k.S() && t in k.q[i]
    ensures CoreExcept(Unlinked(k, i, t), t)
  {
    var k' := Unlinked(k, i, t);
    WithoutElements(k.q[i], t);
    assert Home(k, t) == i;
    assert forall u :: 0 <= u < |k.thr| ==> Home(k', u) == Home(k, u);
    if i == k.R() { WithoutSorted(k.key, k.q[i], t); }
  }

  /** A waiter taken off its semaphore's queue, with the count put up, is unplaced. */
  lemma WaiterKeeps(k: Kernel, s: int, t: int)
    requires Core(k) && 0 <= s < |k.sem| && t in k.q[s]
    ensures CoreExcept(Unlinked(WithCount(k, s, k.sem[s].count + 1), s, t), t)
    ensures k.sem[s].used && k.sem[s].count < 0
  {
    var k' := Unlinked(WithCount(k, s, k.sem[s].count + 1), s, t);
    WithoutElements(k.q[s], t);
    assert |k.q[s]| == Waiting(k.sem[s]);
    assert Home(k, t) == s;
    assert forall u :: 0 <= u < |k.thr| ==> Home(k', u) == Home(k, u);
  }

  /** The null thread keeps the ready list from running dry. */
  lemma SomeoneReady(k: Kernel)
    requires Core(k) && !k.thr[k.cur].state.Curr?
    ensures NULLTHREAD in k.q[k.R()]
  {
    assert Home(k, NULLTHREAD) == k.R();
  }

  lemma DispatchKeeps(k: Kernel)
    requires Core(k) && !k.thr[k.cur].state.Curr?
    ensures Inv(Dispatch(k))
    ensures Dispatch(k).cur == k.q[k.R()][0]
  {
    hide SemLaw, SortedBy, IndexOf, Without;
    SomeoneReady(k);
    var t := k.q[k.R()][0];
    PoppedIsUnlinked(k, k.R());
    UnlinkedKeeps(k, k.R(), t);
    var k1 := Popped(k, k.R());
    var k' := Dispatch(k);
    assert Home(k, t) == k.R();
    assert forall u :: 0 <= u < |k.thr| && u != t ==> Home(k', u) == Home(k1, u);
  }

  /** Rescheduling re-establishes the whole invariant. */
  lemma ReschedKeeps(k: Kernel)
    requires Core(k)
    ensures Inv(Resched(k))
  {
    if !k.thr[k.cur].state.Curr? {
      DispatchKeeps(k);
    } else if !KeepsRunning(k) {
      Lift(k, k.cur);
      MakeReadyKeeps(k, k.cur);
      DispatchKeeps(MakeReady(k, k.cur));
    }
  }

  // ---------- the calls keep it ----------

  lemma BlockedKeeps(k: Kernel, s: int)
    requires Inv(k) && k.cur != NULLTHREAD && 0 <= s < |k.sem| && k.sem[s].used && k.sem[s].count <= 0
    ensures Core(Blocked(WithCount(k, s, k.sem[s].count - 1), s))
  {
    var k' := Blocked(WithCount(k, s, k.sem[s].count - 1), s);
    assert |k.q[s]| == Waiting(k.sem[s]);
    assert Home(k, k.cur) == -1;
    InsertedElements(k.q[s], |k.q[s]|, k.cur);
    assert Inserted(k.q[s], |k.q[s]|, k.cur) == k.q[s] + [k.cur];
    assert forall u :: 0 <= u < |k.thr| && u != k.cur ==> Home(k', u) == Home(k, u);
  }

  lemma CountKeeps(k: Kernel, s: int, n: int)
    requires Core(k) && 0 <= s < |k.sem| && k.sem[s].used && k.sem[s].count >= 0 && n >= 0
    ensures Core(WithCount(k, s, n))
  {
    var k' := WithCount(k, s, n);
    assert |k.q[s]| == Waiting(k.sem[s]);
    assert forall u :: 0 <= u < |k.thr| ==> Home(k', u) == Home(k, u);
  }

  lemma WaitKeeps(k: Kernel, s: int)
    requires Inv(k) && (k.BadSem(s) || k.sem[s].count > 0 || k.cur != NULLTHREAD)
    ensures Inv(SemWait(k, s))
  {
    if !k.BadSem(s) {
      if k.sem[s].count > 0 {
        CountKeeps(k, s, k.sem[s].count - 1);
      } else {
        BlockedKeeps(k, s);
        ReschedKeeps(Blocked(WithCount(k, s, k.sem[s].count - 1), s));
      }
    }
  }

  lemma SignalCoreKeeps(k: Kernel, s: int)
    requires Core(k) && !k.BadSem(s)
    ensures var k' := SignalCore(k, s);
            Core(k') && !k'.BadSem(s) && k'.cur == k.cur && (Inv(k) ==> Inv(k'))
  {
    assert |k.q[s]| == Waiting(k.sem[s]);
    if k.sem[s].count < 0 {
      var k1 := WithCount(k, s, k.sem[s].count + 1);
      var t := k.q[s][0];
      WaiterKeeps(k, s, t);
      PoppedIsUnlinked(k1, s);
      assert Home(k, t) == s;
      MakeReadyKeeps(Popped(k1, s), t);
    } else {
      CountKeeps(k, s, k.sem[s].count + 1);
    }
  }

  lemma SignalKeeps(k: Kernel, s: int)
    requires Inv(k)
    ensures Inv(SemSignal(k, s))
  {
    if !k.BadSem(s) {
      SignalCoreKeeps(k, s);
      ReschedKeeps(SignalCore(k, s));
    }
  }

  lemma {:induction false} SignalTimesKeeps(k: Kernel, s: int, n: nat)
    requires Inv(k) && !k.BadSem(s)
    ensures Inv(SignalTimes(k, s, n)) && !SignalTimes(k, s, n).BadSem(s)
  {
    if n > 0 {
      SignalTimesKeeps(k, s, n - 1);
      SignalCoreKeeps(SignalTimes(k, s, n - 1), s);
    }
  }

  lemma SignalnKeeps(k: Kernel, s: int, n: int)
    requires Inv(k)
    ensures Inv(SemSignaln(k, s, n))
  {
    if !k.BadSem(s) && n > 0 {
      SignalTimesKeeps(k, s, n);
      ReschedKeeps(SignalTimes(k, s, n));
    }
  }

  /** Releasing a waiter and putting the count up is one signal. */
  lemma ReleaseStep(k: Kernel, s: int)
    requires Inv(k) && !k.BadSem(s) && k.q[s] != []
    ensures var k1 := WithCount(Release(k, s), s, k.sem[s].count + 1);
            Inv(k1) && !k1.BadSem(s) && |k1.q[s]| < |k.q[s]|
  {
    assert |k.q[s]| == Waiting(k.sem[s]);
    SignalCoreKeeps(k, s);
    assert k.q[s][0] in k.q[s];
    assert SignalCore(k, s) == WithCount(Release(k, s), s, k.sem[s].count + 1);
  }

  lemma {:induction false} DrainKeeps(k: Kernel, s: int)
    requires Inv(k) && !k.BadSem(s)
    ensures Inv(WithCount(Drain(k, s), s, 0))
    decreases |k.q[s]|
  {
    hide Placed, OnlyCur, NullRuns, LegalPriorities, SortedBy, InsertPos;
    if k.q[s] == [] {
      assert |k.q[s]| == Waiting(k.sem[s]);
      CountKeeps(k, s, 0);
    } else {
      ReleaseStep(k, s);
      var n := k.sem[s].count + 1;
      DrainKeeps(WithCount(Release(k, s), s, n), s);
      DrainIgnoresCount(Release(k, s), s, n);
      assert WithCount(WithCount(Drain(k, s), s, n), s, 0) == WithCount(Drain(k, s), s, 0);
    }
  }

  lemma {:induction false} DrainIgnoresCount(k: Kernel, s: int, n: int)
    requires Shape(k) && 0 <= s < |k.sem|
    ensures Drain(WithCount(k, s, n), s) == WithCount(Drain(k, s), s, n)
    decreases |k.q[s]|
  {
    if k.q[s] != [] {
      assert Release(WithCount(k, s, n), s) == WithCount(Release(k, s), s, n);
      DrainIgnoresCount(Release(k, s), s, n);
    }
  }

  lemma SemFreeKeeps(k: Kernel, s: int)
    requires Inv(k)
    ensures Inv(SemFree(k, s))
  {
    if !k.BadSem(s) {
      DrainKeeps(k, s);
      var k1 := WithCount(Drain(k, s), s, 0);
      var k' := SemFree(k, s);
      assert forall u :: 0 <= u < |k.thr| ==> Home(k', u) == Home(k1, u);
    }
  }

  lemma SemCreateKeeps(k: Kernel, s: int, count: nat)
    requires Inv(k) && 0 <= s < |k.sem| && !k.sem[s].used
    ensures Inv(SemCreate(k, s, count))
  {
    var k' := SemCreate(k, s, count);
    assert |k.q[s]| == Waiting(k.sem[s]);
    assert forall u :: 0 <= u < |k.thr| ==> Home(k', u) == Home(k, u);
  }

  /** Keys of threads outside the ready list may change. */
  lemma KeysKeep(k: Kernel, key: seq<int>, x: int)
    requires CoreExcept(k, x) && |key| == |k.key|
    requires forall t :: t in k.q[k.R()] ==> 0 <= t < |key| && key[t] == k.key[t]
    ensures CoreExcept(k.(key := key), x)
  {
    var k' := k.(key := key);
    var s := k.q[k.R()];
    assert Below(s, |k.key|);
    assert forall a :: 0 <= a < |s| ==> s[a] in s;
    assert forall u :: 0 <= u < |k.thr| ==> Home(k', u) == Home(k, u);
  }

  lemma AsleepKeeps(k: Kernel, delta: int, st: ThreadState)
    requires Inv(k) && k.cur != NULLTHREAD && (st.Sleep? || st.Tmout?)
    ensures Core(Asleep(k, delta, st))
  {
    hide InsertPos, DeltaPos;
    var s := k.q[k.S()];
    var p := DeltaPos(k.key, s, delta).0;
    var key' := DeltaKeys(k.key, s, k.cur, delta);
    DeltaKeysOutside(k, delta);
    KeysKeep(k, key', -1);
    var k1 := k.(key := key');
    assert Home(k1, k.cur) == -1;
    InsertedElements(s, p, k.cur);
    var k' := Asleep(k, delta, st);
    assert forall u :: 0 <= u < |k.thr| && u != k.cur ==> Home(k', u) == Home(k1, u);
    assert k'.q[k.S()] == Inserted(s, p, k.cur);
    assert forall i :: 0 <= i < |k.q| && i != k.S() ==> k'.q[i] == k1.q[i];
  }

  /** insertd touches no key of the ready list. */
  lemma DeltaKeysOutside(k: Kernel, delta: int)
    requires Inv(k)
    ensures forall t :: t in k.q[k.R()] ==> 0 <= t < |k.key| && DeltaKeys(k.key, k.q[k.S()], k.cur, delta)[t] == k.key[t]
  {
    var s := k.q[k.S()];
    var p := DeltaPos(k.key, s, delta).0;
    forall t | t in k.q[k.R()]
      ensures 0 <= t < |k.key| && DeltaKeys(k.key, s, k.cur, delta)[t] == k.key[t]
    {
      assert Home(k, t) == k.R() && Home(k, k.cur) == -1;
      if p < |s| {
        assert s[p] in k.q[k.S()];
        assert Home(k, s[p]) == k.S();
      }
    }
  }

  lemma SleepKeeps(k: Kernel, ms: nat)
    requires Inv(k) && (SleepTicks(ms) == 0 || k.cur != NULLTHREAD)
    ensures Inv(SleepFor(k, ms))
  {
    if SleepTicks(ms) > 0 {
      AsleepKeeps(k, SleepTicks(ms), Sleep);
      ReschedKeeps(Asleep(k, SleepTicks(ms), Sleep));
    } else {
      ReschedKeeps(k);
    }
  }

  lemma AwokenKeeps(k: Kernel, t: int)
    requires Core(k) && t in k.q[k.S()]
    ensures CoreExcept(Awoken(k, t), t)
  {
    UnlinkedKeeps(k, k.S(), t);
    var s := k.q[k.S()];
    var j := IndexOf(s, t);
    var key' := KeysWithout(k.key, s, t);
    forall u | u in k.q[k.R()] ensures 0 <= u < |key'| && key'[u] == k.key[u] {
      assert Home(k, u) == k.R();
      if j + 1 < |s| { assert s[j + 1] in s; assert Home(k, s[j + 1]) == k.S(); }
    }
    KeysKeep(Unlinked(k, k.S(), t), key', t);
  }

  lemma {:induction false} WakeupKeeps(k: Kernel)
    requires Inv(k)
    ensures Inv(Wakeup(k)) && Wakeup(k).cur == k.cur
    decreases |k.q[k.S()]|
  {
    var s := k.q[k.S()];
    if s != [] && k.key[s[0]] <= 0 {
      PoppedIsUnlinked(k, k.S());
      UnlinkedKeeps(k, k.S(), s[0]);
      assert Home(k, s[0]) == k.S();
      MakeReadyKeeps(Popped(k, k.S()), s[0]);
      WakeupKeeps(MakeReady(Popped(k, k.S()), s[0]));
    }
  }

  lemma TickedKeeps(k: Kernel)
    requires Inv(k) && k.q[k.S()] != []
    ensures Inv(Ticked(k))
  {
    var s := k.q[k.S()];
    forall u | u in k.q[k.R()] ensures u != s[0] {
      assert s[0] in k.q[k.S()];
      assert Home(k, u) == k.R() && Home(k, s[0]) == k.S();
    }
    KeysKeep(k, Ticked(k).key, -1);
  }

  lemma TickKeeps(k: Kernel)
    requires Inv(k)
    ensures Inv(ClockTick(k))
  {
    if k.q[k.S()] != [] {
      TickedKeeps(k);
      WakeupKeeps(Ticked(k));
      ReschedKeeps(Wakeup(Ticked(k)));
    } else {
      ReschedKeeps(k);
    }
  }

  lemma TakeMessageKeeps(k: Kernel)
    requires Inv(k)
    ensures Inv(TakeMessage(k))
  {
    CoreFrame(k, TakeMessage(k), -1);
  }

  lemma ContextKeeps(k: Kernel, t: int, c: Context, x: int)
    requires CoreExcept(k, x) && 0 <= t < |k.thr|
    ensures CoreExcept(WithContext(k, t, c), x)
  {
    CoreFrame(k, WithContext(k, t, c), x);
  }

  lemma ReceiveKeeps(k: Kernel)
    requires Inv(k) && (k.thr[k.cur].hasmsg || k.cur != NULLTHREAD)
    ensures Inv(ReceiveBegin(k)) && Inv(ReceiveEnd(k))
  {
    TakeMessageKeeps(k);
    ContextKeeps(TakeMessage(k), k.cur, Running, -1);
    if !k.thr[k.cur].hasmsg {
      Lift(k, k.cur);
      Settle(k, k.cur, Recv);
      ContextKeeps(WithState(k, k.cur, Recv), k.cur, InReceive, -1);
      ReschedKeeps(WithContext(WithState(k, k.cur, Recv), k.cur, InReceive));
    }
  }

  lemma RecvtimeKeeps(k: Kernel, maxwait: int)
    requires Inv(k) && (maxwait < 0 || k.thr[k.cur].hasmsg || k.cur != NULLTHREAD)
    ensures Inv(RecvtimeBegin(k, maxwait))
  {
    TakeMessageKeeps(k);
    if maxwait >= 0 && !k.thr[k.cur].hasmsg {
      AsleepKeeps(k, maxwait, Tmout);
      ContextKeeps(Asleep(k, maxwait, Tmout), k.cur, InRecvtime, -1);
      ReschedKeeps(WithContext(Asleep(k, maxwait, Tmout), k.cur, InRecvtime));
    }
  }

  lemma SendKeeps(k: Kernel, t: int, msg: int)
    requires Inv(k)
    ensures Inv(Send(k, t, msg))
  {
    if Accepts(k, t) {
      var k1 := Deposit(k, t, msg);
      CoreFrame(k, k1, -1);
      if k1.thr[t].state.Recv? {
        Lift(k1, t);
        MakeReadyKeeps(k1, t);
        ReschedKeeps(MakeReady(k1, t));
      } else if k1.thr[t].state.Tmout? {
        assert Home(k1, t) == k1.S();
        AwokenKeeps(k1, t);
        MakeReadyKeeps(Awoken(k1, t), t);
        ReschedKeeps(MakeReady(Awoken(k1, t), t));
      }
    }
  }

  /** MINKEY is the key of the queues' tails, so no thread may have it as its priority. */
  lemma CreateKeeps(k: Kernel, t: int, prio: int)
    requires Inv(k) && 0 <= t < |k.thr| && k.thr[t].state.Free?
    ensures Inv(Create(k, t, prio)) <==> prio > MINKEY
  {
    var k' := Create(k, t, prio);
    assert !k'.thr[t].state.Free? && k'.thr[t].prio == prio;
    if prio > MINKEY {
      assert forall u :: 0 <= u < |k.thr| ==> Home(k', u) == Home(k, u);
      assert LegalPriorities(k');
    } else {
      assert !LegalPriorities(k');
    }
  }

  /** `ready` tests neither whether its thread is running nor whether it is in a queue. */
  lemma ReadyKeeps(k: Kernel, t: int)
    requires Inv(k)
    ensures Inv(ReadyThread(k, t)) <==> k.BadTid(t) || (t != k.cur && Home(k, t) == -1)
  {
    hide SemLaw, OnlyCur, NullRuns, LegalPriorities, SortedBy, InsertPos;
    if !k.BadTid(t) {
      if t != k.cur && Home(k, t) == -1 {
        Lift(k, t);
        MakeReadyKeeps(k, t);
      } else if t != k.cur {
        QueuedTwice(k, t);
      }
    }
  }

  lemma QueuedTwice(k: Kernel, t: int)
    requires Inv(k) && 0 <= t < |k.thr| && Home(k, t) != -1
    ensures !Placed(MakeReady(k, t), -1)
  {
    hide SemLaw, OnlyCur, NullRuns, LegalPriorities, SortedBy, InsertPos;
    var k', i, s := MakeReady(k, t), Home(k, t), k.q[k.R()];
    assert t in k.q[i];
    if i != k.R() {
      assert t in k'.q[i] && Home(k', t) == k.R();
    } else {
      var p := InsertPos(k.key, s, k.thr[t].prio);
      var a, r := IndexOf(s, t), Inserted(s, p, t);
      assert r[p] == t && r[if a < p then a else a + 1] == t;
      assert !NoDup(r);
    }
  }

  lemma SuspendKeeps(k: Kernel, t: int)
    requires Inv(k)
    ensures Inv(Suspend(k, t))
  {
    if !k.BadTid(t) && t != NULLTHREAD {
      if k.thr[t].state.Ready? {
        assert Home(k, t) == k.R();
        UnlinkedKeeps(k, k.R(), t);
        Settle(Unlinked(k, k.R(), t), t, Susp);
      } else if k.thr[t].state.Curr? {
        Lift(k, t);
        Settle(k, t, Susp);
        ReschedKeeps(WithState(k, t, Susp));
      }
    }
  }

  lemma ResumeKeeps(k: Kernel, t: int)
    requires Inv(k)
    ensures Inv(Resume(k, t))
  {
    if !k.BadTid(t) && k.thr[t].state.Susp? {
      Lift(k, t);
      MakeReadyKeeps(k, t);
      ReschedKeeps(MakeReady(k, t));
    }
  }

  lemma ChprioKeeps(k: Kernel, t: int, prio: int)
    requires Inv(k) && prio > MINKEY
    ensures Inv(Chprio(k, t, prio))
  {
    var k' := Chprio(k, t, prio);
    assert forall u :: 0 <= u < |k.thr| ==> Home(k', u) == Home(k, u);
  }

  lemma KillBeginKeeps(k: Kernel, t: int)
    requires Inv(k)
    ensures Inv(KillBegin(k, t))
  {
    if !k.BadTid(t) && t != NULLTHREAD {
      var k1 := k.(thrcount := k.thrcount - 1);
      if k1.thrcount <= 1 {
        CoreFrame(k, k1.(mode := Halted), -1);
      } else {
        CoreFrame(k, WithContext(k1, k1.cur, InKill(t)), -1);
        SendKeeps(WithContext(k1, k1.cur, InKill(t)), k1.thr[t].parent, t);
      }
    }
  }

  /** Removing a thread in any state but TMOUT keeps the invariant. */
  lemma RemoveKeeps(k: Kernel, t: int)
    requires Inv(k) && 0 < t < |k.thr| && !k.thr[t].state.Tmout?
    ensures Inv(Remove(k, t))
  {
    hide SemLaw, SortedBy, LegalPriorities, OnlyCur, InsertPos;
    var h := Home(k, t);
    match k.thr[t].state
    case Sleep =>
      AwokenKeeps(k, t);
      Settle(Awoken(k, t), t, Free);
    case Curr =>
      Lift(k, t);
      Settle(k, t, Free);
      ReschedKeeps(WithState(k, t, Free));
    case Wait =>
      WaiterKeeps(k, h, t);
      Settle(Unlinked(WithCount(k, h, k.sem[h].count + 1), h, t), t, Free);
    case Ready =>
      UnlinkedKeeps(k, k.R(), t);
      Settle(Unlinked(k, k.R(), t), t, Free);
    case _ =>
      Lift(k, t);
      Settle(k, t, Free);
  }

  /**
   `kill` has no case for THRTMOUT: such a victim is marked free while it is
   still in the sleep queue.  So removal keeps the invariant exactly when the
   victim is not in a timed receive.
   */
  lemma RemoveExactly(k: Kernel, t: int)
    requires Inv(k) && 0 < t < |k.thr|
    ensures Inv(Remove(k, t)) <==> !k.thr[t].state.Tmout?
    ensures k.thr[t].state.Tmout? ==> Remove(k, t).thr[t].state.Free? && t in Remove(k, t).q[k.S()]
  {
    if k.thr[t].state.Tmout? {
      assert Home(k, t) == k.S();
      var k' := Remove(k, t);
      assert t in k'.q[k.S()] && Home(k', t) == -1;
    } else {
      RemoveKeeps(k, t);
    }
  }

  /**
   `unsleep` takes a thread out of the sleep queue and leaves its state, for its
   caller to change: so by itself it keeps the invariant exactly when it fails.
   */
  lemma UnsleepExactly(k: Kernel, t: int)
    requires Inv(k)
    ensures Inv(Unsleep(k, t)) <==> k.BadTid(t) || !(k.thr[t].state.Sleep? || k.thr[t].state.Tmout?)
  {
    hide SemLaw, OnlyCur, NullRuns, LegalPriorities, SortedBy;
    if !k.BadTid(t) && (k.thr[t].state.Sleep? || k.thr[t].state.Tmout?) {
      assert Home(k, t) == k.S();
      WithoutElements(k.q[k.S()], t);
      var k' := Unsleep(k, t);
      assert Home(k', t) == k.S() && t !in k'.q[k.S()];
    }
  }
}
