/**
 The kernel's tables and the calls that update them in place.  Each method
 implements the corresponding function of KernelState on the state that the
 tables represent; the queues themselves live in `quetab`.
 */
module KernelTables {
  import opened Common
  import opened Queues
  import opened QueueTables
  import opened KernelState
  import opened KernelInvariant
  import opened KernelRuns
  import opened CallEffects

  const OK := 0
  const TIMEOUT := -3
  const NOMSG := -4

  function Live(thr: seq<Thread>): (r: seq<bool>)
    ensures |r| == |thr|
    ensures forall t :: 0 <= t < |thr| ==> r[t] == !thr[t].state.Free?
  {
    seq(|thr|, t requires 0 <= t < |thr| => !thr[t].state.Free?)
  }

  /** Slot j comes before slot `found` in a cyclic search that begins behind `start`. */
  predicate Passed(start: int, j: int, found: int) {
    if start < found then start < j < found else start < j || j < found
  }

  /** The first waiter of a semaphore, taken off its queue with the count put up. */
  lemma FirstWaiter(k: Kernel, s: int)
    requires Inv(k) && !k.BadSem(s) && k.q[s] != []
    ensures var t := k.q[s][0];
      && 0 <= t < |k.thr| && k.thr[t].state.Wait?
      && CoreExcept(Popped(WithCount(k, s, k.sem[s].count + 1), s), t)
  {
    var t := k.q[s][0];
    assert t in k.q[s] && Home(k, t) == s;
    WaiterKeeps(k, s, t);
    PoppedIsUnlinked(WithCount(k, s, k.sem[s].count + 1), s);
  }

  lemma ExceptUnqueued(k: Kernel, x: int)
    requires CoreExcept(k, x) && 0 <= x < |k.thr| && !k.thr[x].state.Free?
    ensures Unqueued(k.q, x) && k.thr[x].prio > MINKEY
  {
  }

  function CyclicNext(i: int, n: int): (r: int)
    requires 0 <= i < n
    ensures r == if i + 1 == n then 0 else i + 1
  {
    (i + 1) % n
  }

  lemma AwokenUnqueued(k: Kernel, t: int)
    requires Inv(k) && t in k.q[k.S()]
    ensures 0 <= t < |k.thr| && Unqueued(Awoken(k, t).q, t)
  {
    AwokenKeeps(k, t);
    assert Home(k, t) == k.S();
  }

  lemma SleeperQueued(k: Kernel, t: int)
    requires Inv(k) && 0 <= t < |k.thr| && (k.thr[t].state.Sleep? || k.thr[t].state.Tmout?)
    ensures t in k.q[k.S()]
  {
    assert Home(k, t) == k.S();
  }

  lemma WakeupUnfolds(k: Kernel)
    requires Shape(k)
    ensures var s := k.q[k.S()];
      && Below(s, |k.key|)
      && if s != [] && k.key[s[0]] <= 0 then Wakeup(k) == Wakeup(ReadyThread(Popped(k, k.S()), s[0])) else Wakeup(k) == k
  {
    assert Below(k.q[k.S()], |k.thr|);
  }

  class Tables {
    const que: QueueTable
    var thrtab: seq<Thread>
    var semtab: seq<Semaphore>
    var pc: seq<Context>
    var thrcurrent: int
    var thrcount: int
    var mode: Mode
    var nexttid: int
    var nextsem: int
    var clkticks: int
    var clktime: int

    ghost predicate Valid()
      reads this, que, que.quetab
    {
      && que.Valid()
      && |que.Q| == que.nqueue == |semtab| + 2
      && que.nthread == |thrtab| == |pc|
      && 0 <= thrcurrent < |thrtab|
      && 0 <= nexttid < |thrtab|
      && 0 <= nextsem && (|semtab| > 0 ==> nextsem < |semtab|)
      && 0 <= clkticks < CLKTICKS_PER_SEC
    }

    /** The abstract kernel state that the tables represent. */
    ghost function View(): (k: Kernel)
      requires Valid()
      reads this, que, que.quetab
      ensures Shape(k)
    {
      assert forall i :: 0 <= i < |que.Q| ==> Below(que.Q[i], que.nthread);
      Kernel(thrtab, semtab, thrcurrent, que.Q, que.Keys(), pc, thrcount, mode)
    }

    /** The head slots of the queues, in the order in which boot creates them. */
    function SemQueue(s: int): int { que.nthread + 2 * s }
    function ReadyList(): int reads this { que.nthread + 2 * |semtab| }
    function SleepQueue(): int reads this { que.nthread + 2 * |semtab| + 2 }

    predicate BadTid(t: int) reads this { IsBadThread(thrtab, t) }
    predicate BadSem(s: int) reads this { s < 0 || s >= |semtab| || !semtab[s].used }

    /** sysinit: the tables at boot; its queues fill the queue table exactly. */
    constructor (nthread: nat, nsem: nat)
      requires nthread > 0
      ensures Valid() && Booted(View()) && Good(View())
      ensures |thrtab| == nthread && |semtab| == nsem
      ensures que.nextqid == que.quetab.Length
    {
      que := new QueueTable(nthread, nsem + 2);
      thrtab := seq(nthread, t => Thread(if t == NULLTHREAD then Curr else Free, 0, 0, 0, false, 0));
      semtab := seq(nsem, _ => Semaphore(false, 0));
      pc := seq(nthread, _ => Running);
      thrcurrent, thrcount, mode := NULLTHREAD, 1, Up;
      nexttid, nextsem := 0, 0;
      clkticks, clktime := 0, 0;
      new;
      var i := 0;
      while i < nsem + 2
        modifies que, que.quetab
        invariant 0 <= i <= nsem + 2
        invariant que.Valid() && |que.Q| == i && fresh(que) && fresh(que.quetab)
        invariant forall j :: 0 <= j < i ==> que.Q[j] == []
      {
        var q := que.Queinit();
        i := i + 1;
      }
      BootGood(View());
    }

    // ---------- scheduling ----------

    method MakeReadyThread(tid: int)
      requires Valid() && 0 <= tid < |thrtab| && !thrtab[tid].state.Free?
      requires Unqueued(que.Q, tid) && thrtab[tid].prio > MINKEY
      modifies this`thrtab, que`Q, que.quetab
      ensures Valid() && View() == MakeReady(old(View()), tid)
      ensures semtab == old(semtab)
    {
      thrtab := thrtab[tid := thrtab[tid].(state := Ready)];
      var r := que.Insert(tid, ReadyList(), thrtab[tid].prio, Live(thrtab), |semtab|);
    }

    method ReadyCall(tid: int) returns (r: int)
      requires Valid() && Inv(View()) && (BadTid(tid) || (tid != thrcurrent && Home(View(), tid) == -1))
      modifies this`thrtab, que`Q, que.quetab
      ensures Valid() && View() == ReadyThread(old(View()), tid)
      ensures r == if old(BadTid(tid)) then SYSERR else OK
    {
      if BadTid(tid) { return SYSERR; }
      Lift(View(), tid);
      ExceptUnqueued(View(), tid);
      MakeReadyThread(tid);
      r := OK;
    }

    /** The second half of `resched`: switch to the first ready thread. */
    method Switch()
      requires Valid() && Core(View()) && !thrtab[thrcurrent].state.Curr?
      modifies this`thrtab, this`thrcurrent, que`Q, que.quetab
      ensures Valid() && View() == Dispatch(old(View()))
    {
      hide Linked, SemLaw, SortedBy, LegalPriorities, OnlyCur;
      SomeoneReady(View());
      thrcurrent := que.Dequeue(ReadyList(), Live(thrtab), |semtab|);
      thrtab := thrtab[thrcurrent := thrtab[thrcurrent].(state := Curr)];
    }

    /** Whether `prio > firstkey(readylist)` on a nonempty ready list. */
    method BeatsFirst() returns (b: bool)
      requires Valid()
      ensures b == KeepsRunning(View())
    {
      var empty := que.IsEmpty(ReadyList(), |semtab|);
      b := !empty && thrtab[thrcurrent].prio > que.quetab[que.quetab[ReadyList()].next].key;
    }

    method ReschedCall()
      requires Valid() && Core(View())
      modifies this`thrtab, this`thrcurrent, que`Q, que.quetab
      ensures Valid() && View() == Resched(old(View())) && Inv(View())
    {
      hide Linked, Placed, SemLaw, SortedBy, LegalPriorities, OnlyCur, NullRuns, InsertPos, KeepsRunning;
      ghost var k := View();
      ReschedKeeps(k);
      if thrtab[thrcurrent].state == Curr {
        var stay := BeatsFirst();
        if stay { return; }
        Lift(k, thrcurrent);
        MakeReadyKeeps(k, thrcurrent);
        ExceptUnqueued(k, thrcurrent);
        MakeReadyThread(thrcurrent);
      }
      Switch();
    }

    // ---------- semaphores ----------

    method WaitCall(s: int) returns (r: int)
      requires Valid() && Inv(View()) && (BadSem(s) || semtab[s].count > 0 || thrcurrent != NULLTHREAD)
      modifies this`thrtab, this`semtab, this`thrcurrent, que`Q, que.quetab
      ensures Valid() && View() == SemWait(old(View()), s) && Inv(View())
      ensures r == if old(BadSem(s)) then SYSERR else OK
    {
      hide Linked, SemLaw, SortedBy, LegalPriorities, OnlyCur, InsertPos, Resched;
      WaitKeeps(View(), s);
      if BadSem(s) { return SYSERR; }
      ghost var k := View();
      semtab := semtab[s := semtab[s].(count := semtab[s].count - 1)];
      if semtab[s].count < 0 {
        BlockedKeeps(k, s);
        thrtab := thrtab[thrcurrent := thrtab[thrcurrent].(state := Wait)];
        thrtab := thrtab[thrcurrent := thrtab[thrcurrent].(sem := s)];
        assert Home(k, thrcurrent) == -1;
        var e := que.Enqueue(thrcurrent, SemQueue(s), Live(thrtab), s);
        assert View() == Blocked(WithCount(k, s, k.sem[s].count - 1), s);
        ReschedCall();
      }
      r := OK;
    }

    /** The body shared by `signal` and the loop of `signaln`: put the count up, release a waiter. */
    method SignalOnce(s: int)
      requires Valid() && Inv(View()) && !BadSem(s)
      modifies this`thrtab, this`semtab, que`Q, que.quetab
      ensures Valid() && View() == SignalCore(old(View()), s) && Inv(View()) && !BadSem(s)
    {
      hide Linked, Placed, SortedBy, LegalPriorities, OnlyCur, NullRuns, InsertPos;
      ghost var k := View();
      SignalCoreKeeps(k, s);
      assert |k.q[s]| == Waiting(k.sem[s]);
      var count := semtab[s].count;
      semtab := semtab[s := semtab[s].(count := count + 1)];
      if count < 0 {
        FirstWaiter(k, s);
        var tid := que.Dequeue(SemQueue(s), Live(thrtab), s);
        if !BadTid(tid) {
          ExceptUnqueued(View(), tid);
          MakeReadyThread(tid);
        }
      }
    }

    method SignalCall(s: int) returns (r: int)
      requires Valid() && Inv(View())
      modifies this`thrtab, this`semtab, this`thrcurrent, que`Q, que.quetab
      ensures Valid() && View() == SemSignal(old(View()), s) && Inv(View())
      ensures r == if old(BadSem(s)) then SYSERR else OK
    {
      hide Linked, Placed, SemLaw, SortedBy, LegalPriorities, OnlyCur, NullRuns, InsertPos;
      if BadSem(s) { return SYSERR; }
      var blocked := semtab[s].count < 0;
      SignalOnce(s);
      if blocked { ReschedCall(); }
      r := OK;
    }

    method SignalnCall(s: int, count: int) returns (r: int)
      requires Valid() && Inv(View())
      modifies this`thrtab, this`semtab, this`thrcurrent, que`Q, que.quetab
      ensures Valid() && View() == SemSignaln(old(View()), s, count) && Inv(View())
      ensures r == if old(BadSem(s)) || count <= 0 then SYSERR else OK
    {
      hide Linked, Placed, SemLaw, SortedBy, LegalPriorities, OnlyCur, NullRuns, InsertPos, SignalCore;
      if BadSem(s) || count <= 0 { return SYSERR; }
      var c := count;
      while c > 0
        invariant 0 <= c <= count
        invariant Valid() && Inv(View()) && !BadSem(s)
        invariant View() == SignalTimes(old(View()), s, count - c)
      {
        SignalOnce(s);
        c := c - 1;
      }
      ReschedCall();
      r := OK;
    }

    method SemfreeCall(s: int) returns (r: int)
      requires Valid() && Inv(View())
      modifies this`thrtab, this`semtab, que`Q, que.quetab
      ensures Valid() && View() == SemFree(old(View()), s) && Inv(View())
      ensures r == if old(BadSem(s)) then SYSERR else OK
      ensures !old(BadSem(s)) ==> s < |semtab| && semtab[s] == Semaphore(false, 0) && s < |que.Q| && que.Q[s] == []
    {
      hide Linked, Placed, SemLaw, SortedBy, LegalPriorities, OnlyCur, NullRuns, InsertPos, SignalCore, Release;
      SemFreeKeeps(View(), s);
      if BadSem(s) { return SYSERR; }
      ghost var n := semtab[s].count;
      assert WithCount(View(), s, n) == View();
      while true
        invariant Valid() && !BadSem(s) && Inv(WithCount(View(), s, n))
        invariant semtab == old(semtab)
        invariant Drain(View(), s) == Drain(old(View()), s)
        decreases |que.Q[s]|
      {
        var empty := que.IsEmpty(SemQueue(s), s);
        if empty { break; }
        n := ReleaseOne(s, n);
      }
      semtab := semtab[s := semtab[s].(count := 0)];
      semtab := semtab[s := semtab[s].(used := false)];
      r := OK;
    }

    /** One round of the loop of `semfree`; n is what the count would be had each release been a signal. */
    method ReleaseOne(s: int, ghost n: int) returns (ghost m: int)
      requires Valid() && !BadSem(s) && que.Q[s] != [] && Inv(WithCount(View(), s, n))
      modifies this`thrtab, que`Q, que.quetab
      ensures Valid() && View() == Release(old(View()), s)
      ensures Inv(WithCount(View(), s, m)) && |que.Q[s]| < |old(que.Q[s])|
    {
      hide Linked, Placed, SemLaw, SortedBy, LegalPriorities, OnlyCur, NullRuns, InsertPos;
      ghost var k := WithCount(View(), s, n);
      ReleaseStep(k, s);
      FirstWaiter(k, s);
      m := n + 1;
      var tid := que.Dequeue(SemQueue(s), Live(thrtab), s);
      assert WithCount(View(), s, m) == Popped(WithCount(k, s, m), s);
      if !BadTid(tid) {
        ExceptUnqueued(WithCount(View(), s, m), tid);
        MakeReadyThread(tid);
      }
      assert View() == Release(old(View()), s);
      assert WithCount(View(), s, m) == WithCount(Release(k, s), s, m);
    }

    /** semalloc: the first free slot after the last one searched, marked used. */
    method Semalloc() returns (s: int)
      requires Valid()
      modifies this`semtab, this`nextsem
      ensures Valid()
      ensures s == SYSERR ==> semtab == old(semtab) && forall i :: 0 <= i < |semtab| ==> semtab[i].used
      ensures s != SYSERR ==> 0 <= s < |old(semtab)| && !old(semtab[s].used)
                              && semtab == old(semtab)[s := old(semtab)[s].(used := true)] && nextsem == s
                              && forall j :: 0 <= j < |semtab| && Passed(old(nextsem), j, s) ==> old(semtab[j].used)
    {
      hide Linked;
      ghost var start := nextsem;
      var i := 0;
      while i < |semtab|
        invariant 0 <= i <= |semtab| && Valid() && semtab == old(semtab)
        invariant |semtab| > 0 ==> nextsem == (if start + i >= |semtab| then start + i - |semtab| else start + i)
        invariant forall j :: start < j < |semtab| && j <= start + i ==> semtab[j].used
        invariant forall j :: 0 <= j < |semtab| && j + |semtab| <= start + i ==> semtab[j].used
      {
        nextsem := nextsem + 1;
        if nextsem >= |semtab| { nextsem := 0; }
        if !semtab[nextsem].used {
          semtab := semtab[nextsem := semtab[nextsem].(used := true)];
          return nextsem;
        }
        i := i + 1;
      }
      s := SYSERR;
    }

    method SemcreateCall(count: int) returns (s: int)
      requires Valid() && Inv(View())
      modifies this`semtab, this`nextsem
      ensures Valid() && Inv(View())
      ensures count < 0 ==> s == SYSERR && View() == old(View())
      ensures count >= 0 && s == SYSERR ==> View() == old(View()) && forall i :: 0 <= i < |semtab| ==> semtab[i].used
      ensures s != SYSERR ==> count >= 0 && 0 <= s < |old(semtab)| && !old(semtab[s].used)
                              && View() == SemCreate(old(View()), s, count)
                              && semtab == old(semtab)[s := Semaphore(true, count)]
    {
      hide Linked, Placed, SemLaw, SortedBy, LegalPriorities, OnlyCur, NullRuns, InsertPos;
      if count < 0 { return SYSERR; }
      ghost var k := View();
      s := Semalloc();
      if s != SYSERR {
        SemCreateKeeps(k, s, count);
        semtab := semtab[s := semtab[s].(count := count)];
        assert View() == SemCreate(k, s, count);
      }
    }

    // ---------- time ----------

    method EnterSleep(delta: int, st: ThreadState) returns (r: int)
      requires Valid() && Inv(View()) && thrcurrent != NULLTHREAD && (st.Sleep? || st.Tmout?)
      modifies this`thrtab, que`Q, que.quetab
      ensures Valid() && View() == Asleep(old(View()), delta, st) && r == OK
    {
      hide Linked, SemLaw, SortedBy, LegalPriorities, OnlyCur, NullRuns, InsertPos, DeltaPos;
      Lift(View(), thrcurrent);
      ExceptUnqueued(View(), thrcurrent);
      r := que.Insertd(thrcurrent, SleepQueue(), delta, Live(thrtab), |semtab| + 1);
      if r == SYSERR { return; }
      thrtab := thrtab[thrcurrent := thrtab[thrcurrent].(state := st)];
    }

    method SleepCall(ms: nat) returns (r: int)
      requires Valid() && Inv(View()) && (SleepTicks(ms) == 0 || thrcurrent != NULLTHREAD)
      modifies this`thrtab, this`thrcurrent, que`Q, que.quetab
      ensures Valid() && View() == SleepFor(old(View()), ms) && Inv(View()) && r == OK
    {
      hide Linked, Placed, SemLaw, SortedBy, LegalPriorities, OnlyCur, NullRuns, InsertPos, DeltaPos;
      var ticks := (ms * CLKTICKS_PER_SEC) % 0x1_0000_0000 / 1000;
      if ticks > 0 {
        AsleepKeeps(View(), ticks, Sleep);
        var e := EnterSleep(ticks, Sleep);
        if e == SYSERR { return SYSERR; }
      }
      ReschedCall();
      r := OK;
    }

    /** The lines that `unsleep` and `send` share: hand the delta on and unlink. */
    method LeaveSleep(tid: int)
      requires Valid() && Inv(View()) && tid in que.Q[|semtab| + 1]
      modifies que`Q, que.quetab
      ensures Valid() && View() == Awoken(old(View()), tid)
      ensures Unqueued(que.Q, tid)
    {
      hide Linked, Placed, SemLaw, SortedBy, LegalPriorities, OnlyCur, NullRuns, InsertPos, IndexOf;
      AwokenUnqueued(View(), tid);
      var next := que.NextOf(tid, |semtab| + 1);
      if next < que.nthread {
        que.AddKey(next, que.quetab[tid].key);
      }
      var r := que.Getitem(tid, |semtab| + 1);
    }

    method UnsleepCall(tid: int) returns (r: int)
      requires Valid() && Inv(View())
      modifies que`Q, que.quetab
      ensures Valid() && View() == Unsleep(old(View()), tid)
      ensures r == if BadTid(tid) || !(thrtab[tid].state.Sleep? || thrtab[tid].state.Tmout?) then SYSERR else OK
    {
      hide Linked, SemLaw, SortedBy, LegalPriorities, OnlyCur, NullRuns, InsertPos;
      if BadTid(tid) { return SYSERR; }
      if thrtab[tid].state != Sleep && thrtab[tid].state != Tmout { return SYSERR; }
      assert Home(View(), tid) == View().S();
      LeaveSleep(tid);
      r := OK;
    }

    /** Whether the sleep queue has a first thread whose key is not positive. */
    method FirstDue() returns (due: bool)
      requires Valid()
      ensures var s := que.Q[|semtab| + 1];
              due == (s != [] && Below(s, que.nthread) && que.Keys()[s[0]] <= 0)
    {
      var empty := que.IsEmpty(SleepQueue(), |semtab| + 1);
      due := !empty && que.quetab[que.quetab[SleepQueue()].next].key <= 0;
    }

    method WakeupCall()
      requires Valid() && Inv(View())
      modifies this`thrtab, this`thrcurrent, que`Q, que.quetab
      ensures Valid() && View() == Resched(Wakeup(old(View()))) && Inv(View())
    {
      hide Linked, Placed, SemLaw, SortedBy, LegalPriorities, OnlyCur, NullRuns, InsertPos, Resched, Wakeup, ReadyThread, Popped;
      while true
        invariant Valid() && Inv(View()) && semtab == old(semtab)
        invariant Wakeup(View()) == Wakeup(old(View()))
        decreases |que.Q[|semtab| + 1]|
      {
        var due := FirstDue();
        WakeupUnfolds(View());
        if !due { break; }
        WakeFirst();
      }
      ReschedCall();
    }

    /** ready(dequeue(sleepq)). */
    method WakeFirst()
      requires Valid() && Inv(View()) && que.Q[|semtab| + 1] != []
      modifies this`thrtab, que`Q, que.quetab
      ensures Valid() && Inv(View())
      ensures var k := old(View()); View() == ReadyThread(Popped(k, k.S()), k.q[k.S()][0])
      ensures |que.Q[|semtab| + 1]| < old(|que.Q[|semtab| + 1]|)
    {
      hide Linked, SemLaw, SortedBy, LegalPriorities, OnlyCur, NullRuns, InsertPos;
      ghost var k := View();
      ghost var t := k.q[k.S()][0];
      assert t in k.q[k.S()] && Home(k, t) == k.S();
      PoppedIsUnlinked(k, k.S());
      UnlinkedKeeps(k, k.S(), t);
      MakeReadyKeeps(Popped(k, k.S()), t);
      var tid := que.Dequeue(SleepQueue(), Live(thrtab), |semtab| + 1);
      if !BadTid(tid) {
        ExceptUnqueued(View(), tid);
        MakeReadyThread(tid);
      }
    }

    /** The counters of the clock interrupt: seconds and ticks together count the interrupts. */
    method CountTick()
      requires Valid()
      modifies this`clkticks, this`clktime
      ensures Valid() && View() == old(View())
      ensures CLKTICKS_PER_SEC * clktime + clkticks == old(CLKTICKS_PER_SEC * clktime + clkticks) + 1
    {
      var ticks := clkticks + 1;
      if ticks == CLKTICKS_PER_SEC {
        clktime := clktime + 1;
        ticks := 0;
      }
      clkticks := ticks;
    }

    /** `--firstkey(sleepq)`, on a nonempty sleep queue; says whether the key reached zero. */
    method LowerFirst() returns (due: bool)
      requires Valid() && Inv(View()) && que.Q[|semtab| + 1] != []
      modifies que`Q, que.quetab
      ensures Valid() && Inv(View()) && View() == Ticked(old(View()))
      ensures Wakeup(View()) == View() || due
    {
      hide Linked, Placed, SemLaw, SortedBy, LegalPriorities, OnlyCur, NullRuns, InsertPos, Wakeup;
      TickedKeeps(View());
      var empty := que.IsEmpty(SleepQueue(), |semtab| + 1);
      var first := que.quetab[SleepQueue()].next;
      que.AddKey(first, -1);
      assert View() == Ticked(old(View()));
      WakeupUnfolds(View());
      due := que.quetab[first].key <= 0;
    }

    /** The clock interrupt. */
    method Clkhandler()
      requires Valid() && Inv(View())
      modifies this`thrtab, this`thrcurrent, this`clkticks, this`clktime, que`Q, que.quetab
      ensures Valid() && View() == ClockTick(old(View())) && Inv(View())
      ensures CLKTICKS_PER_SEC * clktime + clkticks == old(CLKTICKS_PER_SEC * clktime + clkticks) + 1
    {
      hide Linked, Placed, SemLaw, SortedBy, LegalPriorities, OnlyCur, NullRuns, InsertPos, Wakeup, Resched, Ticked;
      CountTick();
      var empty := que.IsEmpty(SleepQueue(), |semtab| + 1);
      if !empty {
        var due := LowerFirst();
        if due {
          WakeupCall();
        } else {
          ReschedCall();
        }
      } else {
        ReschedCall();
      }
    }

    // ---------- messages ----------

    method SendCall(tid: int, msg: int) returns (r: int)
      requires Valid() && Inv(View())
      modifies this`thrtab, this`thrcurrent, que`Q, que.quetab
      ensures Valid() && View() == Send(old(View()), tid, msg) && Inv(View())
      ensures r == if old(Accepts(View(), tid)) then OK else SYSERR
    {
      hide Linked, Placed, SemLaw, SortedBy, LegalPriorities, OnlyCur, NullRuns, InsertPos, Resched;
      ghost var k := View();
      SendKeeps(k, tid, msg);
      if BadTid(tid) { return SYSERR; }
      if thrtab[tid].state == Free || thrtab[tid].hasmsg { return SYSERR; }
      thrtab := thrtab[tid := thrtab[tid].(msg := msg)];
      thrtab := thrtab[tid := thrtab[tid].(hasmsg := true)];
      ghost var k1 := View();
      assert k1 == Deposit(k, tid, msg);
      CoreFrame(k, k1, -1);
      if thrtab[tid].state == Recv {
        Lift(k1, tid);
        ExceptUnqueued(k1, tid);
        MakeReadyKeeps(k1, tid);
        MakeReadyThread(tid);
        ReschedCall();
      } else if thrtab[tid].state == Tmout {
        SleeperQueued(k1, tid);
        WakeReceiver(tid);
      }
      r := OK;
    }

    /** The branch of send for a thread in a timed receive. */
    method WakeReceiver(tid: int)
      requires Valid() && Inv(View()) && tid in que.Q[|semtab| + 1]
      modifies this`thrtab, this`thrcurrent, que`Q, que.quetab
      ensures Valid() && View() == Resched(MakeReady(Awoken(old(View()), tid), tid)) && Inv(View())
    {
      hide Linked, SemLaw, SortedBy, LegalPriorities, OnlyCur, NullRuns, InsertPos, Resched;
      ghost var k1 := View();
      assert 0 <= tid < |thrtab| && Home(k1, tid) == k1.S();
      AwokenKeeps(k1, tid);
      LeaveSleep(tid);
      ExceptUnqueued(View(), tid);
      MakeReadyKeeps(View(), tid);
      MakeReadyThread(tid);
      ReschedCall();
    }

    /** `receive` up to its switch; done says that it returned without one. */
    method ReceiveCall() returns (done: bool, msg: int)
      requires Valid() && Inv(View()) && (thrtab[thrcurrent].hasmsg || thrcurrent != NULLTHREAD)
      modifies this`thrtab, this`thrcurrent, this`pc, que`Q, que.quetab
      ensures Valid() && View() == ReceiveBegin(old(View())) && Inv(View())
      ensures done == old(thrtab[thrcurrent].hasmsg)
      ensures done ==> msg == old(thrtab[thrcurrent].msg)
    {
      hide Linked, Placed, SemLaw, SortedBy, LegalPriorities, OnlyCur, NullRuns, InsertPos;
      ghost var k := View();
      ReceiveKeeps(k);
      done, msg := true, 0;
      if !thrtab[thrcurrent].hasmsg {
        Lift(k, thrcurrent);
        Settle(k, thrcurrent, Recv);
        ContextKeeps(WithState(k, thrcurrent, Recv), thrcurrent, InReceive, -1);
        thrtab := thrtab[thrcurrent := thrtab[thrcurrent].(state := Recv)];
        pc := pc[thrcurrent := InReceive];
        assert View() == WithContext(WithState(k, k.cur, Recv), k.cur, InReceive);
        ReschedCall();
        done := false;
      } else {
        msg := thrtab[thrcurrent].msg;
        thrtab := thrtab[thrcurrent := thrtab[thrcurrent].(hasmsg := false)];
      }
    }

    /** The rest of `receive`, when the thread runs again. */
    method ReceiveRest() returns (msg: int)
      requires Valid() && Good(View()) && pc[thrcurrent].InReceive?
      modifies this`thrtab, this`pc
      ensures Valid() && View() == ReceiveEnd(old(View()))
      ensures old(thrtab[thrcurrent].hasmsg) && msg == old(thrtab[thrcurrent].msg)
    {
      assert ContextFits(thrtab[thrcurrent], pc[thrcurrent], |thrtab|);
      msg := thrtab[thrcurrent].msg;
      thrtab := thrtab[thrcurrent := thrtab[thrcurrent].(hasmsg := false)];
      pc := pc[thrcurrent := Running];
    }

    method RecvtimeCall(maxwait: int) returns (done: bool, msg: int)
      requires Valid() && Inv(View()) && (maxwait < 0 || thrtab[thrcurrent].hasmsg || thrcurrent != NULLTHREAD)
      modifies this`thrtab, this`thrcurrent, this`pc, que`Q, que.quetab
      ensures Valid() && View() == RecvtimeBegin(old(View()), maxwait) && Inv(View())
      ensures done == (maxwait < 0 || old(thrtab[thrcurrent].hasmsg))
      ensures done ==> msg == if maxwait < 0 then SYSERR else old(thrtab[thrcurrent].msg)
    {
      hide Linked, Placed, SemLaw, SortedBy, LegalPriorities, OnlyCur, NullRuns, InsertPos, DeltaPos;
      ghost var k := View();
      RecvtimeKeeps(k, maxwait);
      done, msg := true, SYSERR;
      if maxwait < 0 { return; }
      if !thrtab[thrcurrent].hasmsg {
        AsleepKeeps(k, maxwait, Tmout);
        ContextKeeps(Asleep(k, maxwait, Tmout), k.cur, InRecvtime, -1);
        var e := EnterSleep(maxwait, Tmout);
        if e == SYSERR { return; }
        pc := pc[thrcurrent := InRecvtime];
        assert View() == WithContext(Asleep(k, maxwait, Tmout), k.cur, InRecvtime);
        ReschedCall();
        done := false;
      } else {
        msg := thrtab[thrcurrent].msg;
        thrtab := thrtab[thrcurrent := thrtab[thrcurrent].(hasmsg := false)];
      }
    }

    method RecvtimeRest() returns (msg: int)
      requires Valid()
      modifies this`thrtab, this`pc
      ensures Valid() && View() == RecvtimeEnd(old(View()))
      ensures msg == if old(thrtab[thrcurrent].hasmsg) then old(thrtab[thrcurrent].msg) else TIMEOUT
    {
      if thrtab[thrcurrent].hasmsg {
        msg := thrtab[thrcurrent].msg;
        thrtab := thrtab[thrcurrent := thrtab[thrcurrent].(hasmsg := false)];
      } else {
        msg := TIMEOUT;
        assert thrtab[thrcurrent].(hasmsg := false) == thrtab[thrcurrent];
        assert thrtab[thrcurrent := thrtab[thrcurrent]] == thrtab;
      }
      pc := pc[thrcurrent := Running];
    }

    method RecvclrCall() returns (msg: int)
      requires Valid()
      modifies this`thrtab
      ensures Valid() && View() == TakeMessage(old(View()))
      ensures msg == if old(thrtab[thrcurrent].hasmsg) then old(thrtab[thrcurrent].msg) else NOMSG
    {
      if thrtab[thrcurrent].hasmsg {
        msg := thrtab[thrcurrent].msg;
      } else {
        msg := NOMSG;
      }
      thrtab := thrtab[thrcurrent := thrtab[thrcurrent].(hasmsg := false)];
    }

    // ---------- thread life cycle ----------

    /** thrnew: the first free slot after the last one searched. */
    method Thrnew() returns (tid: int)
      requires Valid()
      modifies this`nexttid
      ensures Valid() && View() == old(View())
      ensures tid == SYSERR ==> forall t :: 0 <= t < |thrtab| ==> !thrtab[t].state.Free?
      ensures tid != SYSERR ==> 0 <= tid < |thrtab| && thrtab[tid].state.Free? && nexttid == tid
                                && forall j :: 0 <= j < |thrtab| && Passed(old(nexttid), j, tid) ==> !thrtab[j].state.Free?
    {
      hide Linked, Below;
      var n := |thrtab|;
      ghost var start := nexttid;
      var i := 0;
      while i < n
        invariant 0 <= i <= n && 0 <= nexttid < n
        invariant nexttid == if start + i >= n then start + i - n else start + i
        invariant forall j :: start < j < n && j <= start + i ==> !thrtab[j].state.Free?
        invariant forall j :: 0 <= j < n && j + n <= start + i ==> !thrtab[j].state.Free?
      {
        nexttid := CyclicNext(nexttid, n);
        if thrtab[nexttid].state == Free {
          return nexttid;
        }
        i := i + 1;
      }
      tid := SYSERR;
    }

    /** create, less the stack. */
    method CreateCall(prio: int) returns (tid: int)
      requires Valid() && Inv(View())
      modifies this`thrtab, this`pc, this`thrcount, this`nexttid
      ensures Valid() && (Inv(View()) <==> tid == SYSERR || prio > MINKEY)
      ensures tid == SYSERR ==> View() == old(View()) && forall t :: 0 <= t < |thrtab| ==> !thrtab[t].state.Free?
      ensures tid != SYSERR ==> 0 <= tid < |old(thrtab)| && old(thrtab[tid].state.Free?) && View() == Create(old(View()), tid, prio)
      ensures tid != SYSERR ==>
        && thrtab == old(thrtab)[tid := old(thrtab[tid]).(state := Susp, prio := prio, parent := thrcurrent, hasmsg := false)]
        && thrcount == old(thrcount) + 1
    {
      hide Linked, Placed, SemLaw, SortedBy, LegalPriorities, OnlyCur, NullRuns, InsertPos;
      ghost var k := View();
      tid := Thrnew();
      if tid == SYSERR { return; }
      CreateKeeps(k, tid, prio);
      thrcount := thrcount + 1;
      thrtab := thrtab[tid := thrtab[tid].(state := Susp, prio := prio, parent := thrcurrent, hasmsg := false)];
      pc := pc[tid := Running];
      assert View() == Create(k, tid, prio);
    }

    method SuspendCall(tid: int) returns (r: int)
      requires Valid() && Inv(View())
      modifies this`thrtab, this`thrcurrent, que`Q, que.quetab
      ensures Valid() && View() == Suspend(old(View()), tid) && Inv(View())
      ensures r == if old(BadTid(tid)) || tid == NULLTHREAD || !(old(thrtab[tid].state).Curr? || old(thrtab[tid].state).Ready?)
                   then SYSERR else old(thrtab[tid].prio)
      ensures !old(BadTid(tid)) && tid != NULLTHREAD && (old(thrtab[tid].state).Curr? || old(thrtab[tid].state).Ready?) ==>
        thrtab[tid] == old(thrtab[tid]).(state := Susp) && Unqueued(que.Q, tid) && thrcurrent != tid
    {
      hide Linked, SemLaw, SortedBy, LegalPriorities, OnlyCur, NullRuns, InsertPos;
      ghost var k := View();
      SuspendKeeps(k, tid);
      SuspendEffect(k, tid);
      if BadTid(tid) || tid == NULLTHREAD { return SYSERR; }
      if thrtab[tid].state != Curr && thrtab[tid].state != Ready { return SYSERR; }
      r := thrtab[tid].prio;
      if thrtab[tid].state == Ready {
        assert Home(k, tid) == k.R();
        var e := que.Getitem(tid, |semtab|);
        thrtab := thrtab[tid := thrtab[tid].(state := Susp)];
      } else {
        Lift(k, tid);
        Settle(k, tid, Susp);
        thrtab := thrtab[tid := thrtab[tid].(state := Susp)];
        assert View() == WithState(k, tid, Susp);
        ReschedCall();
      }
    }

    method ResumeCall(tid: int) returns (r: int)
      requires Valid() && Inv(View())
      modifies this`thrtab, this`thrcurrent, que`Q, que.quetab
      ensures Valid() && View() == Resume(old(View()), tid) && Inv(View())
      ensures r == if old(BadTid(tid)) || !old(thrtab[tid].state).Susp? then SYSERR else old(thrtab[tid].prio)
    {
      hide Linked, Placed, SemLaw, SortedBy, LegalPriorities, OnlyCur, NullRuns, InsertPos;
      ghost var k := View();
      ResumeKeeps(k, tid);
      if BadTid(tid) || thrtab[tid].state != Susp { return SYSERR; }
      Lift(k, tid);
      ExceptUnqueued(k, tid);
      MakeReadyKeeps(k, tid);
      r := thrtab[tid].prio;
      MakeReadyThread(tid);
      ReschedCall();
    }

    method ChprioCall(tid: int, newprio: int) returns (r: int)
      requires Valid()
      modifies this`thrtab
      ensures Valid() && View() == Chprio(old(View()), tid, newprio)
      ensures r == if old(BadTid(tid)) then SYSERR else old(thrtab[tid].prio)
      ensures thrtab == if old(BadTid(tid)) then old(thrtab) else old(thrtab)[tid := old(thrtab[tid]).(prio := newprio)]
    {
      if BadTid(tid) { return SYSERR; }
      r := thrtab[tid].prio;
      thrtab := thrtab[tid := thrtab[tid].(prio := newprio)];
    }

    /** `kill` up to and including its `send` to the parent, which may switch threads. */
    method KillCall(tid: int) returns (r: int)
      requires Valid() && Inv(View())
      modifies this`thrtab, this`thrcurrent, this`pc, this`thrcount, this`mode, que`Q, que.quetab
      ensures Valid() && View() == KillBegin(old(View()), tid) && Inv(View())
      ensures r == if old(BadTid(tid)) || tid == NULLTHREAD then SYSERR else OK
    {
      hide Linked, Placed, SemLaw, SortedBy, LegalPriorities, OnlyCur, NullRuns, InsertPos;
      KillBeginKeeps(View(), tid);
      if BadTid(tid) || tid == NULLTHREAD { return SYSERR; }
      ghost var k := View();
      thrcount := thrcount - 1;
      if thrcount <= 1 {
        mode := Halted;
        return OK;
      }
      pc := pc[thrcurrent := InKill(tid)];
      CoreFrame(k, View(), -1);
      var e := SendCall(thrtab[tid].parent, tid);
      r := OK;
    }

    /** The rest of `kill`, on whatever state the victim is in by then. */
    method KillRest()
      requires Valid() && Good(View()) && pc[thrcurrent].InKill?
      modifies this`thrtab, this`semtab, this`thrcurrent, this`pc, que`Q, que.quetab
      ensures Valid() && View() == KillEnd(old(View()))
    {
      hide Linked, Placed, SemLaw, SortedBy, LegalPriorities, OnlyCur, NullRuns, InsertPos;
      assert ContextFits(thrtab[thrcurrent], pc[thrcurrent], |thrtab|);
      var tid := pc[thrcurrent].victim;
      ContextKeeps(View(), thrcurrent, Running, -1);
      pc := pc[thrcurrent := Running];
      RemoveThread(tid);
    }

    method RemoveThread(tid: int)
      requires Valid() && Inv(View()) && 0 < tid < |thrtab|
      modifies this`thrtab, this`semtab, this`thrcurrent, que`Q, que.quetab
      ensures Valid() && View() == Remove(old(View()), tid)
      ensures tid < |thrtab| && thrtab[tid] == old(thrtab[tid]).(state := Free) && thrcurrent != tid
      ensures !old(thrtab[tid].state).Tmout? ==> Unqueued(que.Q, tid)
    {
      hide Linked, SemLaw, SortedBy, LegalPriorities, OnlyCur, NullRuns, InsertPos, Resched, Unsleep;
      ghost var k := View();
      RemovedThread(k, tid);
      match thrtab[tid].state
      case Sleep =>
        var e := UnsleepCall(tid);
        thrtab := thrtab[tid := thrtab[tid].(state := Free)];
      case Curr =>
        Lift(k, tid);
        Settle(k, tid, Free);
        thrtab := thrtab[tid := thrtab[tid].(state := Free)];
        assert View() == WithState(k, tid, Free);
        ReschedCall();
      case Wait =>
        var s := thrtab[tid].sem;
        assert Home(k, tid) == s;
        semtab := semtab[s := semtab[s].(count := semtab[s].count + 1)];
        var e := que.Getitem(tid, s);
        thrtab := thrtab[tid := thrtab[tid].(state := Free)];
      case Ready =>
        assert Home(k, tid) == k.R();
        var e := que.Getitem(tid, |semtab|);
        thrtab := thrtab[tid := thrtab[tid].(state := Free)];
      case _ =>
        thrtab := thrtab[tid := thrtab[tid].(state := Free)];
    }
  }
}
