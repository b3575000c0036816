/**
 When sleepers wake: over whole runs, each tick lowers every remaining time by
 one and nothing else changes it, so a sleep ends exactly at its last tick.
 */
module SleepRuns {
  import opened Queues
  import opened QueueTables
  import opened KernelState
  import opened KernelInvariant
  import opened KernelRuns
  import opened DeltaQueues

  ghost function Left(k: Kernel, t: int): int
    requires Shape(k) && t in k.q[k.S()]
  {
    Remaining(k.key, k.q[k.S()], t)
  }

  /** No negative delta, and no remaining time that a 32-bit key could not hold. */
  ghost predicate Coded(k: Kernel)
    requires Shape(k)
  {
    && NonNegative(k.key, k.q[k.S()])
    && (forall t :: t in k.q[k.S()] ==> Left(k, t) <= MAXKEY)
  }

  /** The first sleeper is not due yet. */
  ghost predicate HeadPositive(k: Kernel)
    requires Shape(k)
  {
    assert Below(k.q[k.S()], |k.key|);
    k.q[k.S()] != [] ==> k.key[k.q[k.S()][0]] > 0
  }

  ghost predicate Timed(k: Kernel)
    requires Shape(k)
  {
    Coded(k) && HeadPositive(k)
  }

  /** The sleep queue, the keys in it and the states of its threads are the same. */
  ghost predicate SleepSame(k: Kernel, k': Kernel)
    requires Shape(k) && Shape(k') && SameSize(k, k')
  {
    && k'.q[k.S()] == k.q[k.S()]
    && (forall a :: 0 <= a < |k.q[k.S()]| ==>
          var t := k.q[k.S()][a];
          0 <= t < |k.thr| && k'.key[t] == k.key[t] && k'.thr[t].state == k.thr[t].state)
  }

  /** Thread t still sleeps, with as much time left. */
  ghost predicate StillAsleep(k: Kernel, k': Kernel, t: int)
    requires Shape(k) && Shape(k') && t in k.q[k.S()]
  {
    && t in k'.q[k'.S()]
    && Left(k', t) == Left(k, t)
    && 0 <= t < |k.thr| && t < |k'.thr|
    && k'.thr[t].state == k.thr[t].state
  }

  lemma SameStill(k: Kernel, k': Kernel)
    requires Shape(k) && Shape(k') && SameSize(k, k') && SleepSame(k, k')
    ensures forall t :: t in k.q[k.S()] ==> StillAsleep(k, k', t)
    ensures Coded(k) ==> Coded(k')
    ensures HeadPositive(k) ==> HeadPositive(k')
  {
    var s := k.q[k.S()];
    assert Below(s, |k.key|);
    forall t | t in s ensures StillAsleep(k, k', t) {
      RemainingFrame(k.key, k'.key, s, t);
      assert s[IndexOf(s, t)] == t;
    }
  }

  // ---------- calls that leave the sleep queue alone ----------

  lemma MakeReadySleep(k: Kernel, t: int)
    requires Shape(k) && 0 <= t < |k.thr| && t !in k.q[k.S()]
    ensures SleepSame(k, MakeReady(k, t))
  {
    assert Below(k.q[k.S()], |k.thr|);
    assert forall a :: 0 <= a < |k.q[k.S()]| ==> k.q[k.S()][a] in k.q[k.S()];
  }

  lemma NotAsleep(k: Kernel, t: int)
    requires Core(k) && 0 <= t < |k.thr| && Home(k, t) != k.S()
    ensures t !in k.q[k.S()]
  {
  }

  lemma DispatchSleep(k: Kernel)
    requires Core(k) && !k.thr[k.cur].state.Curr?
    ensures SleepSame(k, Dispatch(k))
  {
    SomeoneReady(k);
    assert Below(k.q[k.S()], |k.thr|);
    var t := k.q[k.R()][0];
    assert t in k.q[k.R()] && Home(k, t) == k.R();
    NotAsleep(k, t);
  }

  lemma ReschedSleep(k: Kernel)
    requires Core(k)
    ensures SleepSame(k, Resched(k))
  {
    hide SemLaw, OnlyCur, NullRuns, LegalPriorities, SortedBy, InsertPos;
    assert Below(k.q[k.S()], |k.thr|);
    if !k.thr[k.cur].state.Curr? {
      DispatchSleep(k);
    } else if !KeepsRunning(k) {
      NotAsleep(k, k.cur);
      Lift(k, k.cur);
      MakeReadyKeeps(k, k.cur);
      MakeReadySleep(k, k.cur);
      DispatchSleep(MakeReady(k, k.cur));
    }
  }

  lemma SleepTrans(k: Kernel, k1: Kernel, k2: Kernel)
    requires Shape(k) && Shape(k1) && Shape(k2) && SameSize(k, k1) && SameSize(k1, k2)
    requires SleepSame(k, k1) && SleepSame(k1, k2)
    ensures SleepSame(k, k2)
  {
  }

  /** An unqueued-for-sleep thread becomes ready and the processor is rescheduled. */
  lemma ReadyReschedSleep(k: Kernel, t: int)
    requires CoreExcept(k, t) && 0 <= t < |k.thr| && !k.thr[t].state.Free?
    ensures SleepSame(k, Resched(MakeReady(k, t)))
  {
    hide SemLaw, OnlyCur, NullRuns, LegalPriorities, SortedBy, InsertPos;
    assert t !in k.q[k.S()];
    MakeReadySleep(k, t);
    MakeReadyKeeps(k, t);
    ReschedSleep(MakeReady(k, t));
    SleepTrans(k, MakeReady(k, t), Resched(MakeReady(k, t)));
  }

  lemma ReleaseSleep(k: Kernel, s: int)
    requires Core(k) && 0 <= s < |k.sem|
    ensures SleepSame(k, Release(k, s)) && SleepSame(k, SignalCore(k, s))
  {
    hide SemLaw, OnlyCur, NullRuns, LegalPriorities, SortedBy, InsertPos;
    assert Below(k.q[k.S()], |k.thr|);
    if k.q[s] != [] {
      var t := k.q[s][0];
      assert t in k.q[s] && Home(k, t) == s;
      NotAsleep(k, t);
      MakeReadySleep(Popped(k, s), t);
      MakeReadySleep(Popped(WithCount(k, s, k.sem[s].count + 1), s), t);
    }
  }

  lemma {:induction false} SignalTimesSleep(k: Kernel, s: int, n: nat)
    requires Inv(k) && !k.BadSem(s)
    ensures SleepSame(k, SignalTimes(k, s, n))
  {
    hide Placed, SemLaw, OnlyCur, NullRuns, LegalPriorities, SortedBy, SignalCore, SleepSame;
    if n > 0 {
      SignalTimesSleep(k, s, n - 1);
      SignalTimesKeeps(k, s, n - 1);
      ReleaseSleep(SignalTimes(k, s, n - 1), s);
      SleepTrans(k, SignalTimes(k, s, n - 1), SignalTimes(k, s, n));
    } else {
      SleepRefl(k);
    }
  }

  lemma SleepRefl(k: Kernel)
    requires Shape(k)
    ensures SleepSame(k, k)
  {
    assert Below(k.q[k.S()], |k.thr|);
  }

  lemma {:induction false} DrainSleep(k: Kernel, s: int)
    requires Inv(k) && !k.BadSem(s)
    ensures SleepSame(k, Drain(k, s))
    decreases |k.q[s]|
  {
    hide Placed, SemLaw, OnlyCur, NullRuns, LegalPriorities, SortedBy, Release;
    if k.q[s] != [] {
      ReleaseStep(k, s);
      ReleaseSleep(k, s);
      var n := k.sem[s].count + 1;
      var k1 := WithCount(Release(k, s), s, n);
      DrainSleep(k1, s);
      DrainIgnoresCount(Release(k, s), s, n);
    } else {
      SleepRefl(k);
    }
  }

  // ---------- entering and leaving early ----------

  lemma AsleepTimes(k: Kernel, delta: int, st: ThreadState)
    requires Inv(k) && Coded(k) && 0 <= delta <= MAXKEY
    ensures var k' := Asleep(k, delta, st);
      && Coded(k')
      && (delta > 0 && HeadPositive(k) ==> HeadPositive(k'))
      && k.cur in k'.q[k.S()] && Left(k', k.cur) == delta
      && (forall t :: t in k.q[k.S()] ==> StillAsleep(k, k', t))
  {
    hide SemLaw, NullRuns, LegalPriorities, SortedBy, DeltaPos, Remaining;
    var s := k.q[k.S()];
    assert Below(s, |k.key|);
    NotAsleep(k, k.cur);
    InsertdTimes(k.key, s, k.cur, delta);
    InsertdNonNegative(k.key, s, k.cur, delta);
    var k' := Asleep(k, delta, st);
    assert forall t :: t in k'.q[k.S()] ==> t in s || t == k.cur by {
      InsertedElements(s, DeltaPos(k.key, s, delta).0, k.cur);
    }
    forall t | t in s ensures StillAsleep(k, k', t) {
      assert Home(k, t) == k.S();
    }
  }

  lemma AwokenTimes(k: Kernel, t: int)
    requires Core(k) && Coded(k) && t in k.q[k.S()]
    ensures var k' := Awoken(k, t);
      && Coded(k') && (HeadPositive(k) ==> HeadPositive(k'))
      && (forall u :: u in k.q[k.S()] && u != t ==> StillAsleep(k, k', u))
  {
    hide SemLaw, NullRuns, LegalPriorities, SortedBy, Remaining, KeysWithout, IndexOf;
    var s := k.q[k.S()];
    assert Below(s, |k.key|);
    RemovalNonNegative(k.key, s, t);
    WithoutElements(s, t);
    var k' := Awoken(k, t);
    forall u | u in s && u != t ensures StillAsleep(k, k', u) {
      RemovalOther(k.key, s, t, u);
      assert Home(k, u) == k.S();
    }
  }

  // ---------- one tick ----------

  /** Waking takes exactly the sleepers with no time left, and changes nobody else's time. */
  lemma {:induction false} WakeupTimes(k: Kernel)
    requires Inv(k) && NonNegative(k.key, k.q[k.S()])
    ensures var k' := Wakeup(k);
      && NonNegative(k'.key, k'.q[k.S()]) && HeadPositive(k')
      && (forall t :: t in k'.q[k.S()] <==> t in k.q[k.S()] && Left(k, t) > 0)
      && (forall t :: t in k'.q[k.S()] ==> Left(k', t) == Left(k, t))
    decreases |k.q[k.S()]|
  {
    hide SemLaw, OnlyCur, NullRuns, LegalPriorities, SortedBy, InsertPos;
    var s := k.q[k.S()];
    assert Below(s, |k.key|);
    if s != [] && k.key[s[0]] <= 0 {
      var k1 := MakeReady(Popped(k, k.S()), s[0]);
      WakeupPops(k);
      WakeupTimes(k1);
      assert Wakeup(k) == Wakeup(k1);
    } else {
      forall t | t in s ensures Left(k, t) > 0 {
        RemainingNonNegative(k.key, s, t);
      }
    }
  }

  /** One round of `wakeup` on a first sleeper with no time left. */
  lemma WakeupPops(k: Kernel)
    requires Inv(k) && k.q[k.S()] != [] && k.key[k.q[k.S()][0]] <= 0
    requires forall a :: 1 <= a < |k.q[k.S()]| ==> k.key[k.q[k.S()][a]] >= 0
    ensures var s, t0 := k.q[k.S()], k.q[k.S()][0];
      var k1 := MakeReady(Popped(k, k.S()), t0);
      && Inv(k1) && k1 == ReadyThread(Popped(k, k.S()), t0)
      && k1.q[k.S()] == s[1..] && NonNegative(k1.key, s[1..])
      && Left(k, t0) == k.key[t0]
      && (forall t :: t in s[1..] <==> t in s && t != t0)
      && (forall t :: t in s[1..] ==> Left(k1, t) == Left(k, t) - k.key[t0])
  {
    hide Placed, SemLaw, OnlyCur, NullRuns, LegalPriorities, SortedBy, ReadyThread, MakeReady, Remaining;
    var s, t0 := k.q[k.S()], k.q[k.S()][0];
    PopKeeps(k);
    var k1 := MakeReady(Popped(k, k.S()), t0);
    TailElements(s);
    assert forall a :: 0 <= a < |s[1..]| ==> s[1..][a] == s[a + 1] && s[1..][a] != t0;
    forall t | t in s[1..] ensures Left(k1, t) == Left(k, t) - k.key[t0] {
      RemainingBehind(k.key, s, t);
      RemainingFrame(k.key, k1.key, s[1..], t);
    }
    assert Left(k, t0) == k.key[t0] by { RemainingBehind(k.key, s, t0); }
  }

  lemma PopKeeps(k: Kernel)
    requires Inv(k) && k.q[k.S()] != []
    ensures var s, t0 := k.q[k.S()], k.q[k.S()][0];
      var k1 := MakeReady(Popped(k, k.S()), t0);
      && NoDup(s) && Below(s, |k.key|) && |k1.key| == |k.key| && k1.S() == k.S()
      && Inv(k1) && k1 == ReadyThread(Popped(k, k.S()), t0) && k1.q[k.S()] == s[1..]
      && (forall t :: 0 <= t < |k.key| && t != t0 ==> k1.key[t] == k.key[t])
  {
    hide SemLaw, OnlyCur, NullRuns, LegalPriorities, SortedBy, InsertPos;
    var s, t0 := k.q[k.S()], k.q[k.S()][0];
    PoppedIsUnlinked(k, k.S());
    UnlinkedKeeps(k, k.S(), t0);
    assert t0 in s && Home(k, t0) == k.S();
    MakeReadyKeeps(Popped(k, k.S()), t0);
  }

  /**
   A tick when the first sleeper has time left: everybody's time goes down by
   one, and exactly those that had one tick left wake.
   */
  lemma TickLowers(k: Kernel)
    requires Inv(k) && Coded(k) && k.q[k.S()] != [] && HeadPositive(k)
    ensures var k' := Wakeup(Ticked(k));
      && Inv(k') && Timed(k')
      && (forall t :: t in k'.q[k.S()] <==> t in k.q[k.S()] && Left(k, t) > 1)
      && (forall t :: t in k'.q[k.S()] ==> Left(k', t) == Left(k, t) - 1)
  {
    hide SemLaw, OnlyCur, NullRuns, LegalPriorities, SortedBy, InsertPos;
    var k1 := Ticked(k);
    var s := k.q[k.S()];
    assert Below(s, |k.key|);
    TickedKeeps(k);
    forall t | t in s ensures Left(k1, t) == Left(k, t) - 1 {
      ShiftHead(k.key, k1.key, s, -1, t);
    }
    WakeupTimes(k1);
    WakeupKeeps(k1);
  }

  /**
   A tick when the first sleeper has none left, which only a zero timeout can
   cause: those without time left wake, and everybody else's time stays as it
   was, so each of them is late by this tick.
   */
  lemma TickStalls(k: Kernel)
    requires Inv(k) && Coded(k) && k.q[k.S()] != [] && !HeadPositive(k)
    ensures var k' := Wakeup(Ticked(k));
      && Inv(k') && Timed(k')
      && (forall t :: t in k'.q[k.S()] <==> t in k.q[k.S()] && Left(k, t) > 0)
      && (forall t :: t in k'.q[k.S()] ==> Left(k', t) == Left(k, t))
  {
    hide SemLaw, OnlyCur, NullRuns, LegalPriorities, SortedBy, InsertPos;
    var k1 := Ticked(k);
    var s := k.q[k.S()];
    assert Below(s, |k.key|);
    TickedKeeps(k);
    forall t | t in s ensures Left(k1, t) == Left(k, t) - 1 {
      ShiftHead(k.key, k1.key, s, -1, t);
    }
    assert k1.key[s[0]] == -1;
    WakeupPops(k1);
    var k2 := MakeReady(Popped(k1, k.S()), s[0]);
    WakeupTimes(k2);
    WakeupKeeps(k2);
    assert Wakeup(k1) == Wakeup(k2);
  }

  // ---------- every other step ----------

  /** Steps that take thread u out of the sleep queue early: its removal, or a message for a timed receive. */
  ghost predicate TakesOut(k: Kernel, op: Op, u: int)
    requires Shape(k)
  {
    match op
    case CallSend(t, _) => t == u && !k.BadTid(u) && k.thr[u].state.Tmout?
    case CallKill(t) => !k.BadTid(t) && t != NULLTHREAD && k.thr[t].parent == u && !k.BadTid(u) && k.thr[u].state.Tmout?
    case KillReturns => k.pc[k.cur].InKill? && k.pc[k.cur].victim == u
    case _ => false
  }

  /** A `recvtime(0)` that finds no message. */
  ghost predicate ZeroTimeout(k: Kernel, op: Op) {
    0 <= k.cur < |k.thr| && op == CallRecvtime(0) && !k.thr[k.cur].hasmsg
  }

  /** What a step other than a tick does to the sleepers. */
  ghost predicate TimesKept(k: Kernel, op: Op, k': Kernel)
    requires Shape(k) && Shape(k')
  {
    && Coded(k')
    && (HeadPositive(k) && !ZeroTimeout(k, op) ==> HeadPositive(k'))
    && (forall u :: u in k.q[k.S()] && !TakesOut(k, op, u) ==> StillAsleep(k, k', u))
  }

  lemma SameKept(k: Kernel, op: Op, k': Kernel)
    requires Shape(k) && Shape(k') && SameSize(k, k') && SleepSame(k, k') && Coded(k)
    ensures TimesKept(k, op, k')
  {
    SameStill(k, k');
  }

  /** Threads outside the sleep queue may change state. */
  lemma StateSleep(k: Kernel, t: int, k': Kernel)
    requires Shape(k) && Shape(k') && SameSize(k, k') && t !in k.q[k.S()]
    requires k'.q[k.S()] == k.q[k.S()] && k'.key == k.key
    requires forall u :: 0 <= u < |k.thr| && u != t ==> k'.thr[u].state == k.thr[u].state
    ensures SleepSame(k, k')
  {
    assert Below(k.q[k.S()], |k.thr|);
    assert forall a :: 0 <= a < |k.q[k.S()]| ==> k.q[k.S()][a] in k.q[k.S()];
  }

  lemma WaitSleep(k: Kernel, s: int)
    requires Inv(k) && (k.BadSem(s) || k.sem[s].count > 0 || k.cur != NULLTHREAD)
    ensures SleepSame(k, SemWait(k, s))
  {
    hide SemLaw, NullRuns, LegalPriorities, SortedBy, InsertPos, OnlyCur, SleepSame;
    NotAsleep(k, k.cur);
    if k.BadSem(s) {
      SleepRefl(k);
    } else {
      var k1 := WithCount(k, s, k.sem[s].count - 1);
      StateSleep(k, k.cur, k1);
      if k.sem[s].count <= 0 {
        BlockedKeeps(k, s);
        StateSleep(k, k.cur, Blocked(k1, s));
        ReschedSleep(Blocked(k1, s));
        SleepTrans(k, Blocked(k1, s), SemWait(k, s));
      }
    }
  }

  lemma SemaphoreSleep(k: Kernel, op: Op)
    requires Good(k) && Enabled(k, op)
    requires op.CallWait? || op.CallSignal? || op.CallSignaln? || op.CallSemfree? || op.CallSemcreate?
    ensures SleepSame(k, Apply(k, op))
  {
    hide Placed, SemLaw, NullRuns, LegalPriorities, SortedBy, OnlyCur, ContextInv, InsertPos, Resched;
    SleepRefl(k);
    var s := op.s;
    match op
    case CallWait(_) => WaitSleep(k, s);
    case CallSignal(_) =>
      if !k.BadSem(s) {
        ReleaseSleep(k, s);
        SignalCoreKeeps(k, s);
        ReschedSleep(SignalCore(k, s));
      }
    case CallSignaln(_, n) =>
      if !k.BadSem(s) && n > 0 {
        SignalTimesSleep(k, s, n);
        SignalTimesKeeps(k, s, n);
        ReschedSleep(SignalTimes(k, s, n));
      }
    case CallSemfree(_) =>
      if !k.BadSem(s) { DrainSleep(k, s); }
    case CallSemcreate(_, _) =>
  }

  lemma KeptThen(k: Kernel, op: Op, k1: Kernel, k': Kernel)
    requires Shape(k) && Shape(k1) && Shape(k') && SameSize(k, k1) && SameSize(k1, k')
    requires TimesKept(k, op, k1) && SleepSame(k1, k')
    ensures TimesKept(k, op, k')
  {
    SameStill(k1, k');
  }

  lemma EnteringKept(k: Kernel, op: Op)
    requires Good(k) && Coded(k) && Enabled(k, op)
    requires op.CallSleep? || op.CallRecvtime?
    ensures TimesKept(k, op, Apply(k, op))
  {
    hide Placed, SemLaw, NullRuns, LegalPriorities, SortedBy, ContextInv, InsertPos, Coded, OnlyCur;
    SleepRefl(k);
    SameKept(k, op, k);
    match op
    case CallSleep(ms) =>
      var d := SleepTicks(ms);
      SleepTicksSmall(ms);
      if d > 0 {
        AsleepTimes(k, d, Sleep);
        AsleepKeeps(k, d, Sleep);
        ReschedSleep(Asleep(k, d, Sleep));
        KeptThen(k, op, Asleep(k, d, Sleep), Apply(k, op));
      } else {
        ReschedSleep(k);
        KeptThen(k, op, k, Apply(k, op));
      }
    case CallRecvtime(maxwait) =>
      if maxwait >= 0 && !k.thr[k.cur].hasmsg {
        RecvtimeKept(k, maxwait);
      } else if maxwait >= 0 {
        assert SleepSame(k, TakeMessage(k));
        SameKept(k, op, TakeMessage(k));
      }
  }

  lemma RecvtimeKept(k: Kernel, maxwait: int)
    requires Good(k) && Coded(k) && Enabled(k, CallRecvtime(maxwait)) && maxwait >= 0 && !k.thr[k.cur].hasmsg
    ensures TimesKept(k, CallRecvtime(maxwait), RecvtimeBegin(k, maxwait))
  {
    hide Placed, SemLaw, NullRuns, LegalPriorities, SortedBy, ContextInv, InsertPos, OnlyCur;
    var k1 := Asleep(k, maxwait, Tmout);
    AsleepTimes(k, maxwait, Tmout);
    AsleepKeeps(k, maxwait, Tmout);
    var k2 := WithContext(k1, k.cur, InRecvtime);
    ContextKeeps(k1, k.cur, InRecvtime, -1);
    SleepRefl(k1);
    assert SleepSame(k1, k2);
    ReschedSleep(k2);
    SleepTrans(k1, k2, Resched(k2));
    KeptThen(k, CallRecvtime(maxwait), k1, Resched(k2));
  }

  lemma SleepTicksSmall(ms: nat)
    ensures 0 <= SleepTicks(ms) <= 4294967
  {
  }

  lemma SendKept(k: Kernel, t: int, msg: int, op: Op)
    requires Inv(k) && Coded(k)
    requires !k.BadTid(t) && k.thr[t].state.Tmout? ==> TakesOut(k, op, t)
    ensures TimesKept(k, op, Send(k, t, msg))
  {
    hide SemLaw, NullRuns, LegalPriorities, SortedBy, InsertPos, OnlyCur, Coded;
    SleepRefl(k);
    var k' := Send(k, t, msg);
    if !Accepts(k, t) {
      SameKept(k, op, k');
    } else {
      var k1 := Deposit(k, t, msg);
      CoreFrame(k, k1, -1);
      assert SleepSame(k, k1);
      SameKept(k, op, k1);
      if k.thr[t].state.Recv? {
        Lift(k1, t);
        ReadyReschedSleep(k1, t);
        KeptThen(k, op, k1, k');
      } else if k.thr[t].state.Tmout? {
        assert Home(k1, t) == k1.S();
        AwokenKeeps(k1, t);
        AwokenKept(k, op, k1, t);
        ReadyReschedSleep(Awoken(k1, t), t);
        KeptThen(k, op, Awoken(k1, t), k');
      }
    }
  }

  lemma AwokenKept(k: Kernel, op: Op, k1: Kernel, t: int)
    requires Shape(k) && Core(k1) && SameSize(k, k1) && SleepSame(k, k1) && TimesKept(k, op, k1)
    requires t in k1.q[k1.S()] && TakesOut(k, op, t)
    ensures TimesKept(k, op, Awoken(k1, t))
  {
    AwokenTimes(k1, t);
    SameStill(k, k1);
  }

  lemma KillCallKept(k: Kernel, op: Op)
    requires Good(k) && Coded(k) && Enabled(k, op) && op.CallKill?
    ensures TimesKept(k, op, KillBegin(k, op.tid))
  {
    hide SemLaw, NullRuns, LegalPriorities, SortedBy, InsertPos, OnlyCur, Coded, Send;
    SleepRefl(k);
    var t := op.tid;
    if k.BadTid(t) || t == NULLTHREAD || k.thrcount - 1 <= 1 {
      SameKept(k, op, KillBegin(k, t));
    } else {
      var k1 := WithContext(k.(thrcount := k.thrcount - 1), k.cur, InKill(t));
      CoreFrame(k, k1, -1);
      assert SleepSame(k, k1);
      SameStill(k, k1);
      SendKept(k1, k.thr[t].parent, t, op);
    }
  }

  lemma KillReturnsKept(k: Kernel)
    requires Good(k) && Coded(k) && Enabled(k, KillReturns)
    ensures TimesKept(k, KillReturns, KillEnd(k))
  {
    hide SemLaw, NullRuns, LegalPriorities, SortedBy, InsertPos, OnlyCur, Coded, Remove;
    SleepRefl(k);
    assert ContextFits(k.thr[k.cur], k.pc[k.cur], |k.thr|);
    var k1, v := WithContext(k, k.cur, Running), k.pc[k.cur].victim;
    ContextKeeps(k, k.cur, Running, -1);
    assert SleepSame(k, k1);
    SameKept(k, KillReturns, k1);
    RemoveKept(k, KillReturns, k1, v);
  }

  lemma KillKept(k: Kernel, op: Op)
    requires Good(k) && Coded(k) && Enabled(k, op) && (op.CallKill? || op.KillReturns?)
    ensures TimesKept(k, op, Apply(k, op))
  {
    hide SemLaw, NullRuns, LegalPriorities, SortedBy, Placed, OnlyCur, ContextInv, Coded, TimesKept, KillBegin, KillEnd;
    if op.CallKill? { KillCallKept(k, op); } else { KillReturnsKept(k); }
  }

  lemma RemoveKept(k: Kernel, op: Op, k1: Kernel, v: int)
    requires Shape(k) && Inv(k1) && SameSize(k, k1) && SleepSame(k, k1) && TimesKept(k, op, k1)
    requires 0 < v < |k1.thr| && TakesOut(k, op, v) && !k1.thr[v].state.Tmout?
    ensures TimesKept(k, op, Remove(k1, v))
  {
    hide SemLaw, NullRuns, LegalPriorities, SortedBy, InsertPos, OnlyCur, Coded, SleepSame, TimesKept;
    var k' := Remove(k1, v);
    var st := k1.thr[v].state;
    if st.Sleep? {
      assert Home(k1, v) == k1.S();
      AwokenKept(k, op, k1, v);
      AwokenKeeps(k1, v);
      StateSleep(Awoken(k1, v), v, k');
      KeptThen(k, op, Awoken(k1, v), k');
    } else {
      NotAsleep(k1, v);
      if st.Curr? {
        Lift(k1, v);
        Settle(k1, v, Free);
        StateSleep(k1, v, WithState(k1, v, Free));
        ReschedSleep(WithState(k1, v, Free));
        SleepTrans(k1, WithState(k1, v, Free), k');
      } else {
        StateSleep(k1, v, k');
      }
      KeptThen(k, op, k1, k');
    }
  }

  lemma LifeSleep(k: Kernel, op: Op)
    requires Good(k) && Enabled(k, op)
    requires op.CallCreate? || op.CallReady? || op.CallResume? || op.CallSuspend? || op.CallYield? || op.CallChprio?
    ensures SleepSame(k, Apply(k, op))
  {
    hide SemLaw, NullRuns, LegalPriorities, SortedBy, InsertPos, OnlyCur, ContextInv, SleepSame;
    var k' := Apply(k, op);
    SleepRefl(k);
    match op
    case CallCreate(t, _) => NotAsleep(k, t); StateSleep(k, t, k');
    case CallReady(t) =>
      if !k.BadTid(t) { NotAsleep(k, t); MakeReadySleep(k, t); }
    case CallResume(t) =>
      if !k.BadTid(t) && k.thr[t].state.Susp? { Lift(k, t); ReadyReschedSleep(k, t); }
    case CallSuspend(t) => SuspendSleep(k, t);
    case CallYield => ReschedSleep(k);
    case CallChprio(_, _) => NotAsleep(k, k.cur); StateSleep(k, k.cur, k');
  }

  lemma SuspendSleep(k: Kernel, t: int)
    requires Inv(k)
    ensures SleepSame(k, Suspend(k, t))
  {
    hide SemLaw, NullRuns, LegalPriorities, SortedBy, InsertPos, OnlyCur, SleepSame;
    SleepRefl(k);
    if !k.BadTid(t) && t != NULLTHREAD {
      if k.thr[t].state.Ready? {
        NotAsleep(k, t);
        StateSleep(k, t, Suspend(k, t));
      } else if k.thr[t].state.Curr? {
        NotAsleep(k, t);
        var k1 := WithState(k, t, Susp);
        StateSleep(k, t, k1);
        Lift(k, t);
        Settle(k, t, Susp);
        ReschedSleep(k1);
        SleepTrans(k, k1, Resched(k1));
      }
    }
  }

  lemma ReceiveSleep(k: Kernel, op: Op)
    requires Good(k) && Enabled(k, op)
    requires op.CallReceive? || op.ReceiveReturns? || op.RecvtimeReturns? || op.CallRecvclr?
    ensures SleepSame(k, Apply(k, op))
  {
    hide SemLaw, NullRuns, LegalPriorities, SortedBy, InsertPos, OnlyCur, ContextInv, SleepSame;
    var k' := Apply(k, op);
    NotAsleep(k, k.cur);
    if op.CallReceive? && !k.thr[k.cur].hasmsg {
      Lift(k, k.cur);
      Settle(k, k.cur, Recv);
      ContextKeeps(WithState(k, k.cur, Recv), k.cur, InReceive, -1);
      var k1 := WithContext(WithState(k, k.cur, Recv), k.cur, InReceive);
      StateSleep(k, k.cur, k1);
      ReschedSleep(k1);
      SleepTrans(k, k1, k');
    } else {
      StateSleep(k, k.cur, k');
    }
  }

  /** No step but a tick changes the remaining time of a sleeper that it does not take out. */
  lemma StepKept(k: Kernel, op: Op)
    requires Good(k) && Coded(k) && Enabled(k, op) && !op.Tick?
    ensures TimesKept(k, op, Apply(k, op))
  {
    hide Placed, SemLaw, NullRuns, LegalPriorities, SortedBy, OnlyCur, ContextInv, Coded, TimesKept, Apply;
    if op.CallSleep? || op.CallRecvtime? { EnteringKept(k, op); }
    else if op.CallSend? { SendStepKept(k, op); }
    else if op.CallKill? || op.KillReturns? { KillKept(k, op); }
    else {
      if op.CallReceive? || op.ReceiveReturns? || op.RecvtimeReturns? || op.CallRecvclr? { ReceiveSleep(k, op); }
      else if op.CallCreate? || op.CallReady? || op.CallResume? || op.CallSuspend? || op.CallYield? || op.CallChprio? { LifeSleep(k, op); }
      else { SemaphoreSleep(k, op); }
      SameKept(k, op, Apply(k, op));
    }
  }

  lemma SendStepKept(k: Kernel, op: Op)
    requires Good(k) && Coded(k) && Enabled(k, op) && op.CallSend?
    ensures TimesKept(k, op, Apply(k, op))
  {
    SendKept(k, op.tid, op.msg, op);
  }

  /** What a tick takes off every remaining time: one, unless the first sleeper has none left. */
  ghost function Lowering(k: Kernel): int
    requires Shape(k)
  {
    if HeadPositive(k) then 1 else 0
  }

  lemma TickWakes(k: Kernel)
    requires Inv(k) && Coded(k) && k.q[k.S()] != []
    ensures var k' := Wakeup(Ticked(k));
      && Inv(k') && Timed(k')
      && (forall t :: t in k'.q[k.S()] <==> t in k.q[k.S()] && Left(k, t) > Lowering(k))
      && (forall t :: t in k'.q[k.S()] ==> Left(k', t) == Left(k, t) - Lowering(k))
  {
    hide Placed, SemLaw, NullRuns, LegalPriorities, SortedBy, OnlyCur, Coded, Left, Wakeup, Ticked;
    if HeadPositive(k) { TickLowers(k); } else { TickStalls(k); }
  }

  /** A tick, rescheduling included. */
  lemma TickStep(k: Kernel)
    requires Good(k) && Coded(k)
    ensures var k', d := ClockTick(k), Lowering(k);
      && Timed(k')
      && (forall t :: t in k.q[k.S()] && Left(k, t) > d ==>
            && t in k'.q[k.S()] && Left(k', t) == Left(k, t) - d
            && 0 <= t < |k.thr| && k'.thr[t].state == k.thr[t].state)
      && (forall t :: t in k.q[k.S()] && Left(k, t) <= d ==>
            0 <= t < |k.thr| && (k'.thr[t].state.Ready? || k'.thr[t].state.Curr?))
  {
    hide Placed, SemLaw, NullRuns, LegalPriorities, SortedBy, OnlyCur, InsertPos, ContextInv, Coded, Left;
    if k.q[k.S()] == [] {
      ReschedSleep(k);
      SameStill(k, Resched(k));
    } else {
      var k1, d := Wakeup(Ticked(k)), Lowering(k);
      TickWakes(k);
      ReschedSleep(k1);
      SameStill(k1, Resched(k1));
      forall t | t in k.q[k.S()] && Left(k, t) <= d
        ensures 0 <= t < |k.thr| && (Resched(k1).thr[t].state.Ready? || Resched(k1).thr[t].state.Curr?)
      {
        WokenRuns(k, t);
      }
      forall t | t in k.q[k.S()] && Left(k, t) > d
        ensures t in Resched(k1).q[k.S()] && Left(Resched(k1), t) == Left(k, t) - d
        ensures 0 <= t < |k.thr| && Resched(k1).thr[t].state == k.thr[t].state
      {
        assert StillAsleep(k1, Resched(k1), t);
        SleeperState(k, t);
      }
    }
  }

  /** A sleeper that a tick left in the queue is in the state it was in. */
  lemma SleeperState(k: Kernel, t: int)
    requires Inv(k) && t in k.q[k.S()] && t in Wakeup(Ticked(k)).q[k.S()]
    ensures 0 <= t < |k.thr| && Resched(Wakeup(Ticked(k))).thr[t].state == k.thr[t].state
  {
    hide SemLaw, NullRuns, LegalPriorities, SortedBy, OnlyCur, InsertPos, Resched, Wakeup;
    var k0 := Ticked(k);
    var k1 := Wakeup(k0);
    TickedKeeps(k);
    WakeupKeeps(k0);
    WakeupWakes(k0);
    ReschedSleep(k1);
    SameStill(k1, Resched(k1));
    assert Home(k, t) == k.S() && Home(k1, t) == k.S();
    assert Woke(k0.thr[t], k1.thr[t]);
    assert StillAsleep(k1, Resched(k1), t);
  }

  /** A sleeper that a tick took out of the queue is ready or running. */
  lemma WokenRuns(k: Kernel, t: int)
    requires Inv(k) && t in k.q[k.S()] && t !in Wakeup(Ticked(k)).q[k.S()]
    ensures var k' := Resched(Wakeup(Ticked(k)));
      0 <= t < |k.thr| && (k'.thr[t].state.Ready? || k'.thr[t].state.Curr?)
  {
    hide SemLaw, NullRuns, LegalPriorities, SortedBy, OnlyCur, InsertPos;
    var k0 := Ticked(k);
    var k1 := Wakeup(k0);
    TickedKeeps(k);
    WakeupKeeps(k0);
    WakeupWakes(k0);
    ReschedWakes(k1);
    assert Home(k, t) == k.S();
    assert Woke(k0.thr[t], k1.thr[t]) && Woke(k1.thr[t], Resched(k1).thr[t]);
    assert Home(k1, t) != k.S();
  }

  // ---------- the first sleeper ----------

  /** A zero timeout puts its caller, with nothing left, at the head. */
  lemma ZeroAtHead(k: Kernel)
    requires Good(k) && Timed(k) && Enabled(k, CallRecvtime(0)) && !k.thr[k.cur].hasmsg
    ensures !HeadPositive(RecvtimeBegin(k, 0)) && RecvtimeBegin(k, 0).q[k.S()] == [k.cur] + k.q[k.S()]
  {
    hide Placed, SemLaw, NullRuns, LegalPriorities, SortedBy, ContextInv, OnlyCur, Coded, Resched;
    var s := k.q[k.S()];
    assert Below(s, |k.key|);
    var k1 := Asleep(k, 0, Tmout);
    AsleepKeeps(k, 0, Tmout);
    CurrentAwake(k);
    DeltaAtHead(k.key, s, k.cur, 0);
    var k2 := WithContext(k1, k.cur, InRecvtime);
    ContextKeeps(k1, k.cur, InRecvtime, -1);
    ReschedSleep(k2);
  }

  lemma CurrentAwake(k: Kernel)
    requires Inv(k)
    ensures k.cur !in k.q[k.S()] && NoDup(k.q[k.S()])
  {
    NotAsleep(k, k.cur);
  }

  /**
   The exact condition: from a state whose first sleeper has time left, a step
   leads to a state whose first sleeper has none if and only if it is a
   `recvtime(0)` that finds no message.
   */
  lemma HeadStaysPositive(k: Kernel, op: Op)
    requires Good(k) && Timed(k) && Enabled(k, op)
    ensures Coded(Apply(k, op)) && (HeadPositive(Apply(k, op)) <==> !ZeroTimeout(k, op))
  {
    hide Placed, SemLaw, NullRuns, LegalPriorities, SortedBy, OnlyCur, ContextInv, Coded, HeadPositive, ClockTick, RecvtimeBegin;
    if op.Tick? {
      TickStep(k);
    } else {
      StepKept(k, op);
      if ZeroTimeout(k, op) { ZeroAtHead(k); }
    }
  }

  lemma StepCoded(k: Kernel, op: Op)
    requires Good(k) && Coded(k) && Enabled(k, op)
    ensures Coded(Apply(k, op)) && (op.Tick? ==> HeadPositive(Apply(k, op)))
    ensures HeadPositive(k) && !ZeroTimeout(k, op) ==> HeadPositive(Apply(k, op))
  {
    hide Placed, SemLaw, NullRuns, LegalPriorities, SortedBy, OnlyCur, ContextInv, Coded, HeadPositive, ClockTick;
    if op.Tick? { TickStep(k); } else { StepKept(k, op); }
  }

  // ---------- whole runs ----------

  lemma BootTimed(k: Kernel)
    requires Booted(k)
    ensures Good(k) && Timed(k)
  {
    BootGood(k);
  }

  /** In every state of every run from boot no delta is negative and no remaining time too large. */
  lemma {:induction false} AlwaysCoded(ks: seq<Kernel>, ops: seq<Op>, i: nat)
    requires Run(ks, ops) && Booted(ks[0]) && i < |ks|
    ensures Good(ks[i]) && Coded(ks[i]) && SameSize(ks[0], ks[i])
  {
    hide Placed, SemLaw, NullRuns, LegalPriorities, SortedBy, OnlyCur, ContextInv, Coded, Apply, HeadPositive;
    BootTimed(ks[0]);
    RunGood(ks, ops, i);
    if i > 0 {
      AlwaysCoded(ks, ops, i - 1);
      assert Step(ks[i - 1], ops[i - 1], ks[i]);
      StepCoded(ks[i - 1], ops[i - 1]);
    }
  }

  /** In every run from boot in which every `recvtime(0)` finds a message, the first sleeper always has time left. */
  lemma {:induction false} AlwaysTimed(ks: seq<Kernel>, ops: seq<Op>, i: nat)
    requires Run(ks, ops) && Booted(ks[0]) && i < |ks|
    requires forall j :: 0 <= j < i ==> !ZeroTimeout(ks[j], ops[j])
    ensures Good(ks[i]) && Timed(ks[i])
  {
    hide Placed, SemLaw, NullRuns, LegalPriorities, SortedBy, OnlyCur, ContextInv, Coded, Apply, HeadPositive;
    BootTimed(ks[0]);
    AlwaysCoded(ks, ops, i);
    if i > 0 {
      AlwaysTimed(ks, ops, i - 1);
      assert Step(ks[i - 1], ops[i - 1], ks[i]);
      StepCoded(ks[i - 1], ops[i - 1]);
    }
  }

  /** The first sleeper has time left all along if and only if every `recvtime(0)` finds a message. */
  lemma TimedExactly(ks: seq<Kernel>, ops: seq<Op>, i: nat)
    requires Run(ks, ops) && Booted(ks[0]) && i < |ks|
    ensures (forall j :: 0 <= j <= i ==> Shape(ks[j]) && HeadPositive(ks[j])) <==> (forall j :: 0 <= j < i ==> !ZeroTimeout(ks[j], ops[j]))
  {
    hide Placed, SemLaw, NullRuns, LegalPriorities, SortedBy, OnlyCur, ContextInv, Coded, Apply, HeadPositive, ZeroTimeout;
    if forall j :: 0 <= j < i ==> !ZeroTimeout(ks[j], ops[j]) {
      forall j | 0 <= j <= i ensures Shape(ks[j]) && HeadPositive(ks[j]) { AlwaysTimed(ks, ops, j); }
    } else {
      var j :| 0 <= j < i && ZeroTimeout(ks[j], ops[j]);
      AlwaysCoded(ks, ops, j);
      AlwaysCoded(ks, ops, j + 1);
      assert Step(ks[j], ops[j], ks[j + 1]);
      if HeadPositive(ks[j]) { HeadStaysPositive(ks[j], ops[j]); }
    }
  }

  /** The ticks among the steps from a up to b. */
  function Ticks(ops: seq<Op>, a: nat, b: nat): nat
    requires a <= b <= |ops|
    decreases b
  {
    if a == b then 0 else Ticks(ops, a, b - 1) + (if ops[b - 1].Tick? then 1 else 0)
  }

  /** A tick that finds a first sleeper without time left. */
  ghost predicate Stalls(k: Kernel, op: Op) {
    op.Tick? && Shape(k) && !HeadPositive(k)
  }

  /** Those of the ticks that stall. */
  ghost function Late(ks: seq<Kernel>, ops: seq<Op>, a: nat, b: nat): nat
    requires a <= b <= |ops| <= |ks|
    decreases b
  {
    if a == b then 0 else Late(ks, ops, a, b - 1) + (if Stalls(ks[b - 1], ops[b - 1]) then 1 else 0)
  }

  /** The zero timeouts among the steps before b. */
  ghost function Zeros(ks: seq<Kernel>, ops: seq<Op>, b: nat): nat
    requires b <= |ops| <= |ks|
    decreases b
  {
    if b == 0 then 0 else Zeros(ks, ops, b - 1) + (if ZeroTimeout(ks[b - 1], ops[b - 1]) then 1 else 0)
  }

  /** Every zero timeout makes at most one tick stall, and nothing else does. */
  lemma {:induction false} LateBound(ks: seq<Kernel>, ops: seq<Op>, i: nat)
    requires Run(ks, ops) && Booted(ks[0]) && i < |ks|
    ensures Good(ks[i]) && Late(ks, ops, 0, i) + (if HeadPositive(ks[i]) then 0 else 1) <= Zeros(ks, ops, i)
  {
    hide Placed, SemLaw, NullRuns, LegalPriorities, SortedBy, OnlyCur, ContextInv, Coded, Apply, HeadPositive, ZeroTimeout;
    BootTimed(ks[0]);
    AlwaysCoded(ks, ops, i);
    if i > 0 {
      LateBound(ks, ops, i - 1);
      AlwaysCoded(ks, ops, i - 1);
      assert Step(ks[i - 1], ops[i - 1], ks[i]);
      StepCoded(ks[i - 1], ops[i - 1]);
    }
  }

  lemma ApplyTick(k: Kernel)
    requires Shape(k) && Enabled(k, Tick)
    ensures Apply(k, Tick) == ClockTick(k)
  {
    hide ClockTick;
  }

  /** One step of a sleeper that is not taken out: a tick costs it one unit, unless it stalls; any other step none. */
  lemma SleeperStep(k: Kernel, op: Op, t: int)
    requires Good(k) && Coded(k) && Enabled(k, op)
    requires t in k.q[k.S()] && !TakesOut(k, op, t)
    ensures var k', d := Apply(k, op), if op.Tick? then Lowering(k) else 0;
      && 0 <= t < |k.thr|
      && (Left(k, t) > d || !op.Tick? ==> t in k'.q[k.S()] && Left(k', t) == Left(k, t) - d && k'.thr[t].state == k.thr[t].state)
      && (Left(k, t) <= d && op.Tick? ==> k'.thr[t].state.Ready? || k'.thr[t].state.Curr?)
  {
    hide Placed, SemLaw, NullRuns, LegalPriorities, SortedBy, OnlyCur, ContextInv, HeadPositive, Apply, ClockTick, TakesOut, Left;
    if op.Tick? {
      TickStep(k);
      assert Apply(k, op) == ClockTick(k) by { ApplyTick(k); }
    } else {
      StepKept(k, op);
      assert StillAsleep(k, Apply(k, op), t);
    }
  }

  /** A remaining time is not negative, and it is 0 only if the first sleeper's is. */
  lemma LeftPositive(k: Kernel, t: int)
    requires Shape(k) && Coded(k) && t in k.q[k.S()]
    ensures Left(k, t) >= Lowering(k) && 0 <= t < |k.thr|
    ensures Left(k, t) == 0 ==> !HeadPositive(k)
  {
    assert Below(k.q[k.S()], |k.key|);
    RemainingNonNegative(k.key, k.q[k.S()], t);
    assert k.q[k.S()][IndexOf(k.q[k.S()], t)] == t;
  }

  /** After this many ticks, of which so many stalled, a sleep of r ticks is over. */
  predicate Due(r: int, ticks: int, late: int) {
    ticks > 0 && ticks - late >= r
  }

  /**
   Wake-up in every run from boot, zero timeouts included: a sleeper with r
   ticks left in state a that is not taken out early sleeps on, its time going
   down by one per tick that does not stall; the tick that makes it ready is
   the one whose number is r plus the number of ticks that stalled.
   */
  lemma {:induction false} LateWakeup(ks: seq<Kernel>, ops: seq<Op>, a: nat, i: nat, t: int)
    requires Run(ks, ops) && Booted(ks[0]) && a <= i < |ks| && Shape(ks[a]) && t in ks[a].q[ks[a].S()]
    requires forall j :: a <= j < i ==> Shape(ks[j]) && !TakesOut(ks[j], ops[j], t)
    ensures var r, n, late, k := Left(ks[a], t), Ticks(ops, a, i), Late(ks, ops, a, i), ks[i];
      && Good(k) && Coded(k) && 0 <= t < |k.thr| && t < |ks[a].thr|
      && (!Due(r, n, late) ==> t in k.q[k.S()] && Left(k, t) == r - (n - late) && k.thr[t].state == ks[a].thr[t].state)
      && (a < i && Due(r, n, late) && !Due(r, Ticks(ops, a, i - 1), Late(ks, ops, a, i - 1)) ==>
            && n == r + late && ops[i - 1].Tick?
            && (k.thr[t].state.Ready? || k.thr[t].state.Curr?))
  {
    hide Placed, SemLaw, NullRuns, LegalPriorities, SortedBy, OnlyCur, ContextInv, Coded, Apply, TakesOut, Left, HeadPositive;
    AlwaysCoded(ks, ops, i);
    AlwaysCoded(ks, ops, a);
    LeftPositive(ks[a], t);
    if a < i {
      LateWakeup(ks, ops, a, i - 1, t);
      assert Step(ks[i - 1], ops[i - 1], ks[i]);
      if !Due(Left(ks[a], t), Ticks(ops, a, i - 1), Late(ks, ops, a, i - 1)) {
        SleeperStep(ks[i - 1], ops[i - 1], t);
        LeftPositive(ks[i - 1], t);
      }
    }
  }

  lemma {:induction false} NeverLate(ks: seq<Kernel>, ops: seq<Op>, a: nat, i: nat)
    requires Run(ks, ops) && Booted(ks[0]) && a <= i < |ks|
    requires forall j :: 0 <= j < i ==> !ZeroTimeout(ks[j], ops[j])
    ensures Late(ks, ops, a, i) == 0
  {
    hide CoreExcept, ContextInv, Coded, HeadPositive, ZeroTimeout;
    if a < i {
      NeverLate(ks, ops, a, i - 1);
      AlwaysTimed(ks, ops, i - 1);
    }
  }

  /**
   Exact wake-up: in every run from boot in which every `recvtime(0)` finds a
   message, a sleeper with r ticks left that is not taken out early sleeps on
   until the r-th tick, which makes it ready (or at once running).
   */
  lemma ExactWakeup(ks: seq<Kernel>, ops: seq<Op>, a: nat, i: nat, t: int)
    requires Run(ks, ops) && Booted(ks[0]) && a <= i < |ks| && Shape(ks[a]) && t in ks[a].q[ks[a].S()]
    requires forall j :: 0 <= j < i ==> !ZeroTimeout(ks[j], ops[j])
    requires forall j :: a <= j < i ==> Shape(ks[j]) && !TakesOut(ks[j], ops[j], t)
    ensures var r, n, k := Left(ks[a], t), Ticks(ops, a, i), ks[i];
      && Good(k) && 0 <= t < |k.thr| && t < |ks[a].thr| && r > 0
      && (n < r ==> t in k.q[k.S()] && Left(k, t) == r - n && k.thr[t].state == ks[a].thr[t].state)
      && (n == r && ops[i - 1].Tick? ==> k.thr[t].state.Ready? || k.thr[t].state.Curr?)
  {
    hide CoreExcept, ContextInv, Coded, TakesOut, Left, HeadPositive, ZeroTimeout;
    LateWakeup(ks, ops, a, i, t);
    NeverLate(ks, ops, a, i);
    AlwaysTimed(ks, ops, a);
    LeftPositive(ks[a], t);
    if a < i { NeverLate(ks, ops, a, i - 1); }
  }

  /** In 32-bit arithmetic the sleep lasts as long as was asked for exactly up to 4294967 ms. */
  lemma SleepTicksExact(ms: nat)
    requires ms < 0x1_0000_0000
    ensures SleepTicks(ms) == ms <==> ms <= 4294967
  {
    if ms > 4294967 { SleepTicksSmall(ms); }
  }

  /** `sleep(ms)` puts its caller to sleep for exactly ms ticks. */
  lemma SleepEnters(k: Kernel, ms: nat)
    requires Good(k) && Coded(k) && Enabled(k, CallSleep(ms)) && 1 <= ms <= 4294967
    ensures var k' := SleepFor(k, ms);
      k.cur in k'.q[k'.S()] && Left(k', k.cur) == ms && k'.thr[k.cur].state.Sleep?
  {
    hide Placed, SemLaw, NullRuns, LegalPriorities, SortedBy, OnlyCur, ContextInv, InsertPos, DeltaPos, Coded;
    SleepTicksExact(ms);
    var k1 := Asleep(k, ms, Sleep);
    AsleepTimes(k, ms, Sleep);
    AsleepKeeps(k, ms, Sleep);
    ReschedSleep(k1);
    SameStill(k1, Resched(k1));
    assert StillAsleep(k1, Resched(k1), k.cur);
  }

  lemma SleepStep(k: Kernel, ms: nat, k': Kernel)
    requires Good(k) && Coded(k) && Step(k, CallSleep(ms), k') && 1 <= ms <= 4294967
    ensures Shape(k') && k.cur in k'.q[k'.S()] && Left(k', k.cur) == ms && k'.thr[k.cur].state.Sleep?
  {
    hide CoreExcept, ContextInv, Coded, SleepFor;
    SleepEnters(k, ms);
  }

  /**
   In every run from boot, a thread whose (a+1)-st step is `sleep(ms)`, 1 <= ms
   <= 4294967, and that is not killed stays in the sleep queue until tick ms
   plus the number of stalled ticks after the call, and is made ready by it,
   whatever else runs in between.
   */
  lemma SleepEndsLate(ks: seq<Kernel>, ops: seq<Op>, a: nat, i: nat, ms: nat)
    requires Run(ks, ops) && Booted(ks[0]) && a < i < |ks| && ops[a] == CallSleep(ms) && 1 <= ms <= 4294967
    requires forall j :: a < j < i ==> Shape(ks[j]) && !TakesOut(ks[j], ops[j], ks[a].cur)
    ensures var t, n, late, k := ks[a].cur, Ticks(ops, a + 1, i), Late(ks, ops, a + 1, i), ks[i];
      && 0 <= t < |k.thr| && |k.q| == |k.sem| + 2
      && (n < ms + late ==> k.thr[t].state.Sleep? && t in k.q[k.S()])
      && (n == ms + late && ops[i - 1].Tick? && HeadPositive(ks[i - 1]) ==> k.thr[t].state.Ready? || k.thr[t].state.Curr?)
  {
    hide CoreExcept, ContextInv, Coded, TakesOut, Left, HeadPositive, Apply, Booted;
    AlwaysCoded(ks, ops, a);
    assert Step(ks[a], ops[a], ks[a + 1]);
    SleepStep(ks[a], ms, ks[a + 1]);
    LateWakeup(ks, ops, a + 1, i, ks[a].cur);
    if a + 1 < i && ops[i - 1].Tick? { assert Ticks(ops, a + 1, i) == Ticks(ops, a + 1, i - 1) + 1; }
  }

  /** The same without zero timeouts: the thread becomes ready at exactly the ms-th tick. */
  lemma SleepEndsOnTime(ks: seq<Kernel>, ops: seq<Op>, a: nat, i: nat, ms: nat)
    requires Run(ks, ops) && Booted(ks[0]) && a < i < |ks| && ops[a] == CallSleep(ms) && 1 <= ms <= 4294967
    requires forall j :: 0 <= j < i ==> !ZeroTimeout(ks[j], ops[j])
    requires forall j :: a < j < i ==> Shape(ks[j]) && !TakesOut(ks[j], ops[j], ks[a].cur)
    ensures var t, n, k := ks[a].cur, Ticks(ops, a + 1, i), ks[i];
      && 0 <= t < |k.thr| && |k.q| == |k.sem| + 2
      && (n < ms ==> k.thr[t].state.Sleep? && t in k.q[k.S()])
      && (n == ms && ops[i - 1].Tick? ==> k.thr[t].state.Ready? || k.thr[t].state.Curr?)
  {
    hide CoreExcept, ContextInv, Coded, TakesOut, HeadPositive, ZeroTimeout;
    SleepEndsLate(ks, ops, a, i, ms);
    NeverLate(ks, ops, a + 1, i);
    AlwaysTimed(ks, ops, i - 1);
  }

  // ---------- timed receives ----------

  /** `recvtime(m)` without a message puts its caller into a timed receive of exactly m ticks. */
  lemma RecvtimeEnters(k: Kernel, maxwait: int)
    requires Good(k) && Coded(k) && Enabled(k, CallRecvtime(maxwait)) && maxwait >= 0 && !k.thr[k.cur].hasmsg
    ensures var k' := RecvtimeBegin(k, maxwait);
      && k.cur in k'.q[k'.S()] && Left(k', k.cur) == maxwait && k'.thr[k.cur].state.Tmout? && k'.cur != k.cur
      && k'.pc == k.pc[k.cur := InRecvtime] && !k'.thr[k.cur].hasmsg
  {
    hide Placed, SemLaw, NullRuns, LegalPriorities, SortedBy, OnlyCur, ContextInv, InsertPos, DeltaPos, Coded, Resched;
    var k1 := Asleep(k, maxwait, Tmout);
    AsleepTimes(k, maxwait, Tmout);
    AsleepKeeps(k, maxwait, Tmout);
    var k2 := WithContext(k1, k.cur, InRecvtime);
    ContextKeeps(k1, k.cur, InRecvtime, -1);
    SleepRefl(k1);
    assert SleepSame(k1, k2);
    SameStill(k1, k2);
    assert StillAsleep(k1, k2, k.cur);
    ReschedSleep(k2);
    SameStill(k2, Resched(k2));
    assert StillAsleep(k2, Resched(k2), k.cur);
    ReschedKeeps(k2);
    ReschedWakes(k2);
    assert Woke(k2.thr[k.cur], Resched(k2).thr[k.cur]);
  }

  lemma RecvtimeStep(k: Kernel, maxwait: int, k': Kernel)
    requires Good(k) && Coded(k) && Step(k, CallRecvtime(maxwait), k') && maxwait >= 0 && !k.thr[k.cur].hasmsg
    ensures Shape(k') && k.cur in k'.q[k'.S()] && Left(k', k.cur) == maxwait && k'.thr[k.cur].state.Tmout?
    ensures k'.pc == k.pc[k.cur := InRecvtime] && !k'.thr[k.cur].hasmsg
  {
    hide Placed, SemLaw, NullRuns, LegalPriorities, SortedBy, OnlyCur, ContextInv, Coded, RecvtimeBegin;
    RecvtimeEnters(k, maxwait);
  }

  /**
   In every run from boot, a thread that calls `recvtime(m)` without a message,
   and that no message reaches and nobody kills, is in its timed receive until
   tick m plus the number of stalled ticks (for m = 0: until the first tick), and
   is made ready by that tick.
   */
  lemma RecvtimeEndsLate(ks: seq<Kernel>, ops: seq<Op>, a: nat, i: nat, maxwait: int)
    requires Run(ks, ops) && Booted(ks[0]) && a < i < |ks| && ops[a] == CallRecvtime(maxwait) && maxwait >= 0
    requires Shape(ks[a]) && !ks[a].thr[ks[a].cur].hasmsg
    requires forall j :: a < j < i ==> Shape(ks[j]) && !TakesOut(ks[j], ops[j], ks[a].cur)
    ensures var t, n, late, k := ks[a].cur, Ticks(ops, a + 1, i), Late(ks, ops, a + 1, i), ks[i];
      && 0 <= t < |k.thr| && |k.q| == |k.sem| + 2
      && (!Due(maxwait, n, late) ==> k.thr[t].state.Tmout? && t in k.q[k.S()])
      && (a + 1 < i && Due(maxwait, n, late) && !Due(maxwait, Ticks(ops, a + 1, i - 1), Late(ks, ops, a + 1, i - 1)) ==>
            n == maxwait + late && (k.thr[t].state.Ready? || k.thr[t].state.Curr?))
  {
    hide CoreExcept, ContextInv, Coded, TakesOut, Left, HeadPositive;
    AlwaysCoded(ks, ops, a);
    assert Step(ks[a], ops[a], ks[a + 1]);
    RecvtimeStep(ks[a], maxwait, ks[a + 1]);
    LateWakeup(ks, ops, a + 1, i, ks[a].cur);
  }
}
