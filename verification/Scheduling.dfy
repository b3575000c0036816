/**
 Who runs next and who is released first: priorities, round robin among equal
 priorities, and first-come-first-served semaphores.
 */
module Scheduling {
  import opened Queues
  import opened QueueTables
  import opened KernelState
  import opened KernelInvariant
  import opened KernelRuns
  import S = Semaphores

  // ---------- priorities ----------

  /** Every ready thread is queued under its present priority. */
  ghost predicate Fresh(k: Kernel)
    requires Shape(k)
  {
    forall t :: 0 <= t < |k.thr| && k.thr[t].state.Ready? ==> k.key[t] == k.thr[t].prio
  }

  /** The running thread has a priority at least that of every ready thread. */
  ghost predicate TopRuns(k: Kernel)
    requires Shape(k)
  {
    forall t :: 0 <= t < |k.thr| && k.thr[t].state.Ready? ==> k.thr[t].prio <= k.thr[k.cur].prio
  }

  /** A `chprio` that changes the priority of a ready thread, which it leaves where it is in the ready list. */
  ghost predicate Stales(k: Kernel, op: Op) {
    op.CallChprio? && !k.BadTid(op.tid) && k.thr[op.tid].state.Ready? && op.prio != k.thr[op.tid].prio
  }

  /** `chprio` leaves a stale key exactly when it changes the priority of a ready thread. */
  lemma ChprioStale(k: Kernel, t: int, prio: int)
    requires Shape(k) && Fresh(k)
    ensures Fresh(Chprio(k, t, prio)) <==> !Stales(k, CallChprio(t, prio))
  {
    var k' := Chprio(k, t, prio);
    if !k.BadTid(t) { assert k'.thr[t].state == k.thr[t].state; }
  }

  lemma FirstIsTop(k: Kernel, t: int)
    requires Core(k) && 0 <= t < |k.thr| && k.thr[t].state.Ready?
    ensures k.q[k.R()] != [] && k.key[t] <= k.key[k.q[k.R()][0]]
  {
    assert Home(k, t) == k.R();
    var a := IndexOf(k.q[k.R()], t);
    assert a > 0 ==> k.key[k.q[k.R()][0]] >= k.key[k.q[k.R()][a]];
  }

  lemma DispatchPicksTop(k: Kernel)
    requires Core(k) && Fresh(k) && !k.thr[k.cur].state.Curr?
    ensures TopRuns(Dispatch(k)) && Fresh(Dispatch(k))
  {
    SomeoneReady(k);
    var u := k.q[k.R()][0];
    assert u in k.q[k.R()] && Home(k, u) == k.R();
    var k' := Dispatch(k);
    forall t | 0 <= t < |k.thr| && k'.thr[t].state.Ready? ensures k'.thr[t].prio <= k'.thr[k'.cur].prio {
      FirstIsTop(k, t);
    }
  }

  /** After rescheduling, no ready thread has a higher priority than the running one. */
  lemma ReschedPicksTop(k: Kernel)
    requires Core(k) && Fresh(k)
    ensures TopRuns(Resched(k)) && Fresh(Resched(k))
  {
    if !k.thr[k.cur].state.Curr? {
      DispatchPicksTop(k);
    } else if KeepsRunning(k) {
      forall t | 0 <= t < |k.thr| && k.thr[t].state.Ready? ensures k.thr[t].prio <= k.thr[k.cur].prio {
        FirstIsTop(k, t);
      }
    } else {
      Lift(k, k.cur);
      MakeReadyKeeps(k, k.cur);
      DispatchPicksTop(MakeReady(k, k.cur));
    }
  }

  lemma {:induction false} SignalTimesFresh(k: Kernel, s: int, n: nat)
    requires Shape(k) && Fresh(k) && 0 <= s < |k.sem|
    ensures Fresh(SignalTimes(k, s, n))
  {
    if n > 0 { SignalTimesFresh(k, s, n - 1); }
  }

  lemma {:induction false} DrainFresh(k: Kernel, s: int)
    requires Shape(k) && Fresh(k) && 0 <= s < |k.sem|
    ensures Fresh(Drain(k, s))
    decreases |k.q[s]|
  {
    if k.q[s] != [] { DrainFresh(Release(k, s), s); }
  }

  lemma {:induction false} WakeupFresh(k: Kernel)
    requires Shape(k) && Fresh(k)
    ensures Fresh(Wakeup(k))
    decreases |k.q[k.S()]|
  {
    var s := k.q[k.S()];
    if s != [] && k.key[s[0]] <= 0 { WakeupFresh(ReadyThread(Popped(k, k.S()), s[0])); }
  }

  lemma AsleepFresh(k: Kernel, delta: int, st: ThreadState)
    requires Inv(k) && Fresh(k) && (st.Sleep? || st.Tmout?)
    ensures Fresh(Asleep(k, delta, st))
  {
    DeltaKeysOutside(k, delta);
    forall t | 0 <= t < |k.thr| && Asleep(k, delta, st).thr[t].state.Ready?
      ensures Asleep(k, delta, st).key[t] == k.thr[t].prio
    {
      assert Home(k, t) == k.R();
    }
  }

  lemma AwokenFresh(k: Kernel, t: int)
    requires Core(k) && Fresh(k) && t in k.q[k.S()]
    ensures Fresh(Awoken(k, t))
  {
    var s := k.q[k.S()];
    var j := IndexOf(s, t);
    if j + 1 < |s| {
      assert s[j + 1] in k.q[k.S()];
      assert Home(k, s[j + 1]) == k.S();
    }
  }

  lemma TickFresh(k: Kernel)
    requires Inv(k) && Fresh(k)
    ensures Fresh(ClockTick(k)) && TopRuns(ClockTick(k))
  {
    if k.q[k.S()] == [] {
      ReschedPicksTop(k);
    } else {
      TickedKeeps(k);
      assert k.q[k.S()][0] in k.q[k.S()];
      assert Home(k, k.q[k.S()][0]) == k.S();
      WakeupFresh(Ticked(k));
      WakeupKeeps(Ticked(k));
      ReschedPicksTop(Wakeup(Ticked(k)));
    }
  }

  /** Whether `send` to t wakes its receiver. */
  ghost predicate SendWakes(k: Kernel, t: int) {
    Accepts(k, t) && (k.thr[t].state.Recv? || k.thr[t].state.Tmout?)
  }

  lemma SendFresh(k: Kernel, t: int, msg: int)
    requires Inv(k) && Fresh(k)
    ensures Fresh(Send(k, t, msg)) && (SendWakes(k, t) ==> TopRuns(Send(k, t, msg)))
  {
    hide SemLaw, OnlyCur, NullRuns, LegalPriorities, SortedBy, InsertPos, Resched;
    if Accepts(k, t) {
      var k1 := Deposit(k, t, msg);
      CoreFrame(k, k1, -1);
      if k1.thr[t].state.Recv? {
        Lift(k1, t);
        MakeReadyKeeps(k1, t);
        ReschedPicksTop(MakeReady(k1, t));
      } else if k1.thr[t].state.Tmout? {
        assert Home(k1, t) == k1.S();
        AwokenKeeps(k1, t);
        AwokenFresh(k1, t);
        MakeReadyKeeps(Awoken(k1, t), t);
        ReschedPicksTop(MakeReady(Awoken(k1, t), t));
      }
    }
  }

  lemma RemoveFresh(k: Kernel, t: int)
    requires Inv(k) && Fresh(k) && 0 < t < |k.thr| && !k.thr[t].state.Tmout?
    ensures Fresh(Remove(k, t)) && (k.thr[t].state.Curr? ==> TopRuns(Remove(k, t)))
  {
    if k.thr[t].state.Sleep? {
      assert Home(k, t) == k.S();
      AwokenFresh(k, t);
    } else if k.thr[t].state.Curr? {
      Lift(k, t);
      Settle(k, t, Free);
      ReschedPicksTop(WithState(k, t, Free));
    }
  }

  /** The steps in which the code reaches a call of `resched`. */
  ghost predicate Reschedules(k: Kernel, op: Op)
    requires Shape(k)
  {
    match op
    case Tick => true
    case CallYield => true
    case CallSleep(_) => true
    case CallWait(s) => !k.BadSem(s) && k.sem[s].count <= 0
    case CallSignal(s) => !k.BadSem(s) && k.sem[s].count < 0
    case CallSignaln(s, n) => !k.BadSem(s) && n > 0
    case CallReceive => !k.thr[k.cur].hasmsg
    case CallRecvtime(maxwait) => maxwait >= 0 && !k.thr[k.cur].hasmsg
    case CallResume(t) => !k.BadTid(t) && k.thr[t].state.Susp?
    case CallSuspend(t) => !k.BadTid(t) && t != NULLTHREAD && k.thr[t].state.Curr?
    case CallSend(t, _) => SendWakes(k, t)
    case CallKill(t) => !k.BadTid(t) && t != NULLTHREAD && k.thrcount - 1 > 1 && SendWakes(k, k.thr[t].parent)
    case KillReturns => k.pc[k.cur].InKill? && k.pc[k.cur].victim == k.cur
    case _ => false
  }

  /** Fresh keys, and the highest priority running if the step rescheduled. */
  ghost predicate Topped(k: Kernel, op: Op, k': Kernel)
    requires Shape(k) && Shape(k')
  {
    Fresh(k') && (Reschedules(k, op) ==> TopRuns(k'))
  }

  lemma WaitFresh(k: Kernel, s: int)
    requires Good(k) && Fresh(k) && Enabled(k, CallWait(s))
    ensures Topped(k, CallWait(s), SemWait(k, s))
  {
    hide Placed, SemLaw, OnlyCur, NullRuns, LegalPriorities, SortedBy, Resched;
    if !k.BadSem(s) && k.sem[s].count <= 0 {
      BlockedKeeps(k, s);
      ReschedPicksTop(Blocked(WithCount(k, s, k.sem[s].count - 1), s));
    }
  }

  lemma SleepFresh(k: Kernel, ms: nat)
    requires Good(k) && Fresh(k) && Enabled(k, CallSleep(ms))
    ensures Topped(k, CallSleep(ms), SleepFor(k, ms))
  {
    hide Placed, SemLaw, OnlyCur, NullRuns, LegalPriorities, SortedBy, Resched, SleepTicks, Asleep;
    if SleepTicks(ms) > 0 {
      AsleepKeeps(k, SleepTicks(ms), Sleep);
      AsleepFresh(k, SleepTicks(ms), Sleep);
      ReschedPicksTop(Asleep(k, SleepTicks(ms), Sleep));
    } else {
      ReschedPicksTop(k);
    }
  }

  lemma ReceiveFresh(k: Kernel)
    requires Good(k) && Fresh(k) && Enabled(k, CallReceive)
    ensures Topped(k, CallReceive, ReceiveBegin(k))
  {
    hide Placed, SemLaw, OnlyCur, NullRuns, LegalPriorities, SortedBy, Resched;
    if !k.thr[k.cur].hasmsg {
      Lift(k, k.cur);
      Settle(k, k.cur, Recv);
      ContextKeeps(WithState(k, k.cur, Recv), k.cur, InReceive, -1);
      ReschedPicksTop(WithContext(WithState(k, k.cur, Recv), k.cur, InReceive));
    }
  }

  lemma RecvtimeFresh(k: Kernel, maxwait: int)
    requires Good(k) && Fresh(k) && Enabled(k, CallRecvtime(maxwait))
    ensures Topped(k, CallRecvtime(maxwait), RecvtimeBegin(k, maxwait))
  {
    hide Placed, SemLaw, OnlyCur, NullRuns, LegalPriorities, SortedBy, Resched, Asleep;
    if maxwait >= 0 && !k.thr[k.cur].hasmsg {
      AsleepKeeps(k, maxwait, Tmout);
      AsleepFresh(k, maxwait, Tmout);
      ContextKeeps(Asleep(k, maxwait, Tmout), k.cur, InRecvtime, -1);
      ReschedPicksTop(WithContext(Asleep(k, maxwait, Tmout), k.cur, InRecvtime));
    }
  }

  lemma BlockingFresh(k: Kernel, op: Op)
    requires Good(k) && Fresh(k) && Enabled(k, op)
    requires op.CallWait? || op.CallSleep? || op.CallReceive? || op.CallRecvtime?
    ensures Topped(k, op, Apply(k, op))
  {
    hide Placed, SemLaw, OnlyCur, NullRuns, LegalPriorities, SortedBy, Topped, ContextInv,
      SemWait, SleepFor, ReceiveBegin, RecvtimeBegin;
    match op
    case CallWait(s) => WaitFresh(k, s);
    case CallSleep(ms) => SleepFresh(k, ms);
    case CallReceive => ReceiveFresh(k);
    case CallRecvtime(maxwait) => RecvtimeFresh(k, maxwait);
  }

  lemma WakingFresh(k: Kernel, op: Op)
    requires Good(k) && Fresh(k) && Enabled(k, op)
    requires op.CallSignal? || op.CallSignaln? || op.CallSemfree? || op.CallResume? || op.CallYield?
    ensures Topped(k, op, Apply(k, op))
  {
    hide Placed, SemLaw, OnlyCur, NullRuns, LegalPriorities, SortedBy, Resched, InsertPos;
    match op
    case CallSignal(s) =>
      if !k.BadSem(s) {
        SignalCoreKeeps(k, s);
        SignalTimesFresh(k, s, 1);
        assert SignalTimes(k, s, 1) == SignalCore(SignalTimes(k, s, 0), s);
        ReschedPicksTop(SignalCore(k, s));
      }
    case CallSignaln(s, n) =>
      if !k.BadSem(s) && n > 0 {
        SignalTimesKeeps(k, s, n);
        SignalTimesFresh(k, s, n);
        ReschedPicksTop(SignalTimes(k, s, n));
      }
    case CallSemfree(s) =>
      if !k.BadSem(s) { DrainFresh(k, s); }
    case CallResume(t) =>
      if !k.BadTid(t) && k.thr[t].state.Susp? {
        Lift(k, t);
        MakeReadyKeeps(k, t);
        ReschedPicksTop(MakeReady(k, t));
      }
    case CallYield => ReschedPicksTop(k);
  }

  lemma SuspendFresh(k: Kernel, t: int)
    requires Good(k) && Fresh(k) && Enabled(k, CallSuspend(t))
    ensures Topped(k, CallSuspend(t), Suspend(k, t))
  {
    hide Placed, SemLaw, OnlyCur, NullRuns, LegalPriorities, SortedBy, Resched;
    if !k.BadTid(t) && t != NULLTHREAD && k.thr[t].state.Curr? {
      Lift(k, t);
      Settle(k, t, Susp);
      ReschedPicksTop(WithState(k, t, Susp));
    }
  }

  lemma KillCallFresh(k: Kernel, t: int)
    requires Good(k) && Fresh(k) && Enabled(k, CallKill(t))
    ensures Topped(k, CallKill(t), KillBegin(k, t))
  {
    hide Placed, SemLaw, OnlyCur, NullRuns, LegalPriorities, SortedBy, Send;
    if !k.BadTid(t) && t != NULLTHREAD && k.thrcount - 1 > 1 {
      var k1 := WithContext(k.(thrcount := k.thrcount - 1), k.cur, InKill(t));
      CoreFrame(k, k1, -1);
      SendFresh(k1, k.thr[t].parent, t);
    }
  }

  lemma KillReturnsFresh(k: Kernel)
    requires Good(k) && Fresh(k) && Enabled(k, KillReturns)
    ensures Topped(k, KillReturns, KillEnd(k))
  {
    hide Placed, SemLaw, OnlyCur, NullRuns, LegalPriorities, SortedBy, Remove;
    assert ContextFits(k.thr[k.cur], k.pc[k.cur], |k.thr|);
    ContextKeeps(k, k.cur, Running, -1);
    RemoveFresh(WithContext(k, k.cur, Running), k.pc[k.cur].victim);
  }

  lemma LifeFresh(k: Kernel, op: Op)
    requires Good(k) && Fresh(k) && Enabled(k, op)
    requires op.CallSuspend? || op.CallSend? || op.CallKill? || op.KillReturns?
    ensures Topped(k, op, Apply(k, op))
  {
    hide Placed, SemLaw, OnlyCur, NullRuns, LegalPriorities, SortedBy, ContextInv, Suspend, Send, KillBegin, KillEnd;
    match op
    case CallSuspend(t) => SuspendFresh(k, t);
    case CallSend(t, msg) => SendFresh(k, t, msg);
    case CallKill(t) => KillCallFresh(k, t);
    case KillReturns => KillReturnsFresh(k);
  }

  lemma StepFresh(k: Kernel, op: Op)
    requires Good(k) && Fresh(k) && Enabled(k, op) && !Stales(k, op)
    ensures Topped(k, op, Apply(k, op))
  {
    hide Placed, SemLaw, OnlyCur, NullRuns, LegalPriorities, SortedBy, ContextInv, ClockTick, Chprio;
    if op.Tick? { TickFresh(k); }
    else if op.CallChprio? { ChprioStale(k, op.tid, op.prio); }
    else if op.CallWait? || op.CallSleep? || op.CallReceive? || op.CallRecvtime? { BlockingFresh(k, op); }
    else if op.CallSignal? || op.CallSignaln? || op.CallSemfree? || op.CallResume? || op.CallYield? { WakingFresh(k, op); }
    else if op.CallSuspend? || op.CallSend? || op.CallKill? || op.KillReturns? { LifeFresh(k, op); }
  }

  /**
   As long as no `chprio` changed the priority of a ready thread, every ready
   thread of every run is queued under its own priority, and after each step
   that reschedules the running thread has the highest priority.
   */
  lemma {:induction false} HighestPriorityRuns(ks: seq<Kernel>, ops: seq<Op>, i: nat)
    requires Run(ks, ops) && Booted(ks[0]) && i < |ks|
    requires forall j :: 0 <= j < i ==> !Stales(ks[j], ops[j])
    ensures Good(ks[i]) && Fresh(ks[i])
    ensures i > 0 ==> Shape(ks[i - 1]) && (Reschedules(ks[i - 1], ops[i - 1]) ==> TopRuns(ks[i]))
  {
    hide Placed, SemLaw, OnlyCur, NullRuns, LegalPriorities, SortedBy, ContextInv, Fresh, TopRuns, Reschedules, Apply;
    BootFresh(ks[0]);
    RunGood(ks, ops, i);
    if i > 0 {
      HighestPriorityRuns(ks, ops, i - 1);
      assert Step(ks[i - 1], ops[i - 1], ks[i]);
      StepFresh(ks[i - 1], ops[i - 1]);
    }
  }

  lemma BootFresh(k: Kernel)
    requires Booted(k)
    ensures Good(k) && Fresh(k)
  {
    BootGood(k);
  }

  // ---------- round robin ----------

  /** The running thread and, behind it, the ready threads that are queued at its priority or above. */
  ghost function Group(k: Kernel): seq<int>
    requires Shape(k)
  {
    assert Below(k.q[k.R()], |k.key|);
    [k.cur] + k.q[k.R()][..InsertPos(k.key, k.q[k.R()], k.thr[k.cur].prio)]
  }

  ghost predicate Turn(k: Kernel) { Inv(k) && Fresh(k) && TopRuns(k) }

  /** What rescheduling does to the ready list when the running thread gives way. */
  lemma GivesWay(k: Kernel)
    requires Turn(k) && !KeepsRunning(k)
    ensures var k', s, p := Resched(k), k.q[k.R()], k.thr[k.cur].prio;
      && Below(s, |k.key|) && k.cur !in s
      && k'.key == k.key[k.cur := p]
      && k'.thr[k'.cur].prio == k.thr[k'.cur].prio
      && var s1 := Inserted(s, InsertPos(k.key, s, p), k.cur);
         k'.cur == s1[0] && k'.q[k.R()] == s1[1..]
  {
    hide SemLaw, NullRuns, LegalPriorities, SortedBy;
    Lift(k, k.cur);
    MakeReadyKeeps(k, k.cur);
    DispatchKeeps(MakeReady(k, k.cur));
    assert Home(k, k.cur) == -1;
  }

  /** A yield moves the running thread to the back of its priority group. */
  lemma YieldRotates(k: Kernel)
    requires Turn(k)
    ensures var k' := Resched(k);
      && Turn(k')
      && k'.thr[k'.cur].prio == k.thr[k.cur].prio
      && Group(k') == Group(k)[1..] + [Group(k)[0]]
  {
    hide Placed, SemLaw, NullRuns, LegalPriorities, SortedBy, OnlyCur;
    ReschedKeeps(k);
    ReschedPicksTop(k);
    if KeepsRunning(k) {
      assert InsertPos(k.key, k.q[k.R()], k.thr[k.cur].prio) == 0;
    } else {
      GroupRotates(k);
    }
  }

  lemma GroupRotates(k: Kernel)
    requires Turn(k) && !KeepsRunning(k)
    ensures var k' := Resched(k);
      && k'.thr[k'.cur].prio == k.thr[k.cur].prio
      && Group(k') == Group(k)[1..] + [Group(k)[0]]
  {
    hide Placed, SemLaw, NullRuns, LegalPriorities, SortedBy, OnlyCur, Fresh, TopRuns, Resched, InsertPos;
    var k' := Resched(k);
    var s, p := k.q[k.R()], k.thr[k.cur].prio;
    assert Below(s, |k.key|);
    var n := InsertPos(k.key, s, p);
    GivesWay(k);
    GroupMembers(k, n);
    if n == 0 {
      assert s == [] && k'.q[k.R()] == [] && k'.cur == k.cur;
    } else {
      assert k'.cur == s[0];
      assert k'.q[k.R()] == s[1..n] + [k.cur] + s[n..];
      RotatedPos(k.key, s, p, n, k.cur);
    }
  }

  /** Members of the group have the priority of the running thread. */
  lemma GroupMembers(k: Kernel, n: nat)
    requires Turn(k) && Below(k.q[k.R()], |k.key|) && n == InsertPos(k.key, k.q[k.R()], k.thr[k.cur].prio)
    ensures forall a :: 0 <= a < n ==> k.thr[k.q[k.R()][a]].prio == k.thr[k.cur].prio
  {
    forall a | 0 <= a < n ensures k.thr[k.q[k.R()][a]].prio == k.thr[k.cur].prio {
      var t := k.q[k.R()][a];
      assert t in k.q[k.R()] && Home(k, t) == k.R();
    }
  }

  lemma RotatedPos(key: seq<int>, s: seq<int>, p: int, n: nat, t: int)
    requires Below(s, |key|) && 0 < n == InsertPos(key, s, p) && 0 <= t < |key| && t !in s
    ensures var s' := s[1..n] + [t] + s[n..];
      Below(s', |key|) && InsertPos(key[t := p], s', p) == n && s'[..n] == s[1..n] + [t]
  {
    var s' := s[1..n] + [t] + s[n..];
    var key' := key[t := p];
    assert forall a :: 0 <= a < |s| ==> s[a] != t;
    forall a | 0 <= a < |s'| ensures 0 <= s'[a] < |key| && (a < n ==> key'[s'[a]] >= p) && (a == n ==> key'[s'[a]] < p) {
      if a < n - 1 { assert s'[a] == s[a + 1]; } else if a >= n { assert s'[a] == s[a]; }
    }
    InsertPosUnique(key', s', p, n);
  }

  /**
   Round robin: while the threads of the top priority only yield, the i-th
   state runs the i-th member of the group, and after as many yields as there
   are members the group is back where it began.  The members are distinct, so
   each of the n threads runs exactly once in any n consecutive turns.
   */
  lemma {:induction false} RoundRobin(ks: seq<Kernel>, ops: seq<Op>, i: nat)
    requires Run(ks, ops) && Turn(ks[0]) && i < |ks| && i <= |Group(ks[0])|
    requires forall j :: 0 <= j < |ops| ==> ops[j].CallYield?
    ensures Turn(ks[i])
    ensures Group(ks[i]) == Group(ks[0])[i..] + Group(ks[0])[..i]
    ensures i < |Group(ks[0])| ==> ks[i].cur == Group(ks[0])[i]
    ensures NoDup(Group(ks[0]))
  {
    hide Placed, SemLaw, NullRuns, LegalPriorities, SortedBy, OnlyCur, Apply, Fresh, TopRuns, InsertPos;
    var g := Group(ks[0]);
    GroupDistinct(ks[0]);
    if i > 0 {
      RoundRobin(ks, ops, i - 1);
      assert Step(ks[i - 1], ops[i - 1], ks[i]);
      YieldStep(ks[i - 1], ops[i - 1], ks[i]);
      Rotation(g, i);
      assert ks[i].cur == Group(ks[i])[0];
    }
  }

  lemma YieldStep(k: Kernel, op: Op, k': Kernel)
    requires Turn(k) && Step(k, op, k') && op.CallYield?
    ensures Turn(k') && Group(k') == Group(k)[1..] + [Group(k)[0]]
  {
    hide Placed, SemLaw, NullRuns, LegalPriorities, SortedBy, OnlyCur, InsertPos;
    YieldRotates(k);
  }

  lemma Rotation(g: seq<int>, i: nat)
    requires 0 < i <= |g|
    ensures var r := g[i - 1..] + g[..i - 1]; r[1..] + [r[0]] == g[i..] + g[..i]
  {
  }

  lemma GroupDistinct(k: Kernel)
    requires Inv(k)
    ensures NoDup(Group(k))
  {
    assert Home(k, k.cur) == -1;
    var s := k.q[k.R()];
    assert NoDup(s) && k.cur !in s;
    assert forall a :: 0 <= a < |s| ==> s[a] in s;
  }

  // ---------- semaphores are first come, first served ----------

  /** A semaphore of the kernel with its queue. */
  ghost function View(k: Kernel, s: int): S.Sem
    requires Shape(k) && 0 <= s < |k.sem|
  {
    S.Sem(k.sem[s].count, k.q[s])
  }

  lemma SameQueue(k: Kernel, k': Kernel, s: int)
    requires SameSemQueues(k, k') && 0 <= s < |k.sem|
    ensures k'.q[s] == k.q[s]
  {
    assert k.q[..|k.sem|][s] == k.q[s] && k'.q[..|k.sem|][s] == k'.q[s];
  }

  /** `wait`, `signal` and the removal of a waiter act on the view of their semaphore as Down, Up and Cancel. */
  lemma KernelSemaphore(k: Kernel, s: int)
    requires Inv(k) && !k.BadSem(s)
    ensures S.WellFormed(View(k, s))
    ensures View(SemWait(k, s), s) == S.Down(View(k, s), k.cur)
    ensures View(SemSignal(k, s), s) == S.Up(View(k, s))
    ensures forall t :: t in k.q[s] ==>
              0 <= t < |k.thr| && View(Remove(k, t), s) == S.Cancel(View(k, s), t)
  {
    assert |k.q[s]| == Waiting(k.sem[s]);
    WaitView(k, s);
    SignalView(k, s);
    forall t | t in k.q[s] ensures 0 <= t < |k.thr| && View(Remove(k, t), s) == S.Cancel(View(k, s), t) {
      assert Home(k, t) == s;
    }
  }

  lemma ReschedSem(k: Kernel)
    requires Shape(k)
    ensures Resched(k).sem == k.sem
  {
  }

  lemma WaitView(k: Kernel, s: int)
    requires Shape(k) && !k.BadSem(s)
    ensures View(SemWait(k, s), s) == S.Down(View(k, s), k.cur)
  {
    var k1 := Blocked(WithCount(k, s, k.sem[s].count - 1), s);
    SameQueue(k1, Resched(k1), s);
    ReschedSem(k1);
  }

  lemma SignalCoreView(k: Kernel, s: int)
    requires Shape(k) && 0 <= s < |k.sem|
    ensures View(SignalCore(k, s), s) == S.Up(View(k, s))
  {
    var k1 := WithCount(k, s, k.sem[s].count + 1);
    if k.sem[s].count < 0 && k.q[s] != [] {
      SameQueue(Popped(k1, s), ReadyThread(Popped(k1, s), k.q[s][0]), s);
    }
  }

  lemma SignalView(k: Kernel, s: int)
    requires Shape(k) && !k.BadSem(s)
    ensures View(SemSignal(k, s), s) == S.Up(View(k, s))
  {
    SignalCoreView(k, s);
    var k1 := SignalCore(k, s);
    SameQueue(k1, Resched(k1), s);
    ReschedSem(k1);
  }

  function Min(a: int, b: int): int { if a < b then a else b }

  lemma {:induction false} SignalTimesView(k: Kernel, s: int, n: nat)
    requires Inv(k) && !k.BadSem(s)
    ensures View(SignalTimes(k, s, n), s) == S.Sem(k.sem[s].count + n, k.q[s][Min(n, |k.q[s]|)..])
  {
    hide Placed, OnlyCur, NullRuns, LegalPriorities, SortedBy, InsertPos, SignalCore;
    assert |k.q[s]| == Waiting(k.sem[s]);
    if n > 0 {
      SignalTimesView(k, s, n - 1);
      SignalCoreView(SignalTimes(k, s, n - 1), s);
    }
  }

  /** `signaln(s, n)` adds n to the count and releases the first n waiters, or all when there are fewer. */
  lemma SignalnReleases(k: Kernel, s: int, n: int)
    requires Inv(k) && !k.BadSem(s) && n > 0
    ensures View(SemSignaln(k, s, n), s) == S.Sem(k.sem[s].count + n, k.q[s][Min(n, |k.q[s]|)..])
  {
    SignalTimesView(k, s, n);
    var k1 := SignalTimes(k, s, n);
    SameQueue(k1, Resched(k1), s);
    ReschedSem(k1);
  }

  /** The four ways in which one step changes the queue of a semaphore. */
  ghost predicate QueueMoves(q: seq<int>, q': seq<int>, cur: int, killed: int) {
    || q' == q
    || q' == q + [cur]
    || (|q'| <= |q| && q' == q[|q| - |q'|..])
    || q' == Without(q, killed)
  }

  ghost function Victim(k: Kernel, op: Op): int
    requires Shape(k)
  {
    if op.KillReturns? && k.pc[k.cur].InKill? then k.pc[k.cur].victim else -1
  }

  lemma OtherSignal(k: Kernel, s: int, r: int, n: nat)
    requires Shape(k) && 0 <= s < |k.sem| && 0 <= r < |k.sem| && r != s
    ensures SignalTimes(k, r, n).q[s] == k.q[s]
  {
    if n > 0 {
      OtherSignal(k, s, r, n - 1);
      var k0 := SignalTimes(k, r, n - 1);
      var k1 := WithCount(k0, r, k0.sem[r].count + 1);
      if k0.sem[r].count < 0 && k0.q[r] != [] {
        SameQueue(Popped(k1, r), ReadyThread(Popped(k1, r), k0.q[r][0]), s);
      }
    }
  }

  lemma {:induction false} OtherDrain(k: Kernel, s: int, r: int)
    requires Shape(k) && 0 <= s < |k.sem| && 0 <= r < |k.sem| && r != s
    ensures Drain(k, r).q[s] == k.q[s]
    decreases |k.q[r]|
  {
    if k.q[r] != [] {
      SameQueue(Popped(k, r), ReadyThread(Popped(k, r), k.q[r][0]), s);
      OtherDrain(Release(k, r), s, r);
    }
  }

  lemma MovesPrefix(q: seq<int>, cur: int, killed: int, n: nat)
    requires n <= |q|
    ensures QueueMoves(q, q, cur, killed) && QueueMoves(q, q + [cur], cur, killed)
    ensures QueueMoves(q, q[n..], cur, killed) && q[|q|..] == []
  {
  }

  lemma SignalTimesOnce(k: Kernel, s: int)
    requires Shape(k) && 0 <= s < |k.sem|
    ensures SignalTimes(k, s, 1) == SignalCore(k, s)
  {
    assert SignalTimes(k, s, 0) == k;
  }

  lemma SemaphoreMoves(k: Kernel, op: Op, s: int)
    requires Good(k) && Enabled(k, op) && 0 <= s < |k.sem|
    requires op.CallWait? || op.CallSignal? || op.CallSignaln? || op.CallSemfree?
    ensures QueueMoves(k.q[s], Apply(k, op).q[s], k.cur, -1)
  {
    hide Placed, SemLaw, OnlyCur, NullRuns, LegalPriorities, SortedBy, ContextInv, QueueMoves, Resched, SignalTimes, Drain;
    var q := k.q[s];
    MovesPrefix(q, k.cur, -1, 0);
    MovesPrefix(q, k.cur, -1, |q|);
    if !k.BadSem(op.s) {
      var r := op.s;
      match op
      case CallWait(_) =>
        var k1 := Blocked(WithCount(k, r, k.sem[r].count - 1), r);
        SameQueue(k1, Resched(k1), s);
      case CallSignal(_) =>
        var k1 := SignalCore(k, r);
        assert k1 == SignalTimes(k, r, 1) by { SignalTimesOnce(k, r); }
        SameQueue(k1, Resched(k1), s);
        if r == s { SignalTimesView(k, s, 1); } else { OtherSignal(k, s, r, 1); }
        MovesPrefix(q, k.cur, -1, Min(1, |q|));
      case CallSignaln(_, n) =>
        if n > 0 {
          var k1 := SignalTimes(k, r, n);
          SameQueue(k1, Resched(k1), s);
          if r == s { SignalTimesView(k, s, n); } else { OtherSignal(k, s, r, n); }
          MovesPrefix(q, k.cur, -1, Min(n, |q|));
        }
      case CallSemfree(_) =>
        if r != s { OtherDrain(k, s, r); }
    }
  }

  lemma KillMoves(k: Kernel, s: int)
    requires Good(k) && Enabled(k, KillReturns) && 0 <= s < |k.sem|
    ensures QueueMoves(k.q[s], KillEnd(k).q[s], k.cur, Victim(k, KillReturns))
  {
    hide SemLaw, OnlyCur, NullRuns, LegalPriorities, SortedBy;
    assert ContextFits(k.thr[k.cur], k.pc[k.cur], |k.thr|);
    var k1, v := WithContext(k, k.cur, Running), k.pc[k.cur].victim;
    match k.thr[v].state
    case Curr => SameQueue(k1, Resched(WithState(k1, v, Free)), s);
    case Sleep => SameQueue(k1, Unsleep(k1, v), s);
    case _ =>
  }

  lemma StepMoves(k: Kernel, op: Op, s: int)
    requires Good(k) && Enabled(k, op) && 0 <= s < |k.sem|
    ensures QueueMoves(k.q[s], Apply(k, op).q[s], k.cur, Victim(k, op))
  {
    hide Placed, SemLaw, OnlyCur, NullRuns, LegalPriorities, SortedBy, ContextInv;
    if op.CallWait? || op.CallSignal? || op.CallSignaln? || op.CallSemfree? {
      SemaphoreMoves(k, op, s);
    } else if op.KillReturns? {
      KillMoves(k, s);
    } else if !op.CallSemcreate? {
      assert SameSemQueues(k, Apply(k, op));
      SameQueue(k, Apply(k, op), s);
    }
  }

  ghost predicate Ahead(q: seq<int>, t: int, u: int) {
    exists a, b :: 0 <= a < b < |q| && q[a] == t && q[b] == u
  }

  lemma RemovalKeepsOrder(q: seq<int>, killed: int, a: nat, b: nat)
    requires a < b < |q| && killed != q[a] && killed != q[b]
    ensures Ahead(Without(q, killed), q[a], q[b])
  {
    var q' := Without(q, killed);
    if killed in q {
      var k := IndexOf(q, killed);
      assert q'[if a < k then a else a - 1] == q[a] && q'[if b < k then b else b - 1] == q[b];
    }
  }

  lemma SuffixKeepsOrder(q: seq<int>, n: nat, a: nat, b: nat)
    requires a < b < |q| && n <= |q| && NoDup(q) && q[a] in q[n..]
    ensures Ahead(q[n..], q[a], q[b])
  {
    assert q[n..][a - n] == q[a] && q[n..][b - n] == q[b];
  }

  lemma MovesKeepOrder(q: seq<int>, q': seq<int>, cur: int, killed: int, t: int, u: int)
    requires QueueMoves(q, q', cur, killed) && Ahead(q, t, u) && NoDup(q) && killed != u
    ensures t in q' ==> Ahead(q', t, u)
  {
    hide NoDup, Without;
    var a, b :| 0 <= a < b < |q| && q[a] == t && q[b] == u;
    if q' == q + [cur] {
      assert q'[a] == t && q'[b] == u;
    } else if q' == Without(q, killed) && q' != q {
      WithoutElements(q, killed);
      if killed != t { RemovalKeepsOrder(q, killed, a, b); }
    } else if q' != q {
      if t in q' { SuffixKeepsOrder(q, |q| - |q'|, a, b); }
    }
  }

  /**
   No overtaking: when t waits ahead of u on a semaphore and u is not killed,
   then in every run u stays behind t for as long as t has not left the queue.
   */
  lemma {:induction false} NoOvertaking(ks: seq<Kernel>, ops: seq<Op>, i: nat, s: nat, t: int, u: int)
    requires Run(ks, ops) && Good(ks[0]) && i < |ks| && s < |ks[0].sem|
    requires Ahead(ks[0].q[s], t, u)
    requires forall j :: 0 <= j < i ==> Shape(ks[j]) && Victim(ks[j], ops[j]) != u
    requires forall j :: 0 <= j <= i ==> s < |ks[j].q| && t in ks[j].q[s]
    ensures |ks[i].sem| == |ks[0].sem| && Ahead(ks[i].q[s], t, u)
  {
    hide Placed, SemLaw, OnlyCur, NullRuns, LegalPriorities, SortedBy, ContextInv, Apply, Ahead, QueueMoves;
    if i > 0 {
      NoOvertaking(ks, ops, i - 1, s, t, u);
      RunGood(ks, ops, i - 1);
      assert Step(ks[i - 1], ops[i - 1], ks[i]);
      OvertakingStep(ks[i - 1], ops[i - 1], s, t, u);
    }
  }

  lemma OvertakingStep(k: Kernel, op: Op, s: nat, t: int, u: int)
    requires Good(k) && Enabled(k, op) && s < |k.sem|
    requires Ahead(k.q[s], t, u) && Victim(k, op) != u
    ensures t in Apply(k, op).q[s] ==> Ahead(Apply(k, op).q[s], t, u)
  {
    hide SemLaw, OnlyCur, NullRuns, LegalPriorities, SortedBy, ContextInv, Apply, Ahead, QueueMoves;
    StepMoves(k, op, s);
    MovesKeepOrder(k.q[s], Apply(k, op).q[s], k.cur, Victim(k, op), t, u);
  }
}
