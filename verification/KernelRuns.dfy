/**
 Runs of the kernel: any number of calls, made by whichever thread is running,
 interleaved with clock interrupts.
 */
module KernelRuns {
  import opened Queues
  import opened QueueTables
  import opened KernelState
  import opened KernelInvariant

  datatype Op =
    | Tick
    | CallCreate(tid: int, prio: int)
    | CallReady(tid: int)
    | CallResume(tid: int)
    | CallSuspend(tid: int)
    | CallYield
    | CallChprio(tid: int, prio: int)
    | CallWait(s: int)
    | CallSignal(s: int)
    | CallSignaln(s: int, n: int)
    | CallSemcreate(s: int, count: int)
    | CallSemfree(s: int)
    | CallSleep(ms: nat)
    | CallSend(tid: int, msg: int)
    | CallReceive
    | ReceiveReturns
    | CallRecvtime(maxwait: int)
    | RecvtimeReturns
    | CallRecvclr
    | CallKill(tid: int)
    | KillReturns

  /** Calls that would put the running thread off the processor for an event. */
  ghost predicate Blocks(k: Kernel, op: Op)
    requires Shape(k)
  {
    match op
    case CallWait(s) => !k.BadSem(s) && k.sem[s].count <= 0
    case CallSleep(ms) => SleepTicks(ms) > 0
    case CallReceive => !k.thr[k.cur].hasmsg
    case CallRecvtime(maxwait) => maxwait >= 0 && !k.thr[k.cur].hasmsg
    case _ => false
  }

  /**
   What the kernel demands of its callers: the null thread never blocks
   (system/initialize.c), `ready` is applied to a thread that is in no queue and
   not running, priorities are above MINKEY, and no thread in a timed receive is
   removed by `kill`.
   */
  ghost predicate WideEnabled(k: Kernel, op: Op)
    requires Shape(k)
  {
    && k.mode.Up?
    && (k.cur == NULLTHREAD ==> !Blocks(k, op))
    && match op
       case Tick => true
       case ReceiveReturns => k.pc[k.cur].InReceive?
       case RecvtimeReturns => k.pc[k.cur].InRecvtime?
       case KillReturns =>
         && k.pc[k.cur].InKill?
         && var v := k.pc[k.cur].victim; 0 <= v < |k.thr| ==> !k.thr[v].state.Tmout?
       case _ => k.pc[k.cur].Running? && CallAllowed(k, op)
  }

  ghost predicate CallAllowed(k: Kernel, op: Op)
    requires Shape(k)
  {
    match op
    case CallCreate(t, prio) => 0 <= t < |k.thr| && k.thr[t].state.Free? && MINKEY < prio <= MAXKEY
    case CallReady(t) => k.BadTid(t) || (t != k.cur && Home(k, t) == -1)
    case CallChprio(t, prio) => MINKEY < prio <= MAXKEY
    case CallRecvtime(maxwait) => maxwait <= MAXKEY
    case CallSemcreate(s, count) => 0 <= s < |k.sem| && !k.sem[s].used && count >= 0
    case _ => true
  }

  /** The same, with `ready` applied to suspended threads only: it does not break a `receive` off. */
  ghost predicate Enabled(k: Kernel, op: Op)
    requires Shape(k)
  {
    WideEnabled(k, op) && (op.CallReady? ==> k.BadTid(op.tid) || k.thr[op.tid].state.Susp?)
  }

  ghost function Apply(k: Kernel, op: Op): (r: Kernel)
    requires Shape(k) && WideEnabled(k, op)
    ensures Shape(r) && SameSize(k, r)
  {
    match op
    case Tick => ClockTick(k)
    case CallCreate(t, prio) => Create(k, t, prio)
    case CallReady(t) => ReadyThread(k, t)
    case CallResume(t) => Resume(k, t)
    case CallSuspend(t) => Suspend(k, t)
    case CallYield => Resched(k)
    case CallChprio(t, prio) => Chprio(k, t, prio)
    case CallWait(s) => SemWait(k, s)
    case CallSignal(s) => SemSignal(k, s)
    case CallSignaln(s, n) => SemSignaln(k, s, n)
    case CallSemcreate(s, count) => SemCreate(k, s, count)
    case CallSemfree(s) => SemFree(k, s)
    case CallSleep(ms) => SleepFor(k, ms)
    case CallSend(t, msg) => Send(k, t, msg)
    case CallReceive => ReceiveBegin(k)
    case ReceiveReturns => ReceiveEnd(k)
    case CallRecvtime(maxwait) => RecvtimeBegin(k, maxwait)
    case RecvtimeReturns => RecvtimeEnd(k)
    case CallRecvclr => TakeMessage(k)
    case CallKill(t) => KillBegin(k, t)
    case KillReturns => KillEnd(k)
  }

  /** `ks` is the run that the calls `ops` make: one state more than calls. */
  ghost predicate Run(ks: seq<Kernel>, ops: seq<Op>) {
    && |ks| == |ops| + 1
    && (forall i :: 0 <= i < |ops| ==> Step(ks[i], ops[i], ks[i + 1]))
  }

  ghost predicate Step(k: Kernel, op: Op, k': Kernel) {
    Shape(k) && Enabled(k, op) && k' == Apply(k, op)
  }

  /** Runs in which `ready` may wake any thread that is in no queue. */
  ghost predicate WideRun(ks: seq<Kernel>, ops: seq<Op>) {
    && |ks| == |ops| + 1
    && (forall i :: 0 <= i < |ops| ==> WideStep(ks[i], ops[i], ks[i + 1]))
  }

  ghost predicate WideStep(k: Kernel, op: Op, k': Kernel) {
    Shape(k) && WideEnabled(k, op) && k' == Apply(k, op)
  }

  /** What boot leaves: only the null thread, running; every semaphore free; empty queues. */
  ghost predicate Booted(k: Kernel) {
    && Shape(k)
    && k.cur == NULLTHREAD && k.mode.Up? && k.thrcount == 1
    && k.thr[NULLTHREAD].state.Curr? && k.thr[NULLTHREAD].prio == 0 && !k.thr[NULLTHREAD].hasmsg
    && (forall t :: 0 < t < |k.thr| ==> k.thr[t].state.Free?)
    && (forall t :: 0 <= t < |k.thr| ==> k.pc[t].Running?)
    && (forall s :: 0 <= s < |k.sem| ==> !k.sem[s].used)
    && (forall i :: 0 <= i < |k.q| ==> k.q[i] == [])
  }

  // ---------- which context goes with which state ----------

  /** A victim is never the null thread; a blocked receiver has no message; a resumed one has. */
  ghost predicate ContextFits(th: Thread, c: Context, n: nat) {
    && (c.InKill? ==> 0 < c.victim < n)
    && (!th.state.Free? ==>
          && (th.state.Recv? ==> c.InReceive? && !th.hasmsg)
          && (th.state.Tmout? ==> c.InRecvtime? && !th.hasmsg)
          && (c.InReceive? && !th.state.Recv? ==> th.hasmsg))
  }

  /** No kill is under way against the null thread or against no thread at all. */
  ghost predicate VictimsFit(k: Kernel)
    requires Shape(k)
  {
    forall t :: 0 <= t < |k.thr| && k.pc[t].InKill? ==> 0 < k.pc[t].victim < |k.thr|
  }

  ghost predicate ContextInv(k: Kernel)
    requires Shape(k)
  {
    forall t :: 0 <= t < |k.thr| ==> ContextFits(k.thr[t], k.pc[t], |k.thr|)
  }

  /** The states of some threads that were not blocked in `receive` became READY or CURR; no more. */
  ghost predicate OnlyWoke(k: Kernel, k': Kernel) {
    && |k'.thr| == |k.thr| && k'.pc == k.pc
    && (forall t :: 0 <= t < |k.thr| ==> Woke(k.thr[t], k'.thr[t]))
  }

  ghost predicate Woke(th: Thread, th': Thread) {
    || th' == th
    || (&& !th.state.Free? && !th.state.Recv?
        && (th' == th.(state := Ready) || th' == th.(state := Curr)))
  }

  lemma ReschedWakes(k: Kernel)
    requires Core(k)
    ensures OnlyWoke(k, Resched(k))
  {
    hide SemLaw, NullRuns, LegalPriorities, SortedBy, OnlyCur, InsertPos;
    var k1 := if k.thr[k.cur].state.Curr? then MakeReady(k, k.cur) else k;
    if k.thr[k.cur].state.Curr? {
      Lift(k, k.cur);
      MakeReadyKeeps(k, k.cur);
    }
    assert k1.q[k.R()] != [] ==> k1.q[k.R()][0] in k1.q[k.R()];
  }

  lemma SignalCoreWakes(k: Kernel, s: int)
    requires Core(k) && 0 <= s < |k.sem|
    ensures OnlyWoke(k, SignalCore(k, s))
  {
    if k.q[s] != [] {
      assert k.q[s][0] in k.q[s];
      assert Home(k, k.q[s][0]) == s;
    }
  }

  lemma {:induction false} SignalTimesWakes(k: Kernel, s: int, n: nat)
    requires Inv(k) && !k.BadSem(s)
    ensures OnlyWoke(k, SignalTimes(k, s, n))
  {
    hide Placed, SemLaw, OnlyCur, NullRuns, LegalPriorities, SortedBy, Release;
    if n > 0 {
      SignalTimesWakes(k, s, n - 1);
      SignalTimesKeeps(k, s, n - 1);
      SignalCoreWakes(SignalTimes(k, s, n - 1), s);
    }
  }

  lemma {:induction false} DrainWakes(k: Kernel, s: int)
    requires Inv(k) && !k.BadSem(s)
    ensures OnlyWoke(k, Drain(k, s))
    decreases |k.q[s]|
  {
    hide SemLaw, OnlyCur, NullRuns, LegalPriorities, SortedBy, InsertPos;
    if k.q[s] != [] {
      ReleaseStep(k, s);
      var n := k.sem[s].count + 1;
      DrainWakes(WithCount(Release(k, s), s, n), s);
      DrainIgnoresCount(Release(k, s), s, n);
      assert k.q[s][0] in k.q[s];
      assert Home(k, k.q[s][0]) == s;
    }
  }

  lemma {:induction false} WakeupWakes(k: Kernel)
    requires Inv(k)
    ensures OnlyWoke(k, Wakeup(k))
    decreases |k.q[k.S()]|
  {
    var s := k.q[k.S()];
    if s != [] && k.key[s[0]] <= 0 {
      PoppedIsUnlinked(k, k.S());
      UnlinkedKeeps(k, k.S(), s[0]);
      assert s[0] in k.q[k.S()];
      assert Home(k, s[0]) == k.S();
      MakeReadyKeeps(Popped(k, k.S()), s[0]);
      WakeupWakes(MakeReady(Popped(k, k.S()), s[0]));
    }
  }

  lemma WokeContext(k: Kernel, k': Kernel)
    requires Shape(k) && Shape(k') && ContextInv(k) && OnlyWoke(k, k')
    ensures ContextInv(k')
  {
    forall t | 0 <= t < |k'.thr| ensures ContextFits(k'.thr[t], k'.pc[t], |k'.thr|) {
      assert ContextFits(k.thr[t], k.pc[t], |k.thr|);
      assert Woke(k.thr[t], k'.thr[t]);
    }
  }

  /** Rescheduling from a state with fitting contexts. */
  lemma ReschedContext(k: Kernel)
    requires Core(k) && ContextInv(k)
    ensures ContextInv(Resched(k))
  {
    ReschedWakes(k);
    WokeContext(k, Resched(k));
  }

  lemma SendContext(k: Kernel, t: int, msg: int)
    requires Inv(k) && ContextInv(k)
    ensures ContextInv(Send(k, t, msg))
  {
    hide SemLaw, OnlyCur, NullRuns, LegalPriorities, SortedBy, InsertPos;
    if Accepts(k, t) {
      var k1 := Deposit(k, t, msg);
      CoreFrame(k, k1, -1);
      assert ContextFits(k.thr[t], k.pc[t], |k.thr|);
      if k1.thr[t].state.Recv? {
        Lift(k1, t);
        MakeReadyKeeps(k1, t);
        ReschedContext(MakeReady(k1, t));
      } else if k1.thr[t].state.Tmout? {
        assert Home(k1, t) == k1.S();
        AwokenKeeps(k1, t);
        MakeReadyKeeps(Awoken(k1, t), t);
        ReschedContext(MakeReady(Awoken(k1, t), t));
      }
    }
  }

  lemma RemoveContext(k: Kernel, t: int)
    requires Inv(k) && ContextInv(k) && 0 < t < |k.thr| && !k.thr[t].state.Tmout?
    ensures ContextInv(Remove(k, t))
  {
    if k.thr[t].state.Curr? {
      Lift(k, t);
      Settle(k, t, Free);
      ReschedContext(WithState(k, t, Free));
    }
  }

  // ---------- every step and every run ----------

  lemma KillEndKeeps(k: Kernel)
    requires Inv(k) && VictimsFit(k) && WideEnabled(k, KillReturns)
    ensures Inv(KillEnd(k)) && (ContextInv(k) ==> ContextInv(KillEnd(k)))
  {
    hide Placed, SemLaw, OnlyCur, NullRuns, LegalPriorities, SortedBy, Remove;
    ContextKeeps(k, k.cur, Running, -1);
    var k1 := WithContext(k, k.cur, Running);
    RemoveKeeps(k1, k.pc[k.cur].victim);
    if ContextInv(k) {
      assert ContextFits(k.thr[k.cur], k.pc[k.cur], |k.thr|);
      RemoveContext(k1, k.pc[k.cur].victim);
    }
  }

  /** The second half of receive and of recvtime. */
  lemma ReturnKeeps(k: Kernel)
    requires Inv(k)
    ensures Inv(ReceiveEnd(k)) && Inv(RecvtimeEnd(k))
  {
    hide Placed, SemLaw, OnlyCur, NullRuns, LegalPriorities, SortedBy;
    TakeMessageKeeps(k);
    ContextKeeps(TakeMessage(k), k.cur, Running, -1);
  }

  lemma StepInv(k: Kernel, op: Op)
    requires Inv(k) && VictimsFit(k) && WideEnabled(k, op)
    ensures Inv(Apply(k, op))
  {
    hide Placed, SemLaw, OnlyCur, NullRuns, LegalPriorities, SortedBy, VictimsFit, ClockTick, Create, ReadyThread, Resume, Suspend, Resched, Chprio, SemWait, SemSignal, SemSignaln,
      SemCreate, SemFree, SleepFor, Send, ReceiveBegin, RecvtimeBegin, KillBegin, KillEnd, TakeMessage, ReceiveEnd, RecvtimeEnd;
    match op
    case Tick => TickKeeps(k);
    case CallCreate(t, prio) => CreateKeeps(k, t, prio);
    case CallReady(t) => ReadyKeeps(k, t);
    case CallResume(t) => ResumeKeeps(k, t);
    case CallSuspend(t) => SuspendKeeps(k, t);
    case CallYield => ReschedKeeps(k);
    case CallChprio(t, prio) => ChprioKeeps(k, t, prio);
    case CallWait(s) => WaitKeeps(k, s);
    case CallSignal(s) => SignalKeeps(k, s);
    case CallSignaln(s, n) => SignalnKeeps(k, s, n);
    case CallSemcreate(s, count) => SemCreateKeeps(k, s, count);
    case CallSemfree(s) => SemFreeKeeps(k, s);
    case CallSleep(ms) => SleepKeeps(k, ms);
    case CallSend(t, msg) => SendKeeps(k, t, msg);
    case CallReceive => ReceiveKeeps(k);
    case ReceiveReturns => ReturnKeeps(k);
    case CallRecvtime(maxwait) => RecvtimeKeeps(k, maxwait);
    case RecvtimeReturns => ReturnKeeps(k);
    case CallRecvclr => TakeMessageKeeps(k);
    case CallKill(t) => KillBeginKeeps(k, t);
    case KillReturns => KillEndKeeps(k);
  }

  lemma StepVictims(k: Kernel, op: Op)
    requires Inv(k) && VictimsFit(k) && WideEnabled(k, op)
    ensures VictimsFit(Apply(k, op))
  {
    hide Placed, SemLaw, OnlyCur, NullRuns, LegalPriorities, SortedBy, ReadyThread, Resched, SemWait, SemSignal, SemSignaln,
      SemFree, SemCreate, SleepFor, ClockTick, TakeMessage, Send, Suspend, Resume, Chprio, Remove, Asleep;
  }

  lemma SemaphoreContext(k: Kernel, op: Op)
    requires Inv(k) && ContextInv(k) && Enabled(k, op)
    requires op.CallWait? || op.CallSignal? || op.CallSignaln? || op.CallSemfree?
    ensures ContextInv(Apply(k, op))
  {
    hide Placed, SemLaw, OnlyCur, NullRuns, LegalPriorities, SortedBy;
    if !k.BadSem(op.s) {
      match op
      case CallWait(s) =>
        if k.sem[s].count <= 0 {
          BlockedKeeps(k, s);
          ReschedContext(Blocked(WithCount(k, s, k.sem[s].count - 1), s));
        }
      case CallSignal(s) =>
        SignalCoreKeeps(k, s);
        SignalCoreWakes(k, s);
        WokeContext(k, SignalCore(k, s));
        ReschedContext(SignalCore(k, s));
      case CallSignaln(s, n) =>
        if n > 0 {
          SignalTimesKeeps(k, s, n);
          SignalTimesWakes(k, s, n);
          WokeContext(k, SignalTimes(k, s, n));
          ReschedContext(SignalTimes(k, s, n));
        }
      case CallSemfree(s) =>
        DrainWakes(k, s);
        WokeContext(k, Drain(k, s));
    }
  }

  lemma TimeContext(k: Kernel, op: Op)
    requires Inv(k) && ContextInv(k) && Enabled(k, op)
    requires op.Tick? || op.CallSleep? || op.CallRecvtime?
    ensures ContextInv(Apply(k, op))
  {
    hide Placed, SemLaw, OnlyCur, NullRuns, LegalPriorities, SortedBy, Resched;
    match op
    case Tick =>
      if k.q[k.S()] == [] {
        ReschedContext(k);
      } else {
        TickedKeeps(k);
        WakeupKeeps(Ticked(k));
        WakeupWakes(Ticked(k));
        WokeContext(Ticked(k), Wakeup(Ticked(k)));
        ReschedContext(Wakeup(Ticked(k)));
      }
    case CallSleep(ms) =>
      if SleepTicks(ms) > 0 {
        AsleepKeeps(k, SleepTicks(ms), Sleep);
        ReschedContext(Asleep(k, SleepTicks(ms), Sleep));
      } else {
        ReschedContext(k);
      }
    case CallRecvtime(maxwait) =>
      if maxwait >= 0 && !k.thr[k.cur].hasmsg {
        AsleepKeeps(k, maxwait, Tmout);
        ContextKeeps(Asleep(k, maxwait, Tmout), k.cur, InRecvtime, -1);
        ReschedContext(WithContext(Asleep(k, maxwait, Tmout), k.cur, InRecvtime));
      }
  }

  lemma OtherContext(k: Kernel, op: Op)
    requires Inv(k) && ContextInv(k) && Enabled(k, op)
    requires op.CallResume? || op.CallSuspend? || op.CallCreate? || op.CallReady? || op.CallChprio? || op.CallSemcreate?
      || op.CallYield? || op.CallSend? || op.CallKill? || op.KillReturns?
    ensures ContextInv(Apply(k, op))
  {
    hide Placed, SemLaw, OnlyCur, NullRuns, LegalPriorities, SortedBy, Resched;
    match op
    case CallResume(t) =>
      if !k.BadTid(t) && k.thr[t].state.Susp? {
        Lift(k, t);
        MakeReadyKeeps(k, t);
        ReschedContext(MakeReady(k, t));
      }
    case CallSuspend(t) =>
      if !k.BadTid(t) && t != NULLTHREAD && k.thr[t].state.Curr? {
        Lift(k, t);
        Settle(k, t, Susp);
        ReschedContext(WithState(k, t, Susp));
      }
    case CallSend(t, msg) => SendContext(k, t, msg);
    case CallYield => ReschedContext(k);
    case KillReturns => KillEndKeeps(k);
    case CallKill(t) => KillBeginContext(k, t);
    case _ =>
  }

  lemma ReceiveContext(k: Kernel, op: Op)
    requires Inv(k) && ContextInv(k) && Enabled(k, op)
    requires op.CallReceive? || op.ReceiveReturns? || op.RecvtimeReturns? || op.CallRecvclr?
    ensures ContextInv(Apply(k, op))
  {
    hide Placed, SemLaw, OnlyCur, NullRuns, LegalPriorities, SortedBy;
    assert ContextFits(k.thr[k.cur], k.pc[k.cur], |k.thr|);
    if op.CallReceive? && !k.thr[k.cur].hasmsg {
      Lift(k, k.cur);
      Settle(k, k.cur, Recv);
      ContextKeeps(WithState(k, k.cur, Recv), k.cur, InReceive, -1);
      ReschedContext(WithContext(WithState(k, k.cur, Recv), k.cur, InReceive));
    }
  }

  lemma KillBeginContext(k: Kernel, t: int)
    requires Inv(k) && ContextInv(k) && Enabled(k, CallKill(t))
    ensures ContextInv(KillBegin(k, t))
  {
    if !k.BadTid(t) && t != NULLTHREAD && k.thrcount - 1 > 1 {
      assert ContextFits(k.thr[k.cur], k.pc[k.cur], |k.thr|);
      var k1 := WithContext(k.(thrcount := k.thrcount - 1), k.cur, InKill(t));
      CoreFrame(k, k1, -1);
      SendContext(k1, k.thr[t].parent, t);
    }
  }

  lemma StepContext(k: Kernel, op: Op)
    requires Inv(k) && ContextInv(k) && Enabled(k, op)
    ensures ContextInv(Apply(k, op))
  {
    if op.Tick? || op.CallSleep? || op.CallRecvtime? { TimeContext(k, op); }
    else if op.CallWait? || op.CallSignal? || op.CallSignaln? || op.CallSemfree? { SemaphoreContext(k, op); }
    else if op.CallReceive? || op.ReceiveReturns? || op.RecvtimeReturns? || op.CallRecvclr? { ReceiveContext(k, op); }
    else { OtherContext(k, op); }
  }

  ghost predicate Good(k: Kernel) { Inv(k) && ContextInv(k) }

  lemma BootGood(k: Kernel)
    requires Booted(k)
    ensures Good(k)
  {
  }

  lemma ContextVictims(k: Kernel)
    requires Shape(k) && ContextInv(k)
    ensures VictimsFit(k)
  {
    assert forall t :: 0 <= t < |k.thr| ==> ContextFits(k.thr[t], k.pc[t], |k.thr|);
  }

  /** The kernel invariant holds in every state of every run from a good state. */
  lemma {:induction false} RunGood(ks: seq<Kernel>, ops: seq<Op>, i: nat)
    requires Run(ks, ops) && Good(ks[0]) && i < |ks|
    ensures Good(ks[i])
  {
    hide CoreExcept, ContextInv, VictimsFit, Apply;
    if i > 0 {
      RunGood(ks, ops, i - 1);
      assert Step(ks[i - 1], ops[i - 1], ks[i]);
      ContextVictims(ks[i - 1]);
      StepInv(ks[i - 1], ops[i - 1]);
      StepContext(ks[i - 1], ops[i - 1]);
    }
  }

  /** The same, without what goes with contexts, when `ready` may wake any thread that is in no queue. */
  lemma {:induction false} WideRunInv(ks: seq<Kernel>, ops: seq<Op>, i: nat)
    requires WideRun(ks, ops) && Booted(ks[0]) && i < |ks|
    ensures Inv(ks[i]) && VictimsFit(ks[i])
  {
    if i > 0 {
      WideRunInv(ks, ops, i - 1);
      assert WideStep(ks[i - 1], ops[i - 1], ks[i]);
      StepInv(ks[i - 1], ops[i - 1]);
      StepVictims(ks[i - 1], ops[i - 1]);
    } else {
      BootGood(ks[0]);
      ContextVictims(ks[0]);
    }
  }

  /**
   In every state of every run from boot, a thread's state fixes its queue:
   a thread is in a queue exactly when that queue is the home of its state, so
   no thread is in two queues, and no queue holds a thread twice.  Exactly one
   thread is running, and it is live.
   */
  lemma StateFixesQueue(ks: seq<Kernel>, ops: seq<Op>, i: nat)
    requires WideRun(ks, ops) && Booted(ks[0]) && i < |ks|
    ensures var k := ks[i];
      && Shape(k)
      && (forall t, j :: 0 <= t < |k.thr| && 0 <= j < |k.q| ==> (t in k.q[j] <==> Home(k, t) == j))
      && (forall j :: 0 <= j < |k.q| ==> NoDup(k.q[j]))
      && (forall t :: 0 <= t < |k.thr| ==> (k.thr[t].state.Curr? <==> t == k.cur))
      && (forall t :: 0 <= t < |k.thr| && k.thr[t].state.Wait? ==> !k.BadSem(k.thr[t].sem))
  {
    WideRunInv(ks, ops, i);
    var k := ks[i];
    forall t | 0 <= t < |k.thr| && k.thr[t].state.Wait? ensures !k.BadSem(k.thr[t].sem) {
      assert Home(k, t) == k.thr[t].sem;
      assert |k.q[k.thr[t].sem]| == Waiting(k.sem[k.thr[t].sem]);
    }
  }

  /**
   In every state of every run from boot, the queue of a used semaphore has
   max(0, -count) waiters and that of a free one is empty.
   */
  lemma SemaphoreLaw(ks: seq<Kernel>, ops: seq<Op>, i: nat, s: nat)
    requires WideRun(ks, ops) && Booted(ks[0]) && i < |ks| && s < |ks[i].sem|
    ensures var k := ks[i];
      && |k.q| == |k.sem| + 2
      && (k.sem[s].used ==> |k.q[s]| == if k.sem[s].count < 0 then -k.sem[s].count else 0)
      && (!k.sem[s].used ==> k.q[s] == [])
  {
    WideRunInv(ks, ops, i);
  }

  /**
   The null thread is always ready or running, so `resched` always finds a
   thread to switch to: no run ever loses the processor.
   */
  lemma NullThreadAlwaysRuns(ks: seq<Kernel>, ops: seq<Op>, i: nat)
    requires WideRun(ks, ops) && Booted(ks[0]) && i < |ks|
    ensures var k := ks[i];
      && 0 <= k.cur < |k.thr| && k.thr[k.cur].state.Curr?
      && (k.thr[NULLTHREAD].state.Ready? || k.thr[NULLTHREAD].state.Curr?)
      && !k.mode.Lost?
  {
    WideRunInv(ks, ops, i);
  }

  /** When a thread continues in `receive` after being blocked there, it has a message. */
  lemma ResumedReceiveHasMessage(ks: seq<Kernel>, ops: seq<Op>, i: nat)
    requires Run(ks, ops) && Booted(ks[0]) && i < |ops| && ops[i].ReceiveReturns?
    ensures 0 <= ks[i].cur < |ks[i].thr| && ks[i].thr[ks[i].cur].hasmsg
  {
    BootGood(ks[0]);
    RunGood(ks, ops, i);
    assert Step(ks[i], ops[i], ks[i + 1]);
    var k := ks[i];
    assert ContextFits(k.thr[k.cur], k.pc[k.cur], |k.thr|);
  }

  // ---------- a victim in a timed receive ----------

  /** The running thread is killing one that is in a timed receive. */
  ghost predicate KillsTimed(k: Kernel) {
    && Shape(k) && k.pc[k.cur].InKill?
    && var v := k.pc[k.cur].victim;
       0 < v < |k.thr| && k.thr[v].state.Tmout?
  }

  /** Thread 1, a child of the null thread, is running; thread 2 is suspended. */
  ghost predicate ChildRuns(k: Kernel) {
    && Shape(k) && |k.thr| >= 3 && k.mode.Up? && k.cur == 1 && k.thrcount == 3 && k.q[k.R()] == [0] && k.q[k.S()] == []
    && k.pc[0].Running? && k.thr[0].state.Ready? && k.thr[0].prio == 0 && !k.thr[0].hasmsg
    && k.pc[1].Running? && k.thr[1].state.Curr? && k.thr[1].prio == 20 && !k.thr[1].hasmsg && k.thr[1].parent == 0
    && k.thr[2].state.Susp? && k.thr[2].parent == 0
  }

  /** Both children of the null thread are suspended. */
  ghost predicate ChildrenWait(k: Kernel) {
    && Shape(k) && |k.thr| >= 3 && k.mode.Up? && k.cur == 0 && k.thrcount == 3 && k.q[k.R()] == [] && k.q[k.S()] == []
    && k.pc[0].Running? && k.thr[0].state.Curr? && k.thr[0].prio == 0 && !k.thr[0].hasmsg
    && k.pc[1].Running? && k.thr[1].state.Susp? && k.thr[1].prio == 20 && !k.thr[1].hasmsg && k.thr[1].parent == 0
    && k.thr[2].state.Susp? && k.thr[2].parent == 0
  }

  lemma ChildrenCreated(k0: Kernel)
    requires Booted(k0) && |k0.thr| >= 3
    ensures exists k1, k2 :: Step(k0, CallCreate(1, 20), k1) && Step(k1, CallCreate(2, 20), k2) && ChildrenWait(k2)
  {
    var k1 := Apply(k0, CallCreate(1, 20));
    var k2 := Apply(k1, CallCreate(2, 20));
    assert Step(k0, CallCreate(1, 20), k1) && Step(k1, CallCreate(2, 20), k2) && ChildrenWait(k2);
  }

  lemma ChildStarts(k2: Kernel)
    requires ChildrenWait(k2)
    ensures exists k3 :: Step(k2, CallResume(1), k3) && ChildRuns(k3)
  {
    var k := MakeReady(k2, 1);
    assert k.q[k.R()] == [1];
    var k' := MakeReady(k, 0);
    assert k'.q[k.R()] == [1, 0];
    var k3 := Apply(k2, CallResume(1));
    assert k3 == Dispatch(k');
    assert Step(k2, CallResume(1), k3) && ChildRuns(k3);
  }

  lemma ChildIsKilled(k3: Kernel)
    requires ChildRuns(k3)
    ensures exists k4, k5 :: Step(k3, CallRecvtime(0), k4) && Step(k4, CallKill(1), k5) && KillsTimed(k5)
  {
    hide DeltaPos;
    var k4 := Apply(k3, CallRecvtime(0));
    assert k4.cur == 0 && k4.thr[1].state.Tmout?;
    var k5 := Apply(k4, CallKill(1));
    assert KillsTimed(k5);
    assert Step(k3, CallRecvtime(0), k4) && Step(k4, CallKill(1), k5);
  }

  /** Such a state can be reached from boot, and finishing the `kill` there breaks the invariant. */
  lemma TimedVictimReached(k0: Kernel)
    requires Booted(k0) && |k0.thr| >= 3
    ensures exists ks: seq<Kernel>, ops: seq<Op> :: Run(ks, ops) && ks[0] == k0 && KillsTimed(ks[|ks| - 1])
  {
    hide Step, ChildrenWait, ChildRuns, KillsTimed, Booted;
    ChildrenCreated(k0);
    var k1, k2 :| Step(k0, CallCreate(1, 20), k1) && Step(k1, CallCreate(2, 20), k2) && ChildrenWait(k2);
    ChildStarts(k2);
    var k3 :| Step(k2, CallResume(1), k3) && ChildRuns(k3);
    ChildIsKilled(k3);
    var k4, k5 :| Step(k3, CallRecvtime(0), k4) && Step(k4, CallKill(1), k5) && KillsTimed(k5);
    var ks := [k0, k1, k2, k3, k4, k5];
    var ops := [CallCreate(1, 20), CallCreate(2, 20), CallResume(1), CallRecvtime(0), CallKill(1)];
    assert Run(ks, ops);
  }

  lemma TimedVictimBreaks(k: Kernel)
    requires Good(k) && KillsTimed(k)
    ensures !Inv(KillEnd(k))
  {
    var k1 := WithContext(k, k.cur, Running);
    ContextKeeps(k, k.cur, Running, -1);
    RemoveExactly(k1, k.pc[k.cur].victim);
  }
}
