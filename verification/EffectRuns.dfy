/** The effects of calls over whole runs: until something is done to a thread or semaphore, it stays as it is. */
module EffectRuns {
  import opened Queues
  import opened QueueTables
  import opened KernelState
  import opened KernelInvariant
  import opened KernelRuns
  import opened CallEffects
  import Scheduling

  // ---------- threads that are in no queue ----------

  /** Steps that change the state of a suspended, receiving or free thread t. */
  ghost predicate Moves(k: Kernel, op: Op, t: int)
    requires Shape(k) && 0 <= t < |k.thr|
  {
    match op
    case CallCreate(u, _) => u == t
    case CallReady(u) => u == t && !k.thr[t].state.Free?
    case CallResume(u) => u == t && k.thr[t].state.Susp?
    case CallSend(u, _) => u == t && k.thr[t].state.Recv?
    case CallKill(u) => !k.BadTid(u) && k.thr[u].parent == t && k.thr[t].state.Recv?
    case KillReturns => k.pc[k.cur].InKill? && k.pc[k.cur].victim == t
    case _ => false
  }

  lemma {:induction false} SignalTimesEntry(k: Kernel, s: int, n: nat, t: int)
    requires Shape(k) && 0 <= s < |k.sem| && 0 <= t < |k.thr| && t !in k.q[s]
    ensures SignalTimes(k, s, n).thr[t] == k.thr[t] && t !in SignalTimes(k, s, n).q[s] && SignalTimes(k, s, n).cur == k.cur
  {
    hide InsertPos;
    if n > 0 { SignalTimesEntry(k, s, n - 1, t); }
  }

  lemma {:induction false} WakeupEntry(k: Kernel, t: int)
    requires Shape(k) && 0 <= t < |k.thr| && t !in k.q[k.S()]
    ensures Wakeup(k).thr[t] == k.thr[t] && Wakeup(k).cur == k.cur
    decreases |k.q[k.S()]|
  {
    hide InsertPos;
    var s := k.q[k.S()];
    if s != [] && k.key[s[0]] <= 0 { WakeupEntry(ReadyThread(Popped(k, k.S()), s[0]), t); }
  }

  /** A thread that is neither running nor ready is not touched by a reschedule. */
  lemma ReschedEntry(k: Kernel, t: int)
    requires Core(k) && !k.thr[k.cur].state.Ready? && 0 <= t < |k.thr| && t != k.cur && !k.thr[t].state.Ready?
    ensures Resched(k).thr[t] == k.thr[t]
  {
    ReschedSwitches(k);
  }

  /** Thread t is suspended, receiving or free: in no queue and not running. */
  ghost predicate Parked(k: Kernel, t: int) {
    0 <= t < |k.thr| && (k.thr[t].state.Susp? || k.thr[t].state.Recv? || k.thr[t].state.Free?)
  }

  lemma ParkedSemaphore(k: Kernel, op: Op, t: int)
    requires Inv(k) && WideEnabled(k, op) && Parked(k, t)
    requires op.CallWait? || op.CallSignal? || op.CallSignaln? || op.CallSemfree?
    ensures Apply(k, op).thr[t] == k.thr[t]
  {
    hide Placed, SemLaw, NullRuns, LegalPriorities, SortedBy, OnlyCur, InsertPos, Resched, SignalTimes, SignalCore, Drain;
    Homeless(k, t);
    if !k.BadSem(op.s) {
      match op
      case CallWait(s) =>
        if k.sem[s].count <= 0 {
          BlockedKeeps(k, s);
          ReschedEntry(Blocked(WithCount(k, s, k.sem[s].count - 1), s), t);
        }
      case CallSignal(s) =>
        Scheduling.SignalTimesOnce(k, s);
        SignalTimesEntry(k, s, 1, t);
        SignalTimesKeeps(k, s, 1);
        ReschedEntry(SignalCore(k, s), t);
      case CallSignaln(s, n) =>
        if n > 0 {
          SignalTimesEntry(k, s, n, t);
          SignalTimesKeeps(k, s, n);
          ReschedEntry(SignalTimes(k, s, n), t);
        }
      case CallSemfree(s) => DrainEffect(k, s);
    }
  }

  lemma ParkedTime(k: Kernel, op: Op, t: int)
    requires Inv(k) && WideEnabled(k, op) && Parked(k, t)
    requires op.Tick? || op.CallSleep? || op.CallRecvtime? || op.CallReceive? || op.CallYield?
    ensures Apply(k, op).thr[t] == k.thr[t]
  {
    hide Placed, SemLaw, NullRuns, LegalPriorities, SortedBy, OnlyCur, InsertPos, Resched, Wakeup, DeltaPos;
    Homeless(k, t);
    match op
    case Tick =>
      if k.q[k.S()] == [] {
        ReschedEntry(k, t);
      } else {
        TickedKeeps(k);
        WakeupEntry(Ticked(k), t);
        WakeupKeeps(Ticked(k));
        ReschedEntry(Wakeup(Ticked(k)), t);
      }
    case CallSleep(ms) =>
      if SleepTicks(ms) > 0 {
        AsleepKeeps(k, SleepTicks(ms), Sleep);
        ReschedEntry(Asleep(k, SleepTicks(ms), Sleep), t);
      } else {
        ReschedEntry(k, t);
      }
    case CallRecvtime(maxwait) =>
      if maxwait >= 0 && !k.thr[k.cur].hasmsg {
        AsleepKeeps(k, maxwait, Tmout);
        ContextKeeps(Asleep(k, maxwait, Tmout), k.cur, InRecvtime, -1);
        ReschedEntry(WithContext(Asleep(k, maxwait, Tmout), k.cur, InRecvtime), t);
      }
    case CallReceive => ReceiveEffect(k); ParkedNotChosen(k, t);
    case CallYield => ReschedEntry(k, t);
  }

  /** A blocking `receive` does not switch to a parked thread. */
  lemma ParkedNotChosen(k: Kernel, t: int)
    requires Inv(k) && (k.cur == NULLTHREAD ==> k.thr[k.cur].hasmsg) && Parked(k, t)
    ensures ReceiveBegin(k).thr[t] == k.thr[t]
  {
    hide Placed, SemLaw, NullRuns, LegalPriorities, SortedBy, OnlyCur, Resched;
    if !k.thr[k.cur].hasmsg {
      Lift(k, k.cur);
      Settle(k, k.cur, Recv);
      ContextKeeps(WithState(k, k.cur, Recv), k.cur, InReceive, -1);
      ReschedEntry(WithContext(WithState(k, k.cur, Recv), k.cur, InReceive), t);
    }
  }

  /** `send` to u leaves the state of every parked thread alone, but that of a receiving u. */
  lemma ParkedSend(k: Kernel, u: int, msg: int, t: int)
    requires Inv(k) && Parked(k, t) && (u == t ==> !k.thr[t].state.Recv?)
    ensures Send(k, u, msg).thr[t].state == k.thr[t].state
  {
    hide Placed, SemLaw, NullRuns, LegalPriorities, SortedBy, InsertPos, Resched, MakeReady, Send;
    SendEffect(k, u, msg);
    SendKeeps(k, u, msg);
    var k' := Send(k, u, msg);
    if Accepts(k, u) && u != t && k'.cur == t { SendNotChosen(k, u, msg, t); }
  }

  lemma SendNotChosen(k: Kernel, u: int, msg: int, t: int)
    requires Inv(k) && Parked(k, t) && u != t
    ensures Send(k, u, msg).thr[t] == k.thr[t]
  {
    hide SemLaw, NullRuns, LegalPriorities, SortedBy, OnlyCur, InsertPos, Resched;
    if Accepts(k, u) {
      var k1 := Deposit(k, u, msg);
      CoreFrame(k, k1, -1);
      if k1.thr[u].state.Recv? {
        Lift(k1, u);
        MakeReadyKeeps(k1, u);
        ReschedEntry(MakeReady(k1, u), t);
      } else if k1.thr[u].state.Tmout? {
        assert Home(k1, u) == k1.S();
        AwokenKeeps(k1, u);
        MakeReadyKeeps(Awoken(k1, u), u);
        ReschedEntry(MakeReady(Awoken(k1, u), u), t);
      }
    }
  }

  lemma ParkedResume(k: Kernel, u: int, t: int)
    requires Inv(k) && Parked(k, t) && (u == t ==> !k.thr[t].state.Susp?)
    ensures Resume(k, u).thr[t] == k.thr[t]
  {
    hide SemLaw, NullRuns, LegalPriorities, SortedBy, InsertPos, Resched, MakeReady;
    if !k.BadTid(u) && k.thr[u].state.Susp? {
      Lift(k, u);
      MakeReadyKeeps(k, u);
      MadeReadyEntry(k, u);
      ReschedEntry(MakeReady(k, u), t);
    }
  }

  lemma ParkedSuspend(k: Kernel, u: int, t: int)
    requires Inv(k) && Parked(k, t)
    ensures Suspend(k, u).thr[t] == k.thr[t]
  {
    hide Placed, SemLaw, NullRuns, LegalPriorities, SortedBy, Resched;
    if !k.BadTid(u) && u != NULLTHREAD && k.thr[u].state.Curr? {
      Lift(k, u);
      Settle(k, u, Susp);
      ReschedEntry(WithState(k, u, Susp), t);
    }
  }

  lemma ParkedKillCall(k: Kernel, u: int, t: int)
    requires Inv(k) && Parked(k, t) && !Moves(k, CallKill(u), t)
    ensures KillBegin(k, u).thr[t].state == k.thr[t].state
  {
    hide Placed, SemLaw, NullRuns, LegalPriorities, SortedBy, OnlyCur, Send;
    if !k.BadTid(u) && u != NULLTHREAD && k.thrcount - 1 > 1 {
      var k1 := WithContext(k.(thrcount := k.thrcount - 1), k.cur, InKill(u));
      CoreFrame(k, k1, -1);
      ParkedSend(k1, k.thr[u].parent, u, t);
    }
  }

  lemma ParkedKillReturn(k: Kernel, t: int)
    requires Inv(k) && VictimsFit(k) && WideEnabled(k, KillReturns) && Parked(k, t) && !Moves(k, KillReturns, t)
    ensures KillEnd(k).thr[t] == k.thr[t]
  {
    hide Placed, SemLaw, NullRuns, LegalPriorities, SortedBy, OnlyCur, Remove;
    var k1, v := WithContext(k, k.cur, Running), k.pc[k.cur].victim;
    ContextKeeps(k, k.cur, Running, -1);
    if v == k.cur { RemovedNotChosen(k1, t); } else { RemoveEffect(k1, v); }
  }

  lemma ParkedLife(k: Kernel, op: Op, t: int)
    requires Inv(k) && VictimsFit(k) && WideEnabled(k, op) && Parked(k, t) && !Moves(k, op, t)
    requires op.CallCreate? || op.CallReady? || op.CallResume? || op.CallSuspend? || op.CallChprio? || op.CallSend? || op.CallKill? || op.KillReturns?
    ensures Apply(k, op).thr[t].state == k.thr[t].state
  {
    hide Placed, SemLaw, NullRuns, LegalPriorities, SortedBy, OnlyCur, VictimsFit, Create, ReadyThread, Resume, Suspend, Send, KillBegin, KillEnd;
    match op
    case CallCreate(u, prio) => CreateEffect(k, u, prio);
    case CallReady(u) => if k.BadTid(u) { BadReady(k, u); } else { ReadyEffect(k, u); }
    case CallResume(u) => ParkedResume(k, u, t);
    case CallSuspend(u) => ParkedSuspend(k, u, t);
    case CallSend(u, msg) => ParkedSend(k, u, msg, t);
    case CallKill(u) => ParkedKillCall(k, u, t);
    case KillReturns => ParkedKillReturn(k, t);
    case CallChprio(_, _) =>
  }

  lemma BadReady(k: Kernel, u: int)
    requires Shape(k) && k.BadTid(u)
    ensures ReadyThread(k, u) == k
  {
  }

  lemma MadeReadyEntry(k: Kernel, u: int)
    requires Shape(k) && 0 <= u < |k.thr|
    ensures MakeReady(k, u).thr == k.thr[u := k.thr[u].(state := Ready)] && MakeReady(k, u).cur == k.cur
  {
  }

  lemma RemovedNotChosen(k: Kernel, t: int)
    requires Inv(k) && Parked(k, t) && k.cur != NULLTHREAD
    ensures Remove(k, k.cur).thr[t] == k.thr[t]
  {
    hide Placed, SemLaw, NullRuns, LegalPriorities, SortedBy, OnlyCur, Resched;
    Lift(k, k.cur);
    Settle(k, k.cur, Free);
    ReschedEntry(WithState(k, k.cur, Free), t);
  }

  lemma ParkedQuiet(k: Kernel, op: Op, t: int)
    requires Inv(k) && WideEnabled(k, op) && Parked(k, t)
    requires op.CallSemcreate? || op.CallRecvclr? || op.ReceiveReturns? || op.RecvtimeReturns?
    ensures Apply(k, op).thr[t] == k.thr[t]
  {
    hide Placed, SemLaw, NullRuns, LegalPriorities, SortedBy, OnlyCur;
  }

  /** A parked thread keeps its state in every step that does not move it. */
  lemma ParkedStep(k: Kernel, op: Op, t: int)
    requires Inv(k) && VictimsFit(k) && WideEnabled(k, op) && Parked(k, t) && !Moves(k, op, t)
    ensures Parked(Apply(k, op), t) && Apply(k, op).thr[t].state == k.thr[t].state
  {
    hide Placed, SemLaw, NullRuns, LegalPriorities, SortedBy, OnlyCur, VictimsFit, Moves, Apply;
    if op.CallWait? || op.CallSignal? || op.CallSignaln? || op.CallSemfree? { ParkedSemaphore(k, op, t); }
    else if op.Tick? || op.CallSleep? || op.CallRecvtime? || op.CallReceive? || op.CallYield? { ParkedTime(k, op, t); }
    else if op.CallSemcreate? || op.CallRecvclr? || op.ReceiveReturns? || op.RecvtimeReturns? { ParkedQuiet(k, op, t); }
    else { ParkedLife(k, op, t); }
  }

  /**
   In every run from boot a suspended thread never runs until a `resume` or
   `ready` of it, a receiving one until a message for it, a free slot until a
   `create`: as long as no step moves it, a parked thread keeps its state.
   */
  lemma {:induction false} ParkedStays(ks: seq<Kernel>, ops: seq<Op>, a: nat, i: nat, t: int)
    requires WideRun(ks, ops) && Booted(ks[0]) && a <= i < |ks| && Parked(ks[a], t)
    requires forall j :: a <= j < i ==> Shape(ks[j]) && t < |ks[j].thr| && !Moves(ks[j], ops[j], t)
    ensures Parked(ks[i], t) && ks[i].thr[t].state == ks[a].thr[t].state && ks[i].cur != t
  {
    hide CoreExcept, VictimsFit, Moves, Apply;
    WideRunInv(ks, ops, i);
    if a < i {
      ParkedStays(ks, ops, a, i - 1, t);
      WideRunInv(ks, ops, i - 1);
      assert WideStep(ks[i - 1], ops[i - 1], ks[i]);
      ParkedStep(ks[i - 1], ops[i - 1], t);
    }
  }

  /**
   After `suspend` of a ready or running thread, in every run from boot, that
   thread is suspended and does not run until it is resumed, made ready or removed.
   */
  lemma SuspendedStays(ks: seq<Kernel>, ops: seq<Op>, a: nat, i: nat, t: int)
    requires WideRun(ks, ops) && Booted(ks[0]) && a < i < |ks| && ops[a] == CallSuspend(t)
    requires Shape(ks[a]) && !ks[a].BadTid(t) && t != NULLTHREAD && (ks[a].thr[t].state.Ready? || ks[a].thr[t].state.Curr?)
    requires forall j :: a < j < i ==>
      Shape(ks[j]) && ops[j] != CallResume(t) && ops[j] != CallReady(t) && !(ops[j].KillReturns? && ks[j].pc[ks[j].cur] == InKill(t))
    ensures 0 <= t < |ks[i].thr| && ks[i].thr[t].state.Susp? && ks[i].cur != t
  {
    hide CoreExcept, VictimsFit, Suspend;
    WideRunInv(ks, ops, a);
    assert WideStep(ks[a], ops[a], ks[a + 1]);
    SuspendEffect(ks[a], t);
    SuspendedOn(ks, ops, a + 1, i, t);
    WideRunInv(ks, ops, i);
  }

  lemma {:induction false} SuspendedOn(ks: seq<Kernel>, ops: seq<Op>, a: nat, i: nat, t: int)
    requires WideRun(ks, ops) && Booted(ks[0]) && a <= i < |ks| && Parked(ks[a], t) && ks[a].thr[t].state.Susp?
    requires forall j :: a <= j < i ==>
      Shape(ks[j]) && ops[j] != CallResume(t) && ops[j] != CallReady(t) && !(ops[j].KillReturns? && ks[j].pc[ks[j].cur] == InKill(t))
    ensures Parked(ks[i], t) && ks[i].thr[t].state.Susp?
  {
    hide CoreExcept, VictimsFit, Apply;
    if a < i {
      SuspendedOn(ks, ops, a, i - 1, t);
      WideRunInv(ks, ops, i - 1);
      assert WideStep(ks[i - 1], ops[i - 1], ks[i]);
      ParkedStep(ks[i - 1], ops[i - 1], t);
    }
  }

  // ---------- kill ----------

  /** A saved context changes only when its thread makes a call, or with the thread that is created in its slot. */
  lemma ContextStays(k: Kernel, op: Op, t: int)
    requires Shape(k) && WideEnabled(k, op) && 0 <= t < |k.thr| && (t == k.cur ==> op.Tick?) && !(op.CallCreate? && op.tid == t)
    ensures Apply(k, op).pc[t] == k.pc[t]
  {
    hide ReadyThread, Resched, SemWait, SemSignal, SemSignaln, SemFree, SemCreate, SleepFor, ClockTick, TakeMessage, Send,
      Suspend, Resume, Chprio, Remove, Asleep;
  }

  lemma {:induction false} ContextWaits(ks: seq<Kernel>, ops: seq<Op>, a: nat, i: nat, t: int)
    requires WideRun(ks, ops) && Booted(ks[0]) && a <= i < |ks| && 0 <= t < |ks[a].thr|
    requires forall j :: a <= j < i ==> (ks[j].cur == t ==> ops[j].Tick?) && !(ops[j].CallCreate? && ops[j].tid == t)
    ensures |ks[i].thr| == |ks[i].pc| == |ks[a].thr| == |ks[a].pc| && ks[i].pc[t] == ks[a].pc[t]
  {
    hide Placed, SemLaw, NullRuns, LegalPriorities, SortedBy, OnlyCur, VictimsFit, Apply;
    WideRunInv(ks, ops, i);
    WideRunInv(ks, ops, a);
    if a < i {
      ContextWaits(ks, ops, a, i - 1, t);
      assert WideStep(ks[i - 1], ops[i - 1], ks[i]);
      ContextStays(ks[i - 1], ops[i - 1], t);
    }
  }

  /** When a `kill` returns, its victim is free and in no queue, in every run from boot. */
  lemma VictimIsFree(ks: seq<Kernel>, ops: seq<Op>, i: nat)
    requires WideRun(ks, ops) && Booted(ks[0]) && i < |ops| && ops[i].KillReturns?
    ensures Shape(ks[i]) && ks[i].pc[ks[i].cur].InKill?
    ensures var v, k := ks[i].pc[ks[i].cur].victim, ks[i + 1];
      0 < v < |k.thr| && k.thr[v].state.Free? && Unqueued(k.q, v) && k.cur != v
  {
    hide Placed, SemLaw, NullRuns, LegalPriorities, SortedBy, OnlyCur, Remove;
    WideRunInv(ks, ops, i);
    WideRunInv(ks, ops, i + 1);
    var k := ks[i];
    assert WideStep(k, ops[i], ks[i + 1]);
    ContextKeeps(k, k.cur, Running, -1);
    RemoveEffect(WithContext(k, k.cur, Running), k.pc[k.cur].victim);
  }

  /** A thread c that calls `kill(t)` and later continues has freed t by the time its call returns. */
  lemma KillCompletes(ks: seq<Kernel>, ops: seq<Op>, a: nat, i: nat, t: int)
    requires WideRun(ks, ops) && Booted(ks[0]) && a < i < |ops| && ops[a] == CallKill(t)
    requires Shape(ks[a]) && !ks[a].BadTid(t) && t != NULLTHREAD && ks[a].thrcount > 2
    requires ops[i].KillReturns? && ks[i].cur == ks[a].cur
    requires forall j :: a < j < i ==>
      (ks[j].cur == ks[a].cur ==> ops[j].Tick?) && !(ops[j].CallCreate? && ops[j].tid == ks[a].cur)
    ensures 0 <= t < |ks[i + 1].thr| && ks[i + 1].thr[t].state.Free? && Unqueued(ks[i + 1].q, t)
  {
    hide CoreExcept, VictimsFit, KillBegin;
    WideRunInv(ks, ops, a);
    WideRunInv(ks, ops, a + 1);
    assert WideStep(ks[a], ops[a], ks[a + 1]);
    KillCallEffect(ks[a], t);
    ContextWaits(ks, ops, a + 1, i, ks[a].cur);
    VictimIsFree(ks, ops, i);
  }

  // ---------- a new semaphore ----------

  /** The `wait` calls on semaphore s among the steps from a up to b. */
  function Waits(ops: seq<Op>, s: int, a: nat, b: nat): nat
    requires a <= b <= |ops|
    decreases b
  {
    if a == b then 0 else Waits(ops, s, a, b - 1) + (if ops[b - 1] == CallWait(s) then 1 else 0)
  }

  /**
   As long as nobody signals or frees a semaphore created with a given count, in
   every run from boot, exactly the first so many `wait`s on it pass: the count
   left is what was asked for less the waits, and never positive after that
   many; so a `wait` blocks if and only if that many came before it.
   */
  lemma {:induction false} NewSemaphore(ks: seq<Kernel>, ops: seq<Op>, a: nat, i: nat, s: int, count: int)
    requires WideRun(ks, ops) && Booted(ks[0]) && a < i < |ks| && ops[a] == CallSemcreate(s, count)
    requires forall j :: a < j < i ==> !(ops[j].CallSignal? && ops[j].s == s) && !(ops[j].CallSignaln? && ops[j].s == s) && ops[j] != CallSemfree(s)
    ensures var k, n := ks[i], Waits(ops, s, a + 1, i);
      && Shape(k) && 0 <= s < |k.sem| && k.sem[s].used
      && (n <= count ==> k.sem[s].count == count - n) && (n >= count ==> k.sem[s].count <= 0)
      && (KernelRuns.Blocks(k, CallWait(s)) <==> n >= count)
  {
    hide Placed, NullRuns, LegalPriorities, SortedBy, OnlyCur, VictimsFit, Apply, SemLaw;
    WideRunInv(ks, ops, i);
    WideRunInv(ks, ops, i - 1);
    var k, op := ks[i - 1], ops[i - 1];
    assert WideStep(k, op, ks[i]);
    if a < i - 1 { NewSemaphore(ks, ops, a, i - 1, s, count); }
    SemaphoreStep(k, op, s);
    if op.KillReturns? && KillsWaiter(k, s) { WaiterMeansNegative(k, s); }
  }

  lemma WaiterMeansNegative(k: Kernel, s: int)
    requires Inv(k) && 0 <= s < |k.sem| && KillsWaiter(k, s)
    ensures k.sem[s].count < 0
  {
    var v := k.pc[k.cur].victim;
    assert Home(k, v) == s && v in k.q[s];
    assert |k.q[s]| == Waiting(k.sem[s]);
  }
}
