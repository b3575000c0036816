/** The counter `thrcount`, the live threads, and when `kill` halts the system. */
module ThreadCounts {
  import opened Queues
  import opened QueueTables
  import opened KernelState
  import opened KernelInvariant
  import opened KernelRuns
  import opened CallEffects
  import opened Semaphores

  const LIVE: Thread -> bool := (th: Thread) => !th.state.Free?
  const KILLING: Context -> bool := (c: Context) => c.InKill?

  function Live(k: Kernel): nat { Tally(k.thr, LIVE) }

  /** How many `kill` calls are between their two parts. */
  function Killing(k: Kernel): nat { Tally(k.pc, KILLING) }

  lemma {:induction false} TallySame<S>(s: seq<S>, s': seq<S>, p: S -> bool)
    requires |s'| == |s| && forall t :: 0 <= t < |s| ==> p(s'[t]) == p(s[t])
    ensures Tally(s', p) == Tally(s, p)
  {
    if s != [] { TallySame(s[..|s| - 1], s'[..|s| - 1], p); }
  }

  // ---------- one step ----------

  /** The same threads are live. */
  ghost predicate SameLife(k: Kernel, k': Kernel) {
    |k'.thr| == |k.thr| && forall t :: 0 <= t < |k.thr| ==> (k'.thr[t].state.Free? <==> k.thr[t].state.Free?)
  }

  lemma WokeLife(k: Kernel, k': Kernel)
    requires OnlyWoke(k, k')
    ensures SameLife(k, k')
  {
    assert forall t :: 0 <= t < |k.thr| ==> Woke(k.thr[t], k'.thr[t]);
  }

  lemma ReschedLife(k: Kernel)
    requires Core(k)
    ensures SameLife(k, Resched(k))
  {
    ReschedWakes(k);
    WokeLife(k, Resched(k));
  }

  lemma SemaphoreLife(k: Kernel, op: Op)
    requires Inv(k) && WideEnabled(k, op)
    requires op.CallWait? || op.CallSignal? || op.CallSignaln? || op.CallSemfree?
    ensures SameLife(k, Apply(k, op))
  {
    hide Placed, SemLaw, OnlyCur, NullRuns, LegalPriorities, SortedBy, Resched, SignalTimes, SignalCore, Drain, OnlyWoke;
    if !k.BadSem(op.s) {
      match op
      case CallWait(s) =>
        if k.sem[s].count <= 0 {
          BlockedKeeps(k, s);
          ReschedLife(Blocked(WithCount(k, s, k.sem[s].count - 1), s));
        }
      case CallSignal(s) =>
        SignalCoreKeeps(k, s);
        SignalCoreWakes(k, s);
        WokeLife(k, SignalCore(k, s));
        ReschedLife(SignalCore(k, s));
      case CallSignaln(s, n) =>
        if n > 0 {
          SignalTimesKeeps(k, s, n);
          SignalTimesWakes(k, s, n);
          WokeLife(k, SignalTimes(k, s, n));
          ReschedLife(SignalTimes(k, s, n));
        }
      case CallSemfree(s) =>
        DrainWakes(k, s);
        WokeLife(k, Drain(k, s));
    }
  }

  lemma TimeLife(k: Kernel, op: Op)
    requires Inv(k) && WideEnabled(k, op)
    requires op.Tick? || op.CallSleep? || op.CallRecvtime? || op.CallReceive? || op.CallYield?
    ensures SameLife(k, Apply(k, op))
  {
    hide Placed, SemLaw, OnlyCur, NullRuns, LegalPriorities, SortedBy, Resched, Wakeup, OnlyWoke, DeltaPos;
    match op
    case Tick =>
      if k.q[k.S()] == [] {
        ReschedLife(k);
      } else {
        TickedKeeps(k);
        WakeupKeeps(Ticked(k));
        WakeupWakes(Ticked(k));
        WokeLife(Ticked(k), Wakeup(Ticked(k)));
        ReschedLife(Wakeup(Ticked(k)));
      }
    case CallSleep(ms) =>
      if SleepTicks(ms) > 0 {
        AsleepKeeps(k, SleepTicks(ms), Sleep);
        ReschedLife(Asleep(k, SleepTicks(ms), Sleep));
      } else {
        ReschedLife(k);
      }
    case CallRecvtime(maxwait) =>
      if maxwait >= 0 && !k.thr[k.cur].hasmsg {
        AsleepKeeps(k, maxwait, Tmout);
        ContextKeeps(Asleep(k, maxwait, Tmout), k.cur, InRecvtime, -1);
        ReschedLife(WithContext(Asleep(k, maxwait, Tmout), k.cur, InRecvtime));
      }
    case CallReceive =>
      if !k.thr[k.cur].hasmsg {
        Lift(k, k.cur);
        Settle(k, k.cur, Recv);
        ContextKeeps(WithState(k, k.cur, Recv), k.cur, InReceive, -1);
        ReschedLife(WithContext(WithState(k, k.cur, Recv), k.cur, InReceive));
      }
    case CallYield => ReschedLife(k);
  }

  lemma SendLife(k: Kernel, t: int, msg: int)
    requires Inv(k)
    ensures SameLife(k, Send(k, t, msg))
  {
    hide SemLaw, OnlyCur, NullRuns, LegalPriorities, SortedBy, InsertPos, Resched;
    if Accepts(k, t) {
      var k1 := Deposit(k, t, msg);
      CoreFrame(k, k1, -1);
      if k1.thr[t].state.Recv? {
        Lift(k1, t);
        MakeReadyKeeps(k1, t);
        ReschedLife(MakeReady(k1, t));
      } else if k1.thr[t].state.Tmout? {
        assert Home(k1, t) == k1.S();
        AwokenKeeps(k1, t);
        MakeReadyKeeps(Awoken(k1, t), t);
        ReschedLife(MakeReady(Awoken(k1, t), t));
      }
    }
  }

  lemma OtherLife(k: Kernel, op: Op)
    requires Inv(k) && WideEnabled(k, op)
    requires op.CallReady? || op.CallResume? || op.CallSuspend? || op.CallChprio? || op.CallSend? || op.CallKill?
      || op.CallSemcreate? || op.CallRecvclr? || op.ReceiveReturns? || op.RecvtimeReturns?
    ensures SameLife(k, Apply(k, op))
  {
    hide Placed, SemLaw, OnlyCur, NullRuns, LegalPriorities, SortedBy, InsertPos, Resched, Send;
    match op
    case CallResume(t) =>
      if !k.BadTid(t) && k.thr[t].state.Susp? {
        Lift(k, t);
        MakeReadyKeeps(k, t);
        ReschedLife(MakeReady(k, t));
      }
    case CallSuspend(t) =>
      if !k.BadTid(t) && t != NULLTHREAD && k.thr[t].state.Curr? {
        Lift(k, t);
        Settle(k, t, Susp);
        ReschedLife(WithState(k, t, Susp));
      }
    case CallSend(t, msg) => SendLife(k, t, msg);
    case CallKill(t) =>
      if !k.BadTid(t) && t != NULLTHREAD && k.thrcount - 1 > 1 {
        var k1 := WithContext(k.(thrcount := k.thrcount - 1), k.cur, InKill(t));
        CoreFrame(k, k1, -1);
        SendLife(k1, k.thr[t].parent, t);
      }
    case _ =>
  }

  /** A `kill` that is accepted. */
  ghost predicate Accepted(k: Kernel, op: Op) {
    op.CallKill? && !k.BadTid(op.tid) && op.tid != NULLTHREAD
  }

  /** The second part of a `kill` whose victim is still live. */
  ghost predicate Removes(k: Kernel, op: Op) {
    && op.KillReturns? && Shape(k) && k.pc[k.cur].InKill?
    && var v := k.pc[k.cur].victim; 0 <= v < |k.thr| && !k.thr[v].state.Free?
  }

  function One(b: bool): int { if b then 1 else 0 }

  /** Only the end of a `kill` frees a thread. */
  lemma FreesOnly(k: Kernel, op: Op, t: int)
    requires Inv(k) && VictimsFit(k) && WideEnabled(k, op) && 0 <= t < |k.thr| && !k.thr[t].state.Free?
    requires !(op.KillReturns? && k.pc[k.cur] == InKill(t))
    ensures !Apply(k, op).thr[t].state.Free?
  {
    hide Placed, SemLaw, OnlyCur, NullRuns, LegalPriorities, SortedBy, Apply, KillEnd, Create;
    if op.CallCreate? {
      CreateEffect(k, op.tid, op.prio);
      ApplyCreate(k, op);
    } else if op.KillReturns? {
      KillFreesOnly(k, t);
      ApplyKillReturns(k);
    } else if op.CallWait? || op.CallSignal? || op.CallSignaln? || op.CallSemfree? { SemaphoreLife(k, op); }
    else if op.Tick? || op.CallSleep? || op.CallRecvtime? || op.CallReceive? || op.CallYield? { TimeLife(k, op); }
    else { OtherLife(k, op); }
  }

  lemma KillFreesOnly(k: Kernel, t: int)
    requires Inv(k) && VictimsFit(k) && WideEnabled(k, KillReturns) && 0 <= t < |k.thr| && !k.thr[t].state.Free?
    requires k.pc[k.cur] != InKill(t)
    ensures !KillEnd(k).thr[t].state.Free?
  {
    hide Placed, SemLaw, OnlyCur, NullRuns, LegalPriorities, SortedBy, Remove;
    ContextKeeps(k, k.cur, Running, -1);
    RemovedLife(WithContext(k, k.cur, Running), k.pc[k.cur].victim);
  }

  /** How the live threads change: a `create` makes one, a removal takes one. */
  lemma LiveStep(k: Kernel, op: Op)
    requires Inv(k) && VictimsFit(k) && WideEnabled(k, op)
    ensures Live(Apply(k, op)) == Live(k) + One(op.CallCreate?) - One(Removes(k, op))
  {
    hide Placed, SemLaw, OnlyCur, NullRuns, LegalPriorities, SortedBy, Tally, Apply, KillEnd, Create;
    var k' := Apply(k, op);
    if op.CallCreate? {
      CreateEffect(k, op.tid, op.prio);
      assert k' == Create(k, op.tid, op.prio) by { ApplyCreate(k, op); }
      TallyUpdate(k.thr, LIVE, op.tid, k'.thr[op.tid]);
    } else if op.KillReturns? {
      KillEndLife(k);
      assert k' == KillEnd(k) by { ApplyKillReturns(k); }
    } else {
      if op.CallWait? || op.CallSignal? || op.CallSignaln? || op.CallSemfree? { SemaphoreLife(k, op); }
      else if op.Tick? || op.CallSleep? || op.CallRecvtime? || op.CallReceive? || op.CallYield? { TimeLife(k, op); }
      else { OtherLife(k, op); }
      TallySame(k.thr, k'.thr, LIVE);
    }
  }

  lemma ApplyCreate(k: Kernel, op: Op)
    requires Shape(k) && WideEnabled(k, op) && op.CallCreate?
    ensures Apply(k, op) == Create(k, op.tid, op.prio)
  {
  }

  lemma ApplyKillReturns(k: Kernel)
    requires Shape(k) && WideEnabled(k, KillReturns)
    ensures Apply(k, KillReturns) == KillEnd(k)
  {
  }

  lemma KillEndLife(k: Kernel)
    requires Inv(k) && VictimsFit(k) && WideEnabled(k, KillReturns)
    ensures Live(KillEnd(k)) == Live(k) - One(Removes(k, KillReturns))
  {
    hide Placed, SemLaw, OnlyCur, NullRuns, LegalPriorities, SortedBy, Tally, Remove;
    var k1, v := WithContext(k, k.cur, Running), k.pc[k.cur].victim;
    ContextKeeps(k, k.cur, Running, -1);
    RemovedLife(k1, v);
    var thr1 := k.thr[v := k.thr[v].(state := Free)];
    TallyUpdate(k.thr, LIVE, v, thr1[v]);
    TallySame(thr1, KillEnd(k).thr, LIVE);
  }

  /** After a removal exactly the victim is no longer live. */
  lemma RemovedLife(k: Kernel, v: int)
    requires Inv(k) && 0 < v < |k.thr|
    ensures var k' := Remove(k, v);
      && |k'.thr| == |k.thr|
      && (forall t :: 0 <= t < |k.thr| ==> (k'.thr[t].state.Free? <==> k.thr[t].state.Free? || t == v))
  {
    hide Placed, SemLaw, NullRuns, LegalPriorities, SortedBy, Resched;
    RemoveEffect(k, v);
    if v == k.cur {
      Lift(k, v);
      Settle(k, v, Free);
      ReschedLife(WithState(k, v, Free));
    }
  }

  /** How the counter changes, and how many calls of `kill` are under way. */
  lemma CounterStep(k: Kernel, op: Op)
    requires Inv(k) && VictimsFit(k) && WideEnabled(k, op)
    ensures Apply(k, op).thrcount == k.thrcount + One(op.CallCreate?) - One(Accepted(k, op))
    ensures Killing(Apply(k, op)) <= Killing(k) + One(Accepted(k, op)) - One(op.KillReturns?)
  {
    hide Placed, SemLaw, OnlyCur, NullRuns, LegalPriorities, SortedBy, Tally, ReadyThread, Resched, SemWait, SemSignal, SemSignaln, SemFree,
      SemCreate, SleepFor, ClockTick, TakeMessage, Send, Suspend, Resume, Chprio, Remove, Asleep;
    match op
    case CallCreate(t, _) => TallyUpdate(k.pc, KILLING, t, Running);
    case CallReceive => TallyUpdate(k.pc, KILLING, k.cur, InReceive);
    case CallRecvtime(_) => TallyUpdate(k.pc, KILLING, k.cur, InRecvtime);
    case ReceiveReturns => TallyUpdate(k.pc, KILLING, k.cur, Running);
    case RecvtimeReturns => TallyUpdate(k.pc, KILLING, k.cur, Running);
    case KillReturns => TallyUpdate(k.pc, KILLING, k.cur, Running);
    case CallKill(t) => TallyUpdate(k.pc, KILLING, k.cur, InKill(t));
    case _ =>
  }

  // ---------- whole runs ----------

  ghost function Creates(ops: seq<Op>, i: nat): int
    requires i <= |ops|
  {
    if i == 0 then 0 else Creates(ops, i - 1) + One(ops[i - 1].CallCreate?)
  }

  ghost function Kills(ks: seq<Kernel>, ops: seq<Op>, i: nat): int
    requires i <= |ops| <= |ks|
  {
    if i == 0 then 0 else Kills(ks, ops, i - 1) + One(Accepted(ks[i - 1], ops[i - 1]))
  }

  ghost function Removals(ks: seq<Kernel>, ops: seq<Op>, i: nat): int
    requires i <= |ops| <= |ks|
  {
    if i == 0 then 0 else Removals(ks, ops, i - 1) + One(Removes(ks[i - 1], ops[i - 1]))
  }

  lemma BootCounts(k: Kernel)
    requires Booted(k)
    ensures Live(k) == 1 && Killing(k) == 0
  {
    hide Tally;
    TallyNone(k.pc, KILLING);
    var thr0 := k.thr[0 := k.thr[0].(state := Free)];
    TallyNone(thr0, LIVE);
    TallyUpdate(k.thr, LIVE, 0, thr0[0]);
  }

  /**
   In every run from boot `thrcount` is one plus the creates less the accepted
   kills, and the live threads are one plus the creates less the removals.
   There are never more removals than kills; so the counter is at most the
   number of live threads, and equal to it if and only if every accepted kill
   has removed a live thread.
   */
  lemma {:induction false} ThreadsCounted(ks: seq<Kernel>, ops: seq<Op>, i: nat)
    requires WideRun(ks, ops) && Booted(ks[0]) && i < |ks|
    ensures ks[i].thrcount == 1 + Creates(ops, i) - Kills(ks, ops, i)
    ensures Live(ks[i]) == 1 + Creates(ops, i) - Removals(ks, ops, i)
    ensures Removals(ks, ops, i) + Killing(ks[i]) <= Kills(ks, ops, i)
    ensures ks[i].thrcount <= Live(ks[i]) && (ks[i].thrcount == Live(ks[i]) <==> Kills(ks, ops, i) == Removals(ks, ops, i))
  {
    hide Placed, SemLaw, OnlyCur, NullRuns, LegalPriorities, SortedBy, VictimsFit, Apply, Live, Killing, Accepted;
    if i == 0 {
      BootCounts(ks[0]);
    } else {
      ThreadsCounted(ks, ops, i - 1);
      WideRunInv(ks, ops, i - 1);
      assert WideStep(ks[i - 1], ops[i - 1], ks[i]);
      LiveStep(ks[i - 1], ops[i - 1]);
      CounterStep(ks[i - 1], ops[i - 1]);
    }
  }

  /** While every accepted kill has removed its victim, `kill` halts the system exactly when its victim is the last thread besides the null thread. */
  lemma HaltsWithLast(ks: seq<Kernel>, ops: seq<Op>, i: nat)
    requires WideRun(ks, ops) && Booted(ks[0]) && i < |ops| && Accepted(ks[i], ops[i])
    ensures Kills(ks, ops, i) == Removals(ks, ops, i) ==> (ks[i + 1].mode.Halted? <==> Live(ks[i]) <= 2)
  {
    hide Placed, SemLaw, OnlyCur, NullRuns, LegalPriorities, SortedBy, VictimsFit, Live, KillBegin;
    ThreadsCounted(ks, ops, i);
    WideRunInv(ks, ops, i);
    assert WideStep(ks[i], ops[i], ks[i + 1]);
    KillCallEffect(ks[i], ops[i].tid);
  }

  // ---------- a run that halts too early ----------

  /** Thread 1 sleeps for one more tick while the null thread is killing thread 2. */
  ghost predicate NullKills(k: Kernel) {
    && Shape(k) && |k.thr| >= 3 && k.mode.Up? && k.cur == 0 && k.thrcount == 2 && k.q[k.R()] == [] && k.q[k.S()] == [1] && k.key[1] == 1
    && k.thr[0].state.Curr? && k.thr[0].prio == 0
    && k.pc[1].Running? && k.thr[1].state.Sleep? && k.thr[1].prio == 20
    && k.thr[2].state.Susp?
  }

  /** The null thread runs while thread 1 sleeps for one more tick. */
  ghost predicate ChildSleeps(k: Kernel) {
    && Shape(k) && |k.thr| >= 3 && k.mode.Up? && k.cur == 0 && k.thrcount == 3 && k.q[k.R()] == [] && k.q[k.S()] == [1] && k.key[1] == 1
    && k.pc[0].Running? && k.thr[0].state.Curr? && k.thr[0].prio == 0 && !k.thr[0].hasmsg
    && k.pc[1].Running? && k.thr[1].state.Sleep? && k.thr[1].prio == 20
    && k.thr[2].state.Susp? && k.thr[2].parent == 0
  }

  lemma ChildGoesToSleep(k3: Kernel)
    requires ChildRuns(k3)
    ensures exists k4 :: Step(k3, CallSleep(1), k4) && ChildSleeps(k4)
  {
    assert SleepTicks(1) == 1;
    var k := Asleep(k3, 1, Sleep);
    assert k.q[k.S()] == [1] && k.key[1] == 1;
    var k4 := Apply(k3, CallSleep(1));
    assert k4 == Dispatch(k) && k4.cur == 0;
    assert Step(k3, CallSleep(1), k4) && ChildSleeps(k4);
  }

  lemma NullKillsMeanwhile(k4: Kernel)
    requires ChildSleeps(k4)
    ensures exists k5 :: Step(k4, CallKill(2), k5) && NullKills(k5)
  {
    var k5 := Apply(k4, CallKill(2));
    assert Step(k4, CallKill(2), k5) && NullKills(k5);
  }

  /** The system has halted while thread 1 is running, and neither it nor thread 2 is free. */
  ghost predicate HaltedEarly(k: Kernel) {
    && |k.thr| >= 3 && k.mode.Halted? && k.cur == 1 && k.thrcount == 1
    && k.thr[0].state.Ready? && k.thr[1].state.Curr? && k.thr[2].state.Susp?
  }

  lemma ChildKillsAgain(k5: Kernel)
    requires NullKills(k5)
    ensures exists k6, k7 :: Step(k5, Tick, k6) && Step(k6, CallKill(2), k7) && HaltedEarly(k7)
  {
    var k := Ticked(k5);
    var k1 := MakeReady(Popped(k, k.S()), 1);
    assert k1.q[k1.S()] == [] && k1.q[k1.R()] == [1];
    assert Wakeup(k1) == k1;
    assert Wakeup(k) == k1;
    var k2 := MakeReady(k1, 0);
    assert k2.q[k2.R()] == [1, 0];
    var k6 := Apply(k5, Tick);
    assert k6 == Dispatch(k2) && k6.cur == 1;
    var k7 := Apply(k6, CallKill(2));
    assert Step(k5, Tick, k6) && Step(k6, CallKill(2), k7) && HaltedEarly(k7);
  }

  /** Two kills of one thread count it twice: a run from boot halts with three live threads. */
  lemma HaltsEarly(k0: Kernel)
    requires Booted(k0) && |k0.thr| >= 3
    ensures exists ks: seq<Kernel>, ops: seq<Op> :: Run(ks, ops) && ks[0] == k0 && HaltedEarly(ks[|ks| - 1])
  {
    hide Step, ChildrenWait, ChildRuns, ChildSleeps, NullKills, HaltedEarly, Booted;
    ChildrenCreated(k0);
    var k1, k2 :| Step(k0, CallCreate(1, 20), k1) && Step(k1, CallCreate(2, 20), k2) && ChildrenWait(k2);
    ChildStarts(k2);
    var k3 :| Step(k2, CallResume(1), k3) && ChildRuns(k3);
    ChildGoesToSleep(k3);
    var k4 :| Step(k3, CallSleep(1), k4) && ChildSleeps(k4);
    NullKillsMeanwhile(k4);
    var k5 :| Step(k4, CallKill(2), k5) && NullKills(k5);
    ChildKillsAgain(k5);
    var k6, k7 :| Step(k5, Tick, k6) && Step(k6, CallKill(2), k7) && HaltedEarly(k7);
    var ks := [k0, k1, k2, k3, k4, k5, k6, k7];
    var ops := [CallCreate(1, 20), CallCreate(2, 20), CallResume(1), CallSleep(1), CallKill(2), Tick, CallKill(2)];
    assert Run(ks, ops);
  }
}
