/** What each call does to the threads and semaphores it is about, and that it does nothing to the others. */
module CallEffects {
  import opened Queues
  import opened QueueTables
  import opened KernelState
  import opened KernelInvariant
  import opened KernelRuns
  import Scheduling

  // ---------- rescheduling ----------

  ghost predicate RunsOrReady(k: Kernel, t: int) {
    0 <= t < |k.thr| && (k.thr[t].state.Ready? || k.thr[t].state.Curr?)
  }

  /** Entries other than that of `who`, of the thread that was running and of the one that runs now are the same. */
  ghost predicate OthersSame(k: Kernel, k': Kernel, who: int) {
    && |k'.thr| == |k.thr|
    && (forall u :: 0 <= u < |k.thr| && u != who && u != k.cur && u != k'.cur ==> k'.thr[u] == k.thr[u])
  }

  /** What rescheduling does: a ready thread runs in place of the running one, or nothing happens. */
  ghost predicate Switched(k: Kernel, k': Kernel)
    requires Shape(k) && Shape(k')
  {
    && OthersSame(k, k', -1)
    && (k'.cur == k.cur || k.thr[k'.cur].state.Ready?)
    && k'.thr[k'.cur] == k.thr[k'.cur].(state := Curr)
    && (k'.cur != k.cur ==> k'.thr[k.cur] == if k.thr[k.cur].state.Curr? then k.thr[k.cur].(state := Ready) else k.thr[k.cur])
    && (!k.thr[k.cur].state.Curr? ==> k'.cur != k.cur)
    && |k'.q| == |k.q| && (forall j :: 0 <= j < |k.q| && j != k.R() ==> k'.q[j] == k.q[j])
  }

  lemma ReschedSwitches(k: Kernel)
    requires Core(k) && !k.thr[k.cur].state.Ready?
    ensures Switched(k, Resched(k))
  {
    hide SemLaw, NullRuns, LegalPriorities, SortedBy, OnlyCur, InsertPos;
    if !k.thr[k.cur].state.Curr? {
      DispatchSwitches(k);
    } else if !KeepsRunning(k) {
      Lift(k, k.cur);
      MakeReadyKeeps(k, k.cur);
      DispatchSwitches(MakeReady(k, k.cur));
    }
  }

  lemma DispatchSwitches(k: Kernel)
    requires Core(k) && !k.thr[k.cur].state.Curr?
    ensures var k', t := Dispatch(k), Dispatch(k).cur;
      && k.thr[t].state.Ready? && k'.thr == k.thr[t := k.thr[t].(state := Curr)]
      && (forall j :: 0 <= j < |k.q| && j != k.R() ==> k'.q[j] == k.q[j])
  {
    SomeoneReady(k);
    var t := k.q[k.R()][0];
    assert t in k.q[k.R()] && Home(k, t) == k.R();
  }

  /** A thread whose state goes with no queue is in none. */
  lemma Homeless(k: Kernel, t: int)
    requires Core(k) && 0 <= t < |k.thr| && Home(k, t) == -1
    ensures Unqueued(k.q, t)
  {
  }

  /** A live thread made ready, with a reschedule behind it, is ready or running. */
  lemma ReadyThenSwitch(k: Kernel, t: int)
    requires CoreExcept(k, t) && 0 <= t < |k.thr| && !k.thr[t].state.Free? && t != k.cur && k.thr[k.cur].state.Curr?
    ensures var k' := Resched(MakeReady(k, t));
      && RunsOrReady(k', t) && OthersSame(k, k', t)
      && (t == k'.cur || k'.thr[t] == k.thr[t].(state := Ready)) && k'.thr[t] == k.thr[t].(state := k'.thr[t].state)
  {
    hide Placed, SemLaw, NullRuns, LegalPriorities, SortedBy, OnlyCur, InsertPos, Resched;
    MakeReadyKeeps(k, t);
    ReschedSwitches(MakeReady(k, t));
  }

  // ---------- ready, resume, suspend ----------

  /** `ready` puts exactly its thread into the ready list. */
  lemma ReadyEffect(k: Kernel, t: int)
    requires Inv(k) && !k.BadTid(t) && t != k.cur && Home(k, t) == -1
    ensures var k' := ReadyThread(k, t);
      && k'.thr == k.thr[t := k.thr[t].(state := Ready)] && t in k'.q[k.R()] && k'.cur == k.cur
      && (forall j :: 0 <= j < |k.q| && j != k.R() ==> k'.q[j] == k.q[j])
      && (forall u :: u != t ==> (u in k'.q[k.R()] <==> u in k.q[k.R()]))
  {
    Homeless(k, t);
    InsertedElements(k.q[k.R()], InsertPos(k.key, k.q[k.R()], k.thr[t].prio), t);
  }

  /** `resume` of a suspended thread makes it ready or running; of any other it does nothing. */
  lemma ResumeEffect(k: Kernel, t: int)
    requires Inv(k)
    ensures var k' := Resume(k, t);
      if !k.BadTid(t) && k.thr[t].state.Susp? then RunsOrReady(k', t) && OthersSame(k, k', t) else k' == k
  {
    hide SemLaw, NullRuns, LegalPriorities, SortedBy, InsertPos, Resched, MakeReady;
    if !k.BadTid(t) && k.thr[t].state.Susp? {
      Lift(k, t);
      ReadyThenSwitch(k, t);
    }
  }

  /**
   `suspend` of a ready or running thread, not the null thread, leaves it
   suspended and in no queue.  From READY nothing else changes; from CURR a
   ready thread runs instead.  In every other case it does nothing.
   */
  lemma SuspendEffect(k: Kernel, t: int)
    requires Inv(k)
    ensures var k' := Suspend(k, t);
      if k.BadTid(t) || t == NULLTHREAD || !(k.thr[t].state.Ready? || k.thr[t].state.Curr?) then k' == k
      else
        && k'.thr[t] == k.thr[t].(state := Susp) && Unqueued(k'.q, t) && k'.cur != t && OthersSame(k, k', t)
        && (k.thr[t].state.Ready? ==>
              && k'.thr == k.thr[t := k.thr[t].(state := Susp)] && k'.cur == k.cur
              && (forall j :: 0 <= j < |k.q| ==> k'.q[j] == Without(k.q[j], t)))
  {
    hide SemLaw, NullRuns, LegalPriorities, SortedBy, InsertPos, Resched;
    SuspendKeeps(k, t);
    if !k.BadTid(t) && t != NULLTHREAD {
      if k.thr[t].state.Ready? {
        assert Home(k, t) == k.R();
        Homeless(Suspend(k, t), t);
      } else if k.thr[t].state.Curr? {
        Lift(k, t);
        Settle(k, t, Susp);
        ReschedSwitches(WithState(k, t, Susp));
        Homeless(Suspend(k, t), t);
      }
    }
  }

  // ---------- kill ----------

  /**
   The last part of `kill` frees its victim, whatever state it is in; a victim
   that is not in a timed receive is in no queue afterwards.  Unless the victim
   was running, no other entry changes and nobody else is moved.
   */
  lemma RemoveEffect(k: Kernel, t: int)
    requires Inv(k) && 0 < t < |k.thr|
    ensures var k' := Remove(k, t);
      && k'.thr[t] == k.thr[t].(state := Free) && OthersSame(k, k', t)
      && (!k.thr[t].state.Tmout? ==> Unqueued(k'.q, t))
      && (if t == k.cur then k'.cur != t
          else k'.thr == k.thr[t := k.thr[t].(state := Free)] && k'.cur == k.cur
               && (forall j, u :: 0 <= j < |k.q| && u != t ==> (u in k'.q[j] <==> u in k.q[j])))
  {
    hide SemLaw, NullRuns, LegalPriorities, SortedBy, InsertPos, Resched;
    if k.thr[t].state.Curr? {
      Lift(k, t);
      Settle(k, t, Free);
      ReschedSwitches(WithState(k, t, Free));
    } else {
      assert k.thr[t].state.Wait? ==> Home(k, t) == k.thr[t].sem;
      assert k.thr[t].state.Sleep? ==> Home(k, t) == k.S();
      assert k.thr[t].state.Ready? ==> Home(k, t) == k.R();
      forall j | 0 <= j < |k.q| ensures forall u :: u in Without(k.q[j], t) <==> u in k.q[j] && u != t { WithoutElements(k.q[j], t); }
    }
    if !k.thr[t].state.Tmout? {
      RemoveKeeps(k, t);
      Homeless(Remove(k, t), t);
    }
  }

  lemma RemovedThread(k: Kernel, t: int)
    requires Inv(k) && 0 < t < |k.thr|
    ensures var k' := Remove(k, t);
      k'.thr[t] == k.thr[t].(state := Free) && k'.cur != t && (!k.thr[t].state.Tmout? ==> Unqueued(k'.q, t))
  {
    hide Placed, SemLaw, NullRuns, LegalPriorities, SortedBy, OnlyCur, Remove;
    RemoveEffect(k, t);
  }

  /** What `kill` does before its victim is removed: one thread less is counted, and the call is under way, or the system halts. */
  lemma KillCallEffect(k: Kernel, t: int)
    requires Inv(k) && k.mode.Up?
    ensures var k' := KillBegin(k, t);
      if k.BadTid(t) || t == NULLTHREAD then k' == k
      else
        && k'.thrcount == k.thrcount - 1 && (k'.mode.Halted? <==> k.thrcount <= 2)
        && (k.thrcount > 2 ==> k'.pc == k.pc[k.cur := InKill(t)])
  {
    hide Placed, SemLaw, NullRuns, LegalPriorities, SortedBy, OnlyCur;
  }

  // ---------- create and chprio ----------

  /** `create` makes a suspended child of the caller with the priority asked for and no message. */
  lemma CreateEffect(k: Kernel, t: int, prio: int)
    requires Inv(k) && 0 <= t < |k.thr| && k.thr[t].state.Free?
    ensures var k' := Create(k, t, prio);
      && k'.thr[t].state.Susp? && k'.thr[t].prio == prio && k'.thr[t].parent == k.cur && !k'.thr[t].hasmsg && k'.pc[t].Running?
      && k'.thr == k.thr[t := k'.thr[t]] && k'.q == k.q && k'.cur == k.cur && Unqueued(k'.q, t)
  {
    Homeless(k, t);
  }

  lemma ChprioEffect(k: Kernel, t: int, prio: int)
    requires Inv(k) && !k.BadTid(t)
    ensures var k' := Chprio(k, t, prio);
      && k'.thr == k.thr[t := k.thr[t].(prio := prio)] && k'.q == k.q && k'.key == k.key && k'.cur == k.cur
  {
  }

  // ---------- messages ----------

  /**
   A message that `send` accepts is in the receiver's slot; a receiver that was
   blocked for it is ready or running; any other keeps its state.
   */
  lemma SendEffect(k: Kernel, t: int, msg: int)
    requires Inv(k)
    ensures var k' := Send(k, t, msg);
      if !Accepts(k, t) then k' == k
      else
        && k'.thr[t].hasmsg && k'.thr[t].msg == msg && OthersSame(k, k', t)
        && (if k.thr[t].state.Recv? || k.thr[t].state.Tmout? then RunsOrReady(k', t)
            else k'.thr[t].state == k.thr[t].state && k'.cur == k.cur)
  {
    hide SemLaw, NullRuns, LegalPriorities, SortedBy, InsertPos, Resched, MakeReady;
    if Accepts(k, t) {
      var k1 := Deposit(k, t, msg);
      CoreFrame(k, k1, -1);
      if k1.thr[t].state.Recv? {
        Lift(k1, t);
        ReadyThenSwitch(k1, t);
      } else if k1.thr[t].state.Tmout? {
        assert Home(k1, t) == k1.S();
        AwokenKeeps(k1, t);
        ReadyThenSwitch(Awoken(k1, t), t);
      }
    }
  }

  /** `receive` without a message blocks its caller; with one it does not. */
  lemma ReceiveEffect(k: Kernel)
    requires Inv(k) && (k.cur == NULLTHREAD ==> k.thr[k.cur].hasmsg)
    ensures var k' := ReceiveBegin(k);
      && OthersSame(k, k', -1)
      && (if k.thr[k.cur].hasmsg then k'.cur == k.cur && k'.pc == k.pc && k'.thr[k.cur] == k.thr[k.cur].(hasmsg := false)
          else k'.cur != k.cur && k'.thr[k.cur].state.Recv? && k'.pc == k.pc[k.cur := InReceive] && Unqueued(k'.q, k.cur))
  {
    hide Placed, SemLaw, NullRuns, LegalPriorities, SortedBy, OnlyCur, Resched;
    if !k.thr[k.cur].hasmsg {
      Lift(k, k.cur);
      Settle(k, k.cur, Recv);
      var k1 := WithContext(WithState(k, k.cur, Recv), k.cur, InReceive);
      ContextKeeps(WithState(k, k.cur, Recv), k.cur, InReceive, -1);
      ReschedSwitches(k1);
      ReschedKeeps(k1);
      Homeless(ReceiveBegin(k), k.cur);
    }
  }

  /** When `receive` or `recvtime` goes on after its switch, it empties the slot and leaves the call; nothing else changes. */
  lemma ReturnEffect(k: Kernel)
    requires Shape(k)
    ensures var k' := ReceiveEnd(k);
      && k' == RecvtimeEnd(k) && !k'.thr[k.cur].hasmsg && k'.pc == k.pc[k.cur := Running]
      && k'.thr == k.thr[k.cur := k.thr[k.cur].(hasmsg := false)] && k'.q == k.q && k'.key == k.key && k'.cur == k.cur
  {
  }

  // ---------- semaphores ----------

  /** What becomes of semaphore s in one step. */
  ghost function SemNext(k: Kernel, op: Op, s: int): Semaphore
    requires Shape(k) && 0 <= s < |k.sem|
  {
    var used, count := k.sem[s].used, k.sem[s].count;
    match op
    case CallWait(r) => if r == s && used then Semaphore(true, count - 1) else k.sem[s]
    case CallSignal(r) => if r == s && used then Semaphore(true, count + 1) else k.sem[s]
    case CallSignaln(r, n) => if r == s && used && n > 0 then Semaphore(true, count + n) else k.sem[s]
    case CallSemfree(r) => if r == s && used then Semaphore(false, 0) else k.sem[s]
    case CallSemcreate(r, n) => if r == s then Semaphore(true, n) else k.sem[s]
    case KillReturns => if KillsWaiter(k, s) then Semaphore(used, count + 1) else k.sem[s]
    case _ => k.sem[s]
  }

  /** The thread being killed waits on semaphore s. */
  ghost predicate KillsWaiter(k: Kernel, s: int)
    requires Shape(k)
  {
    && k.pc[k.cur].InKill?
    && var v := k.pc[k.cur].victim;
       0 <= v < |k.thr| && k.thr[v].state.Wait? && k.thr[v].sem == s
  }

  lemma {:induction false} SignalTimesSem(k: Kernel, s: int, n: nat)
    requires Shape(k) && 0 <= s < |k.sem|
    ensures SignalTimes(k, s, n).sem == k.sem[s := Semaphore(k.sem[s].used, k.sem[s].count + n)]
  {
    hide ReadyThread;
    if n > 0 { SignalTimesSem(k, s, n - 1); }
  }

  lemma KillSem(k: Kernel, s: int)
    requires Inv(k) && VictimsFit(k) && WideEnabled(k, KillReturns) && 0 <= s < |k.sem|
    ensures KillEnd(k).sem[s] == SemNext(k, KillReturns, s)
  {
    hide SemLaw, NullRuns, LegalPriorities, SortedBy, OnlyCur, Resched, Unsleep;
    var v := k.pc[k.cur].victim;
    assert k.thr[v].state.Wait? ==> Home(k, v) == k.thr[v].sem;
  }

  /** Every step does to every semaphore exactly what its call says, and nothing to the others. */
  lemma SemaphoreStep(k: Kernel, op: Op, s: int)
    requires Inv(k) && VictimsFit(k) && WideEnabled(k, op) && 0 <= s < |k.sem|
    ensures Apply(k, op).sem[s] == SemNext(k, op, s)
  {
    hide Placed, SemLaw, NullRuns, LegalPriorities, SortedBy, OnlyCur, VictimsFit, Resched, SignalTimes, Drain, Release, ReadyThread,
      ClockTick, SleepFor, Send, ReceiveBegin, RecvtimeBegin, KillBegin, KillEnd, Suspend, Resume, Chprio, Create, TakeMessage;
    match op
    case CallSignal(r) => if !k.BadSem(r) { SignalOnceSem(k, r); }
    case CallSignaln(r, n) => if !k.BadSem(r) && n > 0 { SignalTimesSem(k, r, n); }
    case KillReturns => KillSem(k, s);
    case _ =>
  }

  lemma SignalOnceSem(k: Kernel, s: int)
    requires Shape(k) && 0 <= s < |k.sem|
    ensures SignalCore(k, s).sem == k.sem[s := Semaphore(k.sem[s].used, k.sem[s].count + 1)]
  {
    hide ReadyThread;
  }

  /** A `wait` that blocks puts its caller, waiting, at the end of the queue and off the processor. */
  lemma WaitEffect(k: Kernel, s: int)
    requires Inv(k) && !k.BadSem(s) && (k.cur == NULLTHREAD ==> k.sem[s].count > 0)
    ensures var k' := SemWait(k, s);
      && OthersSame(k, k', -1)
      && (if k.sem[s].count > 0 then k'.thr == k.thr && k'.cur == k.cur && k'.q == k.q
          else k'.cur != k.cur && k'.thr[k.cur] == k.thr[k.cur].(state := Wait, sem := s) && k'.q[s] == k.q[s] + [k.cur])
  {
    hide Placed, SemLaw, NullRuns, LegalPriorities, SortedBy, OnlyCur, Resched;
    if k.sem[s].count <= 0 {
      BlockedKeeps(k, s);
      ReschedSwitches(Blocked(WithCount(k, s, k.sem[s].count - 1), s));
    }
  }

  /** `semfree` frees the semaphore and leaves every thread that waited on it ready. */
  lemma {:induction false} DrainEffect(k: Kernel, s: int)
    requires Inv(k) && !k.BadSem(s)
    ensures var k' := Drain(k, s);
      && k'.cur == k.cur && k'.q[s] == [] && |k'.thr| == |k.thr|
      && (forall t :: 0 <= t < |k.thr| ==> k'.thr[t] == if t in k.q[s] then k.thr[t].(state := Ready) else k.thr[t])
    decreases |k.q[s]|
  {
    hide SemLaw, OnlyCur, NullRuns, LegalPriorities, SortedBy, InsertPos;
    if k.q[s] != [] {
      ReleaseStep(k, s);
      var n := k.sem[s].count + 1;
      DrainEffect(WithCount(Release(k, s), s, n), s);
      DrainIgnoresCount(Release(k, s), s, n);
      assert k.q[s][0] in k.q[s];
      assert Home(k, k.q[s][0]) == s;
      TailElements(k.q[s]);
    }
  }

  lemma SemfreeEffect(k: Kernel, s: int)
    requires Inv(k) && !k.BadSem(s)
    ensures var k' := SemFree(k, s);
      && !k'.sem[s].used && k'.q[s] == [] && k'.cur == k.cur
      && (forall t :: 0 <= t < |k.thr| ==> k'.thr[t] == if t in k.q[s] then k.thr[t].(state := Ready) else k.thr[t])
  {
    hide Drain;
    DrainEffect(k, s);
  }

  /** `signaln(s, n)` leaves the first n waiters, or all if there are fewer, ready or running. */
  lemma SignalnEffect(k: Kernel, s: int, n: nat, a: nat)
    requires Inv(k) && !k.BadSem(s) && n > 0 && a < |k.q[s]| && a < n
    ensures RunsOrReady(SemSignaln(k, s, n), k.q[s][a])
  {
    hide SemLaw, NullRuns, LegalPriorities, SortedBy, OnlyCur, InsertPos, Resched, SignalTimes;
    var t, k1, m := k.q[s][a], SignalTimes(k, s, n), Scheduling.Min(n, |k.q[s]|);
    assert t in k.q[s] && Home(k, t) == s;
    SignalTimesKeeps(k, s, n);
    SignalTimesWakes(k, s, n);
    Scheduling.SignalTimesView(k, s, n);
    assert t !in k.q[s][m..];
    assert Woke(k.thr[t], k1.thr[t]) && Home(k1, t) != s;
    ReschedSwitches(k1);
  }

  lemma SignalEffect(k: Kernel, s: int)
    requires Inv(k) && !k.BadSem(s) && k.q[s] != []
    ensures RunsOrReady(SemSignal(k, s), k.q[s][0])
  {
    hide Placed, NullRuns, LegalPriorities, SortedBy, OnlyCur, InsertPos, Resched, SignalTimes, SignalCore;
    SignalnEffect(k, s, 1, 0);
    Scheduling.SignalTimesOnce(k, s);
    assert |k.q[s]| == Waiting(k.sem[s]);
  }
}
