/**
 One-slot message passing over whole runs: what `send` accepted for a thread
 is what that thread has received, in the same order, plus what is still
 pending.
 */
module Messages {
  import opened Common
  import opened Queues
  import opened QueueTables
  import opened KernelState
  import opened KernelInvariant
  import opened KernelRuns

  /** The kernel with, for each thread, the messages accepted for it and those it took since its creation. */
  datatype World = World(k: Kernel, sent: seq<seq<int>>, got: seq<seq<int>>)

  /** The message, with its receiver, that a step accepts. */
  ghost function Accepted(k: Kernel, op: Op): Option<(int, int)>
    requires Shape(k)
  {
    match op
    case CallSend(t, msg) => if Accepts(k, t) then Some((t, msg)) else None
    case CallKill(t) =>
      if k.BadTid(t) || t == NULLTHREAD || k.thrcount - 1 <= 1 then None
      else if Accepts(k, k.thr[t].parent) then Some((k.thr[t].parent, t))
      else None
    case _ => None
  }

  /** The message that a step hands to the running thread. */
  ghost function Taken(k: Kernel, op: Op): Option<int>
    requires Shape(k)
  {
    var th := k.thr[k.cur];
    match op
    case ReceiveReturns => Some(th.msg)
    case CallReceive => if th.hasmsg then Some(th.msg) else None
    case CallRecvtime(maxwait) => if maxwait >= 0 && th.hasmsg then Some(th.msg) else None
    case RecvtimeReturns => if th.hasmsg then Some(th.msg) else None
    case CallRecvclr => if th.hasmsg then Some(th.msg) else None
    case _ => None
  }

  ghost predicate Wide(w: World) {
    Shape(w.k) && |w.sent| == |w.k.thr| && |w.got| == |w.k.thr|
  }

  ghost function Next(w: World, op: Op): (r: World)
    requires Wide(w) && Enabled(w.k, op)
    ensures Wide(r)
  {
    var a, g := Accepted(w.k, op), Taken(w.k, op);
    var sent := if a.Some? && 0 <= a.value.0 < |w.sent|
                then w.sent[a.value.0 := w.sent[a.value.0] + [a.value.1]] else w.sent;
    var got := if g.Some? then w.got[w.k.cur := w.got[w.k.cur] + [g.value]] else w.got;
    if op.CallCreate? then World(Apply(w.k, op), sent[op.tid := []], got[op.tid := []])
    else World(Apply(w.k, op), sent, got)
  }

  function Pending(th: Thread): seq<int> {
    if th.hasmsg then [th.msg] else []
  }

  /** Nothing lost, nothing invented, nothing out of order. */
  ghost predicate Conserved(w: World)
    requires Wide(w)
  {
    forall t :: 0 <= t < |w.k.thr| && !w.k.thr[t].state.Free? ==>
      w.sent[t] == w.got[t] + Pending(w.k.thr[t])
  }

  /** The message slots are the same, and the same threads are live. */
  ghost predicate SameMail(k: Kernel, k': Kernel) {
    && |k'.thr| == |k.thr|
    && (forall t :: 0 <= t < |k.thr| ==>
          Pending(k'.thr[t]) == Pending(k.thr[t]) && (!k'.thr[t].state.Free? ==> !k.thr[t].state.Free?))
  }

  lemma WokeMail(k: Kernel, k': Kernel)
    requires OnlyWoke(k, k')
    ensures SameMail(k, k')
  {
    assert forall t :: 0 <= t < |k.thr| ==> Woke(k.thr[t], k'.thr[t]);
  }

  lemma ReschedMail(k: Kernel)
    requires Core(k)
    ensures SameMail(k, Resched(k))
  {
    ReschedWakes(k);
    WokeMail(k, Resched(k));
  }

  lemma SemaphoreMail(k: Kernel, op: Op)
    requires Good(k) && Enabled(k, op)
    requires op.CallWait? || op.CallSignal? || op.CallSignaln? || op.CallSemfree?
    ensures SameMail(k, Apply(k, op))
  {
    hide Placed, SemLaw, NullRuns, LegalPriorities, SortedBy, OnlyCur, ContextInv, InsertPos, Resched;
    var s := op.s;
    if !k.BadSem(s) {
      match op
      case CallWait(_) =>
        if k.sem[s].count <= 0 {
          BlockedKeeps(k, s);
          ReschedMail(Blocked(WithCount(k, s, k.sem[s].count - 1), s));
        }
      case CallSignal(_) =>
        SignalCoreKeeps(k, s);
        SignalCoreWakes(k, s);
        WokeMail(k, SignalCore(k, s));
        ReschedMail(SignalCore(k, s));
      case CallSignaln(_, n) =>
        if n > 0 {
          SignalTimesKeeps(k, s, n);
          SignalTimesWakes(k, s, n);
          WokeMail(k, SignalTimes(k, s, n));
          ReschedMail(SignalTimes(k, s, n));
        }
      case CallSemfree(_) =>
        DrainWakes(k, s);
        WokeMail(k, Drain(k, s));
    }
  }

  lemma TimeMail(k: Kernel, op: Op)
    requires Good(k) && Enabled(k, op) && (op.Tick? || op.CallSleep? || op.CallYield?)
    ensures SameMail(k, Apply(k, op))
  {
    hide Placed, SemLaw, NullRuns, LegalPriorities, SortedBy, OnlyCur, ContextInv, InsertPos, DeltaPos;
    match op
    case Tick =>
      if k.q[k.S()] == [] {
        ReschedMail(k);
      } else {
        TickedKeeps(k);
        WakeupKeeps(Ticked(k));
        WakeupWakes(Ticked(k));
        WokeMail(Ticked(k), Wakeup(Ticked(k)));
        ReschedMail(Wakeup(Ticked(k)));
      }
    case CallSleep(ms) =>
      if SleepTicks(ms) > 0 {
        AsleepKeeps(k, SleepTicks(ms), Sleep);
        ReschedMail(Asleep(k, SleepTicks(ms), Sleep));
      } else {
        ReschedMail(k);
      }
    case CallYield => ReschedMail(k);
  }

  /** Making a live thread ready leaves the message slots alone. */
  lemma ReadyMail(k: Kernel, t: int)
    requires Shape(k) && 0 <= t < |k.thr| && !k.thr[t].state.Free?
    ensures SameMail(k, MakeReady(k, t))
  {
    hide InsertPos;
  }

  lemma LifeMail(k: Kernel, op: Op)
    requires Good(k) && Enabled(k, op)
    requires op.CallReady? || op.CallResume? || op.CallSuspend? || op.CallChprio? || op.CallSemcreate?
    ensures SameMail(k, Apply(k, op))
  {
    hide SemLaw, NullRuns, LegalPriorities, SortedBy, OnlyCur, ContextInv, InsertPos, Resched, MakeReady;
    match op
    case CallResume(t) =>
      if !k.BadTid(t) && k.thr[t].state.Susp? {
        Lift(k, t);
        MakeReadyKeeps(k, t);
        ReadyMail(k, t);
        ReschedMail(MakeReady(k, t));
      }
    case CallSuspend(t) =>
      if !k.BadTid(t) && t != NULLTHREAD && k.thr[t].state.Curr? {
        Lift(k, t);
        Settle(k, t, Susp);
        ReschedMail(WithState(k, t, Susp));
      }
    case CallReady(t) => if !k.BadTid(t) { ReadyMail(k, t); }
    case _ =>
  }

  lemma KillEndMail(k: Kernel)
    requires Good(k) && Enabled(k, KillReturns)
    ensures SameMail(k, KillEnd(k))
  {
    hide SemLaw, NullRuns, LegalPriorities, SortedBy, OnlyCur, InsertPos, Resched;
    assert ContextFits(k.thr[k.cur], k.pc[k.cur], |k.thr|);
    var k1, v := WithContext(k, k.cur, Running), k.pc[k.cur].victim;
    ContextKeeps(k, k.cur, Running, -1);
    if k1.thr[v].state.Curr? {
      Lift(k1, v);
      Settle(k1, v, Free);
      ReschedMail(WithState(k1, v, Free));
    }
  }

  /** `send` fills the slot of its receiver and no other. */
  lemma SendMail(k: Kernel, t: int, msg: int)
    requires Inv(k)
    ensures var k' := Send(k, t, msg);
      if Accepts(k, t) then SameMail(Deposit(k, t, msg), k') else k' == k
  {
    hide SemLaw, NullRuns, LegalPriorities, SortedBy, OnlyCur, InsertPos, Resched, KeysWithout, MakeReady;
    if Accepts(k, t) {
      var k1 := Deposit(k, t, msg);
      CoreFrame(k, k1, -1);
      if k1.thr[t].state.Recv? {
        Lift(k1, t);
        MakeReadyKeeps(k1, t);
        ReadyMail(k1, t);
        ReschedMail(MakeReady(k1, t));
      } else if k1.thr[t].state.Tmout? {
        assert Home(k1, t) == k1.S();
        AwokenKeeps(k1, t);
        MakeReadyKeeps(Awoken(k1, t), t);
        ReadyMail(Awoken(k1, t), t);
        ReschedMail(MakeReady(Awoken(k1, t), t));
      }
    }
  }

  lemma QuietStep(w: World, op: Op)
    requires Wide(w) && Good(w.k) && Enabled(w.k, op) && Conserved(w)
    requires SameMail(w.k, Apply(w.k, op))
    requires Accepted(w.k, op).None? && Taken(w.k, op).None? && !op.CallCreate?
    ensures Conserved(Next(w, op))
  {
  }

  /** Slot t holds exactly `mail`; the others are the same, and the same threads are live. */
  ghost predicate SlotSet(k: Kernel, k': Kernel, t: int, mail: seq<int>) {
    && |k'.thr| == |k.thr|
    && (forall u :: 0 <= u < |k.thr| ==>
          && Pending(k'.thr[u]) == (if u == t then mail else Pending(k.thr[u]))
          && (!k'.thr[u].state.Free? ==> !k.thr[u].state.Free?))
  }

  lemma SlotThenSame(k: Kernel, k1: Kernel, k2: Kernel, t: int, mail: seq<int>)
    requires SlotSet(k, k1, t, mail) && SameMail(k1, k2)
    ensures SlotSet(k, k2, t, mail)
  {
  }

  lemma AcceptedStep(w: World, op: Op)
    requires Wide(w) && Good(w.k) && Enabled(w.k, op) && Conserved(w)
    requires Accepted(w.k, op).Some? && Taken(w.k, op).None? && !op.CallCreate?
    requires var (t, m) := Accepted(w.k, op).value; Accepts(w.k, t) && SlotSet(w.k, Apply(w.k, op), t, [m])
    ensures Conserved(Next(w, op))
  {
    hide CoreExcept, ContextInv, Apply;
  }

  lemma TakenStep(w: World, op: Op)
    requires Wide(w) && Good(w.k) && Enabled(w.k, op) && Conserved(w)
    requires Accepted(w.k, op).None? && !op.CallCreate?
    requires Taken(w.k, op) == Some(w.k.thr[w.k.cur].msg) && w.k.thr[w.k.cur].hasmsg
    requires SlotSet(w.k, Apply(w.k, op), w.k.cur, [])
    ensures Conserved(Next(w, op))
  {
    hide CoreExcept, ContextInv, Apply;
  }

  lemma SendingStep(w: World, op: Op)
    requires Wide(w) && Good(w.k) && Enabled(w.k, op) && Conserved(w) && (op.CallSend? || op.CallKill?)
    ensures Conserved(Next(w, op))
  {
    hide Placed, SemLaw, NullRuns, LegalPriorities, SortedBy, OnlyCur, ContextInv, InsertPos, Conserved, Next, Send;
    var k := w.k;
    var k', a := Apply(k, op), Accepted(k, op);
    if op.CallSend? {
      SendMail(k, op.tid, op.msg);
      if a.Some? {
        assert SlotSet(k, Deposit(k, op.tid, op.msg), op.tid, [op.msg]);
        SlotThenSame(k, Deposit(k, op.tid, op.msg), k', op.tid, [op.msg]);
      } else {
        assert SameMail(k, k');
      }
    } else if k.BadTid(op.tid) || op.tid == NULLTHREAD || k.thrcount - 1 <= 1 {
      assert SameMail(k, k');
    } else {
      var p := k.thr[op.tid].parent;
      var k1 := WithContext(k.(thrcount := k.thrcount - 1), k.cur, InKill(op.tid));
      CoreFrame(k, k1, -1);
      SendMail(k1, p, op.tid);
      if a.Some? {
        assert SlotSet(k, Deposit(k1, p, op.tid), p, [op.tid]);
        SlotThenSame(k, Deposit(k1, p, op.tid), k', p, [op.tid]);
      } else {
        assert SameMail(k, k');
      }
    }
    if a.Some? { AcceptedStep(w, op); } else { QuietStep(w, op); }
  }

  lemma TakingStep(w: World, op: Op)
    requires Wide(w) && Good(w.k) && Enabled(w.k, op) && Conserved(w)
    requires op.ReceiveReturns? || op.CallReceive? || op.CallRecvtime? || op.RecvtimeReturns? || op.CallRecvclr?
    ensures Conserved(Next(w, op))
  {
    hide Placed, SemLaw, NullRuns, LegalPriorities, SortedBy, OnlyCur, InsertPos, DeltaPos, Conserved, Next;
    var k := w.k;
    assert ContextFits(k.thr[k.cur], k.pc[k.cur], |k.thr|);
    if Taken(k, op).Some? {
      assert SlotSet(k, Apply(k, op), k.cur, []);
      TakenStep(w, op);
    } else {
      BlockingMail(k, op);
      QuietStep(w, op);
    }
  }

  lemma BlockingMail(k: Kernel, op: Op)
    requires Good(k) && Enabled(k, op) && Taken(k, op).None?
    requires op.CallReceive? || op.CallRecvtime? || op.RecvtimeReturns? || op.CallRecvclr?
    ensures SameMail(k, Apply(k, op))
  {
    hide Placed, SemLaw, NullRuns, LegalPriorities, SortedBy, OnlyCur, ContextInv, InsertPos, DeltaPos, Resched;
    if op.CallReceive? {
      Lift(k, k.cur);
      Settle(k, k.cur, Recv);
      ContextKeeps(WithState(k, k.cur, Recv), k.cur, InReceive, -1);
      ReschedMail(WithContext(WithState(k, k.cur, Recv), k.cur, InReceive));
    } else if op.CallRecvtime? && op.maxwait >= 0 {
      AsleepKeeps(k, op.maxwait, Tmout);
      ContextKeeps(Asleep(k, op.maxwait, Tmout), k.cur, InRecvtime, -1);
      ReschedMail(WithContext(Asleep(k, op.maxwait, Tmout), k.cur, InRecvtime));
    }
  }

  lemma StepConserves(w: World, op: Op)
    requires Wide(w) && Good(w.k) && Enabled(w.k, op) && Conserved(w)
    ensures Conserved(Next(w, op))
  {
    hide Placed, SemLaw, NullRuns, LegalPriorities, SortedBy, OnlyCur, ContextInv, Next, Conserved, SameMail;
    var k := w.k;
    if op.CallSend? || op.CallKill? {
      SendingStep(w, op);
    } else if op.ReceiveReturns? || op.CallReceive? || op.CallRecvtime? || op.RecvtimeReturns? || op.CallRecvclr? {
      TakingStep(w, op);
    } else if op.CallCreate? {
      CreatingStep(w, op);
    } else {
      if op.KillReturns? { KillEndMail(k); }
      else if op.Tick? || op.CallSleep? || op.CallYield? { TimeMail(k, op); }
      else if op.CallWait? || op.CallSignal? || op.CallSignaln? || op.CallSemfree? { SemaphoreMail(k, op); }
      else { LifeMail(k, op); }
      QuietStep(w, op);
    }
  }

  lemma CreatingStep(w: World, op: Op)
    requires Wide(w) && Good(w.k) && Enabled(w.k, op) && Conserved(w) && op.CallCreate?
    ensures Conserved(Next(w, op))
  {
  }

  /** `ws` is the run that the calls `ops` make, with its message history. */
  ghost predicate WorldRun(ws: seq<World>, ops: seq<Op>) {
    && |ws| == |ops| + 1
    && (forall i :: 0 <= i < |ops| ==>
          Wide(ws[i]) && Enabled(ws[i].k, ops[i]) && ws[i + 1] == Next(ws[i], ops[i]))
  }

  lemma {:induction false} StaysConserved(ws: seq<World>, ops: seq<Op>, i: nat)
    requires WorldRun(ws, ops) && i < |ws|
    requires Wide(ws[0]) && Good(ws[0].k) && Conserved(ws[0])
    ensures Wide(ws[i]) && Good(ws[i].k) && Conserved(ws[i])
  {
    hide Placed, SemLaw, NullRuns, LegalPriorities, SortedBy, OnlyCur, ContextInv, Apply, Conserved;
    if i > 0 {
      StaysConserved(ws, ops, i - 1);
      assert ws[i - 1 + 1] == Next(ws[i - 1], ops[i - 1]);
      StepConserves(ws[i - 1], ops[i - 1]);
      ContextVictims(ws[i - 1].k);
      StepInv(ws[i - 1].k, ops[i - 1]);
      StepContext(ws[i - 1].k, ops[i - 1]);
    }
  }

  /** Boot: no message was accepted or received. */
  ghost predicate BootWorld(w: World) {
    Wide(w) && Booted(w.k) && forall t :: 0 <= t < |w.k.thr| ==> w.sent[t] == [] && w.got[t] == []
  }

  lemma BootConserved(w: World)
    requires BootWorld(w)
    ensures Good(w.k) && Conserved(w)
  {
    BootGood(w.k);
  }

  /**
   In every state of every run from boot, the messages accepted for a live
   thread since its creation are exactly those it has received, in order,
   followed by the one still in its slot, if any.
   */
  lemma MessagesConserved(ws: seq<World>, ops: seq<Op>, i: nat, t: int)
    requires WorldRun(ws, ops) && BootWorld(ws[0]) && i < |ws| && 0 <= t < |ws[i].k.thr| && !ws[i].k.thr[t].state.Free?
    ensures |ws[i].sent| == |ws[i].got| == |ws[i].k.thr|
    ensures ws[i].sent[t] == ws[i].got[t] + Pending(ws[i].k.thr[t])
  {
    BootConserved(ws[0]);
    StaysConserved(ws, ops, i);
  }
}
