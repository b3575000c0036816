/** When a timed receive returns, and what: a message if one was accepted for it, TIMEOUT otherwise. */
module TimedReceives {
  import opened Common
  import opened Queues
  import opened QueueTables
  import opened KernelState
  import opened KernelInvariant
  import opened KernelRuns
  import opened SleepRuns
  import CallEffects
  import EffectRuns
  import ThreadCounts
  import Messages

  /** A step accepts a message for thread t. */
  ghost predicate MailFor(k: Kernel, op: Op, t: int) {
    Shape(k) && Messages.Accepted(k, op).Some? && Messages.Accepted(k, op).value.0 == t
  }

  /** The slot of a live thread changes only when a message is accepted for it, or when it takes one itself. */
  lemma SlotStays(k: Kernel, op: Op, t: int)
    requires Good(k) && Enabled(k, op) && 0 <= t < |k.thr| && !MailFor(k, op, t) && (t == k.cur ==> op.Tick?)
    requires !k.thr[t].state.Free? && !Apply(k, op).thr[t].state.Free?
    ensures Messages.Pending(Apply(k, op).thr[t]) == Messages.Pending(k.thr[t])
  {
    hide Placed, SemLaw, NullRuns, LegalPriorities, SortedBy, OnlyCur, ContextInv, Apply;
    var sent := seq(|k.thr|, u requires 0 <= u < |k.thr| => Messages.Pending(k.thr[u]));
    var got := seq(|k.thr|, u requires 0 <= u < |k.thr| => []);
    var w := Messages.World(k, sent, got);
    assert Messages.Conserved(w);
    Messages.StepConserves(w, op);
    var w' := Messages.Next(w, op);
    assert op.CallCreate? ==> op.tid != t;
    assert w'.sent[t] == sent[t] && w'.got[t] == [];
  }

  /** Thread t is in a timed receive that no message has reached. */
  ghost predicate Waiting(k: Kernel, t: int) {
    Shape(k) && 0 <= t < |k.thr| && k.pc[t].InRecvtime? && !k.thr[t].hasmsg && !k.thr[t].state.Free?
  }

  lemma WaitingStep(k: Kernel, op: Op, t: int)
    requires Good(k) && Enabled(k, op) && Waiting(k, t) && !MailFor(k, op, t)
    requires !(op.RecvtimeReturns? && k.cur == t) && !(op.KillReturns? && k.pc[k.cur] == InKill(t))
    ensures Waiting(Apply(k, op), t)
  {
    hide Placed, SemLaw, NullRuns, LegalPriorities, SortedBy, OnlyCur, ContextInv, Apply;
    assert t == k.cur ==> op.Tick?;
    EffectRuns.ContextStays(k, op, t);
    StaysLive(k, op, t);
    SlotStays(k, op, t);
  }

  /** Only the end of a `kill` frees a thread. */
  lemma StaysLive(k: Kernel, op: Op, t: int)
    requires Good(k) && Enabled(k, op) && 0 <= t < |k.thr| && !k.thr[t].state.Free? && !(op.KillReturns? && k.pc[k.cur] == InKill(t))
    ensures !Apply(k, op).thr[t].state.Free?
  {
    hide Placed, SemLaw, NullRuns, LegalPriorities, SortedBy, OnlyCur, ContextInv, Apply;
    ContextVictims(k);
    ThreadCounts.FreesOnly(k, op, t);
  }

  /** A receiver that no message reaches is not taken out of the sleep queue early. */
  lemma NotTakenOut(ks: seq<Kernel>, ops: seq<Op>, j: nat, t: int)
    requires Run(ks, ops) && Booted(ks[0]) && j + 1 < |ops| && Waiting(ks[j], t) && !MailFor(ks[j], ops[j], t)
    requires !(ops[j].KillReturns? && ks[j].pc[ks[j].cur] == InKill(t))
    ensures !TakesOut(ks[j], ops[j], t)
  {
    hide Placed, SemLaw, NullRuns, LegalPriorities, SortedBy, OnlyCur, KillBegin;
    RunFromBoot(ks, ops, j);
    assert Step(ks[j], ops[j], ks[j + 1]) && Step(ks[j + 1], ops[j + 1], ks[j + 2]);
    if ops[j].CallKill? { CallEffects.KillCallEffect(ks[j], ops[j].tid); }
  }

  lemma RunFromBoot(ks: seq<Kernel>, ops: seq<Op>, i: nat)
    requires Run(ks, ops) && Booted(ks[0]) && i < |ks|
    ensures Good(ks[i])
  {
    BootGood(ks[0]);
    RunGood(ks, ops, i);
  }

  lemma {:induction false} WaitingStays(ks: seq<Kernel>, ops: seq<Op>, a: nat, i: nat, t: int)
    requires Run(ks, ops) && Booted(ks[0]) && a <= i < |ks| && Waiting(ks[a], t)
    requires forall j :: a <= j < i ==> Undisturbed(ks[j], ops[j], t)
    ensures Waiting(ks[i], t)
  {
    hide Placed, SemLaw, NullRuns, LegalPriorities, SortedBy, OnlyCur, ContextInv, Apply, Waiting, MailFor;
    if a < i {
      WaitingStays(ks, ops, a, i - 1, t);
      RunFromBoot(ks, ops, i - 1);
      assert Step(ks[i - 1], ops[i - 1], ks[i]);
      WaitingStep(ks[i - 1], ops[i - 1], t);
    }
  }

  /** A step that neither sends thread t a message, nor removes it, nor is its return from `recvtime`. */
  ghost predicate Undisturbed(k: Kernel, op: Op, t: int) {
    && !MailFor(k, op, t) && !(op.RecvtimeReturns? && k.cur == t)
    && !(op.KillReturns? && 0 <= k.cur < |k.pc| && k.pc[k.cur] == InKill(t))
  }

  /**
   In every run from boot: a `recvtime(m)` that finds no message, and for whose
   caller none is accepted before it returns, returns TIMEOUT, and not before
   tick m plus the number of stalled ticks (for m = 0: the first tick).
   */
  lemma TimesOut(ks: seq<Kernel>, ops: seq<Op>, a: nat, i: nat, maxwait: int)
    requires Run(ks, ops) && Booted(ks[0]) && a < i < |ops| && ops[a] == CallRecvtime(maxwait) && maxwait >= 0
    requires Shape(ks[a]) && !ks[a].thr[ks[a].cur].hasmsg
    requires ops[i].RecvtimeReturns? && ks[i].cur == ks[a].cur
    requires forall j :: a < j < i ==> Undisturbed(ks[j], ops[j], ks[a].cur)
    ensures Shape(ks[i]) && Messages.Taken(ks[i], ops[i]).None?
    ensures Due(maxwait, Ticks(ops, a + 1, i), Late(ks, ops, a + 1, i))
  {
    hide Placed, SemLaw, NullRuns, LegalPriorities, SortedBy, OnlyCur, ContextInv, Coded, Apply, TakesOut, Left, HeadPositive, MailFor;
    var t := ks[a].cur;
    AlwaysCoded(ks, ops, a);
    assert Step(ks[a], ops[a], ks[a + 1]);
    RecvtimeStep(ks[a], maxwait, ks[a + 1]);
    RunFromBoot(ks, ops, i);
    WaitingStays(ks, ops, a + 1, i, t);
    forall j | a < j < i ensures Shape(ks[j]) && !TakesOut(ks[j], ops[j], t) {
      WaitingStays(ks, ops, a + 1, j, t);
      NotTakenOut(ks, ops, j, t);
    }
    RecvtimeEndsLate(ks, ops, a, i, maxwait);
  }
}
