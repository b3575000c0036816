/**
 Re-entrant monitors (system/lock.c, system/unlock.c).  `lock` is split at its
 `wait`; `unlock` is one step.  Threads unlock only what they have locked.
 */
module Monitors {
  import opened Queues
  import opened Semaphores

  const NOOWNER := -1

  /**
   Idle: not inside a call of lock.  ClaimBlocked: claimed the unowned monitor
   and then blocked.  WaitBlocked: blocked because another thread owns it.
   WaitGranted: released from that wait, but not yet run.
   */
  datatype Stage = Idle | ClaimBlocked | WaitBlocked | ClaimGranted | WaitGranted

  /**
   A monitor table entry with its semaphore, the stage and the lock depth of
   every thread, and the thread that has taken the semaphore's token (-1: none).
   */
  datatype Monitor = Monitor(owner: int, count: int, sem: Sem, stage: seq<Stage>, depth: seq<nat>, holder: int)

  ghost predicate IsThread(m: Monitor, t: int) { 0 <= t < |m.stage| && |m.depth| == |m.stage| }

  /** lock up to and including a wait that blocks, or to its end when nothing blocks. */
  function Lock(m: Monitor, t: int): Monitor
    requires 0 <= t < |m.stage| == |m.depth|
  {
    if m.owner == NOOWNER then
      var m1 := m.(owner := t, count := m.count + 1, sem := Down(m.sem, t));
      if Blocks(m.sem) then m1.(stage := m.stage[t := ClaimBlocked])
      else m1.(depth := m.depth[t := m.depth[t] + 1], holder := t)
    else if m.owner == t then
      m.(count := m.count + 1, depth := m.depth[t := m.depth[t] + 1])
    else
      var m1 := m.(sem := Down(m.sem, t));
      if Blocks(m.sem) then m1.(stage := m.stage[t := WaitBlocked])
      else m1.(stage := m.stage[t := WaitGranted], holder := t)
  }

  /** The rest of lock, for a thread that was let through by the wait. */
  function LockRest(m: Monitor, t: int): Monitor
    requires 0 <= t < |m.stage| == |m.depth|
  {
    var m1 := m.(stage := m.stage[t := Idle], depth := m.depth[t := m.depth[t] + 1]);
    if m.stage[t].WaitGranted? then m1.(owner := t, count := m.count + 1) else m1
  }

  function Granted(s: Stage): Stage {
    match s
    case ClaimBlocked => ClaimGranted
    case WaitBlocked => WaitGranted
    case _ => s
  }

  /** unlock by a thread that has the monitor locked. */
  function Unlock(m: Monitor, t: int): Monitor
    requires 0 <= t < |m.stage| == |m.depth| && m.depth[t] > 0
  {
    if m.count == 0 then m
    else
      var m1 := m.(count := m.count - 1, depth := m.depth[t := m.depth[t] - 1]);
      if m1.count > 0 then m1
      else if m.sem.count < 0 && m.sem.queue != [] && 0 <= m.sem.queue[0] < |m.stage| then
        var u := m.sem.queue[0];
        m1.(owner := NOOWNER, sem := Up(m.sem), stage := m.stage[u := Granted(m.stage[u])], holder := u)
      else
        m1.(owner := NOOWNER, sem := Up(m.sem), holder := -1)
  }

  // ---------- the invariant ----------

  const CLAIMS: Stage -> bool := (s: Stage) => s.ClaimBlocked?

  function Claimers(stage: seq<Stage>): nat { Tally(stage, CLAIMS) }

  lemma ClaimersUpdate(stage: seq<Stage>, t: nat, s: Stage)
    requires t < |stage|
    ensures Claimers(stage[t := s]) ==
            Claimers(stage) - (if stage[t].ClaimBlocked? then 1 else 0) + (if s.ClaimBlocked? then 1 else 0)
  {
    TallyUpdate(stage, CLAIMS, t, s);
  }

  lemma ClaimersNone(stage: seq<Stage>)
    requires forall t :: 0 <= t < |stage| ==> !stage[t].ClaimBlocked?
    ensures Claimers(stage) == 0
  {
    TallyNone(stage, CLAIMS);
  }

  predicate Blocked(s: Stage) { s.ClaimBlocked? || s.WaitBlocked? }

  ghost predicate TokenInv(m: Monitor) {
    && |m.depth| == |m.stage| && -1 <= m.holder < |m.stage|
    && WellFormed(m.sem) && m.sem.count <= 1
    && (forall t :: t in m.sem.queue <==> 0 <= t < |m.stage| && Blocked(m.stage[t]))
    && (m.sem.count == 1 <==> m.holder == -1)
    && (forall t :: 0 <= t < |m.stage| && t != m.holder ==> m.depth[t] == 0 && (m.stage[t].Idle? || Blocked(m.stage[t])))
  }

  /** The owner field agrees with who has the token, up to a claim that came too late. */
  ghost predicate OwnerInv(m: Monitor)
    requires TokenInv(m)
  {
    && (m.holder == -1 ==> m.owner == NOOWNER && m.count == 0)
    && (m.holder != -1 ==>
          && (m.stage[m.holder].Idle? || (m.stage[m.holder].WaitGranted? && m.depth[m.holder] == 0))
          && (m.stage[m.holder].Idle? ==> m.owner == m.holder && m.count > 0)
          && (m.stage[m.holder].WaitGranted? ==>
                if m.owner == NOOWNER then Claimers(m.stage) == 0
                else 0 <= m.owner < |m.stage| && m.stage[m.owner].ClaimBlocked?))
    && m.count == (if m.holder == -1 then 0 else m.depth[m.holder]) + Claimers(m.stage)
  }

  ghost predicate Inv(m: Monitor) { TokenInv(m) && OwnerInv(m) }

  lemma LockKeeps(m: Monitor, t: int)
    requires Inv(m) && IsThread(m, t) && m.stage[t].Idle?
    ensures Inv(Lock(m, t))
  {
    hide Claimers;
    DownKeeps(m.sem, t);
    ClaimersUpdate(m.stage, t, ClaimBlocked);
    ClaimersUpdate(m.stage, t, WaitBlocked);
    ClaimersUpdate(m.stage, t, WaitGranted);
  }

  lemma LockRestKeeps(m: Monitor, t: int)
    requires Inv(m) && IsThread(m, t) && m.stage[t].WaitGranted?
    ensures Inv(LockRest(m, t))
  {
    hide Claimers;
    ClaimersUpdate(m.stage, t, Idle);
  }

  lemma UnlockKeeps(m: Monitor, t: int)
    requires Inv(m) && IsThread(m, t) && m.depth[t] > 0
    ensures Inv(Unlock(m, t))
  {
    hide Claimers, WellFormed, Up;
    UpKeeps(m.sem);
    if m.count == 1 {
      if m.sem.count < 0 {
        var u := m.sem.queue[0];
        assert u in m.sem.queue;
        NoClaimer(m.stage, u);
        ClaimersUpdate(m.stage, u, Granted(m.stage[u]));
      }
      UpCounts(m.sem);
    }
  }

  lemma NoClaimer(stage: seq<Stage>, u: int)
    requires 0 <= u < |stage| && Claimers(stage) == 0
    ensures !stage[u].ClaimBlocked?
  {
    if stage[u].ClaimBlocked? { TallyPositive(stage, CLAIMS, u); }
  }

  lemma UpCounts(s: Sem)
    requires WellFormed(s)
    ensures Up(s).count == s.count + 1 && (s.count < 0 <==> s.queue != [])
  {
  }

  // ---------- runs ----------

  datatype Op = CallLock(t: int) | LockReturns(t: int) | CallUnlock(t: int)

  ghost predicate Enabled(m: Monitor, op: Op) {
    && IsThread(m, op.t)
    && match op
       case CallLock(t) => m.stage[t].Idle?
       case LockReturns(t) => m.stage[t].WaitGranted? || m.stage[t].ClaimGranted?
       case CallUnlock(t) => m.stage[t].Idle? && m.depth[t] > 0
  }

  ghost function Next(m: Monitor, op: Op): Monitor
    requires Enabled(m, op)
  {
    match op
    case CallLock(t) => Lock(m, t)
    case LockReturns(t) => LockRest(m, t)
    case CallUnlock(t) => Unlock(m, t)
  }

  ghost predicate Run(ms: seq<Monitor>, ops: seq<Op>) {
    && |ms| == |ops| + 1
    && (forall i :: 0 <= i < |ops| ==> Enabled(ms[i], ops[i]) && ms[i + 1] == Next(ms[i], ops[i]))
  }

  /** What moncreate makes. */
  ghost predicate Created(m: Monitor) {
    && m.owner == NOOWNER && m.count == 0 && m.sem == Sem(1, []) && m.holder == -1 && |m.depth| == |m.stage|
    && (forall t :: 0 <= t < |m.stage| ==> m.stage[t].Idle? && m.depth[t] == 0)
  }

  lemma CreatedInv(m: Monitor)
    requires Created(m)
    ensures Inv(m)
  {
    ClaimersNone(m.stage);
  }

  lemma StepInv(m: Monitor, op: Op)
    requires Inv(m) && Enabled(m, op)
    ensures Inv(Next(m, op))
  {
    match op
    case CallLock(t) => LockKeeps(m, t);
    case LockReturns(t) => LockRestKeeps(m, t);
    case CallUnlock(t) => UnlockKeeps(m, t);
  }

  lemma {:induction false} RunInv(ms: seq<Monitor>, ops: seq<Op>, i: nat)
    requires Run(ms, ops) && Inv(ms[0]) && i < |ms|
    ensures Inv(ms[i]) && |ms[i].stage| == |ms[0].stage|
  {
    hide Inv;
    if i > 0 {
      RunInv(ms, ops, i - 1);
      assert ms[i - 1 + 1] == Next(ms[i - 1], ops[i - 1]);
      StepInv(ms[i - 1], ops[i - 1]);
    }
  }

  /** Mutual exclusion: in every run at most one thread has the monitor locked, and it is not inside a lock call. */
  lemma MutualExclusion(ms: seq<Monitor>, ops: seq<Op>, i: nat, t: int, u: int)
    requires Run(ms, ops) && Created(ms[0]) && i < |ms| && IsThread(ms[i], t) && IsThread(ms[i], u)
    requires ms[i].depth[t] > 0 && ms[i].depth[u] > 0
    ensures t == u && ms[i].stage[t].Idle?
  {
    CreatedInv(ms[0]);
    RunInv(ms, ops, i);
  }

  /** The count is the depth of the thread that has the token plus the claims that came too late. */
  lemma CountIsDepthPlusClaims(ms: seq<Monitor>, ops: seq<Op>, i: nat)
    requires Run(ms, ops) && Created(ms[0]) && i < |ms|
    ensures var m := ms[i];
      && |m.depth| == |m.stage| && -1 <= m.holder < |m.stage|
      && m.count == (if m.holder == -1 then 0 else m.depth[m.holder]) + Claimers(m.stage)
  {
    CreatedInv(ms[0]);
    RunInv(ms, ops, i);
  }

  /** A last unlock gives the monitor up exactly when no claim came too late. */
  lemma LastUnlockReleases(m: Monitor, t: int)
    requires Inv(m) && IsThread(m, t) && m.depth[t] == 1
    ensures Unlock(m, t).owner == NOOWNER <==> Claimers(m.stage) == 0
    ensures Claimers(m.stage) == 0 ==> Unlock(m, t).holder != t && Unlock(m, t).count == 0
    ensures Claimers(m.stage) > 0 ==> Unlock(m, t).holder == t && Unlock(m, t).sem == m.sem
  {
    hide Claimers;
    if m.sem.count < 0 { assert m.sem.queue[0] in m.sem.queue; }
  }

  /** A lock call between a signal and the run of the thread it released. */
  predicate LateClaim(m: Monitor, op: Op) {
    op.CallLock? && m.owner == NOOWNER && m.holder != -1
  }

  /** A claim is left blocked exactly by a late lock call. */
  lemma ClaimsAreLate(m: Monitor, op: Op)
    requires Inv(m) && Enabled(m, op)
    ensures Claimers(Next(m, op).stage) == Claimers(m.stage) + (if LateClaim(m, op) then 1 else 0)
  {
    hide Claimers;
    match op
    case CallLock(t) =>
      ClaimersUpdate(m.stage, t, ClaimBlocked);
      ClaimersUpdate(m.stage, t, WaitBlocked);
      ClaimersUpdate(m.stage, t, WaitGranted);
    case LockReturns(t) => ClaimersUpdate(m.stage, t, Idle);
    case CallUnlock(t) =>
      if m.count == 1 && m.sem.count < 0 {
        var u := m.sem.queue[0];
        assert u in m.sem.queue;
        NoClaimer(m.stage, u);
        ClaimersUpdate(m.stage, u, Granted(m.stage[u]));
      }
  }

  /** In a run without late lock calls, every last unlock gives the monitor up. */
  lemma {:induction false} ReleasedWithoutLateClaims(ms: seq<Monitor>, ops: seq<Op>, i: nat)
    requires Run(ms, ops) && Created(ms[0]) && i < |ms|
    requires forall j :: 0 <= j < i ==> !LateClaim(ms[j], ops[j])
    ensures Inv(ms[i]) && Claimers(ms[i].stage) == 0
    ensures i < |ops| && ops[i].CallUnlock? && ms[i].depth[ops[i].t] == 1 ==> ms[i + 1].owner == NOOWNER && ms[i + 1].count == 0
  {
    CreatedInv(ms[0]);
    RunInv(ms, ops, i);
    if i > 0 {
      ReleasedWithoutLateClaims(ms, ops, i - 1);
      assert ms[i - 1 + 1] == Next(ms[i - 1], ops[i - 1]);
      ClaimsAreLate(ms[i - 1], ops[i - 1]);
    } else {
      ClaimersNone(ms[0].stage);
    }
    if i < |ops| {
      assert ms[i + 1] == Next(ms[i], ops[i]);
      if ops[i].CallUnlock? && ms[i].depth[ops[i].t] == 1 { LastUnlockReleases(ms[i], ops[i].t); }
    }
  }

  lemma StuckStep(m: Monitor, op: Op)
    requires Inv(m) && Enabled(m, op) && Claimers(m.stage) > 0
    ensures var m' := Next(m, op);
      && m'.holder == m.holder && Claimers(m'.stage) > 0 && |m'.stage| == |m.stage|
      && (forall u :: 0 <= u < |m.stage| && Blocked(m.stage[u]) ==> m'.stage[u] == m.stage[u])
  {
    hide Claimers;
    ClaimsAreLate(m, op);
  }

  /**
   After a late claim the monitor is stuck: whatever is called from then on, the
   token never changes hands and every thread that is blocked stays blocked.
   */
  lemma {:induction false} StuckForever(ms: seq<Monitor>, ops: seq<Op>, i: nat)
    requires Run(ms, ops) && Inv(ms[0]) && i < |ms| && Claimers(ms[0].stage) > 0
    ensures Inv(ms[i]) && ms[i].holder == ms[0].holder && Claimers(ms[i].stage) > 0 && |ms[i].stage| == |ms[0].stage|
    ensures forall u :: 0 <= u < |ms[0].stage| && Blocked(ms[0].stage[u]) ==> ms[i].stage[u] == ms[0].stage[u]
  {
    RunInv(ms, ops, i);
    if i > 0 {
      StuckForever(ms, ops, i - 1);
      assert ms[i - 1 + 1] == Next(ms[i - 1], ops[i - 1]);
      StuckStep(ms[i - 1], ops[i - 1]);
    }
  }

  /** No thread has the monitor locked, and yet thread 2 is blocked after a late claim. */
  predicate Abandoned(m: Monitor) {
    m.depth == [0, 0, 0] && |m.stage| == 3 && m.stage[2].ClaimBlocked?
  }

  /**
   Such a run exists: thread 0 locks, 1 blocks, 0 unlocks, 2 locks too early, 1
   runs and unlocks.  Then nobody has the monitor locked, and 2 is blocked.
   */
  lemma StuckRun(m0: Monitor)
    requires Created(m0) && |m0.stage| == 3
    ensures exists ms: seq<Monitor>, ops: seq<Op> :: Run(ms, ops) && ms[0] == m0 && Abandoned(ms[|ms| - 1])
  {
    var ops := [CallLock(0), CallLock(1), CallUnlock(0), CallLock(2), LockReturns(1), CallUnlock(1)];
    var m1 := Next(m0, ops[0]);
    var m2 := Next(m1, ops[1]);
    var m3 := Next(m2, ops[2]);
    var m4 := Next(m3, ops[3]);
    var m5 := Next(m4, ops[4]);
    var m6 := Next(m5, ops[5]);
    var ms := [m0, m1, m2, m3, m4, m5, m6];
    assert Run(ms, ops);
    assert m6.depth == [0, 0, 0];
  }

  // ---------- what the calls do to their caller ----------

  /** A lock call of t that does not have to wait: the monitor is its own, or free. */
  predicate Enters(m: Monitor, t: int) {
    m.owner == t || (m.owner == NOOWNER && m.holder == -1)
  }

  /** lock takes the monitor once more, or puts its caller at the end of the queue. */
  lemma LockEffect(m: Monitor, t: int)
    requires Inv(m) && IsThread(m, t) && m.stage[t].Idle?
    ensures var m' := Lock(m, t);
      if Enters(m, t) then
        && m'.depth == m.depth[t := m.depth[t] + 1] && m'.stage == m.stage
        && m'.owner == t && m'.holder == t && m'.sem.queue == m.sem.queue
      else
        && m'.depth == m.depth && m'.holder == m.holder && m'.sem.queue == m.sem.queue + [t]
        && |m'.stage| == |m.stage| && Blocked(m'.stage[t]) && (forall u :: 0 <= u < |m.stage| && u != t ==> m'.stage[u] == m.stage[u])
  {
    hide Claimers;
  }

  /** A thread let through by the wait has the monitor when its call returns. */
  lemma LockRestEffect(m: Monitor, t: int)
    requires Inv(m) && IsThread(m, t) && m.stage[t].WaitGranted?
    ensures var m' := LockRest(m, t);
      m'.depth == m.depth[t := 1] && m'.stage == m.stage[t := Idle] && m'.owner == t && m'.holder == t && m'.sem == m.sem
  {
    hide Claimers;
  }

  /** unlock gives up one lock of its caller; the last one passes the monitor to the longest waiter, unless a claim came too late. */
  lemma UnlockEffect(m: Monitor, t: int)
    requires Inv(m) && IsThread(m, t) && m.depth[t] > 0
    ensures var m' := Unlock(m, t);
      && m'.depth == m.depth[t := m.depth[t] - 1]
      && (if m.depth[t] > 1 || Claimers(m.stage) > 0 then m'.stage == m.stage && m'.sem == m.sem && m'.owner == t && m'.holder == t
          else
            && m'.owner == NOOWNER
            && (if m.sem.queue == [] then m'.holder == -1 && m'.stage == m.stage
                else m'.holder == m.sem.queue[0] && m'.sem.queue == m.sem.queue[1..]
                     && 0 <= m'.holder < |m.stage| && m'.stage == m.stage[m'.holder := WaitGranted]))
  {
    hide Claimers;
    if m.sem.queue != [] {
      var u := m.sem.queue[0];
      assert u in m.sem.queue;
      if Claimers(m.stage) == 0 { NoClaimer(m.stage, u); }
    }
  }

  /** A step in which a lock call of t completes. */
  ghost predicate Completes(m: Monitor, op: Op, t: int) {
    op == LockReturns(t) || (op == CallLock(t) && Enters(m, t))
  }

  function One(b: bool): int { if b then 1 else 0 }

  ghost function Balance(ms: seq<Monitor>, ops: seq<Op>, t: int, i: nat): int
    requires i <= |ops| <= |ms|
  {
    if i == 0 then 0
    else Balance(ms, ops, t, i - 1) + One(Completes(ms[i - 1], ops[i - 1], t)) - One(ops[i - 1] == CallUnlock(t))
  }

  lemma DepthStep(m: Monitor, op: Op, t: int)
    requires Inv(m) && Enabled(m, op) && IsThread(m, t)
    ensures IsThread(Next(m, op), t) && Next(m, op).depth[t] == m.depth[t] + One(Completes(m, op, t)) - One(op == CallUnlock(t))
  {
    hide Claimers, Lock, LockRest, Unlock, TokenInv, OwnerInv;
    match op
    case CallLock(u) => LockEffect(m, u);
    case LockReturns(u) => GrantedWaits(m, u); LockRestEffect(m, u); GrantedIsShallow(m, u);
    case CallUnlock(u) => UnlockEffect(m, u);
  }

  lemma GrantedWaits(m: Monitor, u: int)
    requires Inv(m) && IsThread(m, u) && (m.stage[u].WaitGranted? || m.stage[u].ClaimGranted?)
    ensures m.stage[u].WaitGranted?
  {
  }

  lemma GrantedIsShallow(m: Monitor, u: int)
    requires Inv(m) && IsThread(m, u) && m.stage[u].WaitGranted?
    ensures m.depth[u] == 0
  {
  }

  /** In every run a thread has the monitor locked as often as its lock calls completed, less its unlocks. */
  lemma {:induction false} DepthCounts(ms: seq<Monitor>, ops: seq<Op>, i: nat, t: int)
    requires Run(ms, ops) && Created(ms[0]) && i < |ms| && 0 <= t < |ms[0].stage|
    ensures IsThread(ms[i], t) && ms[i].depth[t] == Balance(ms, ops, t, i)
  {
    hide Inv, Next, Enabled, Completes;
    CreatedInv(ms[0]);
    RunInv(ms, ops, i);
    if i > 0 {
      DepthCounts(ms, ops, i - 1, t);
      RunInv(ms, ops, i - 1);
      assert ms[i - 1 + 1] == Next(ms[i - 1], ops[i - 1]);
      DepthStep(ms[i - 1], ops[i - 1], t);
    }
  }

  // ---------- the table entry, updated in place ----------

  class Monent {
    var owner: int
    var count: int
    var sem: Sem
    var stage: seq<Stage>
    ghost var depth: seq<nat>
    ghost var holder: int

    ghost function View(): Monitor
      reads this
    {
      Monitor(owner, count, sem, stage, depth, holder)
    }

    constructor (threads: nat)
      ensures Created(View()) && |stage| == threads
    {
      owner, count, sem, holder := NOOWNER, 0, Sem(1, []), -1;
      stage := seq(threads, _ => Idle);
      depth := seq(threads, _ => 0);
    }

    method LockCall(thrcurrent: int)
      requires Inv(View()) && IsThread(View(), thrcurrent) && stage[thrcurrent].Idle?
      modifies this
      ensures View() == Lock(old(View()), thrcurrent) && Inv(View())
    {
      hide Claimers, WellFormed;
      LockKeeps(View(), thrcurrent);
      var blocks := sem.count <= 0;
      if owner == NOOWNER {
        owner := thrcurrent;
        count := count + 1;
        sem := Down(sem, thrcurrent);
        if blocks {
          stage := stage[thrcurrent := ClaimBlocked];
        } else {
          depth := depth[thrcurrent := depth[thrcurrent] + 1];
          holder := thrcurrent;
        }
      } else if thrcurrent == owner {
        count := count + 1;
        depth := depth[thrcurrent := depth[thrcurrent] + 1];
      } else {
        sem := Down(sem, thrcurrent);
        stage := stage[thrcurrent := if blocks then WaitBlocked else WaitGranted];
        holder := if blocks then holder else thrcurrent;
      }
    }

    /** After the wait for another thread's monitor: take the monitor over. */
    method LockRestCall(thrcurrent: int)
      requires Inv(View()) && IsThread(View(), thrcurrent) && stage[thrcurrent].WaitGranted?
      modifies this
      ensures View() == LockRest(old(View()), thrcurrent) && Inv(View())
      ensures owner == thrcurrent
    {
      LockRestKeeps(View(), thrcurrent);
      stage := stage[thrcurrent := Idle];
      owner := thrcurrent;
      count := count + 1;
      depth := depth[thrcurrent := depth[thrcurrent] + 1];
    }

    method UnlockCall(ghost thrcurrent: int) returns (ok: bool)
      requires Inv(View()) && IsThread(View(), thrcurrent) && depth[thrcurrent] > 0
      modifies this
      ensures View() == Unlock(old(View()), thrcurrent) && Inv(View()) && ok
    {
      hide Claimers;
      UnlockKeeps(View(), thrcurrent);
      if count == 0 { return false; }
      count := count - 1;
      depth := depth[thrcurrent := depth[thrcurrent] - 1];
      if count == 0 {
        owner := NOOWNER;
        if sem.count < 0 {
          assert sem.queue[0] in sem.queue;
          var u := sem.queue[0];
          stage := stage[u := Granted(stage[u])];
          holder := u;
        } else {
          holder := -1;
        }
        sem := Up(sem);
      }
      ok := true;
    }
  }
}
