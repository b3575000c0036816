/**
 The kernel tables as a value, and each kernel call as a function on it.  A
 call that switches threads in the middle (receive, recvtime, kill) is two
 functions, split at the switch; `pc` is the saved context that says in the
 middle of which call a thread is.
 */
module KernelState {
  import opened Queues
  import opened QueueTables

  const NULLTHREAD := 0
  const CLKTICKS_PER_SEC := 1000

  datatype ThreadState = Curr | Free | Ready | Recv | Sleep | Susp | Wait | Tmout

  datatype Thread = Thread(state: ThreadState, prio: int, sem: int, parent: int, hasmsg: bool, msg: int)

  /** The macro isbadtid (include/thread.h). */
  predicate IsBadThread(thr: seq<Thread>, t: int) { t >= |thr| || t < 0 || thr[t].state.Free? }

  datatype Semaphore = Semaphore(used: bool, count: int)

  datatype Context = Running | InReceive | InRecvtime | InKill(victim: int)

  /** Lost: `resched` found no ready thread; Halted: the last user thread was killed. */
  datatype Mode = Up | Halted | Lost

  /**
   `q` holds the queues by number: those of the semaphores first, then the
   ready list, then the sleep queue.  `key` is the key stored with each thread.
   */
  datatype Kernel = Kernel(thr: seq<Thread>, sem: seq<Semaphore>, cur: int, q: seq<seq<int>>,
                           key: seq<int>, pc: seq<Context>, thrcount: int, mode: Mode)
  {
    function R(): nat { |sem| }
    function S(): nat { |sem| + 1 }
    predicate BadTid(t: int) { IsBadThread(thr, t) }
    predicate BadSem(s: int) { s < 0 || s >= |sem| || !sem[s].used }
  }

  ghost predicate Shape(k: Kernel) {
    && |k.q| == |k.sem| + 2
    && |k.key| == |k.thr| && |k.pc| == |k.thr|
    && 0 <= k.cur < |k.thr|
    && (forall i :: 0 <= i < |k.q| ==> Below(k.q[i], |k.thr|))
  }

  /** Same table sizes. */
  ghost predicate SameSize(k: Kernel, k': Kernel) {
    |k'.thr| == |k.thr| && |k'.sem| == |k.sem|
  }

  /** The same saved contexts and the same count of threads. */
  ghost predicate SameBooks(k: Kernel, k': Kernel) {
    k'.pc == k.pc && k'.thrcount == k.thrcount
  }

  /** The semaphores and their queues are untouched. */
  ghost predicate SameSemQueues(k: Kernel, k': Kernel) {
    k'.sem == k.sem && |k'.q| == |k.q| && |k.sem| <= |k.q| && k'.q[..|k.sem|] == k.q[..|k.sem|]
  }

  // ---------- building blocks ----------

  ghost function WithState(k: Kernel, t: int, st: ThreadState): (r: Kernel)
    requires Shape(k) && 0 <= t < |k.thr|
    ensures Shape(r) && SameSize(k, r) && SameSemQueues(k, r)
  {
    k.(thr := k.thr[t := k.thr[t].(state := st)])
  }

  ghost function WithContext(k: Kernel, t: int, c: Context): (r: Kernel)
    requires Shape(k) && 0 <= t < |k.thr|
    ensures Shape(r) && SameSize(k, r) && SameSemQueues(k, r)
  {
    k.(pc := k.pc[t := c])
  }

  ghost function WithCount(k: Kernel, s: int, n: int): (r: Kernel)
    requires Shape(k) && 0 <= s < |k.sem|
    ensures Shape(r) && SameSize(k, r)
  {
    k.(sem := k.sem[s := k.sem[s].(count := n)])
  }

  /** Queue i loses thread t. */
  ghost function Unlinked(k: Kernel, i: int, t: int): (r: Kernel)
    requires Shape(k) && 0 <= i < |k.q|
    ensures Shape(r) && SameSize(k, r)
  {
    k.(q := k.q[i := Without(k.q[i], t)])
  }

  /** Queue i loses its first thread. */
  ghost function Popped(k: Kernel, i: int): (r: Kernel)
    requires Shape(k) && 0 <= i < |k.q| && k.q[i] != []
    ensures Shape(r) && SameSize(k, r)
  {
    k.(q := k.q[i := k.q[i][1..]])
  }

  /** State READY and a place in the ready list by priority. */
  ghost function MakeReady(k: Kernel, t: int): (r: Kernel)
    requires Shape(k) && 0 <= t < |k.thr|
    ensures Shape(r) && SameSize(k, r) && SameSemQueues(k, r)
  {
    var s := k.q[k.R()];
    var prio := k.thr[t].prio;
    WithState(k, t, Ready).(q := k.q[k.R() := Inserted(s, InsertPos(k.key, s, prio), t)],
                            key := k.key[t := prio])
  }

  /** The system call `ready`. */
  ghost function ReadyThread(k: Kernel, t: int): (r: Kernel)
    requires Shape(k)
    ensures Shape(r) && SameSize(k, r) && SameBooks(k, r) && SameSemQueues(k, r)
  {
    if k.BadTid(t) then k else MakeReady(k, t)
  }

  /** The first ready thread becomes the running one. */
  ghost function Dispatch(k: Kernel): (r: Kernel)
    requires Shape(k)
    ensures Shape(r) && SameSize(k, r) && SameBooks(k, r) && SameSemQueues(k, r)
  {
    if k.q[k.R()] == [] then k.(mode := Lost)
    else
      assert Below(k.q[k.R()], |k.thr|);
      var t := k.q[k.R()][0];
      WithState(Popped(k, k.R()), t, Curr).(cur := t)
  }

  ghost function Resched(k: Kernel): (r: Kernel)
    requires Shape(k)
    ensures Shape(r) && SameSize(k, r) && SameBooks(k, r) && SameSemQueues(k, r)
  {
    if !k.thr[k.cur].state.Curr? then Dispatch(k)
    else if KeepsRunning(k) then k
    else Dispatch(MakeReady(k, k.cur))
  }

  ghost predicate KeepsRunning(k: Kernel)
    requires Shape(k)
  {
    assert Below(k.q[k.R()], |k.thr|);
    k.q[k.R()] != [] && k.thr[k.cur].prio > k.key[k.q[k.R()][0]]
  }

  // ---------- semaphores ----------

  ghost function SemWait(k: Kernel, s: int): (r: Kernel)
    requires Shape(k)
    ensures Shape(r) && SameSize(k, r) && SameBooks(k, r)
  {
    if k.BadSem(s) then k
    else
      var k1 := WithCount(k, s, k.sem[s].count - 1);
      if k1.sem[s].count < 0 then Resched(Blocked(k1, s)) else k1
  }

  /** The running thread joins the end of the queue of semaphore s. */
  ghost function Blocked(k: Kernel, s: int): (r: Kernel)
    requires Shape(k) && 0 <= s < |k.sem|
    ensures Shape(r) && SameSize(k, r)
  {
    k.(thr := k.thr[k.cur := k.thr[k.cur].(state := Wait, sem := s)],
       q := k.q[s := k.q[s] + [k.cur]])
  }

  /** Takes the first waiter off the queue of s and makes it ready. */
  ghost function Release(k: Kernel, s: int): (r: Kernel)
    requires Shape(k) && 0 <= s < |k.sem|
    ensures Shape(r) && SameSize(k, r) && SameBooks(k, r)
  {
    if k.q[s] == [] then k else ReadyThread(Popped(k, s), k.q[s][0])
  }

  /** One `signal` without its `resched`. */
  ghost function SignalCore(k: Kernel, s: int): (r: Kernel)
    requires Shape(k) && 0 <= s < |k.sem|
    ensures Shape(r) && SameSize(k, r) && SameBooks(k, r)
  {
    var k1 := WithCount(k, s, k.sem[s].count + 1);
    if k.sem[s].count < 0 then Release(k1, s) else k1
  }

  ghost function SemSignal(k: Kernel, s: int): (r: Kernel)
    requires Shape(k)
    ensures Shape(r) && SameSize(k, r) && SameBooks(k, r)
  {
    if k.BadSem(s) then k
    else if k.sem[s].count < 0 then Resched(SignalCore(k, s))
    else SignalCore(k, s)
  }

  ghost function SignalTimes(k: Kernel, s: int, n: nat): (r: Kernel)
    requires Shape(k) && 0 <= s < |k.sem|
    ensures Shape(r) && SameSize(k, r) && SameBooks(k, r)
  {
    if n == 0 then k else SignalCore(SignalTimes(k, s, n - 1), s)
  }

  ghost function SemSignaln(k: Kernel, s: int, n: int): (r: Kernel)
    requires Shape(k)
    ensures Shape(r) && SameSize(k, r) && SameBooks(k, r)
  {
    if k.BadSem(s) || n <= 0 then k else Resched(SignalTimes(k, s, n))
  }

  /** Releases every waiter of s. */
  ghost function Drain(k: Kernel, s: int): (r: Kernel)
    requires Shape(k) && 0 <= s < |k.sem|
    ensures Shape(r) && SameSize(k, r)
    ensures r.sem == k.sem && r.q[s] == [] && SameBooks(k, r)
    decreases |k.q[s]|
  {
    if k.q[s] == [] then k else Drain(Release(k, s), s)
  }

  ghost function SemFree(k: Kernel, s: int): (r: Kernel)
    requires Shape(k)
    ensures Shape(r) && SameSize(k, r) && SameBooks(k, r)
  {
    if k.BadSem(s) then k
    else var k1 := Drain(k, s); k1.(sem := k1.sem[s := Semaphore(false, 0)])
  }

  /** `semcreate(count)` when `semalloc` found the free slot s. */
  ghost function SemCreate(k: Kernel, s: int, count: int): (r: Kernel)
    requires Shape(k) && 0 <= s < |k.sem|
    ensures Shape(r) && SameSize(k, r) && SameBooks(k, r)
  {
    k.(sem := k.sem[s := Semaphore(true, count)])
  }

  // ---------- time ----------

  /** Ticks for a sleep of ms milliseconds, in 32-bit unsigned arithmetic. */
  function SleepTicks(ms: nat): nat {
    (ms * CLKTICKS_PER_SEC) % 0x1_0000_0000 / 1000
  }

  /** The running thread joins the sleep queue in state st. */
  ghost function Asleep(k: Kernel, delta: int, st: ThreadState): (r: Kernel)
    requires Shape(k)
    ensures Shape(r) && SameSize(k, r) && SameBooks(k, r) && SameSemQueues(k, r)
  {
    var s := k.q[k.S()];
    assert Below(s, |k.thr|);
    WithState(k, k.cur, st).(q := k.q[k.S() := DeltaQueue(k.key, s, k.cur, delta)],
                             key := DeltaKeys(k.key, s, k.cur, delta))
  }

  ghost function SleepFor(k: Kernel, ms: nat): (r: Kernel)
    requires Shape(k)
    ensures Shape(r) && SameSize(k, r) && SameBooks(k, r) && SameSemQueues(k, r)
  {
    var ticks := SleepTicks(ms);
    Resched(if ticks > 0 then Asleep(k, ticks, Sleep) else k)
  }

  /** The keys after sleeper t leaves queue s: its successor inherits its delta. */
  ghost function KeysWithout(keys: seq<int>, s: seq<int>, t: int): (r: seq<int>)
    requires Below(s, |keys|) && t in s
    ensures |r| == |keys|
  {
    var j := IndexOf(s, t);
    if j + 1 < |s| then keys[s[j + 1] := keys[s[j + 1]] + keys[t]] else keys
  }

  /** Thread t leaves the sleep queue early. */
  ghost function Awoken(k: Kernel, t: int): (r: Kernel)
    requires Shape(k) && t in k.q[k.S()]
    ensures Shape(r) && SameSize(k, r) && SameSemQueues(k, r)
  {
    Unlinked(k, k.S(), t).(key := KeysWithout(k.key, k.q[k.S()], t))
  }

  ghost function Unsleep(k: Kernel, t: int): (r: Kernel)
    requires Shape(k)
    ensures Shape(r) && SameSize(k, r) && SameBooks(k, r) && SameSemQueues(k, r)
  {
    if k.BadTid(t) then k
    else if !k.thr[t].state.Sleep? && !k.thr[t].state.Tmout? then k
    else if t in k.q[k.S()] then Awoken(k, t)
    else k
  }

  ghost function Wakeup(k: Kernel): (r: Kernel)
    requires Shape(k)
    ensures Shape(r) && SameSize(k, r) && SameSemQueues(k, r) && SameBooks(k, r)
    decreases |k.q[k.S()]|
  {
    var s := k.q[k.S()];
    assert Below(s, |k.thr|);
    if s != [] && k.key[s[0]] <= 0 then Wakeup(ReadyThread(Popped(k, k.S()), s[0])) else k
  }

  /** `--firstkey(sleepq)`. */
  ghost function Ticked(k: Kernel): (r: Kernel)
    requires Shape(k) && k.q[k.S()] != []
    ensures Shape(r) && SameSize(k, r) && SameSemQueues(k, r)
  {
    var t := k.q[k.S()][0];
    assert Below(k.q[k.S()], |k.thr|);
    k.(key := k.key[t := k.key[t] - 1])
  }

  ghost function ClockTick(k: Kernel): (r: Kernel)
    requires Shape(k)
    ensures Shape(r) && SameSize(k, r) && SameBooks(k, r) && SameSemQueues(k, r)
  {
    Resched(if k.q[k.S()] == [] then k else Wakeup(Ticked(k)))
  }

  // ---------- messages ----------

  ghost function TakeMessage(k: Kernel): (r: Kernel)
    requires Shape(k)
    ensures Shape(r) && SameSize(k, r) && SameBooks(k, r) && SameSemQueues(k, r)
  {
    k.(thr := k.thr[k.cur := k.thr[k.cur].(hasmsg := false)])
  }

  ghost function ReceiveBegin(k: Kernel): (r: Kernel)
    requires Shape(k)
    ensures Shape(r) && SameSize(k, r) && SameSemQueues(k, r)
  {
    if k.thr[k.cur].hasmsg then TakeMessage(k)
    else Resched(WithContext(WithState(k, k.cur, Recv), k.cur, InReceive))
  }

  ghost function ReceiveEnd(k: Kernel): (r: Kernel)
    requires Shape(k)
    ensures Shape(r) && SameSize(k, r) && SameSemQueues(k, r)
  {
    WithContext(TakeMessage(k), k.cur, Running)
  }

  ghost function RecvtimeBegin(k: Kernel, maxwait: int): (r: Kernel)
    requires Shape(k)
    ensures Shape(r) && SameSize(k, r) && SameSemQueues(k, r)
  {
    if maxwait < 0 then k
    else if k.thr[k.cur].hasmsg then TakeMessage(k)
    else Resched(WithContext(Asleep(k, maxwait, Tmout), k.cur, InRecvtime))
  }

  ghost function RecvtimeEnd(k: Kernel): (r: Kernel)
    requires Shape(k)
    ensures Shape(r) && SameSize(k, r) && SameSemQueues(k, r)
  {
    WithContext(TakeMessage(k), k.cur, Running)
  }

  ghost function Deposit(k: Kernel, t: int, msg: int): (r: Kernel)
    requires Shape(k) && 0 <= t < |k.thr|
    ensures Shape(r) && SameSize(k, r) && SameSemQueues(k, r)
  {
    k.(thr := k.thr[t := k.thr[t].(msg := msg, hasmsg := true)])
  }

  /** `send` takes the message exactly when the receiver is live and has none. */
  predicate Accepts(k: Kernel, t: int) {
    !k.BadTid(t) && !k.thr[t].hasmsg
  }

  ghost function Send(k: Kernel, t: int, msg: int): (r: Kernel)
    requires Shape(k)
    ensures Shape(r) && SameSize(k, r) && SameBooks(k, r) && SameSemQueues(k, r)
  {
    if !Accepts(k, t) then k
    else
      var k1 := Deposit(k, t, msg);
      if k1.thr[t].state.Recv? then Resched(MakeReady(k1, t))
      else if k1.thr[t].state.Tmout? && t in k1.q[k1.S()] then Resched(MakeReady(Awoken(k1, t), t))
      else k1
  }

  // ---------- thread life cycle ----------

  /** `create` when `thrnew` found the free slot t. */
  ghost function Create(k: Kernel, t: int, prio: int): (r: Kernel)
    requires Shape(k) && 0 <= t < |k.thr|
    ensures Shape(r) && SameSize(k, r) && SameSemQueues(k, r)
  {
    WithContext(k, t, Running)
      .(thr := k.thr[t := k.thr[t].(state := Susp, prio := prio, parent := k.cur, hasmsg := false)],
        thrcount := k.thrcount + 1)
  }

  ghost function Suspend(k: Kernel, t: int): (r: Kernel)
    requires Shape(k)
    ensures Shape(r) && SameSize(k, r) && SameBooks(k, r) && SameSemQueues(k, r)
  {
    if k.BadTid(t) || t == NULLTHREAD then k
    else match k.thr[t].state
      case Ready => WithState(Unlinked(k, k.R(), t), t, Susp)
      case Curr => Resched(WithState(k, t, Susp))
      case _ => k
  }

  ghost function Resume(k: Kernel, t: int): (r: Kernel)
    requires Shape(k)
    ensures Shape(r) && SameSize(k, r) && SameBooks(k, r) && SameSemQueues(k, r)
  {
    if k.BadTid(t) || !k.thr[t].state.Susp? then k else Resched(MakeReady(k, t))
  }

  ghost function Chprio(k: Kernel, t: int, prio: int): (r: Kernel)
    requires Shape(k)
    ensures Shape(r) && SameSize(k, r) && SameBooks(k, r) && SameSemQueues(k, r)
  {
    if k.BadTid(t) then k else k.(thr := k.thr[t := k.thr[t].(prio := prio)])
  }

  ghost function KillBegin(k: Kernel, t: int): (r: Kernel)
    requires Shape(k)
    ensures Shape(r) && SameSize(k, r) && SameSemQueues(k, r)
  {
    if k.BadTid(t) || t == NULLTHREAD then k
    else
      var k1 := k.(thrcount := k.thrcount - 1);
      if k1.thrcount <= 1 then k1.(mode := Halted)
      else Send(WithContext(k1, k1.cur, InKill(t)), k1.thr[t].parent, t)
  }

  /** The fall-through switch of `kill` on the state the victim is in by then. */
  ghost function Remove(k: Kernel, t: int): (r: Kernel)
    requires Shape(k) && 0 <= t < |k.thr|
    ensures Shape(r) && SameSize(k, r) && SameBooks(k, r)
  {
    var th := k.thr[t];
    match th.state
    case Sleep => WithState(Unsleep(k, t), t, Free)
    case Curr => Resched(WithState(k, t, Free))
    case Wait =>
      if 0 <= th.sem < |k.sem|
      then WithState(Unlinked(WithCount(k, th.sem, k.sem[th.sem].count + 1), th.sem, t), t, Free)
      else WithState(k, t, Free)
    case Ready => WithState(Unlinked(k, k.R(), t), t, Free)
    case _ => WithState(k, t, Free)
  }

  ghost function KillEnd(k: Kernel): (r: Kernel)
    requires Shape(k)
    ensures Shape(r) && SameSize(k, r)
  {
    var c := k.pc[k.cur];
    var k1 := WithContext(k, k.cur, Running);
    if c.InKill? && 0 <= c.victim < |k.thr| then Remove(k1, c.victim) else k1
  }
}
