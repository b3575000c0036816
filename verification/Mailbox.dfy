/** Mailboxes (the directory mailbox): a ring of messages guarded by two semaphores. */
module Mailboxes {
  import opened Common
  import opened Heaps
  import opened Queues
  import opened Semaphores

  /**
   Where a thread is with respect to the mailbox.  A call is split at its `wait`,
   the only place where another thread can run; a thread that `wait` let
   through, at once or after blocking, has been granted its step and takes it
   when it next runs.
   */
  datatype Stage = Away | SendBlocked(msg: int) | SendGranted(msg: int) | RecvBlocked | RecvGranted

  /**
   A mailbox table entry, the stages of all threads, and three histories: the
   messages deposited, those received, and how many granted threads were killed
   before their deposit or removal.
   */
  datatype Mailbox = Mailbox(live: bool, max: int, count: int, start: int, msgs: seq<int>,
                             sender: Sem, receiver: Sem, stage: seq<Stage>,
                             sent: seq<int>, got: seq<int>, lostSenders: nat, lostReceivers: nat)

  const SENDS_GRANTED: Stage -> bool := (s: Stage) => s.SendGranted?
  const RECVS_GRANTED: Stage -> bool := (s: Stage) => s.RecvGranted?

  // ---------- the ring ----------

  /** The slot i places behind `start`. */
  function Slot(m: Mailbox, i: int): (r: int)
    requires m.max > 0 && 0 <= m.start < m.max && 0 <= i <= m.max
    ensures 0 <= r < m.max
  {
    if m.start + i < m.max then m.start + i else m.start + i - m.max
  }

  /** The code computes it with a remainder. */
  lemma SlotIsRemainder(m: Mailbox, i: int)
    requires m.max > 0 && 0 <= m.start < m.max && 0 <= i <= m.max
    ensures Slot(m, i) == (m.start + i) % m.max
  {
    var x := m.start + i;
    Remainder(if x < m.max then x else x - m.max, if x < m.max then 0 else 1, m.max);
  }

  lemma Remainder(r: int, k: int, d: int)
    requires 0 <= r < d && (k == 0 || k == 1)
    ensures (if k == 0 then r else r + d) % d == r
  {
    var x := if k == 0 then r else r + d;
    var q := x / d - k;
    assert d * q == r - x % d by { assert x == d * (x / d) + x % d; }
    assert q >= 1 ==> d * q >= d;
    assert q <= -1 ==> d * q <= -d;
  }

  ghost predicate Ring(m: Mailbox) {
    m.max > 0 && |m.msgs| == m.max && 0 <= m.start < m.max && 0 <= m.count <= m.max
  }

  /** The unread messages, oldest first. */
  ghost function Contents(m: Mailbox): (r: seq<int>)
    requires Ring(m)
    ensures |r| == m.count
  {
    seq(m.count, i requires 0 <= i < m.count => m.msgs[Slot(m, i)])
  }

  // ---------- the steps ----------

  ghost predicate Runs(m: Mailbox, t: int, s: Stage) {
    0 <= t < |m.stage| && m.stage[t] == s
  }

  /** mailboxSend up to its wait. */
  function SendBegin(m: Mailbox, t: int, msg: int): Mailbox
    requires 0 <= t < |m.stage|
  {
    if !m.live then m
    else m.(sender := Down(m.sender, t),
            stage := m.stage[t := if Blocks(m.sender) then SendBlocked(msg) else SendGranted(msg)])
  }

  /** The first waiter of a semaphore is granted its step. */
  function Grant(stage: seq<Stage>, s: Sem): seq<Stage> {
    if s.count < 0 && s.queue != [] && 0 <= s.queue[0] < |stage|
    then stage[s.queue[0] := Granted(stage[s.queue[0]])]
    else stage
  }

  function Granted(s: Stage): Stage {
    match s
    case SendBlocked(msg) => SendGranted(msg)
    case RecvBlocked => RecvGranted
    case _ => s
  }

  /** The rest of mailboxSend. */
  function SendEnd(m: Mailbox, t: int): Mailbox
    requires 0 <= t < |m.stage| && m.stage[t].SendGranted? && (m.live ==> Ring(m))
  {
    var m1 := m.(stage := m.stage[t := Away]);
    if !m.live then m1
    else m1.(msgs := m.msgs[Slot(m, m.count) := m.stage[t].msg], count := m.count + 1,
             receiver := Up(m.receiver), stage := Grant(m1.stage, m.receiver),
             sent := m.sent + [m.stage[t].msg])
  }

  /** mailboxReceive up to its wait. */
  function ReceiveBegin(m: Mailbox, t: int): Mailbox
    requires 0 <= t < |m.stage|
  {
    if !m.live then m
    else m.(receiver := Down(m.receiver, t),
            stage := m.stage[t := if Blocks(m.receiver) then RecvBlocked else RecvGranted])
  }

  /** The rest of mailboxReceive. */
  function ReceiveEnd(m: Mailbox, t: int): Mailbox
    requires 0 <= t < |m.stage| && m.stage[t].RecvGranted? && (m.live ==> Ring(m))
  {
    var m1 := m.(stage := m.stage[t := Away]);
    if !m.live then m1
    else m1.(start := Slot(m, 1), count := m.count - 1,
             sender := Up(m.sender), stage := Grant(m1.stage, m.sender),
             got := m.got + [m.msgs[m.start]])
  }

  function GrantAll(stage: seq<Stage>): (r: seq<Stage>)
    ensures |r| == |stage|
    ensures forall t :: 0 <= t < |stage| ==> r[t] == Granted(stage[t])
  {
    seq(|stage|, t requires 0 <= t < |stage| => Granted(stage[t]))
  }

  /** mailboxFree: both semaphores are freed, which wakes their waiters. */
  function Free(m: Mailbox): Mailbox {
    if !m.live then m
    else m.(live := false, sender := Sem(0, []), receiver := Sem(0, []), stage := GrantAll(m.stage))
  }

  /** A thread is killed: off its queue if it waits; its grant is lost if it has one. */
  function Kill(m: Mailbox, t: int): Mailbox
    requires 0 <= t < |m.stage|
  {
    var m1 := m.(stage := m.stage[t := Away]);
    match m.stage[t]
    case SendBlocked(_) => m1.(sender := Cancel(m.sender, t))
    case RecvBlocked => m1.(receiver := Cancel(m.receiver, t))
    case SendGranted(_) => m1.(lostSenders := m.lostSenders + 1)
    case RecvGranted => m1.(lostReceivers := m.lostReceivers + 1)
    case Away => m1
  }

  // ---------- the invariant ----------

  /** The queues hold exactly the blocked threads. */
  ghost predicate Fit(sender: Sem, receiver: Sem, stage: seq<Stage>) {
    && WellFormed(sender) && WellFormed(receiver)
    && (forall t :: t in sender.queue <==> 0 <= t < |stage| && stage[t].SendBlocked?)
    && (forall t :: t in receiver.queue <==> 0 <= t < |stage| && stage[t].RecvBlocked?)
  }

  ghost predicate QueuesFit(m: Mailbox) { Fit(m.sender, m.receiver, m.stage) }

  /** Every slot is a free token, a granted sender, a message, or lost with a killed sender. */
  ghost predicate SlotsConserved(m: Mailbox) {
    Tokens(m.sender) + Tally(m.stage, SENDS_GRANTED) + m.count + m.lostSenders == m.max
  }

  /** Every message is a receiver token, a granted receiver, or lost with a killed receiver. */
  ghost predicate MessagesConserved(m: Mailbox) {
    Tokens(m.receiver) + Tally(m.stage, RECVS_GRANTED) + m.lostReceivers == m.count
  }

  /** While the mailbox is allocated; after mailboxFree nobody is blocked any more. */
  ghost predicate Inv(m: Mailbox) {
    && QueuesFit(m)
    && Ring(m)
    && (m.live ==> SlotsConserved(m) && MessagesConserved(m))
    && m.sent == m.got + Contents(m)
  }

  /** A signal on either semaphore grants its longest waiter and nobody else. */
  lemma SignalFits(sender: Sem, receiver: Sem, stage: seq<Stage>)
    requires Fit(sender, receiver, stage)
    ensures Fit(sender, Up(receiver), Grant(stage, receiver))
    ensures Fit(Up(sender), receiver, Grant(stage, sender))
  {
    hide WellFormed, Up;
    UpKeeps(sender);
    UpKeeps(receiver);
    if sender.count < 0 { assert sender.queue[0] in sender.queue; }
    if receiver.count < 0 { assert receiver.queue[0] in receiver.queue; }
  }

  /** A free token more, or a granted thread more. */
  lemma SignalTallies(sender: Sem, receiver: Sem, stage: seq<Stage>)
    requires Fit(sender, receiver, stage)
    ensures Tokens(Up(receiver)) + Tally(Grant(stage, receiver), RECVS_GRANTED) == Tokens(receiver) + Tally(stage, RECVS_GRANTED) + 1
    ensures Tally(Grant(stage, receiver), SENDS_GRANTED) == Tally(stage, SENDS_GRANTED)
    ensures Tokens(Up(sender)) + Tally(Grant(stage, sender), SENDS_GRANTED) == Tokens(sender) + Tally(stage, SENDS_GRANTED) + 1
    ensures Tally(Grant(stage, sender), RECVS_GRANTED) == Tally(stage, RECVS_GRANTED)
  {
    hide Tally;
    if sender.count < 0 {
      var u := sender.queue[0];
      assert u in sender.queue;
      TallyUpdate(stage, SENDS_GRANTED, u, Granted(stage[u]));
      TallyUpdate(stage, RECVS_GRANTED, u, Granted(stage[u]));
    }
    if receiver.count < 0 {
      var u := receiver.queue[0];
      assert u in receiver.queue;
      TallyUpdate(stage, SENDS_GRANTED, u, Granted(stage[u]));
      TallyUpdate(stage, RECVS_GRANTED, u, Granted(stage[u]));
    }
  }

  lemma SendBeginKeeps(m: Mailbox, t: int, msg: int)
    requires Inv(m) && Runs(m, t, Away)
    ensures Inv(SendBegin(m, t, msg))
  {
    if m.live {
      var s := if Blocks(m.sender) then SendBlocked(msg) else SendGranted(msg);
      DownKeeps(m.sender, t);
      TallyUpdate(m.stage, SENDS_GRANTED, t, s);
      TallyUpdate(m.stage, RECVS_GRANTED, t, s);
      assert Contents(SendBegin(m, t, msg)) == Contents(m);
    }
  }

  lemma ReceiveBeginKeeps(m: Mailbox, t: int)
    requires Inv(m) && Runs(m, t, Away)
    ensures Inv(ReceiveBegin(m, t))
  {
    if m.live {
      var s := if Blocks(m.receiver) then RecvBlocked else RecvGranted;
      DownKeeps(m.receiver, t);
      TallyUpdate(m.stage, SENDS_GRANTED, t, s);
      TallyUpdate(m.stage, RECVS_GRANTED, t, s);
      assert Contents(ReceiveBegin(m, t)) == Contents(m);
    }
  }

  /** A granted sender always finds a free slot: it overwrites no unread message. */
  lemma GrantedSenderHasRoom(m: Mailbox, t: int)
    requires Inv(m) && m.live && 0 <= t < |m.stage| && m.stage[t].SendGranted?
    ensures m.count < m.max
    ensures forall i :: 0 <= i < m.count ==> Slot(m, m.count) != Slot(m, i)
  {
    TallyPositive(m.stage, SENDS_GRANTED, t);
  }

  /** A granted receiver always finds a message. */
  lemma GrantedReceiverHasMessage(m: Mailbox, t: int)
    requires Inv(m) && m.live && 0 <= t < |m.stage| && m.stage[t].RecvGranted?
    ensures m.count > 0 && Contents(m)[0] == m.msgs[m.start]
  {
    TallyPositive(m.stage, RECVS_GRANTED, t);
  }

  lemma DepositAppends(m: Mailbox, t: int)
    requires Inv(m) && m.live && 0 <= t < |m.stage| && m.stage[t].SendGranted?
    ensures Ring(SendEnd(m, t)) && Contents(SendEnd(m, t)) == Contents(m) + [m.stage[t].msg]
  {
    GrantedSenderHasRoom(m, t);
    var m' := SendEnd(m, t);
    forall i | 0 <= i < m'.count ensures Contents(m')[i] == (Contents(m) + [m.stage[t].msg])[i] {
      assert Slot(m', i) == Slot(m, i);
    }
  }

  lemma RemovalDropsFirst(m: Mailbox, t: int)
    requires Inv(m) && m.live && 0 <= t < |m.stage| && m.stage[t].RecvGranted?
    ensures Ring(ReceiveEnd(m, t)) && [m.msgs[m.start]] + Contents(ReceiveEnd(m, t)) == Contents(m)
  {
    GrantedReceiverHasMessage(m, t);
    var m' := ReceiveEnd(m, t);
    forall i | 0 <= i < m'.count ensures Contents(m')[i] == Contents(m)[i + 1] {
      assert Slot(m', i) == Slot(m, i + 1);
    }
  }

  /** A granted thread is on no queue, so it may leave. */
  lemma LeaveFits(sender: Sem, receiver: Sem, stage: seq<Stage>, t: int)
    requires Fit(sender, receiver, stage) && 0 <= t < |stage| && (stage[t].SendGranted? || stage[t].RecvGranted? || stage[t].Away?)
    ensures Fit(sender, receiver, stage[t := Away])
  {
  }

  lemma SendEndKeeps(m: Mailbox, t: int)
    requires Inv(m) && 0 <= t < |m.stage| && m.stage[t].SendGranted?
    ensures Inv(SendEnd(m, t))
  {
    hide Tally, Fit, Grant;
    var m' := SendEnd(m, t);
    var stage1 := m.stage[t := Away];
    TallyUpdate(m.stage, SENDS_GRANTED, t, Away);
    TallyUpdate(m.stage, RECVS_GRANTED, t, Away);
    LeaveFits(m.sender, m.receiver, m.stage, t);
    if m.live {
      DepositAppends(m, t);
      SignalFits(m.sender, m.receiver, stage1);
      SignalTallies(m.sender, m.receiver, stage1);
      assert m'.sent == m'.got + Contents(m');
    } else {
      assert Contents(m') == Contents(m);
    }
  }

  lemma ReceiveEndKeeps(m: Mailbox, t: int)
    requires Inv(m) && 0 <= t < |m.stage| && m.stage[t].RecvGranted?
    ensures Inv(ReceiveEnd(m, t))
  {
    hide Tally, Fit, Grant;
    var m' := ReceiveEnd(m, t);
    var stage1 := m.stage[t := Away];
    TallyUpdate(m.stage, SENDS_GRANTED, t, Away);
    TallyUpdate(m.stage, RECVS_GRANTED, t, Away);
    LeaveFits(m.sender, m.receiver, m.stage, t);
    if m.live {
      RemovalDropsFirst(m, t);
      SignalFits(m.sender, m.receiver, stage1);
      SignalTallies(m.sender, m.receiver, stage1);
      assert m'.sent == m'.got + Contents(m');
    } else {
      assert Contents(m') == Contents(m);
    }
  }

  lemma FreeKeeps(m: Mailbox)
    requires Inv(m)
    ensures Inv(Free(m))
  {
    assert Contents(Free(m)) == Contents(m);
  }

  /** Cancelling a waiter makes no token free. */
  lemma CancelFrees(sender: Sem, receiver: Sem, stage: seq<Stage>, t: int)
    requires Fit(sender, receiver, stage) && 0 <= t < |stage|
    ensures stage[t].SendBlocked? ==> t in sender.queue && Tokens(Cancel(sender, t)) == Tokens(sender)
    ensures stage[t].RecvBlocked? ==> t in receiver.queue && Tokens(Cancel(receiver, t)) == Tokens(receiver)
  {
  }

  lemma KillKeeps(m: Mailbox, t: int)
    requires Inv(m) && 0 <= t < |m.stage|
    ensures Inv(Kill(m, t))
  {
    hide Tally, WellFormed;
    TallyUpdate(m.stage, SENDS_GRANTED, t, Away);
    TallyUpdate(m.stage, RECVS_GRANTED, t, Away);
    assert Contents(Kill(m, t)) == Contents(m);
    CancelFrees(m.sender, m.receiver, m.stage, t);
    match m.stage[t]
    case SendBlocked(_) => CancelKeeps(m.sender, t);
    case RecvBlocked => CancelKeeps(m.receiver, t);
    case _ => LeaveFits(m.sender, m.receiver, m.stage, t);
  }

  // ---------- whole runs ----------

  datatype Op = CallSend(t: int, msg: int) | FinishSend(t: int) | CallReceive(t: int) | FinishReceive(t: int)
              | CallFree | Killed(t: int)

  ghost predicate Enabled(m: Mailbox, op: Op) {
    match op
    case CallSend(t, _) => Runs(m, t, Away)
    case CallReceive(t) => Runs(m, t, Away)
    case FinishSend(t) => 0 <= t < |m.stage| && m.stage[t].SendGranted? && (m.live ==> Ring(m))
    case FinishReceive(t) => 0 <= t < |m.stage| && m.stage[t].RecvGranted? && (m.live ==> Ring(m))
    case CallFree => true
    case Killed(t) => 0 <= t < |m.stage|
  }

  ghost function Next(m: Mailbox, op: Op): Mailbox
    requires Enabled(m, op)
  {
    match op
    case CallSend(t, msg) => SendBegin(m, t, msg)
    case CallReceive(t) => ReceiveBegin(m, t)
    case FinishSend(t) => SendEnd(m, t)
    case FinishReceive(t) => ReceiveEnd(m, t)
    case CallFree => Free(m)
    case Killed(t) => Kill(m, t)
  }

  ghost predicate Run(ms: seq<Mailbox>, ops: seq<Op>) {
    && |ms| == |ops| + 1
    && (forall i :: 0 <= i < |ops| ==> Enabled(ms[i], ops[i]) && ms[i + 1] == Next(ms[i], ops[i]))
  }

  /**
   The block that memget hands out for the ring holds all of its messages if and
   only if the 32-bit product in mailboxAlloc does not wrap.
   */
  lemma RingBytesExact(count: int)
    requires 0 <= count
    ensures 4 * count <= RoundMb(4 * count % WORD) <==> count <= 0x3FFF_FFFE
  {
    hide RoundMb;
    BlockHolds(4 * count);
  }

  /** What mailboxAlloc sets up, for a nonempty ring. */
  ghost predicate Allocated(m: Mailbox) {
    && m.live && m.max > 0 && |m.msgs| == m.max && m.count == 0 && m.start == 0
    && m.sender == Sem(m.max, []) && m.receiver == Sem(0, [])
    && (forall t :: 0 <= t < |m.stage| ==> m.stage[t].Away?)
    && m.sent == [] && m.got == [] && m.lostSenders == 0 && m.lostReceivers == 0
  }

  lemma {:induction false} RunInv(ms: seq<Mailbox>, ops: seq<Op>, i: nat)
    requires Run(ms, ops) && Allocated(ms[0]) && i < |ms|
    ensures Inv(ms[i])
  {
    hide Inv, Next;
    if i == 0 {
      AllocatedInv(ms[0]);
    } else {
      RunInv(ms, ops, i - 1);
      var m := ms[i - 1];
      assert ms[i - 1 + 1] == Next(m, ops[i - 1]);
      StepInv(m, ops[i - 1]);
    }
  }

  lemma AllocatedInv(m: Mailbox)
    requires Allocated(m)
    ensures Inv(m)
  {
    TallyNone(m.stage, SENDS_GRANTED);
    TallyNone(m.stage, RECVS_GRANTED);
  }

  lemma StepInv(m: Mailbox, op: Op)
    requires Inv(m) && Enabled(m, op)
    ensures Inv(Next(m, op))
  {
    hide Inv;
    match op
    case CallSend(t, msg) => SendBeginKeeps(m, t, msg);
    case CallReceive(t) => ReceiveBeginKeeps(m, t);
    case FinishSend(t) => SendEndKeeps(m, t);
    case FinishReceive(t) => ReceiveEndKeeps(m, t);
    case CallFree => FreeKeeps(m);
    case Killed(t) => KillKeeps(m, t);
  }

  /**
   For every interleaving of any number of senders and receivers, kills and a
   mailboxFree included, a mailbox is a bounded FIFO: between 0 and max
   messages, a deposit goes to a slot that holds no unread message, a removal
   takes the oldest unread one, and what was received is a prefix of what was
   deposited.
   */
  lemma BoundedFifo(ms: seq<Mailbox>, ops: seq<Op>, i: nat)
    requires Run(ms, ops) && Allocated(ms[0]) && i < |ms|
    ensures var m := ms[i];
      && Ring(m) && m.got <= m.sent && m.sent == m.got + Contents(m)
      && (i < |ops| && ops[i].FinishSend? && m.live ==>
            m.count < m.max && forall j :: 0 <= j < m.count ==> Slot(m, j) != Slot(m, m.count))
      && (i < |ops| && ops[i].FinishReceive? && m.live ==>
            m.count > 0 && ms[i + 1].got == m.got + [Contents(m)[0]])
  {
    RunInv(ms, ops, i);
    var m := ms[i];
    if i < |ops| {
      assert ms[i + 1] == Next(m, ops[i]);
      if ops[i].FinishSend? && m.live { GrantedSenderHasRoom(m, ops[i].t); }
      if ops[i].FinishReceive? && m.live { GrantedReceiverHasMessage(m, ops[i].t); }
    }
  }

  /**
   Conservation in every run while the mailbox is allocated: free sender tokens,
   granted senders, messages and slots lost with killed senders add up to max;
   receiver tokens, granted receivers and messages lost with killed receivers
   add up to the number of messages.
   */
  lemma TokensConserved(ms: seq<Mailbox>, ops: seq<Op>, i: nat)
    requires Run(ms, ops) && Allocated(ms[0]) && i < |ms| && ms[i].live
    ensures SlotsConserved(ms[i]) && MessagesConserved(ms[i])
  {
    RunInv(ms, ops, i);
  }

  /** Senders and receivers are never all stuck: unless a granted thread was killed, somebody can go on. */
  lemma NotAllBlocked(ms: seq<Mailbox>, ops: seq<Op>, i: nat)
    requires Run(ms, ops) && Allocated(ms[0]) && i < |ms| && ms[i].live
    requires ms[i].lostSenders == 0 && ms[i].lostReceivers == 0
    requires ms[i].sender.queue != [] && ms[i].receiver.queue != []
    ensures exists t :: 0 <= t < |ms[i].stage| && (ms[i].stage[t].SendGranted? || ms[i].stage[t].RecvGranted?)
  {
    RunInv(ms, ops, i);
    var m := ms[i];
    if forall t :: 0 <= t < |m.stage| ==> !SENDS_GRANTED(m.stage[t]) {
      TallyNone(m.stage, SENDS_GRANTED);
      if forall t :: 0 <= t < |m.stage| ==> !RECVS_GRANTED(m.stage[t]) {
        TallyNone(m.stage, RECVS_GRANTED);
        assert false;
      }
      var t :| 0 <= t < |m.stage| && RECVS_GRANTED(m.stage[t]);
      assert m.stage[t].RecvGranted?;
    } else {
      var t :| 0 <= t < |m.stage| && SENDS_GRANTED(m.stage[t]);
      assert m.stage[t].SendGranted?;
    }
  }

  // ---------- what the calls do to their caller ----------

  /** The stage of thread t alone changes, to s. */
  ghost predicate StageSet(m: Mailbox, m': Mailbox, t: int, s: Stage) {
    0 <= t < |m.stage| && m'.stage == m.stage[t := s]
  }

  /** The ring, its histories and the slots are the same. */
  ghost predicate SameRing(m: Mailbox, m': Mailbox) {
    && m'.max == m.max && m'.count == m.count && m'.start == m.start && m'.msgs == m.msgs
    && m'.sent == m.sent && m'.got == m.got
  }

  /**
   mailboxSend of msg is let through at once with its message while there is a
   token, and otherwise waits with it at the end of the senders' queue.
   */
  lemma SendCallEffect(m: Mailbox, t: int, msg: int)
    requires Inv(m) && Runs(m, t, Away)
    ensures var m' := SendBegin(m, t, msg);
      && SameRing(m, m') && m'.receiver == m.receiver && m'.live == m.live
      && (if !m.live then m' == m
          else if Tokens(m.sender) > 0 then
            StageSet(m, m', t, SendGranted(msg)) && Tokens(m'.sender) == Tokens(m.sender) - 1 && m'.sender.queue == m.sender.queue
          else StageSet(m, m', t, SendBlocked(msg)) && m'.sender.queue == m.sender.queue + [t])
  {
  }

  lemma ReceiveCallEffect(m: Mailbox, t: int)
    requires Inv(m) && Runs(m, t, Away)
    ensures var m' := ReceiveBegin(m, t);
      && SameRing(m, m') && m'.sender == m.sender && m'.live == m.live
      && (if !m.live then m' == m
          else if Tokens(m.receiver) > 0 then
            StageSet(m, m', t, RecvGranted) && Tokens(m'.receiver) == Tokens(m.receiver) - 1 && m'.receiver.queue == m.receiver.queue
          else StageSet(m, m', t, RecvBlocked) && m'.receiver.queue == m.receiver.queue + [t])
  {
  }

  /** mailboxFree marks the mailbox free and lets everybody through who was blocked on it; messages stay with their senders. */
  lemma FreeEffect(m: Mailbox)
    requires Inv(m) && m.live
    ensures var m' := Free(m);
      && !m'.live && SameRing(m, m') && |m'.stage| == |m.stage| && m'.sender.queue == [] && m'.receiver.queue == []
      && (forall t :: 0 <= t < |m.stage| ==>
            match m.stage[t]
            case SendBlocked(msg) => m'.stage[t] == SendGranted(msg)
            case RecvBlocked => m'.stage[t] == RecvGranted
            case _ => m'.stage[t] == m.stage[t])
  {
  }

  /** A killed thread is out of both queues and has no step left. */
  lemma KillEffect(m: Mailbox, t: int)
    requires Inv(m) && 0 <= t < |m.stage|
    ensures var m' := Kill(m, t);
      StageSet(m, m', t, Away) && SameRing(m, m') && m'.live == m.live && t !in m'.sender.queue && t !in m'.receiver.queue
  {
    KillKeeps(m, t);
    var m' := Kill(m, t);
    assert Fit(m'.sender, m'.receiver, m'.stage) && m'.stage[t].Away?;
  }

  /** Thread t is sending msg. */
  predicate Sends(m: Mailbox, t: int, msg: int) {
    0 <= t < |m.stage| && (m.stage[t] == SendBlocked(msg) || m.stage[t] == SendGranted(msg))
  }

  predicate StepOf(op: Op, t: int) { !op.CallFree? && op.t == t }

  /** Until it takes its own next step, a sending thread keeps its message. */
  lemma MessageKept(m: Mailbox, op: Op, t: int, msg: int)
    requires Inv(m) && Enabled(m, op) && Sends(m, t, msg) && !StepOf(op, t)
    ensures Sends(Next(m, op), t, msg)
  {
    hide Tally, WellFormed;
  }

  lemma {:induction false} MessageWaits(ms: seq<Mailbox>, ops: seq<Op>, a: nat, i: nat, t: int, msg: int)
    requires Run(ms, ops) && Allocated(ms[0]) && a <= i < |ms| && Sends(ms[a], t, msg)
    requires forall j :: a <= j < i ==> !StepOf(ops[j], t)
    ensures Sends(ms[i], t, msg)
  {
    hide Inv, Next, Sends, Allocated;
    if a < i {
      MessageWaits(ms, ops, a, i - 1, t, msg);
      RunInv(ms, ops, i - 1);
      assert ms[i - 1 + 1] == Next(ms[i - 1], ops[i - 1]);
      MessageKept(ms[i - 1], ops[i - 1], t, msg);
    }
  }

  /**
   What mailboxSend was given is what it deposits: over every run, when the call
   that thread t made with msg ends on a live mailbox, msg is appended to the
   messages deposited, and so, with BoundedFifo, it is received in its turn.
   */
  lemma MessageDeposited(ms: seq<Mailbox>, ops: seq<Op>, a: nat, i: nat, t: int, msg: int)
    requires Run(ms, ops) && Allocated(ms[0]) && a < i < |ops| && ops[a] == CallSend(t, msg) && ms[a].live
    requires forall j :: a < j < i ==> !StepOf(ops[j], t)
    requires ops[i] == FinishSend(t) && ms[i].live
    ensures ms[i + 1].sent == ms[i].sent + [msg]
    ensures Ring(ms[i]) && Ring(ms[i + 1]) && Contents(ms[i + 1]) == Contents(ms[i]) + [msg]
  {
    hide Tally, Fit, Allocated;
    RunInv(ms, ops, a);
    RunInv(ms, ops, i);
    assert ms[a + 1] == Next(ms[a], ops[a]) && ms[i + 1] == Next(ms[i], ops[i]);
    SendCallEffect(ms[a], t, msg);
    MessageWaits(ms, ops, a + 1, i, t, msg);
    DepositAppends(ms[i], t);
  }

  // ---------- the table entry, updated in place ----------

  class Entry {
    var live: bool
    var max: int
    var count: int
    var start: int
    const msgs: array<int>
    var sender: Sem
    var receiver: Sem
    var stage: seq<Stage>
    ghost var sent: seq<int>
    ghost var got: seq<int>
    ghost var lostSenders: nat
    ghost var lostReceivers: nat

    ghost function View(): Mailbox
      reads this, msgs
    {
      Mailbox(live, max, count, start, msgs[..], sender, receiver, stage, sent, got, lostSenders, lostReceivers)
    }

    /** mailboxAlloc, once memory and both semaphores have been obtained. */
    constructor (size: int, threads: nat)
      requires size > 0
      ensures Allocated(View()) && max == size && |stage| == threads && fresh(msgs)
    {
      live, max, count, start := true, size, 0, 0;
      msgs := new int[size];
      sender, receiver := Sem(size, []), Sem(0, []);
      stage := seq(threads, _ => Away);
      sent, got, lostSenders, lostReceivers := [], [], 0, 0;
    }

    method SendBeginCall(t: int, msg: int) returns (ok: bool)
      requires Inv(View()) && Runs(View(), t, Away)
      modifies this`sender, this`stage
      ensures View() == SendBegin(old(View()), t, msg) && Inv(View())
      ensures ok == live
    {
      SendBeginKeeps(View(), t, msg);
      if !live { return false; }
      stage := stage[t := if sender.count - 1 < 0 then SendBlocked(msg) else SendGranted(msg)];
      sender := Down(sender, t);
      ok := true;
    }

    method SendEndCall(t: int) returns (ok: bool)
      requires Inv(View()) && 0 <= t < |stage| && stage[t].SendGranted?
      modifies this`count, this`receiver, this`stage, this`sent, msgs
      ensures View() == SendEnd(old(View()), t) && Inv(View())
      ensures ok == live
    {
      hide Tally, Fit;
      SendEndKeeps(View(), t);
      var msg := stage[t].msg;
      stage := stage[t := Away];
      if !live { return false; }
      ghost var m := old(View());
      SlotIsRemainder(m, m.count);
      msgs[(start + count) % max] := msg;
      count := count + 1;
      stage := Grant(stage, receiver);
      receiver := Up(receiver);
      sent := sent + [msg];
      ok := true;
    }

    method ReceiveBeginCall(t: int) returns (ok: bool)
      requires Inv(View()) && Runs(View(), t, Away)
      modifies this`receiver, this`stage
      ensures View() == ReceiveBegin(old(View()), t) && Inv(View())
      ensures ok == live
    {
      ReceiveBeginKeeps(View(), t);
      if !live { return false; }
      stage := stage[t := if receiver.count - 1 < 0 then RecvBlocked else RecvGranted];
      receiver := Down(receiver, t);
      ok := true;
    }

    method ReceiveEndCall(t: int) returns (ok: bool, msg: int)
      requires Inv(View()) && 0 <= t < |stage| && stage[t].RecvGranted?
      modifies this`count, this`start, this`sender, this`stage, this`got
      ensures View() == ReceiveEnd(old(View()), t) && Inv(View())
      ensures ok == live
      ensures ok ==> old(count) > 0 && msg == old(Contents(View()))[0]
    {
      hide Tally, Fit;
      ReceiveEndKeeps(View(), t);
      stage := stage[t := Away];
      if !live { return false, -1; }
      GrantedReceiverHasMessage(old(View()), t);
      SlotIsRemainder(old(View()), 1);
      msg := msgs[start];
      start := (start + 1) % max;
      count := count - 1;
      stage := Grant(stage, sender);
      sender := Up(sender);
      got := got + [msg];
      ok := true;
    }

    method FreeCall() returns (ok: bool)
      requires Inv(View())
      modifies this`live, this`sender, this`receiver, this`stage
      ensures View() == Free(old(View())) && Inv(View())
      ensures ok == old(live)
    {
      FreeKeeps(View());
      if !live { return false; }
      live := false;
      stage := GrantAll(stage);
      sender, receiver := Sem(0, []), Sem(0, []);
      ok := true;
    }
  }
}
