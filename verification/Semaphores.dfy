/**
 A semaphore by itself: its count and the threads that wait on it.  The
 protocols built on semaphores use this view.
 */
module Semaphores {
  import opened Queues

  datatype Sem = Sem(count: int, queue: seq<int>)

  /** As many waiters as the count is below zero, none of them twice. */
  ghost predicate WellFormed(s: Sem) {
    |s.queue| == (if s.count < 0 then -s.count else 0) && NoDup(s.queue)
  }

  /** `wait` by thread t. */
  function Down(s: Sem, t: int): Sem {
    Sem(s.count - 1, if s.count <= 0 then s.queue + [t] else s.queue)
  }

  /** Whether `wait` puts its caller on the queue. */
  predicate Blocks(s: Sem) { s.count <= 0 }

  /** `signal`: releases the longest waiter, if there is one. */
  function Up(s: Sem): Sem {
    Sem(s.count + 1, if s.count < 0 && s.queue != [] then s.queue[1..] else s.queue)
  }

  /** A waiter is killed. */
  function Cancel(s: Sem, t: int): Sem {
    Sem(s.count + 1, Without(s.queue, t))
  }

  /** The number of waits that would not block. */
  function Tokens(s: Sem): nat { if s.count > 0 then s.count else 0 }

  lemma DownKeeps(s: Sem, t: int)
    requires WellFormed(s) && t !in s.queue
    ensures WellFormed(Down(s, t))
    ensures t in Down(s, t).queue <==> Blocks(s)
  {
  }

  lemma UpKeeps(s: Sem)
    requires WellFormed(s)
    ensures WellFormed(Up(s))
    ensures s.count < 0 ==> s.queue != [] && s.queue == [s.queue[0]] + Up(s).queue
    ensures s.count >= 0 ==> Up(s).queue == s.queue
    ensures forall u :: u in Up(s).queue <==> u in s.queue && (s.count < 0 ==> u != s.queue[0])
  {
    if s.count < 0 { TailElements(s.queue); }
  }

  lemma CancelKeeps(s: Sem, t: int)
    requires WellFormed(s) && t in s.queue
    ensures WellFormed(Cancel(s, t))
    ensures forall u :: u in Cancel(s, t).queue <==> u in s.queue && u != t
  {
    WithoutElements(s.queue, t);
  }

  // ---------- counting threads by their stage ----------

  /** How many threads are at a stage that satisfies p. */
  function Tally<S>(stage: seq<S>, p: S -> bool): nat {
    if stage == [] then 0 else Tally(stage[..|stage| - 1], p) + (if p(stage[|stage| - 1]) then 1 else 0)
  }

  lemma {:induction false} TallyUpdate<S>(stage: seq<S>, p: S -> bool, t: nat, s: S)
    requires t < |stage|
    ensures Tally(stage[t := s], p) == Tally(stage, p) - (if p(stage[t]) then 1 else 0) + (if p(s) then 1 else 0)
  {
    var n := |stage| - 1;
    if t == n {
      assert stage[t := s][..n] == stage[..n];
    } else {
      assert stage[t := s][..n] == stage[..n][t := s];
      TallyUpdate(stage[..n], p, t, s);
    }
  }

  lemma {:induction false} TallyPositive<S>(stage: seq<S>, p: S -> bool, t: nat)
    requires t < |stage| && p(stage[t])
    ensures Tally(stage, p) > 0
  {
    if t < |stage| - 1 { TallyPositive(stage[..|stage| - 1], p, t); }
  }

  lemma {:induction false} TallyNone<S>(stage: seq<S>, p: S -> bool)
    requires forall t :: 0 <= t < |stage| ==> !p(stage[t])
    ensures Tally(stage, p) == 0
  {
    if stage != [] { TallyNone(stage[..|stage| - 1], p); }
  }
}
