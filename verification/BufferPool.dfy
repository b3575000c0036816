/** Buffer pools (system/bufpool.c): one block of memory, cut into equal buffers. */
module BufferPools {
  import opened Common
  import opened Heaps
  import opened Queues
  import opened Semaphores

  const HEADER := 8

  /**
   Where a thread is with respect to the pool: bufget is split at its `wait` and
   buffree before its `signaln`, where other threads may run.  Signalling: has
   linked its buffer in, but not yet called signaln.
   */
  datatype Stage = Away | GetBlocked | GetGranted | Signalling

  /**
   The free slices form a chain through their `next` fields that ends one past
   the last slice, and a buffer that is out points to itself.  Here are
   a pool table entry, the `next` fields of the slices by address, the stages of
   all threads, and three histories: the chain, the buffers that are out, and
   how many threads were killed between the two parts of a call.
   */
  datatype Pool = Pool(head: int, bufsize: int, nbuf: int, next: int, links: map<int, int>,
                       sem: Sem, stage: seq<Stage>, chain: seq<int>, out: set<int>, lost: nat)

  // ---------- sizes ----------

  /** The slice size of bfpalloc, in unsigned 32-bit arithmetic. */
  function SliceSize(bufsize: int): int {
    ((bufsize + 3) % WORD / 4 * 4 + HEADER) % WORD
  }

  /** A slice has room for the header and the buffer asked for, unless the arithmetic wraps. */
  lemma SliceSizeFits(bufsize: int)
    requires 0 <= bufsize < WORD
    ensures SliceSize(bufsize) >= bufsize + HEADER <==> bufsize <= 0xFFFF_FFF4
    ensures bufsize <= 0xFFFF_FFF4 ==> SliceSize(bufsize) < bufsize + HEADER + 4 && SliceSize(bufsize) % 4 == 0
  {
    if bufsize > 0xFFFF_FFFC {
      assert (bufsize + 3) % WORD == bufsize + 3 - WORD;
    } else {
      assert (bufsize + 3) % WORD == bufsize + 3;
    }
  }

  // ---------- slices ----------

  /** i steps of d, added up as bfpalloc does. */
  function Steps(d: int, i: int): int
    decreases i
  {
    if i <= 0 then 0 else Steps(d, i - 1) + d
  }

  function Slice(head: int, bufsize: int, i: int): int { head + Steps(bufsize, i) }

  lemma {:induction false} SliceAddress(head: int, bufsize: int, i: nat)
    ensures Slice(head, bufsize, i) == head + i * bufsize
  {
    if i > 0 {
      SliceAddress(head, bufsize, i - 1);
      assert i * bufsize == (i - 1) * bufsize + bufsize;
    }
  }

  lemma NextSlice(head: int, bufsize: int, i: nat)
    ensures Slice(head, bufsize, i + 1) == Slice(head, bufsize, i) + bufsize
  {
  }

  lemma {:induction false} SlicesApart(head: int, bufsize: int, i: nat, j: nat)
    requires bufsize > 0 && i < j
    ensures Slice(head, bufsize, i) + bufsize <= Slice(head, bufsize, j)
    decreases j
  {
    if i < j - 1 { SlicesApart(head, bufsize, i, j - 1); }
  }

  function End(p: Pool): int { Slice(p.head, p.bufsize, p.nbuf) }

  ghost predicate IsSlice(p: Pool, b: int) {
    exists i :: 0 <= i < p.nbuf && b == Slice(p.head, p.bufsize, i)
  }

  lemma EndIsNoSlice(p: Pool)
    requires p.bufsize > 0
    ensures !IsSlice(p, End(p))
  {
    hide Slice;
    forall i | 0 <= i < p.nbuf ensures End(p) != Slice(p.head, p.bufsize, i) {
      SlicesApart(p.head, p.bufsize, i, p.nbuf);
    }
  }

  // ---------- the steps ----------

  /** bufget up to its wait. */
  function GetBegin(p: Pool, t: int): Pool
    requires 0 <= t < |p.stage|
  {
    p.(sem := Down(p.sem, t), stage := p.stage[t := if Blocks(p.sem) then GetBlocked else GetGranted])
  }

  /** The rest of bufget: takes whatever `next` points to. */
  function GetEnd(p: Pool, t: int): Pool
    requires 0 <= t < |p.stage|
  {
    var b := p.next;
    p.(next := if b in p.links then p.links[b] else b, links := p.links[b := b], stage := p.stage[t := Away],
       chain := if p.chain == [] then [] else p.chain[1..], out := p.out + {b})
  }

  /** buffree up to its signaln; a buffer that does not point to itself is refused. */
  function FreeBegin(p: Pool, t: int, b: int): Pool
    requires 0 <= t < |p.stage| && b in p.links
  {
    if p.links[b] != b then p
    else p.(next := b, links := p.links[b := p.next], stage := p.stage[t := Signalling],
            chain := [b] + p.chain, out := p.out - {b})
  }

  function Grant(stage: seq<Stage>, s: Sem): seq<Stage> {
    if s.count < 0 && s.queue != [] && 0 <= s.queue[0] < |stage| then stage[s.queue[0] := GetGranted] else stage
  }

  /** signaln(freebuf, 1). */
  function FreeEnd(p: Pool, t: int): Pool
    requires 0 <= t < |p.stage|
  {
    p.(sem := Up(p.sem), stage := Grant(p.stage[t := Away], p.sem))
  }

  /** A thread is killed: off the queue if it waits; its token is lost if it is between the parts of a call. */
  function Kill(p: Pool, t: int): Pool
    requires 0 <= t < |p.stage|
  {
    var p1 := p.(stage := p.stage[t := Away]);
    match p.stage[t]
    case GetBlocked => p1.(sem := Cancel(p.sem, t))
    case GetGranted => p1.(lost := p.lost + 1)
    case Signalling => p1.(lost := p.lost + 1)
    case Away => p1
  }

  // ---------- the invariant ----------

  const GETS: Stage -> bool := (s: Stage) => s.GetGranted?
  const SIGNALS: Stage -> bool := (s: Stage) => s.Signalling?

  /** The i-th buffer of a chain points to the next one, the last one to `end`. */
  ghost predicate Link(links: map<int, int>, cs: seq<int>, end: int, i: int)
    requires 0 <= i < |cs|
  {
    cs[i] in links && links[cs[i]] == (if i + 1 < |cs| then cs[i + 1] else end)
  }

  /** `from` is the start of a chain through the links that visits cs and stops at `end`. */
  ghost predicate Chained(links: map<int, int>, from: int, cs: seq<int>, end: int) {
    && from == (if cs == [] then end else cs[0])
    && (forall i :: 0 <= i < |cs| ==> Link(links, cs, end, i))
  }

  /** Every slice is in the chain or out, never both, and nothing else is. */
  ghost predicate Memory(p: Pool) {
    && p.bufsize > 0 && p.nbuf >= 0
    && (forall b :: b in p.links <==> IsSlice(p, b))
    && (forall b :: b in p.links <==> b in p.chain || b in p.out)
    && (forall b :: b in p.out ==> b !in p.chain && b in p.links && p.links[b] == b)
    && NoDup(p.chain) && |p.chain| + |p.out| == p.nbuf
    && Chained(p.links, p.next, p.chain, End(p))
  }

  ghost predicate Fit(s: Sem, stage: seq<Stage>) {
    && WellFormed(s)
    && (forall t :: t in s.queue <==> 0 <= t < |stage| && stage[t].GetBlocked?)
  }

  /** Every chained buffer is a free token, promised to a thread let through by wait, not yet signalled, or lost. */
  ghost predicate Promised(p: Pool) {
    |p.chain| == Tokens(p.sem) + Tally(p.stage, GETS) + Tally(p.stage, SIGNALS) + p.lost
  }

  ghost predicate Inv(p: Pool) { Memory(p) && Fit(p.sem, p.stage) && Promised(p) }

  lemma StageChange(stage: seq<Stage>, t: nat, s: Stage)
    requires t < |stage|
    ensures Tally(stage[t := s], GETS) == Tally(stage, GETS) - (if stage[t].GetGranted? then 1 else 0) + (if s.GetGranted? then 1 else 0)
    ensures Tally(stage[t := s], SIGNALS) ==
            Tally(stage, SIGNALS) - (if stage[t].Signalling? then 1 else 0) + (if s.Signalling? then 1 else 0)
  {
    hide Tally;
    TallyUpdate(stage, GETS, t, s);
    TallyUpdate(stage, SIGNALS, t, s);
  }

  lemma SameMemory(p: Pool, p': Pool)
    requires Memory(p) && p' == p.(sem := p'.sem, stage := p'.stage, lost := p'.lost)
    ensures Memory(p')
  {
    hide Slice, NoDup;
    assert forall b :: IsSlice(p', b) <==> IsSlice(p, b);
  }

  lemma GetBeginKeeps(p: Pool, t: int)
    requires Inv(p) && 0 <= t < |p.stage| && p.stage[t].Away?
    ensures Inv(GetBegin(p, t))
  {
    hide Tally, Memory;
    SameMemory(p, GetBegin(p, t));
    DownKeeps(p.sem, t);
    StageChange(p.stage, t, if Blocks(p.sem) then GetBlocked else GetGranted);
  }

  /** A thread that wait let through always finds a buffer: a slice, in the chain, not out. */
  lemma GrantedGetsBuffer(p: Pool, t: int)
    requires Inv(p) && 0 <= t < |p.stage| && p.stage[t].GetGranted?
    ensures p.chain != [] && p.next == p.chain[0]
    ensures IsSlice(p, p.next) && p.next !in p.out && p.next != End(p)
  {
    hide Tally, Slice;
    TallyPositive(p.stage, GETS, t);
    assert p.chain[0] in p.chain;
    EndIsNoSlice(p);
  }

  lemma PopChained(links: map<int, int>, from: int, cs: seq<int>, end: int, b: int)
    requires Chained(links, from, cs, end) && NoDup(cs) && cs != [] && b == from
    ensures b in links && Chained(links[b := b], links[b], cs[1..], end)
  {
    assert Link(links, cs, end, 0);
    var links', cs' := links[b := b], cs[1..];
    forall i | 0 <= i < |cs'| ensures Link(links', cs', end, i) { assert Link(links, cs, end, i + 1); }
  }

  lemma PushChained(links: map<int, int>, from: int, cs: seq<int>, end: int, b: int)
    requires Chained(links, from, cs, end) && b !in cs
    ensures Chained(links[b := from], b, [b] + cs, end)
  {
    var links', cs' := links[b := from], [b] + cs;
    forall i | 0 <= i < |cs'| ensures Link(links', cs', end, i) {
      assert i > 0 ==> Link(links, cs, end, i - 1);
    }
  }

  lemma TakeKeepsMemory(p: Pool, t: int)
    requires Memory(p) && p.chain != [] && 0 <= t < |p.stage|
    ensures Memory(GetEnd(p, t))
  {
    hide Slice, NoDup, Chained;
    var p' := GetEnd(p, t);
    HeadOf(p.links, p.next, p.chain, End(p));
    PopChained(p.links, p.next, p.chain, End(p), p.next);
    TailElements(p.chain);
    assert forall b :: IsSlice(p', b) <==> IsSlice(p, b);
  }

  lemma HeadOf(links: map<int, int>, from: int, cs: seq<int>, end: int)
    requires Chained(links, from, cs, end) && cs != []
    ensures from == cs[0] && from in cs && from in links
  {
    assert Link(links, cs, end, 0);
  }

  lemma GetEndKeeps(p: Pool, t: int)
    requires Inv(p) && 0 <= t < |p.stage| && p.stage[t].GetGranted?
    ensures Inv(GetEnd(p, t))
  {
    hide Tally, Memory;
    GrantedGetsBuffer(p, t);
    TakeKeepsMemory(p, t);
    StageChange(p.stage, t, Away);
  }

  /** buffree accepts exactly the buffers that are out. */
  lemma FreeAcceptsExactly(p: Pool, b: int)
    requires Memory(p) && b in p.links
    ensures p.links[b] == b <==> b in p.out
  {
    hide Slice;
    if b in p.chain {
      var i :| 0 <= i < |p.chain| && p.chain[i] == b;
      EndIsNoSlice(p);
      assert Link(p.links, p.chain, End(p), i);
    }
  }

  lemma PutKeepsMemory(p: Pool, t: int, b: int)
    requires Memory(p) && 0 <= t < |p.stage| && b in p.out
    ensures b in p.links && p.links[b] == b && Memory(FreeBegin(p, t, b))
  {
    hide Slice, Chained;
    var p' := FreeBegin(p, t, b);
    PushChained(p.links, p.next, p.chain, End(p), b);
    assert forall c :: IsSlice(p', c) <==> IsSlice(p, c);
  }

  lemma FreeBeginKeeps(p: Pool, t: int, b: int)
    requires Inv(p) && 0 <= t < |p.stage| && p.stage[t].Away? && b in p.links
    ensures Inv(FreeBegin(p, t, b))
  {
    hide Tally, Memory;
    FreeAcceptsExactly(p, b);
    if b in p.out { PutKeepsMemory(p, t, b); }
    StageChange(p.stage, t, Signalling);
  }

  lemma FreeEndKeeps(p: Pool, t: int)
    requires Inv(p) && 0 <= t < |p.stage| && p.stage[t].Signalling?
    ensures Inv(FreeEnd(p, t))
  {
    hide Tally, Memory, WellFormed, Up;
    SameMemory(p, FreeEnd(p, t));
    var stage1 := p.stage[t := Away];
    StageChange(p.stage, t, Away);
    UpKeeps(p.sem);
    UpTokens(p.sem);
    if p.sem.count < 0 {
      var u := p.sem.queue[0];
      assert u in p.sem.queue;
      StageChange(stage1, u, GetGranted);
    }
  }

  lemma UpTokens(s: Sem)
    requires WellFormed(s)
    ensures Tokens(Up(s)) == Tokens(s) + if s.count < 0 then 0 else 1
  {
  }

  lemma KillKeeps(p: Pool, t: int)
    requires Inv(p) && 0 <= t < |p.stage|
    ensures Inv(Kill(p, t))
  {
    hide Tally, Memory;
    SameMemory(p, Kill(p, t));
    StageChange(p.stage, t, Away);
    if p.stage[t].GetBlocked? { CancelKeeps(p.sem, t); }
  }

  // ---------- whole runs ----------

  datatype Op = CallGet(t: int) | FinishGet(t: int) | CallFree(t: int, buf: int) | FinishFree(t: int) | Killed(t: int)

  ghost predicate Enabled(p: Pool, op: Op) {
    && 0 <= op.t < |p.stage|
    && match op
       case CallGet(t) => p.stage[t].Away?
       case FinishGet(t) => p.stage[t].GetGranted?
       case CallFree(t, b) => p.stage[t].Away? && b in p.links
       case FinishFree(t) => p.stage[t].Signalling?
       case Killed(t) => true
  }

  ghost function Next(p: Pool, op: Op): Pool
    requires Enabled(p, op)
  {
    match op
    case CallGet(t) => GetBegin(p, t)
    case FinishGet(t) => GetEnd(p, t)
    case CallFree(t, b) => FreeBegin(p, t, b)
    case FinishFree(t) => FreeEnd(p, t)
    case Killed(t) => Kill(p, t)
  }

  ghost predicate Run(ps: seq<Pool>, ops: seq<Op>) {
    && |ps| == |ops| + 1
    && (forall i :: 0 <= i < |ops| ==> Enabled(ps[i], ops[i]) && ps[i + 1] == Next(ps[i], ops[i]))
  }

  /** The first n slices are linked, each to the one behind it. */
  ghost predicate Built(links: map<int, int>, head: int, bufsize: int, n: int) {
    && (forall b :: b in links <==> exists i :: 0 <= i < n && b == Slice(head, bufsize, i))
    && (forall i :: 0 <= i < n ==> Slice(head, bufsize, i) in links && links[Slice(head, bufsize, i)] == Slice(head, bufsize, i + 1))
  }

  /** What bfpalloc sets up. */
  ghost predicate Created(p: Pool) {
    && p.bufsize > 0 && p.nbuf >= 1
    && p.chain == seq(p.nbuf, i requires 0 <= i < p.nbuf => Slice(p.head, p.bufsize, i))
    && p.next == p.head && p.out == {} && p.lost == 0
    && Built(p.links, p.head, p.bufsize, p.nbuf)
    && p.sem == Sem(p.nbuf, [])
    && (forall t :: 0 <= t < |p.stage| ==> p.stage[t].Away?)
  }

  lemma CreatedInv(p: Pool)
    requires Created(p)
    ensures Inv(p)
  {
    hide Slice, Tally;
    SliceAddress(p.head, p.bufsize, 0);
    TallyNone(p.stage, GETS);
    TallyNone(p.stage, SIGNALS);
    forall a, b | 0 <= a < b < p.nbuf ensures p.chain[a] != p.chain[b] {
      SlicesApart(p.head, p.bufsize, a, b);
    }
    forall b | IsSlice(p, b) ensures b in p.chain {
      var i :| 0 <= i < p.nbuf && b == Slice(p.head, p.bufsize, i);
      assert p.chain[i] == b;
    }
  }

  lemma StepInv(p: Pool, op: Op)
    requires Inv(p) && Enabled(p, op)
    ensures Inv(Next(p, op))
  {
    hide Inv;
    match op
    case CallGet(t) => GetBeginKeeps(p, t);
    case FinishGet(t) => GetEndKeeps(p, t);
    case CallFree(t, b) => FreeBeginKeeps(p, t, b);
    case FinishFree(t) => FreeEndKeeps(p, t);
    case Killed(t) => KillKeeps(p, t);
  }

  lemma {:induction false} RunInv(ps: seq<Pool>, ops: seq<Op>, i: nat)
    requires Run(ps, ops) && Created(ps[0]) && i < |ps|
    ensures Inv(ps[i]) && SameArea(ps[i], ps[0])
  {
    hide Inv, Created;
    if i == 0 {
      CreatedInv(ps[0]);
    } else {
      RunInv(ps, ops, i - 1);
      assert ps[i - 1 + 1] == Next(ps[i - 1], ops[i - 1]);
      StepInv(ps[i - 1], ops[i - 1]);
    }
  }

  ghost predicate SameArea(p: Pool, q: Pool) {
    p.head == q.head && p.bufsize == q.bufsize && p.nbuf == q.nbuf
  }

  /**
   For every interleaving, kills included: each slice of the pool is in the
   chain or out and not both; bufget hands out a slice that was not out, and
   never the address behind the last one; buffree puts back a buffer that is
   out and refuses one that is already in the chain, changing nothing.
   */
  lemma NeverHandedOutTwice(ps: seq<Pool>, ops: seq<Op>, i: nat)
    requires Run(ps, ops) && Created(ps[0]) && i < |ps|
    ensures var p := ps[i];
      && |p.chain| + |p.out| == ps[0].nbuf
      && (forall b :: IsSlice(ps[0], b) <==> (b in p.chain || b in p.out))
      && (forall b :: b in p.chain ==> b !in p.out)
    ensures i < |ops| && ops[i].FinishGet? ==>
              var b := ps[i].next;
              && IsSlice(ps[0], b) && b != End(ps[0])
              && b !in ps[i].out && ps[i + 1].out == ps[i].out + {b} && ps[i].chain == [b] + ps[i + 1].chain
    ensures i < |ops| && ops[i].CallFree? ==>
              var b := ops[i].buf;
              if b in ps[i].out then ps[i + 1].out == ps[i].out - {b} && ps[i + 1].chain == [b] + ps[i].chain
              else ps[i + 1] == ps[i]
  {
    hide Slice, Created, Tally;
    RunInv(ps, ops, i);
    var p := ps[i];
    assert forall b :: IsSlice(ps[0], b) <==> IsSlice(p, b);
    if i < |ops| {
      assert ps[i + 1] == Next(p, ops[i]);
      if ops[i].FinishGet? { GrantedGetsBuffer(p, ops[i].t); }
      if ops[i].CallFree? { FreeAcceptsExactly(p, ops[i].buf); }
    }
  }

  /** Two different buffers never overlap, header and contents. */
  lemma BuffersDisjoint(p: Pool, a: int, b: int)
    requires p.bufsize > 0 && IsSlice(p, a) && IsSlice(p, b) && a != b
    ensures a + p.bufsize <= b || b + p.bufsize <= a
    ensures p.head <= a && a + p.bufsize <= End(p) == p.head + p.nbuf * p.bufsize
  {
    var i :| 0 <= i < p.nbuf && a == Slice(p.head, p.bufsize, i);
    var j :| 0 <= j < p.nbuf && b == Slice(p.head, p.bufsize, j);
    if i < j { SlicesApart(p.head, p.bufsize, i, j); } else { SlicesApart(p.head, p.bufsize, j, i); }
    SlicesApart(p.head, p.bufsize, i, p.nbuf);
    if i > 0 { SlicesApart(p.head, p.bufsize, 0, i); }
    SliceAddress(p.head, p.bufsize, p.nbuf);
  }

  /** The size that bfpalloc asks memget for, in unsigned 32-bit arithmetic. */
  function PoolBytes(bufsize: int, nbuf: int): (r: int)
    ensures 0 <= r < WORD
  {
    (nbuf * bufsize) % WORD
  }

  /** The block that memget then hands out holds all slices if and only if the product does not wrap. */
  lemma PoolBytesExact(p: Pool)
    requires p.bufsize > 0 && p.nbuf >= 0
    ensures End(p) <= p.head + RoundMb(PoolBytes(p.bufsize, p.nbuf)) <==> p.nbuf * p.bufsize <= 0xFFFF_FFF8
  {
    hide Slice, RoundMb;
    SliceAddress(p.head, p.bufsize, p.nbuf);
    BlockHolds(p.nbuf * p.bufsize);
  }

  /**
   Tokens are conserved in every run; so when threads wait, and nobody is
   between the parts of a call or was killed there, all nbuf buffers are out.
   */
  lemma WaitersMeanAllOut(ps: seq<Pool>, ops: seq<Op>, i: nat)
    requires Run(ps, ops) && Created(ps[0]) && i < |ps|
    ensures Promised(ps[i])
    ensures ps[i].sem.queue != [] && ps[i].lost == 0 &&
            (forall t :: 0 <= t < |ps[i].stage| ==> !ps[i].stage[t].GetGranted? && !ps[i].stage[t].Signalling?)
            ==> |ps[i].out| == ps[0].nbuf && ps[i].next == End(ps[0])
  {
    hide Created, Tally;
    RunInv(ps, ops, i);
    var p := ps[i];
    if forall t :: 0 <= t < |p.stage| ==> !p.stage[t].GetGranted? && !p.stage[t].Signalling? {
      TallyNone(p.stage, GETS);
      TallyNone(p.stage, SIGNALS);
    }
  }

  // ---------- what the calls do to their caller ----------

  /** bufget is let through at once while there is a token, and otherwise waits at the end of the queue. */
  lemma GetCallEffect(p: Pool, t: int)
    requires Inv(p) && 0 <= t < |p.stage| && p.stage[t].Away?
    ensures var p' := GetBegin(p, t);
      && p'.chain == p.chain && p'.out == p.out && p'.links == p.links && p'.next == p.next
      && (if Tokens(p.sem) > 0 then
            p'.stage == p.stage[t := GetGranted] && Tokens(p'.sem) == Tokens(p.sem) - 1 && p'.sem.queue == p.sem.queue
          else p'.stage == p.stage[t := GetBlocked] && p'.sem.queue == p.sem.queue + [t])
  {
    hide Memory, Tally;
  }

  /** The signal of buffree lets the longest waiter through, or leaves a token. */
  lemma SignalEffect(p: Pool, t: int)
    requires Inv(p) && 0 <= t < |p.stage| && p.stage[t].Signalling?
    ensures var p' := FreeEnd(p, t);
      && p'.chain == p.chain && p'.out == p.out
      && (if p.sem.queue == [] then p'.stage == p.stage[t := Away] && Tokens(p'.sem) == Tokens(p.sem) + 1
          else var u := p.sem.queue[0];
            0 <= u < |p.stage| && p'.stage == p.stage[t := Away][u := GetGranted] && p'.sem.queue == p.sem.queue[1..])
  {
    hide Memory, Tally;
    if p.sem.queue != [] { assert p.sem.queue[0] in p.sem.queue; }
  }

  /** A killed thread is out of the queue and has no step left; the buffers stay where they are. */
  lemma KillEffect(p: Pool, t: int)
    requires Inv(p) && 0 <= t < |p.stage|
    ensures var p' := Kill(p, t);
      p'.stage == p.stage[t := Away] && t !in p'.sem.queue && p'.chain == p.chain && p'.out == p.out && p'.links == p.links
  {
    hide Memory, Tally;
    KillKeeps(p, t);
  }

  // ---------- the table entry and its memory, updated in place ----------

  lemma BuiltNone(head: int, bufsize: int)
    ensures Built(map[], head, bufsize, 0)
  {
  }

  lemma BuiltStep(links: map<int, int>, head: int, bufsize: int, n: nat)
    requires Built(links, head, bufsize, n) && bufsize > 0
    ensures var b := Slice(head, bufsize, n);
      b + bufsize == Slice(head, bufsize, n + 1) && Built(links[b := b + bufsize], head, bufsize, n + 1)
  {
    hide Slice;
    NextSlice(head, bufsize, n);
    var b := Slice(head, bufsize, n);
    var links' := links[b := b + bufsize];
    forall i | 0 <= i < n ensures Slice(head, bufsize, i) != b { SlicesApart(head, bufsize, i, n); }
    forall c ensures c in links' <==> exists i :: 0 <= i < n + 1 && c == Slice(head, bufsize, i) {
      if c == b {
        assert 0 <= n < n + 1 && c == Slice(head, bufsize, n);
      } else if c in links {
        var i :| 0 <= i < n && c == Slice(head, bufsize, i);
        assert i < n + 1;
      }
    }
  }

  class Bfpentry {
    var used: bool
    var head: int
    var bufsize: int
    var nbuf: int
    var next: int
    var links: map<int, int>
    var sem: Sem
    var stage: seq<Stage>
    ghost var chain: seq<int>
    ghost var out: set<int>
    ghost var lost: nat

    ghost function View(): Pool
      reads this
    {
      Pool(head, bufsize, nbuf, next, links, sem, stage, chain, out, lost)
    }

    constructor ()
      ensures !used
    {
      used := false;
      links := map[];
      stage := [];
    }

    /** bfpalloc with this entry; mem is what memget answers (-1: no memory), haveSem whether semcreate succeeds. */
    method Bfpalloc(size: int, count: int, minSize: int, maxSize: int, maxCount: int, mem: int, haveSem: bool, threads: nat)
      returns (ok: bool, asked: int)
      requires 0 <= size < WORD && 0 <= count && 0 < minSize
      requires !used
      modifies this
      ensures ok == used
      ensures ok <==> minSize <= SliceSize(size) <= maxSize && 1 <= count <= maxCount && mem != SYSERR && haveSem
      ensures ok ==> Created(View()) && head == mem && nbuf == count && bufsize == SliceSize(size) && |stage| == threads
      ensures ok ==> 0 <= asked < WORD && (End(View()) <= mem + RoundMb(asked) <==> count * SliceSize(size) <= 0xFFFF_FFF8)
    {
      hide Slice, SliceSize, Built, PoolBytes, RoundMb;
      BuiltNone(mem, SliceSize(size));
      SliceAddress(mem, SliceSize(size), 0);
      var slice := SliceSize(size);
      if slice > maxSize || slice < minSize || count > maxCount || count < 1 {
        return false, 0;
      }
      used, nbuf, bufsize := true, count, slice;
      asked := PoolBytes(slice, count);
      if mem == SYSERR {
        used := false;
        return false, asked;
      }
      next, head := mem, mem;
      var i, bufptr := 0, mem;
      links := map[];
      while i < count
        invariant 0 <= i <= count && bufptr == Slice(mem, slice, i)
        invariant used && nbuf == count && bufsize == slice && next == mem && head == mem
        invariant Built(links, mem, slice, i)
      {
        BuiltStep(links, mem, slice, i);
        links := links[bufptr := bufptr + slice];
        bufptr := links[bufptr];
        i := i + 1;
      }
      if !haveSem {
        used := false;
        return false, asked;
      }
      sem := Sem(count, []);
      stage := seq(threads, _ => Away);
      chain := seq(count, k requires 0 <= k < count => Slice(mem, slice, k));
      out, lost := {}, 0;
      PoolBytesExact(View());
      return true, asked;
    }

    /** bufget up to its wait. */
    method BufgetCall(t: int) returns (ok: bool)
      requires used ==> Inv(View()) && 0 <= t < |stage| && stage[t].Away?
      modifies this`sem, this`stage
      ensures ok == used
      ensures if used then View() == GetBegin(old(View()), t) && Inv(View()) else View() == old(View())
    {
      if !used { return false; }
      GetBeginKeeps(View(), t);
      stage := stage[t := if sem.count - 1 < 0 then GetBlocked else GetGranted];
      sem := Down(sem, t);
      return true;
    }

    /** The rest of bufget; the caller gets the address behind the header. */
    method BufgetRest(t: int) returns (buffer: int)
      requires used && Inv(View()) && 0 <= t < |stage| && stage[t].GetGranted?
      modifies this`next, this`links, this`stage, this`chain, this`out
      ensures View() == GetEnd(old(View()), t) && Inv(View())
      ensures IsSlice(View(), buffer - HEADER) && buffer - HEADER !in old(out) && out == old(out) + {buffer - HEADER}
    {
      hide Slice, Tally, Chained;
      GetEndKeeps(View(), t);
      GrantedGetsBuffer(View(), t);
      ghost var was := View();
      var bufptr := next;
      next := links[bufptr];
      links := links[bufptr := bufptr];
      stage := stage[t := Away];
      chain := chain[1..];
      out := out + {bufptr};
      buffer := bufptr + HEADER;
      assert forall b :: IsSlice(was, b) <==> IsSlice(View(), b);
    }

    /** buffree up to its signaln. */
    method BuffreeCall(t: int, buffer: int) returns (ok: bool)
      requires used && Inv(View()) && 0 <= t < |stage| && stage[t].Away?
      requires IsSlice(View(), buffer - HEADER)
      modifies this`next, this`links, this`stage, this`chain, this`out
      ensures buffer - HEADER in old(links) && View() == FreeBegin(old(View()), t, buffer - HEADER) && Inv(View())
      ensures ok <==> buffer - HEADER in old(out)
    {
      hide Slice, Tally, Chained;
      var bufptr := buffer - HEADER;
      FreeBeginKeeps(View(), t, bufptr);
      FreeAcceptsExactly(View(), bufptr);
      if links[bufptr] != bufptr { return false; }
      links := links[bufptr := next];
      next := bufptr;
      stage := stage[t := Signalling];
      chain := [bufptr] + chain;
      out := out - {bufptr};
      return true;
    }

    /** The signaln of buffree. */
    method BuffreeRest(t: int)
      requires used && Inv(View()) && 0 <= t < |stage| && stage[t].Signalling?
      modifies this`sem, this`stage
      ensures View() == FreeEnd(old(View()), t) && Inv(View())
    {
      FreeEndKeeps(View(), t);
      stage := Grant(stage[t := Away], sem);
      sem := Up(sem);
    }
  }
}
