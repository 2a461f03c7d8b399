/** The repair bank: a counting semaphore that caps how many connections the batch checks of all
    callers use at once, and the workers that hold its tokens. */
module RepairBank {
  import opened Wrappers
  import opened Nntp
  import opened Counting

  const DEFAULT_PERCENT := 20

  // ----- size of the bank -----

  function TotalConnections(ps: seq<Provider>): nat {
    if ps == [] then 0
    else (if ps[0].maxConnections > 0 then ps[0].maxConnections else 0) + TotalConnections(ps[1..])
  }

  lemma {:induction false} TotalAppend(ps: seq<Provider>, p: Provider)
    ensures TotalConnections(ps + [p]) == TotalConnections(ps) + (if p.maxConnections > 0 then p.maxConnections else 0)
  {
    if ps == [] {
      assert ps + [p] == [p];
    } else {
      assert (ps + [p])[1..] == ps[1..] + [p];
      TotalAppend(ps[1..], p);
    }
  }

  /** The bank holds the requested share of all connections, rounded up, and neither clamp of the
      code ever changes that number. */
  lemma CapacityIsCeiling(total: nat, percent: int)
    requires total > 0 && 1 <= percent <= 100
    ensures var c := (total * percent + 99) / 100;
      1 <= c <= total && 100 * (c - 1) < total * percent <= 100 * c
  {
    assert total <= total * percent <= 100 * total;
  }

  class Bank {
    const capacity: nat
    var tokens: nat

    ghost predicate Valid()
      reads this
    {
      tokens <= capacity
    }

    /** Filled to the brim, one token at a time. */
    constructor (capacity: nat)
      ensures Valid() && this.capacity == capacity && tokens == capacity
    {
      this.capacity := capacity;
      tokens := 0;
      new;
      for i := 0 to capacity
        invariant tokens == i && this.capacity == capacity
      {
        tokens := tokens + 1;
      }
    }

    /** acquire, once it returns: it waits until there is a token or the context has ended, and takes
        either way when both hold. */
    method Acquire(ctxDone: bool) returns (ok: bool)
      requires Valid() && (tokens > 0 || ctxDone)
      modifies this
      ensures Valid()
      ensures ok ==> old(tokens) > 0 && tokens == old(tokens) - 1
      ensures !ok ==> ctxDone && tokens == old(tokens)
    {
      var prefersToken: bool := *;
      ok := tokens > 0 && (!ctxDone || prefersToken);
      if ok {
        tokens := tokens - 1;
      }
    }

    method Release()
      requires Valid() && tokens < capacity
      modifies this
      ensures Valid() && tokens == old(tokens) + 1
    {
      tokens := tokens + 1;
    }
  }

  method NewRepairBank(ps: seq<Provider>, percent: int) returns (b: Bank?)
    ensures b == null <==> TotalConnections(ps) == 0
    ensures b != null ==> fresh(b) && b.Valid() && b.tokens == b.capacity
    ensures b != null ==> 1 <= b.capacity <= TotalConnections(ps)
    ensures b != null ==> var p := if percent <= 0 then 20 else if percent > 100 then 100 else percent;
      100 * (b.capacity - 1) < TotalConnections(ps) * p <= 100 * b.capacity
  {
    var p := percent;
    if p <= 0 {
      p := DEFAULT_PERCENT;
    }
    if p > 100 {
      p := 100;
    }
    var total := 0;
    for i := 0 to |ps|
      invariant total == TotalConnections(ps[..i])
    {
      TotalAppend(ps[..i], ps[i]);
      assert ps[..i + 1] == ps[..i] + [ps[i]];
      if ps[i].maxConnections > 0 {
        total := total + ps[i].maxConnections;
      }
    }
    assert ps[..|ps|] == ps;
    if total <= 0 {
      return null;
    }
    CapacityIsCeiling(total, p);
    var capacity := (total * p + 99) / 100;
    if capacity < 1 {
      capacity := 1;
    }
    if capacity > total {
      capacity := total;
    }
    b := new Bank(capacity);
  }

  // ----- the workers of any number of concurrent calls -----

  /** A worker serves one call; chunks are numbered within their call. */
  datatype Phase =
    | AtBank            // in acquire
    | Between           // holds a token, about to take the next chunk
    | Checking(c: nat)  // holds a token and works on chunk c, between two providers
    | Asking(c: nat)    // has a connection of a provider for chunk c
    | Draining          // acquire failed: passes the remaining chunks on as errors
    | Passing(c: nat)
    | Exited

  datatype Worker = Worker(call: nat, phase: Phase, conns: nat)

  /** queue and done are the two channels of each call. */
  datatype State = State(
    capacity: nat,
    tokens: nat,
    queue: seq<seq<nat>>,
    done: seq<seq<nat>>,
    workers: seq<Worker>)

  datatype Op = Acquire | AcquireFails | Take | Connect | GiveBack | Deliver | Leave

  predicate HoldsToken(w: Worker) { w.phase.Between? || w.phase.Checking? || w.phase.Asking? }

  /** The connections that a worker has taken and not given back. */
  function Connections(w: Worker): nat { w.conns }

  predicate WellFormed(s: State) {
    |s.queue| == |s.done| && forall i :: 0 <= i < |s.workers| ==> s.workers[i].call < |s.queue|
  }

  function Goto(s: State, i: nat, p: Phase): State
    requires i < |s.workers|
  {
    s.(workers := s.workers[i := s.workers[i].(phase := p)])
  }

  function Step(s: State, i: nat, op: Op): Option<State>
    requires WellFormed(s)
  {
    if i >= |s.workers| then None
    else
      var c, p := s.workers[i].call, s.workers[i].phase;
      match op
      case Acquire =>
        if p.AtBank? && s.tokens > 0 then Some(Goto(s, i, Between).(tokens := s.tokens - 1)) else None
      case AcquireFails =>
        if p.AtBank? then Some(Goto(s, i, Draining)) else None
      case Take =>
        if s.queue[c] == [] || (!p.Between? && !p.Draining?) then None
        else Some(Goto(s, i, if p.Between? then Checking(s.queue[c][0]) else Passing(s.queue[c][0]))
                  .(queue := s.queue[c := s.queue[c][1..]]))
      case Connect =>
        if !p.Checking? then None
        else Some(s.(workers := s.workers[i := Worker(c, Asking(p.c), s.workers[i].conns + 1)]))
      case GiveBack =>
        if !p.Asking? || s.workers[i].conns == 0 then None
        else Some(s.(workers := s.workers[i := Worker(c, Checking(p.c), s.workers[i].conns - 1)]))
      case Deliver =>
        if !p.Checking? && !p.Passing? then None
        else Some(Goto(s, i, if p.Checking? then Between else Draining).(done := s.done[c := s.done[c] + [p.c]]))
      case Leave =>
        if s.queue[c] != [] then None
        else if p.Between? then Some(Goto(s, i, Exited).(tokens := s.tokens + 1))
        else if p.Draining? then Some(Goto(s, i, Exited))
        else None
  }

  predicate InHand(w: Worker, call: nat, x: nat) {
    w.call == call && (w.phase == Checking(x) || w.phase == Asking(x) || w.phase == Passing(x))
  }

  function HandTest(call: nat, x: nat): Worker -> bool {
    (w: Worker) => InHand(w, call, x)
  }

  /** How often chunk x of a call is queued, in a worker's hand, or delivered. */
  function Copies(s: State, call: nat, x: nat): nat
    requires call < |s.queue| == |s.done|
  {
    multiset(s.queue[call])[x] + Count(s.workers, HandTest(call, x)) + multiset(s.done[call])[x]
  }

  /** Free tokens and token holders add up to the capacity. */
  ghost predicate TokensKept(s: State) {
    s.tokens + Count(s.workers, HoldsToken) == s.capacity
  }

  /** No chunk of a call gets lost or multiplied between the queue, the hands and the results. */
  ghost predicate ChunksKept(s: State, chunks: seq<seq<nat>>) {
    && |chunks| == |s.queue| == |s.done|
    && forall c, x: nat :: 0 <= c < |chunks| ==> Copies(s, c, x) == multiset(chunks[c])[x]
  }

  /** A worker exits only when its call's queue is empty. */
  ghost predicate ExitsEmpty(s: State)
    requires WellFormed(s)
  {
    forall i :: 0 <= i < |s.workers| && s.workers[i].phase.Exited? ==> s.queue[s.workers[i].call] == []
  }

  /** A worker that asks has one connection, and no other has any. */
  ghost predicate OneEach(s: State) {
    forall i :: 0 <= i < |s.workers| ==> s.workers[i].conns == if s.workers[i].phase.Asking? then 1 else 0
  }

  ghost predicate Inv(s: State, chunks: seq<seq<nat>>) {
    WellFormed(s) && TokensKept(s) && ChunksKept(s, chunks) && ExitsEmpty(s) && OneEach(s)
  }

  lemma StepKeepsTokens(s: State, i: nat, op: Op)
    requires WellFormed(s) && TokensKept(s) && Step(s, i, op).Some?
    ensures TokensKept(Step(s, i, op).value)
  {
    var t := Step(s, i, op).value;
    CountUpdate(s.workers, i, t.workers[i], HoldsToken);
    assert t.workers == s.workers[i := t.workers[i]];
  }

  /** What a step moves into or out of the worker's hand it takes from the queue or puts with the
      results. */
  lemma StepMovesChunk(s: State, i: nat, op: Op, c: nat, x: nat)
    requires WellFormed(s) && Step(s, i, op).Some? && c < |s.queue|
    ensures var t := Step(s, i, op).value;
      && |t.queue| == |t.done| == |s.queue| && |t.workers| == |s.workers| && i < |s.workers|
      && t.workers == s.workers[i := t.workers[i]]
      && multiset(t.queue[c])[x] + multiset(t.done[c])[x] + (if InHand(t.workers[i], c, x) then 1 else 0)
         == multiset(s.queue[c])[x] + multiset(s.done[c])[x] + (if InHand(s.workers[i], c, x) then 1 else 0)
  {
    match op
    case Take => TakeMovesChunk(s, i, c, x);
    case Deliver => DeliverMovesChunk(s, i, c, x);
    case _ => assert Step(s, i, op).value.workers == s.workers[i := Step(s, i, op).value.workers[i]];
  }

  lemma TakeMovesChunk(s: State, i: nat, c: nat, x: nat)
    requires WellFormed(s) && Step(s, i, Take).Some? && c < |s.queue|
    ensures var t := Step(s, i, Take).value;
      && |t.queue| == |s.queue| && t.done == s.done && t.workers == s.workers[i := t.workers[i]]
      && multiset(t.queue[c])[x] + (if InHand(t.workers[i], c, x) then 1 else 0) == multiset(s.queue[c])[x]
      && !InHand(s.workers[i], c, x)
  {
    if c == s.workers[i].call {
      assert s.queue[c] == [s.queue[c][0]] + s.queue[c][1..];
    }
  }

  lemma DeliverMovesChunk(s: State, i: nat, c: nat, x: nat)
    requires WellFormed(s) && Step(s, i, Deliver).Some? && c < |s.queue|
    ensures var t := Step(s, i, Deliver).value;
      && |t.done| == |s.done| && t.queue == s.queue && t.workers == s.workers[i := t.workers[i]]
      && multiset(t.done[c])[x] == multiset(s.done[c])[x] + (if InHand(s.workers[i], c, x) then 1 else 0)
      && !InHand(t.workers[i], c, x)
  {
  }

  lemma StepKeepsCopies(s: State, i: nat, op: Op, c: nat, x: nat)
    requires WellFormed(s) && Step(s, i, op).Some? && c < |s.queue|
    ensures var t := Step(s, i, op).value; |t.queue| == |t.done| == |s.queue| && Copies(t, c, x) == Copies(s, c, x)
  {
    StepMovesChunk(s, i, op, c, x);
    CountUpdate(s.workers, i, Step(s, i, op).value.workers[i], HandTest(c, x));
  }

  lemma StepKeepsExitsEmpty(s: State, i: nat, op: Op)
    requires WellFormed(s) && ExitsEmpty(s) && Step(s, i, op).Some?
    ensures WellFormed(Step(s, i, op).value) && ExitsEmpty(Step(s, i, op).value)
  {
    var t := Step(s, i, op).value;
    assert forall j :: 0 <= j < |s.workers| && j != i ==> t.workers[j] == s.workers[j];
    assert forall c :: 0 <= c < |s.queue| && s.queue[c] == [] ==> t.queue[c] == [];
  }

  lemma StepKeepsOneEach(s: State, i: nat, op: Op)
    requires WellFormed(s) && OneEach(s) && Step(s, i, op).Some?
    ensures OneEach(Step(s, i, op).value)
  {
    var t := Step(s, i, op).value;
    assert forall j :: 0 <= j < |s.workers| && j != i ==> t.workers[j] == s.workers[j];
  }

  lemma StepKeepsInv(s: State, i: nat, op: Op, chunks: seq<seq<nat>>)
    requires Inv(s, chunks) && Step(s, i, op).Some?
    ensures Inv(Step(s, i, op).value, chunks)
  {
    StepKeepsTokens(s, i, op);
    StepKeepsExitsEmpty(s, i, op);
    StepKeepsOneEach(s, i, op);
    forall c, x: nat | 0 <= c < |chunks| ensures Copies(Step(s, i, op).value, c, x) == multiset(chunks[c])[x] {
      StepKeepsCopies(s, i, op, c, x);
    }
  }

  function Run(s: State, run: seq<(nat, Op)>): Option<State>
    decreases run
  {
    if run == [] then Some(s)
    else if !WellFormed(s) then None
    else match Step(s, run[0].0, run[0].1)
         case None => None
         case Some(s') => Run(s', run[1..])
  }

  lemma {:induction false} RunKeepsInv(s: State, run: seq<(nat, Op)>, chunks: seq<seq<nat>>)
    requires Inv(s, chunks) && Run(s, run).Some?
    ensures Inv(Run(s, run).value, chunks)
    decreases run
  {
    if run != [] {
      StepKeepsInv(s, run[0].0, run[0].1, chunks);
      RunKeepsInv(Step(s, run[0].0, run[0].1).value, run[1..], chunks);
    }
  }

  /** A full bank, the chunks of every call queued, the workers not yet started. */
  ghost predicate Initial(s: State, chunks: seq<seq<nat>>) {
    && WellFormed(s) && s.tokens == s.capacity && s.queue == chunks
    && (forall c :: 0 <= c < |s.done| ==> s.done[c] == [])
    && (forall i :: 0 <= i < |s.workers| ==> s.workers[i].phase.AtBank? && s.workers[i].conns == 0)
  }

  lemma InitialInv(s: State, chunks: seq<seq<nat>>)
    requires Initial(s, chunks)
    ensures Inv(s, chunks)
  {
    CountZero(s.workers, HoldsToken);
    forall c, x: nat | 0 <= c < |chunks| ensures Copies(s, c, x) == multiset(chunks[c])[x] {
      CountZero(s.workers, HandTest(c, x));
    }
  }

  /** However many calls run at once, the connections they have taken from the pools and not given
      back never exceed the capacity, and free tokens and token holders always add up to it. */
  lemma ConnectionsWithinBudget(s0: State, run: seq<(nat, Op)>, chunks: seq<seq<nat>>)
    requires Initial(s0, chunks) && Run(s0, run).Some?
    ensures var s := Run(s0, run).value;
      Sum(s.workers, Connections) <= Count(s.workers, HoldsToken) == s.capacity - s.tokens
  {
    InitialInv(s0, chunks);
    RunKeepsInv(s0, run, chunks);
    SumCount(Run(s0, run).value.workers, Connections, HoldsToken);
  }

  /** All workers of the call, of which there are some, have exited. */
  ghost predicate HasExited(s: State, call: nat) {
    && (forall i :: 0 <= i < |s.workers| && s.workers[i].call == call ==> s.workers[i].phase.Exited?)
    && (exists i :: 0 <= i < |s.workers| && s.workers[i].call == call)
  }

  /** When the workers of a call have exited, every chunk has been delivered exactly once. */
  lemma EveryChunkDeliveredOnce(s0: State, run: seq<(nat, Op)>, chunks: seq<seq<nat>>, call: nat)
    requires Initial(s0, chunks) && Run(s0, run).Some? && call < |chunks|
    requires HasExited(Run(s0, run).value, call)
    ensures var s := Run(s0, run).value;
      |s.done| == |chunks| && multiset(s.done[call]) == multiset(chunks[call])
  {
    InitialInv(s0, chunks);
    RunKeepsInv(s0, run, chunks);
    var s := Run(s0, run).value;
    assert s.queue[call] == [];
    forall x: nat ensures multiset(s.done[call])[x] == multiset(chunks[call])[x] {
      CountZero(s.workers, HandTest(call, x));
      assert Copies(s, call, x) == multiset(chunks[call])[x];
    }
  }

  // ----- every call comes to an end -----

  /** The next step of a worker that neither waits at the bank nor has exited. */
  function NextOp(s: State, w: Worker): Op
    requires WellFormed(s) && w.call < |s.queue|
  {
    match w.phase
    case Checking(_) => Deliver
    case Passing(_) => Deliver
    case Asking(_) => GiveBack
    case _ => if s.queue[w.call] == [] then Leave else Take
  }

  lemma CanGoOn(s: State, i: nat)
    requires WellFormed(s) && OneEach(s) && i < |s.workers|
    requires !s.workers[i].phase.AtBank? && !s.workers[i].phase.Exited?
    ensures Step(s, i, NextOp(s, s.workers[i])).Some?
  {
  }

  /** As long as a worker has not exited some worker can go on without any context having to end: the
      tokens that others wait for are held by workers that wait for nothing. */
  lemma NoDeadlock(s: State, chunks: seq<seq<nat>>, i: nat) returns (j: nat, op: Op)
    requires Inv(s, chunks) && s.capacity > 0 && i < |s.workers| && s.workers[i].phase != Exited
    ensures op != AcquireFails && Step(s, j, op).Some?
  {
    if s.workers[i].phase != AtBank {
      CanGoOn(s, i);
      return i, NextOp(s, s.workers[i]);
    }
    if s.tokens > 0 {
      return i, Acquire;
    }
    CountZero(s.workers, HoldsToken);
    var holder :| holder in s.workers && HoldsToken(holder);
    j :| 0 <= j < |s.workers| && s.workers[j] == holder;
    CanGoOn(s, j);
    op := NextOp(s, holder);
  }

  function StepsLeft(w: Worker): nat {
    match w.phase
    case AtBank => 2
    case Checking(_) => 2
    case Asking(_) => 2
    case Passing(_) => 2
    case Between => 1
    case Draining => 1
    case Exited => 0
  }

  function Length(q: seq<nat>): nat { |q| }

  function WorkLeft(s: State): nat {
    2 * Sum(s.queue, Length) + Sum(s.workers, StepsLeft)
  }

  /** All steps but those in which a provider is asked for a chunk. */
  predicate BringsOn(a: (nat, Op)) { a.1 != Connect && a.1 != GiveBack }

  lemma StepLowersWork(s: State, i: nat, op: Op)
    requires WellFormed(s) && Step(s, i, op).Some?
    ensures WorkLeft(Step(s, i, op).value) + (if BringsOn((i, op)) then 1 else 0) <= WorkLeft(s)
  {
    var t := Step(s, i, op).value;
    assert t.workers == s.workers[i := t.workers[i]];
    SumUpdate(s.workers, i, t.workers[i], StepsLeft);
    if op.Take? {
      var c := s.workers[i].call;
      SumUpdate(s.queue, c, s.queue[c][1..], Length);
    }
  }

  lemma {:induction false} RunLowersWork(s: State, run: seq<(nat, Op)>)
    requires Run(s, run).Some?
    ensures Count(run, BringsOn) + WorkLeft(Run(s, run).value) <= WorkLeft(s)
    decreases run
  {
    if run != [] {
      StepLowersWork(s, run[0].0, run[0].1);
      RunLowersWork(Step(s, run[0].0, run[0].1).value, run[1..]);
    }
  }

  /** Apart from asking providers, the workers of all calls together take at most two steps for every
      chunk and two for every worker. */
  lemma WorkIsBounded(s0: State, run: seq<(nat, Op)>, chunks: seq<seq<nat>>)
    requires Initial(s0, chunks) && Run(s0, run).Some?
    ensures Count(run, BringsOn) <= 2 * Sum(chunks, Length) + 2 * |s0.workers|
  {
    RunLowersWork(s0, run);
    SumBound(s0.workers, StepsLeft, 2);
  }
}
