/** Every interleaving of the operations on one provider's pool.
    An agent is one use of a slot by one goroutine; a step is one channel operation, one
    region under the pool's mutex, or the outcome of a dial or health check. Idle connections
    hold no slot, so the number of open connections is bounded only because a slot is taken
    before the stack is looked at, and the stack is found empty before anything is dialled. */
module PoolMachine {
  import opened Wrappers
  import opened Runs
  import opened Counting
  import opened ConnectionPool

  datatype Phase =
    | Outside                   // holds nothing
    | AtStack                   // holds a slot, about to lock the stack
    | Inspecting(e: Entry)      // popped e, checking its age and health outside the lock
    | Dialing                   // saw the stack empty, opening a connection
    | Using(conn: nat)          // checked out
    | Putting(e: Entry)         // in put: e is stamped, the stack not yet locked
    | FreeingSlot               // the connection is stacked or closed, the slot not yet returned

  datatype State = State(
    max: nat,
    idle: seq<Entry>,
    agents: seq<Phase>,
    slots: nat,
    now: int,
    closed: bool,
    dialled: nat)               // connections are numbered in the order they are dialled

  datatype Op =
    | Acquire
    | LookAtStack
    | Reject
    | Checkout(asOf: int)       // the clock is read after the pop, before the health check
    | Dialled(ok: bool)
    | CloseAndFree              // release, or put of a closed connection or on a closed client
    | Stamp
    | Push
    | FreeSlot

  datatype Action =
    | Agent(i: nat, op: Op)
    | Sweep(asOf: int)          // the reaper reads the clock before it locks the pool
    | CloseClient
    | Tick(d: nat)

  predicate HoldsSlot(p: Phase) { !p.Outside? }

  /** Connections that are open, or being opened, outside the stack. */
  predicate Carries(p: Phase) { p.Inspecting? || p.Dialing? || p.Using? || p.Putting? }

  function ConnOf(p: Phase): Option<nat> {
    match p
    case Inspecting(e) => Some(e.conn)
    case Using(c) => Some(c)
    case Putting(e) => Some(e.conn)
    case _ => None
  }

  function Open(s: State): nat { |s.idle| + Count(s.agents, Carries) }

  /** One step; None when the action is not enabled. */
  function Step(s: State, a: Action): Option<State> {
    match a
    case Agent(i, op) => if i < |s.agents| then AgentStep(s, i, op) else None
    case Sweep(asOf) => if asOf <= s.now then Some(s.(idle := Reaped(s.idle, asOf))) else None
    case CloseClient => Some(s.(closed := true, idle := []))
    case Tick(d) => Some(s.(now := s.now + d))
  }

  function AgentStep(s: State, i: nat, op: Op): Option<State>
    requires i < |s.agents|
  {
    var p := s.agents[i];
    match op
    case Acquire =>
      if p.Outside? && s.slots < s.max then Some(Goto(s, i, AtStack).(slots := s.slots + 1)) else None
    case LookAtStack =>
      if !p.AtStack? then None
      else if s.idle == [] then Some(Goto(s, i, Dialing))
      else Some(Goto(s, i, Inspecting(s.idle[|s.idle| - 1])).(idle := s.idle[..|s.idle| - 1]))
    case Reject =>
      if p.Inspecting? then Some(Goto(s, i, AtStack)) else None
    case Checkout(asOf) =>
      if p.Inspecting? && asOf <= s.now && !IsIdleExpired(p.e, asOf) then Some(Goto(s, i, Using(p.e.conn))) else None
    case Dialled(ok) =>
      if !p.Dialing? then None
      else if ok then Some(Goto(s, i, Using(s.dialled)).(dialled := s.dialled + 1))
      else Some(Goto(s, i, FreeingSlot))
    case CloseAndFree =>
      if p.Using? then Some(Goto(s, i, FreeingSlot)) else None
    case Stamp =>
      if p.Using? && !s.closed then Some(Goto(s, i, Putting(Entry(p.conn, s.now)))) else None
    case Push =>
      if !p.Putting? then None
      else if |s.idle| >= s.max then Some(Goto(s, i, FreeingSlot))
      else Some(Goto(s, i, FreeingSlot).(idle := s.idle + [p.e]))
    case FreeSlot =>
      if p.FreeingSlot? && s.slots > 0 then Some(Goto(s, i, Outside).(slots := s.slots - 1)) else None
  }

  function Goto(s: State, i: nat, p: Phase): State
    requires i < |s.agents|
  {
    s.(agents := s.agents[i := p])
  }

  function Run(s: State, run: seq<Action>): Option<State> {
    RunFrom(Step, s, run)
  }

  ghost predicate Initial(s: State) {
    s.idle == [] && s.slots == 0 && s.now > 0 && !s.closed && forall p :: p in s.agents ==> p == Outside
  }

  // ----- the invariant -----

  ghost predicate SlotsCounted(s: State) {
    s.slots == Count(s.agents, HoldsSlot) && s.slots <= s.max
  }

  /** No connection is in two places: stacked twice, checked out twice, or both. */
  ghost predicate Exclusive(s: State) {
    && (forall k :: 0 <= k < |s.idle| ==> s.idle[k].conn < s.dialled)
    && (forall i :: 0 <= i < |s.agents| && ConnOf(s.agents[i]).Some? ==> ConnOf(s.agents[i]).value < s.dialled)
    && (forall k, l :: 0 <= k < l < |s.idle| ==> s.idle[k].conn != s.idle[l].conn)
    && (forall i, j :: 0 <= i < j < |s.agents| && ConnOf(s.agents[i]).Some? ==>
        ConnOf(s.agents[i]) != ConnOf(s.agents[j]))
    && (forall i, k :: 0 <= i < |s.agents| && 0 <= k < |s.idle| ==> ConnOf(s.agents[i]) != Some(s.idle[k].conn))
  }

  ghost predicate Inv(s: State) {
    SlotsCounted(s) && Open(s) <= s.max && Exclusive(s)
  }

  lemma InitialInv(s: State)
    requires Initial(s)
    ensures Inv(s)
  {
    CountZero(s.agents, HoldsSlot);
    CountZero(s.agents, Carries);
    assert forall i :: 0 <= i < |s.agents| ==> s.agents[i] in s.agents;
  }

  lemma Counts(s: State, i: nat, p: Phase)
    requires i < |s.agents|
    ensures Count(Goto(s, i, p).agents, HoldsSlot)
         == Count(s.agents, HoldsSlot) - (if HoldsSlot(s.agents[i]) then 1 else 0) + (if HoldsSlot(p) then 1 else 0)
    ensures Count(Goto(s, i, p).agents, Carries)
         == Count(s.agents, Carries) - (if Carries(s.agents[i]) then 1 else 0) + (if Carries(p) then 1 else 0)
  {
    CountUpdate(s.agents, i, p, HoldsSlot);
    CountUpdate(s.agents, i, p, Carries);
  }

  /** An agent that holds a slot but no connection leaves room for one more connection. */
  lemma RoomToDial(s: State, i: nat)
    requires SlotsCounted(s) && i < |s.agents| && HoldsSlot(s.agents[i]) && !Carries(s.agents[i])
    ensures Count(s.agents, Carries) < s.max
  {
    assert s.agents[i] in s.agents;
    CountMono(s.agents, Carries, HoldsSlot);
  }

  lemma AgentKeepsCounts(s: State, i: nat, op: Op)
    requires i < |s.agents| && AgentStep(s, i, op).Some?
    requires SlotsCounted(s) && Open(s) <= s.max
    ensures var t := AgentStep(s, i, op).value; SlotsCounted(t) && Open(t) <= t.max
  {
    var t := AgentStep(s, i, op).value;
    Counts(s, i, t.agents[i]);
    assert t.agents == Goto(s, i, t.agents[i]).agents;
    if op.LookAtStack? && s.idle == [] {
      RoomToDial(s, i);
    }
  }

  lemma StepKeepsCounts(s: State, a: Action)
    requires SlotsCounted(s) && Open(s) <= s.max && Step(s, a).Some?
    ensures var t := Step(s, a).value; SlotsCounted(t) && Open(t) <= t.max
  {
    if a.Agent? {
      AgentKeepsCounts(s, a.i, a.op);
    }
  }

  /** A move that leaves the stack alone and keeps, drops or newly dials the connection. */
  lemma GotoKeepsExclusive(s: State, i: nat, p: Phase)
    requires Exclusive(s) && i < |s.agents| && (ConnOf(p).None? || ConnOf(p) == ConnOf(s.agents[i]))
    ensures Exclusive(Goto(s, i, p))
  {
  }

  lemma DialKeepsExclusive(s: State, i: nat)
    requires Exclusive(s) && i < |s.agents|
    ensures Exclusive(Goto(s, i, Using(s.dialled)).(dialled := s.dialled + 1))
  {
  }

  lemma PopKeepsExclusive(s: State, i: nat)
    requires Exclusive(s) && i < |s.agents| && s.idle != []
    ensures Exclusive(Goto(s, i, Inspecting(s.idle[|s.idle| - 1])).(idle := s.idle[..|s.idle| - 1]))
  {
  }

  lemma PushKeepsExclusive(s: State, i: nat)
    requires Exclusive(s) && i < |s.agents| && s.agents[i].Putting?
    ensures Exclusive(Goto(s, i, FreeingSlot).(idle := s.idle + [s.agents[i].e]))
  {
  }

  lemma DropKeepsExclusive(s: State, k: nat)
    requires Exclusive(s) && k <= |s.idle|
    ensures Exclusive(s.(idle := s.idle[k..]))
  {
  }

  lemma SamePartsExclusive(s: State, t: State)
    requires Exclusive(s) && t.idle == s.idle && t.agents == s.agents && t.dialled == s.dialled
    ensures Exclusive(t)
  {
  }

  /** The moves that leave stack and dial count alone and bring in no connection. */
  lemma MoveKeepsExclusive(s: State, i: nat, op: Op)
    requires Exclusive(s) && i < |s.agents| && AgentStep(s, i, op).Some?
    requires op != Dialled(true) && (op.LookAtStack? ==> s.idle == []) && (op.Push? ==> |s.idle| >= s.max)
    ensures Exclusive(AgentStep(s, i, op).value)
  {
    var t := AgentStep(s, i, op).value;
    GotoKeepsExclusive(s, i, t.agents[i]);
    SamePartsExclusive(Goto(s, i, t.agents[i]), t);
  }

  lemma StepKeepsExclusive(s: State, a: Action)
    requires Exclusive(s) && Step(s, a).Some?
    ensures Exclusive(Step(s, a).value)
  {
    match a
    case Sweep(asOf) => DropKeepsExclusive(s, ExpiredPrefix(s.idle, asOf));
    case CloseClient =>
    case Tick(_) => SamePartsExclusive(s, Step(s, a).value);
    case Agent(i, op) =>
      if op == Dialled(true) {
        DialKeepsExclusive(s, i);
      } else if op.LookAtStack? && s.idle != [] {
        PopKeepsExclusive(s, i);
      } else if op.Push? && |s.idle| < s.max {
        PushKeepsExclusive(s, i);
      } else {
        MoveKeepsExclusive(s, i, op);
      }
  }

  lemma StepKeepsInv(s: State, a: Action)
    requires Inv(s) && Step(s, a).Some?
    ensures Inv(Step(s, a).value)
  {
    StepKeepsCounts(s, a);
    StepKeepsExclusive(s, a);
  }

  lemma {:induction false} RunKeepsInv(s: State, run: seq<Action>)
    requires Inv(s) && Run(s, run).Some?
    ensures Inv(Run(s, run).value) && Run(s, run).value.max == s.max
    decreases run
  {
    if run != [] {
      StepKeepsInv(s, run[0]);
      RunKeepsInv(Step(s, run[0]).value, run[1..]);
    }
  }

  // ----- what holds at every point of every run -----

  ghost predicate Reachable(s: State) {
    exists s0: State, run: seq<Action> :: Initial(s0) && Run(s0, run) == Some(s)
  }

  lemma ReachableInv(s: State)
    requires Reachable(s)
    ensures Inv(s)
  {
    var s0, run :| Initial(s0) && Run(s0, run) == Some(s);
    InitialInv(s0);
    RunKeepsInv(s0, run);
  }

  /** Idle, checked-out and being-dialled connections together never exceed the provider's limit. */
  lemma ConnectionBound(s: State)
    requires Reachable(s)
    ensures |s.idle| + Count(s.agents, Carries) <= s.max
    ensures Count(s.agents, HoldsSlot) == s.slots <= s.max
  {
    ReachableInv(s);
  }

  /** The branch of put that guards against a full stack is never taken. */
  lemma PutNeverFindsStackFull(s: State, i: nat)
    requires Reachable(s) && i < |s.agents| && s.agents[i].Putting?
    ensures |s.idle| < s.max
    ensures Step(s, Agent(i, Push)) == Some(Goto(s, i, FreeingSlot).(idle := s.idle + [s.agents[i].e]))
  {
    ReachableInv(s);
    assert s.agents[i] in s.agents;
    CountZero(s.agents, Carries);
  }

  /** Returning a slot never blocks: the receive on the slot channel finds a token. */
  lemma FreeingNeverBlocks(s: State, i: nat)
    requires Reachable(s) && i < |s.agents| && s.agents[i].FreeingSlot?
    ensures Step(s, Agent(i, FreeSlot)).Some?
  {
    ReachableInv(s);
    assert s.agents[i] in s.agents;
    CountZero(s.agents, HoldsSlot);
  }

  /** One goroutine at a time talks on a connection, and never on one that lies in the stack. */
  lemma CheckedOutOnce(s: State, i: nat, c: nat)
    requires Reachable(s) && i < |s.agents| && s.agents[i] == Using(c)
    ensures forall j :: 0 <= j < |s.agents| && j != i ==> ConnOf(s.agents[j]) != Some(c)
    ensures forall e :: e in s.idle ==> e.conn != c
  {
    ReachableInv(s);
  }

  /** An agent comes to use a connection in two ways only: the stack was empty when it looked, and it has
      dialled a new one; or it has popped one from the stack that nobody had used for at most twenty
      seconds when the clock was read. */
  lemma HandsOutNewOrRecent(s: State, a: Action, i: nat)
    requires Reachable(s) && Step(s, a).Some? && i < |s.agents|
    requires !s.agents[i].Using? && Step(s, a).value.agents[i].Using?
    ensures var c := Step(s, a).value.agents[i].conn;
      || (s.agents[i] == Dialing && a == Agent(i, Dialled(true)) && c == s.dialled
          && (forall e :: e in s.idle ==> e.conn != c)
          && forall j :: 0 <= j < |s.agents| ==> ConnOf(s.agents[j]) != Some(c))
      || (exists asOf, used :: a == Agent(i, Checkout(asOf)) && asOf <= s.now
            && s.agents[i] == Inspecting(Entry(c, used)) && (used == 0 || asOf - used <= 20_000))
  {
    BecomesUsing(s, a, i);
    if a.op.Dialled? {
      ReachableInv(s);
    } else {
      assert s.agents[i] == Inspecting(Entry(s.agents[i].e.conn, s.agents[i].e.lastUsed));
    }
  }

  lemma BecomesUsing(s: State, a: Action, i: nat)
    requires Step(s, a).Some? && i < |s.agents| && !s.agents[i].Using? && Step(s, a).value.agents[i].Using?
    ensures a == Agent(i, Dialled(true)) || (a.Agent? && a.i == i && a.op.Checkout?)
  {
  }

  /** An agent takes a slot exactly when fewer than the limit are taken, and one that has a slot always has
      a step to take: nothing but a slot is waited for. */
  lemma OnlySlotsAreWaitedFor(s: State, i: nat) returns (op: Op)
    requires Reachable(s) && i < |s.agents|
    ensures s.agents[i] == Outside ==> op == Acquire && (Step(s, Agent(i, op)).Some? <==> s.slots < s.max)
    ensures s.agents[i] != Outside ==> Step(s, Agent(i, op)).Some?
    ensures Step(s, Agent(i, op)).Some? ==> Step(s, Agent(i, op)).value.agents[i] != s.agents[i]
  {
    match s.agents[i]
    case Outside => op := Acquire;
    case AtStack => op := LookAtStack;
    case Inspecting(_) => op := Reject;
    case Dialing => op := Dialled(false);
    case Using(_) => op := CloseAndFree;
    case Putting(_) => op := Push;
    case FreeingSlot =>
      FreeingNeverBlocks(s, i);
      op := FreeSlot;
  }

  /** Once the client is closed nothing is stacked any more, but for puts that were under way. */
  lemma CloseEmptiesForGood(s: State, run: seq<Action>)
    requires (forall i :: 0 <= i < |s.agents| ==> !s.agents[i].Putting?) && Run(s, [CloseClient] + run).Some?
    ensures Run(s, [CloseClient] + run).value.idle == []
  {
    assert ([CloseClient] + run)[1..] == run;
    StaysEmpty(Step(s, CloseClient).value, run);
  }

  lemma {:induction false} StaysEmpty(s: State, run: seq<Action>)
    requires s.closed && s.idle == [] && (forall i :: 0 <= i < |s.agents| ==> !s.agents[i].Putting?)
    requires Run(s, run).Some?
    ensures Run(s, run).value.idle == []
    decreases run
  {
    if run != [] {
      StaysEmpty(Step(s, run[0]).value, run[1..]);
    }
  }

  // ----- order of the stack -----

  /** put taken as atomic: what is pushed was stamped with the current time. */
  predicate PushesFresh(s: State, a: Action) {
    a.Agent? && a.op.Push? && a.i < |s.agents| && s.agents[a.i].Putting? ==> s.agents[a.i].e.lastUsed == s.now
  }

  predicate RunPushesFresh(s: State, run: seq<Action>)
    decreases run
  {
    run == [] || (PushesFresh(s, run[0]) && match Step(s, run[0])
                                            case None => true
                                            case Some(s') => RunPushesFresh(s', run[1..]))
  }

  ghost predicate InTimeOrder(s: State) {
    s.now > 0 && StampedBy(s.idle, s.now)
  }

  ghost predicate StampedBy(stack: seq<Entry>, now: int) {
    Sorted(stack) && forall k :: 0 <= k < |stack| ==> 0 < stack[k].lastUsed <= now
  }

  lemma SliceStampedBy(stack: seq<Entry>, now: int, j: nat, k: nat)
    requires StampedBy(stack, now) && j <= k <= |stack|
    ensures StampedBy(stack[j..k], now)
  {
  }

  lemma AgentKeepsTimeOrder(s: State, i: nat, op: Op)
    requires i < |s.agents| && AgentStep(s, i, op).Some?
    requires InTimeOrder(s) && PushesFresh(s, Agent(i, op))
    ensures InTimeOrder(AgentStep(s, i, op).value)
  {
    if op.LookAtStack? && s.idle != [] {
      SliceStampedBy(s.idle, s.now, 0, |s.idle| - 1);
    }
  }

  lemma StepKeepsTimeOrder(s: State, a: Action)
    requires InTimeOrder(s) && PushesFresh(s, a) && Step(s, a).Some?
    ensures InTimeOrder(Step(s, a).value)
  {
    match a
    case Agent(i, op) => AgentKeepsTimeOrder(s, i, op);
    case Sweep(asOf) => SliceStampedBy(s.idle, s.now, ExpiredPrefix(s.idle, asOf), |s.idle|);
    case CloseClient =>
    case Tick(_) =>
  }

  lemma {:induction false} RunKeepsTimeOrder(s: State, run: seq<Action>)
    requires InTimeOrder(s) && Run(s, run).Some? && RunPushesFresh(s, run)
    ensures InTimeOrder(Run(s, run).value)
    decreases run
  {
    if run != [] {
      StepKeepsTimeOrder(s, run[0]);
      RunKeepsTimeOrder(Step(s, run[0]).value, run[1..]);
    }
  }

  lemma OrderedStackSweptExactly(s: State, asOf: int)
    requires InTimeOrder(s)
    ensures Reaped(s.idle, asOf) == Live(s.idle, asOf)
    ensures s.idle != [] ==> forall e :: e in s.idle ==> e.lastUsed <= s.idle[|s.idle| - 1].lastUsed
  {
    SortedReap(s.idle, asOf);
  }

  /** When what is pushed always bears the current time, a sweep at any point of any run removes
      exactly the expired entries and keeps the others in order; a pop gives the most recently used
      one. */
  lemma InstantPutsSweepExactly(s0: State, run: seq<Action>, asOf: int)
    requires Initial(s0) && Run(s0, run).Some? && RunPushesFresh(s0, run)
    ensures var s := Run(s0, run).value;
      && Reaped(s.idle, asOf) == Live(s.idle, asOf)
      && (s.idle != [] ==> forall e :: e in s.idle ==> e.lastUsed <= s.idle[|s.idle| - 1].lastUsed)
  {
    RunKeepsTimeOrder(s0, run);
    OrderedStackSweptExactly(Run(s0, run).value, asOf);
  }

  /** put taken as atomic towards other puts: none begins while another one is between its stamp and
      its push. Time may pass, and anything else may happen in between. */
  predicate PutsAlone(s: State, a: Action) {
    a.Agent? && a.op.Stamp? ==> forall j :: 0 <= j < |s.agents| ==> !s.agents[j].Putting?
  }

  predicate RunPutsAlone(s: State, run: seq<Action>)
    decreases run
  {
    run == [] || (PutsAlone(s, run[0]) && match Step(s, run[0])
                                          case None => true
                                          case Some(s') => RunPutsAlone(s', run[1..]))
  }

  /** The stamp under way is at least as late as every stamp on the stack. */
  ghost predicate StampsOnTop(s: State) {
    && InTimeOrder(s)
    && OnePuts(s.agents)
    && (forall i :: 0 <= i < |s.agents| && s.agents[i].Putting? ==> IsOnTop(s.agents[i].e, s))
  }

  ghost predicate IsOnTop(e: Entry, s: State) {
    0 < e.lastUsed <= s.now && forall k :: 0 <= k < |s.idle| ==> s.idle[k].lastUsed <= e.lastUsed
  }

  ghost predicate OnePuts(agents: seq<Phase>) {
    forall i, j :: 0 <= i < j < |agents| ==> !(agents[i].Putting? && agents[j].Putting?)
  }

  lemma AgentKeepsOnePuts(s: State, i: nat, op: Op)
    requires i < |s.agents| && AgentStep(s, i, op).Some? && OnePuts(s.agents) && PutsAlone(s, Agent(i, op))
    ensures OnePuts(AgentStep(s, i, op).value.agents)
  {
    var t := AgentStep(s, i, op).value;
    assert t.agents == s.agents[i := t.agents[i]];
    assert t.agents[i].Putting? ==> op.Stamp?;
  }

  lemma AgentKeepsStamps(s: State, i: nat, op: Op)
    requires i < |s.agents| && AgentStep(s, i, op).Some? && StampsOnTop(s)
    ensures InTimeOrder(AgentStep(s, i, op).value)
  {
    if op.Push? {
      assert IsOnTop(s.agents[i].e, s);
    } else if op.LookAtStack? && s.idle != [] {
      SliceStampedBy(s.idle, s.now, 0, |s.idle| - 1);
    }
  }

  lemma AgentKeepsOnTop(s: State, i: nat, op: Op)
    requires i < |s.agents| && AgentStep(s, i, op).Some?
    requires StampsOnTop(s) && PutsAlone(s, Agent(i, op))
    ensures StampsOnTop(AgentStep(s, i, op).value)
  {
    var t := AgentStep(s, i, op).value;
    AgentKeepsOnePuts(s, i, op);
    AgentKeepsStamps(s, i, op);
    forall j | 0 <= j < |t.agents| && t.agents[j].Putting?
      ensures IsOnTop(t.agents[j].e, t)
    {
      AgentLeavesOnTop(s, i, op, j);
    }
  }

  lemma AgentLeavesOnTop(s: State, i: nat, op: Op, j: nat)
    requires i < |s.agents| && AgentStep(s, i, op).Some? && StampsOnTop(s)
    requires j < |s.agents| && AgentStep(s, i, op).value.agents[j].Putting?
    ensures IsOnTop(AgentStep(s, i, op).value.agents[j].e, AgentStep(s, i, op).value)
  {
    var t := AgentStep(s, i, op).value;
    if j != i {
      assert t.agents[j] == s.agents[j] && IsOnTop(s.agents[j].e, s);
      assert op.Push? ==> t.idle == s.idle;
    }
  }

  lemma StepKeepsOnTop(s: State, a: Action)
    requires StampsOnTop(s) && PutsAlone(s, a) && Step(s, a).Some?
    ensures StampsOnTop(Step(s, a).value)
  {
    var t := Step(s, a).value;
    if a.Agent? {
      AgentKeepsOnTop(s, a.i, a.op);
    } else {
      if a.Sweep? {
        SliceStampedBy(s.idle, s.now, ExpiredPrefix(s.idle, a.asOf), |s.idle|);
      }
      forall j | 0 <= j < |t.agents| && t.agents[j].Putting?
        ensures IsOnTop(t.agents[j].e, t)
      {
        assert IsOnTop(s.agents[j].e, s);
      }
    }
  }

  lemma {:induction false} RunKeepsOnTop(s: State, run: seq<Action>)
    requires StampsOnTop(s) && Run(s, run).Some? && RunPutsAlone(s, run)
    ensures StampsOnTop(Run(s, run).value)
    decreases run
  {
    if run != [] {
      StepKeepsOnTop(s, run[0]);
      RunKeepsOnTop(Step(s, run[0]).value, run[1..]);
    }
  }

  /** When puts do not overlap, a sweep at any point of any run removes exactly the expired entries
      and keeps the others in order; a pop gives the most recently used one. */
  lemma AtomicPutsSweepExactly(s0: State, run: seq<Action>, asOf: int)
    requires Initial(s0) && Run(s0, run).Some? && RunPutsAlone(s0, run)
    ensures var s := Run(s0, run).value;
      && Reaped(s.idle, asOf) == Live(s.idle, asOf)
      && (s.idle != [] ==> forall e :: e in s.idle ==> e.lastUsed <= s.idle[|s.idle| - 1].lastUsed)
  {
    assert forall i :: 0 <= i < |s0.agents| ==> s0.agents[i] in s0.agents;
    RunKeepsOnTop(s0, run);
    OrderedStackSweptExactly(Run(s0, run).value, asOf);
  }

  /** put reads the clock before it takes the lock. Two overlapping puts can therefore stack
      their entries out of order, and a later sweep leaves the older, expired one in place. */
  lemma OverlappingPutsMissExpired()
    ensures Initial(TwoAgents) && Run(TwoAgents, DialTwice + OverlapPuts).Some?
    ensures var s := Run(TwoAgents, DialTwice + OverlapPuts).value;
      && !Sorted(s.idle)
      && exists e :: e in s.idle && IsIdleExpired(e, s.now) && e in Reaped(s.idle, s.now)
  {
    DialTwiceRuns();
    OverlapPutsRuns();
    RunConcat(Step, TwoAgents, DialTwice, OverlapPuts);
    var s := Run(TwoAgents, DialTwice + OverlapPuts).value;
    assert s.idle == [Entry(1, 11), Entry(0, 1)] && s.now == 20_006;
    ReapMissesBuried(s.idle, 0, 1, s.now);
    assert s.idle[1] in s.idle;
  }

  const TwoAgents := State(2, [], [Outside, Outside], 0, 1, false, 0)
  const BothUsing := State(2, [], [Using(0), Using(1)], 2, 1, false, 2)

  const DialTwice: seq<Action> :=
    [Agent(0, Acquire), Agent(0, LookAtStack), Agent(0, Dialled(true)),
     Agent(1, Acquire), Agent(1, LookAtStack), Agent(1, Dialled(true))]

  const OverlapPuts: seq<Action> :=
    [Agent(0, Stamp), Tick(10), Agent(1, Stamp), Agent(1, Push), Agent(0, Push), Tick(IDLE_TIMEOUT - 5)]

  lemma DialTwiceRuns()
    ensures Run(TwoAgents, DialTwice) == Some(BothUsing)
  {
    PairUpdates();
    var st := [TwoAgents,
            TwoAgents.(agents := [AtStack, Outside], slots := 1),
            TwoAgents.(agents := [Dialing, Outside], slots := 1),
            TwoAgents.(agents := [Using(0), Outside], slots := 1, dialled := 1),
            TwoAgents.(agents := [Using(0), AtStack], slots := 2, dialled := 1),
            TwoAgents.(agents := [Using(0), Dialing], slots := 2, dialled := 1),
            BothUsing];
    assert Step(st[0], DialTwice[0]) == Some(st[1]);
    assert Step(st[1], DialTwice[1]) == Some(st[2]);
    assert Step(st[2], DialTwice[2]) == Some(st[3]);
    SecondDials();
    RunOf(Step, TwoAgents, DialTwice, st);
  }

  lemma SecondDials()
    ensures var s3 := State(2, [], [Using(0), Outside], 1, 1, false, 1);
      var s4, s5 := s3.(agents := [Using(0), AtStack], slots := 2), s3.(agents := [Using(0), Dialing], slots := 2);
      && Step(s3, Agent(1, Acquire)) == Some(s4) && Step(s4, Agent(1, LookAtStack)) == Some(s5)
      && Step(s5, Agent(1, Dialled(true))) == Some(BothUsing)
  {
    assert [Using(0), Outside][1 := AtStack] == [Using(0), AtStack];
    assert [Using(0), AtStack][1 := Dialing] == [Using(0), Dialing];
    assert [Using(0), Dialing][1 := Using(1)] == BothUsing.agents;
  }

  lemma OverlapPutsRuns()
    ensures Run(BothUsing, OverlapPuts)
         == Some(State(2, [Entry(1, 11), Entry(0, 1)], [FreeingSlot, FreeingSlot], 2, 20_006, false, 2))
  {
    var e0, e1 := Entry(0, 1), Entry(1, 11);
    PairUpdates();
    var st := [BothUsing,
            BothUsing.(agents := [Putting(e0), Using(1)]),
            BothUsing.(agents := [Putting(e0), Using(1)], now := 11),
            BothUsing.(agents := [Putting(e0), Putting(e1)], now := 11),
            BothUsing.(agents := [Putting(e0), FreeingSlot], now := 11, idle := [e1]),
            BothUsing.(agents := [FreeingSlot, FreeingSlot], now := 11, idle := [e1, e0]),
            BothUsing.(agents := [FreeingSlot, FreeingSlot], now := 20_006, idle := [e1, e0])];
    assert Step(st[0], OverlapPuts[0]) == Some(st[1]);
    assert Step(st[1], OverlapPuts[1]) == Some(st[2]);
    assert st[2].agents[1 := Putting(e1)] == st[3].agents;
    assert Step(st[2], OverlapPuts[2]) == Some(st[3]);
    assert st[3].agents[1 := FreeingSlot] == st[4].agents && st[3].idle + [e1] == st[4].idle;
    assert Step(st[3], OverlapPuts[3]) == Some(st[4]);
    assert st[4].agents[0 := FreeingSlot] == st[5].agents && st[4].idle + [e0] == st[5].idle;
    assert Step(st[4], OverlapPuts[4]) == Some(st[5]);
    assert Step(st[5], OverlapPuts[5]) == Some(st[6]);
    RunOf(Step, BothUsing, OverlapPuts, st);
  }

  lemma PairUpdates()
    ensures forall p: Phase, q: Phase, r: Phase :: [p, q][0 := r] == [r, q] && [p, q][1 := r] == [p, r]
  {
    forall p: Phase, q: Phase, r: Phase ensures [p, q][0 := r] == [r, q] && [p, q][1 := r] == [p, r] {
      assert |[p, q][0 := r]| == 2 && |[p, q][1 := r]| == 2;
    }
  }
}
