/** The race of goroutines for the first free connection slot.
    One goroutine per eligible provider waits for a slot of that provider's pool; the results
    meet in a channel with room for all of them. The phase of goroutine i also follows its slot
    after the goroutine has sent its connection away: in the channel, with the receiver, or won.
    A step is one channel operation, one context check, or the outcome of one dial. */
module Race {
  import opened Wrappers
  import opened Runs
  import opened Counting

  datatype Phase =
    | Waiting     // in the select on the slot channel
    | GotSlot     // slot taken, the context not yet checked
    | Acquiring   // in getOrCreateFromPool
    | HaveConn    // about to send the connection, or to put it back
    | Reporting   // dial failed, slot returned, about to send the error
    | ConnSent    // the connection lies in the channel
    | ErrSent     // the error lies in the channel
    | Returning   // received by the receiver after another one had won
    | Won         // kept by the receiver
    | Finished

  datatype Receiver =
    | Looping
    | GivingBack(i: nat)   // in returnOrReleaseConn for a late winner
    | ReturnedWinner
    | ReturnedError
    | Abandoned            // returned because the caller's context ended; a drainer runs on

  datatype State = State(
    agents: seq<Phase>,
    receiver: Receiver,
    winner: Option<nat>,
    cancelled: bool,       // the inner context
    parentDone: bool,      // the caller's context
    closed: bool)          // the result channel

  datatype Op = TakeSlot | SeeCancelled | CheckContext | Acquired(ok: bool) | Send | GiveUp | Receive | Drain

  datatype Action =
    | Agent(i: nat, op: Op)
    | CloseResults
    | FinishGivingBack
    | SeeClosed
    | ParentEnds
    | SeeParentEnded

  predicate HoldsSlot(p: Phase) {
    p.GotSlot? || p.Acquiring? || p.HaveConn? || p.ConnSent? || p.Returning? || p.Won?
  }

  predicate Running(p: Phase) {
    p.Waiting? || p.GotSlot? || p.Acquiring? || p.HaveConn? || p.Reporting?
  }

  predicate InChannel(p: Phase) { p.ConnSent? || p.ErrSent? }

  predicate AllExited(s: State) { forall i :: 0 <= i < |s.agents| ==> !Running(s.agents[i]) }

  predicate ChannelEmpty(s: State) { forall i :: 0 <= i < |s.agents| ==> !InChannel(s.agents[i]) }

  function Held(s: State): nat { Count(s.agents, HoldsSlot) }

  function Goto(s: State, i: nat, p: Phase): State
    requires i < |s.agents|
  {
    s.(agents := s.agents[i := p])
  }

  lemma GotoTwice(s: State, i: nat, p: Phase, q: Phase)
    requires i < |s.agents|
    ensures Goto(Goto(s, i, p), i, q) == Goto(s, i, q)
  {
    assert s.agents[i := p][i := q] == s.agents[i := q];
  }

  function When(b: bool, s: State): Option<State> {
    if b then Some(s) else None
  }

  function Step(s: State, a: Action): Option<State> {
    match a
    case Agent(i, op) => if i < |s.agents| then AgentStep(s, i, op) else None
    case CloseResults =>
      When(!s.closed && AllExited(s), s.(closed := true, cancelled := true))
    case FinishGivingBack =>
      if s.receiver.GivingBack? && s.receiver.i < |s.agents|
      then Some(Goto(s, s.receiver.i, Finished).(receiver := Looping)) else None
    case SeeClosed =>
      When(s.receiver.Looping? && s.closed && ChannelEmpty(s),
           s.(receiver := if s.winner.Some? then ReturnedWinner else ReturnedError))
    case ParentEnds =>
      When(!s.parentDone, s.(parentDone := true, cancelled := true))
    case SeeParentEnded =>
      When(s.receiver.Looping? && s.parentDone, s.(receiver := Abandoned))
  }

  function AgentStep(s: State, i: nat, op: Op): Option<State>
    requires i < |s.agents|
  {
    var p := s.agents[i];
    match op
    case TakeSlot => When(p.Waiting?, Goto(s, i, GotSlot))
    case SeeCancelled => When(p.Waiting? && s.cancelled, Goto(s, i, Finished))
    case CheckContext => When(p.GotSlot?, Goto(s, i, if s.cancelled then Finished else Acquiring))
    case Acquired(ok) => When(p.Acquiring?, Goto(s, i, if ok then HaveConn else Reporting))
    case Send => When(p.HaveConn? || p.Reporting?, Goto(s, i, if p.HaveConn? then ConnSent else ErrSent))
    case GiveUp => When(s.cancelled && (p.HaveConn? || p.Reporting?), Goto(s, i, Finished))
    case Receive =>
      if !s.receiver.Looping? then None
      else if p.ErrSent? then Some(Goto(s, i, Finished))
      else if !p.ConnSent? then None
      else if s.winner.None? then Some(Goto(s, i, Won).(winner := Some(i), cancelled := true))
      else Some(Goto(s, i, Returning).(receiver := GivingBack(i)))
    case Drain => When(s.receiver.Abandoned? && InChannel(p), Goto(s, i, Finished))
  }

  function Run(s: State, run: seq<Action>): Option<State> {
    RunFrom(Step, s, run)
  }

  function Start(n: nat): State {
    State(seq(n, _ => Waiting), Looping, None, false, false, false)
  }

  /** Every goroutine has exited, the channel is empty, and the receiver has returned. */
  predicate Final(s: State) {
    AllExited(s) && ChannelEmpty(s) && !s.receiver.Looping? && !s.receiver.GivingBack?
  }

  // ----- the invariant -----

  /** Which phase each bookkeeping variable stands for. */
  ghost predicate Inv(s: State) {
    && (forall i :: 0 <= i < |s.agents| ==> (s.agents[i].Won? <==> s.winner == Some(i)))
    && (forall i :: 0 <= i < |s.agents| ==> (s.agents[i].Returning? <==> s.receiver == GivingBack(i)))
    && (s.winner.Some? ==> s.winner.value < |s.agents| && s.cancelled)
    && (s.receiver.GivingBack? ==> s.receiver.i < |s.agents|)
    && (s.closed ==> AllExited(s))
    && (s.parentDone ==> s.cancelled)
    && (s.receiver.ReturnedWinner? ==> s.winner.Some?)
    && (s.receiver.ReturnedError? ==> s.winner.None?)
    && (s.receiver.ReturnedWinner? || s.receiver.ReturnedError? ==> AllExited(s) && ChannelEmpty(s))
  }

  lemma AgentKeepsInv(s: State, i: nat, op: Op)
    requires Inv(s) && i < |s.agents| && AgentStep(s, i, op).Some?
    ensures Inv(AgentStep(s, i, op).value)
  {
    var t := AgentStep(s, i, op).value;
    assert t.agents == s.agents[i := t.agents[i]];
    if op.Receive? {
    } else if op.Drain? {
    } else {
      assert t == Goto(s, i, t.agents[i]);
    }
  }

  lemma StepKeepsInv(s: State, a: Action)
    requires Inv(s) && Step(s, a).Some?
    ensures Inv(Step(s, a).value)
  {
    if a.Agent? {
      AgentKeepsInv(s, a.i, a.op);
    }
  }

  lemma {:induction false} RunKeepsInv(s: State, run: seq<Action>)
    requires Inv(s) && Run(s, run).Some?
    ensures Inv(Run(s, run).value)
    decreases run
  {
    if run != [] {
      StepKeepsInv(s, run[0]);
      RunKeepsInv(Step(s, run[0]).value, run[1..]);
    }
  }

  ghost predicate Reachable(s: State) {
    exists n: nat, run: seq<Action> :: Run(Start(n), run) == Some(s)
  }

  lemma ReachableInv(s: State)
    requires Reachable(s)
    ensures Inv(s)
  {
    var n: nat, run :| Run(Start(n), run) == Some(s);
    RunKeepsInv(Start(n), run);
  }

  // ----- slots -----

  predicate IsWon(p: Phase) { p.Won? }

  lemma {:induction false} CountWon(ps: seq<Phase>, w: nat)
    requires w < |ps| && forall i :: 0 <= i < |ps| ==> (ps[i].Won? <==> i == w)
    ensures Count(ps, IsWon) == 1
  {
    if w == 0 {
      CountZero(ps[1..], IsWon);
    } else {
      CountWon(ps[1..], w - 1);
    }
  }

  lemma HeldWhenQuiet(s: State)
    requires Inv(s) && AllExited(s) && ChannelEmpty(s) && !s.receiver.GivingBack?
    ensures Held(s) == if s.winner.Some? then 1 else 0
  {
    assert forall i :: 0 <= i < |s.agents| ==> (HoldsSlot(s.agents[i]) <==> IsWon(s.agents[i]));
    CountMono(s.agents, HoldsSlot, IsWon);
    CountMono(s.agents, IsWon, HoldsSlot);
    if s.winner.Some? {
      CountWon(s.agents, s.winner.value);
    } else {
      CountZero(s.agents, IsWon);
    }
  }

  /** When raceForConnection returns a connection, every goroutine has exited and exactly the
      winner's slot is held; when it returns an error, none is. */
  lemma ReturnsWithOneSlotOrNone(s: State)
    requires Reachable(s) && (s.receiver.ReturnedWinner? || s.receiver.ReturnedError?)
    ensures Final(s)
    ensures Held(s) == if s.receiver.ReturnedWinner? then 1 else 0
  {
    ReachableInv(s);
    HeldWhenQuiet(s);
  }

  /** When the caller's context ends first, the drainer returns every slot still under way,
      except that of a winner received earlier: that one is held for good though the caller got
      no connection. So the abandoned race leaks a slot if and only if it had a winner. */
  lemma AbandonedLeaksExactlyTheWinner(s: State)
    requires Reachable(s) && s.receiver.Abandoned? && Final(s)
    ensures Held(s) == if s.winner.Some? then 1 else 0
  {
    ReachableInv(s);
    HeldWhenQuiet(s);
  }

  /** Such a leak happens even with one provider: the winner is received, and the caller's
      context ends before the closing goroutine has closed the channel. */
  lemma LeakingRun()
    ensures Run(Start(1), Leak) == Some(Leaked) && Final(Leaked) && Leaked.receiver.Abandoned? && Held(Leaked) == 1
  {
    LeakRuns();
    RunKeepsInv(Start(1), Leak);
    HeldWhenQuiet(Leaked);
  }

  /** The leaking run, state by state. */
  function LeakStates(): seq<State> {
    var s0 := Start(1);
    var s5 := State([Won], Looping, Some(0), true, false, false);
    [s0, Goto(s0, 0, GotSlot), Goto(s0, 0, Acquiring), Goto(s0, 0, HaveConn), Goto(s0, 0, ConnSent),
     s5, s5.(parentDone := true), Leaked]
  }

  lemma LeakBegins(k: nat)
    requires k < 4
    ensures Step(LeakStates()[k], Leak[k]) == Some(LeakStates()[k + 1])
  {
    var p := [GotSlot, Acquiring, HaveConn, ConnSent];
    if k > 0 {
      GotoTwice(Start(1), 0, p[k - 1], p[k]);
    }
  }

  lemma LeakEnds(k: nat)
    requires 4 <= k < 7
    ensures Step(LeakStates()[k], Leak[k]) == Some(LeakStates()[k + 1])
  {
    assert Goto(Start(1), 0, ConnSent).agents[0 := Won] == [Won];
  }

  lemma LeakRuns()
    ensures Run(Start(1), Leak) == Some(Leaked)
  {
    forall k | 0 <= k < |Leak|
      ensures Step(LeakStates()[k], Leak[k]) == Some(LeakStates()[k + 1])
    {
      if k < 4 {
        LeakBegins(k);
      } else {
        LeakEnds(k);
      }
    }
    RunOf(Step, Start(1), Leak, LeakStates());
  }

  const Leaked := State([Won], Abandoned, Some(0), true, true, false)

  const Leak: seq<Action> :=
    [Agent(0, TakeSlot), Agent(0, CheckContext), Agent(0, Acquired(true)), Agent(0, Send), Agent(0, Receive),
     ParentEnds, SeeParentEnded]

  // ----- every run ends -----

  function PhaseRank(p: Phase): nat {
    match p
    case Waiting => 6
    case GotSlot => 5
    case Acquiring => 4
    case HaveConn | Reporting => 3
    case ConnSent | ErrSent => 2
    case Returning => 1
    case Won | Finished => 0
  }

  function Rank(s: State): nat {
    Sum(s.agents, PhaseRank)
    + (if s.receiver.Looping? || s.receiver.GivingBack? then 1 else 0)
    + (if s.closed then 0 else 1)
    + (if s.parentDone then 0 else 1)
  }

  lemma StepLowersRank(s: State, a: Action)
    requires Inv(s) && Step(s, a).Some?
    ensures Rank(Step(s, a).value) < Rank(s)
  {
    if a.Agent? {
      AgentLowersRank(s, a.i, a.op);
    } else if a.FinishGivingBack? {
      SumUpdate(s.agents, s.receiver.i, Finished, PhaseRank);
    }
  }

  lemma AgentMovesDown(s: State, i: nat, op: Op)
    requires i < |s.agents| && AgentStep(s, i, op).Some?
    ensures var t := AgentStep(s, i, op).value;
      && |t.agents| == |s.agents| && t.agents == s.agents[i := t.agents[i]]
      && PhaseRank(t.agents[i]) < PhaseRank(s.agents[i])
      && t.closed == s.closed && t.parentDone == s.parentDone
      && (t.receiver == s.receiver || (s.receiver.Looping? && t.receiver.GivingBack?))
  {
  }

  lemma AgentLowersRank(s: State, i: nat, op: Op)
    requires i < |s.agents| && AgentStep(s, i, op).Some?
    ensures Rank(AgentStep(s, i, op).value) < Rank(s)
  {
    AgentMovesDown(s, i, op);
    SumUpdate(s.agents, i, AgentStep(s, i, op).value.agents[i], PhaseRank);
  }

  lemma {:induction false} RunLengthByRank(s: State, run: seq<Action>)
    requires Inv(s) && Run(s, run).Some?
    ensures |run| + Rank(Run(s, run).value) <= Rank(s)
    decreases run
  {
    if run != [] {
      StepKeepsInv(s, run[0]);
      StepLowersRank(s, run[0]);
      RunLengthByRank(Step(s, run[0]).value, run[1..]);
    }
  }

  /** No schedule of n goroutines has more than 6n + 3 steps. */
  lemma RunsAreShort(n: nat, run: seq<Action>)
    requires Run(Start(n), run).Some?
    ensures |run| <= 6 * n + 3
  {
    RunLengthByRank(Start(n), run);
    SumBound(Start(n).agents, PhaseRank, 6);
  }

  /** Nothing is left to do but to wait for a busy pool. */
  ghost predicate OnlyWaits(s: State) {
    && !s.cancelled
    && (exists i :: 0 <= i < |s.agents| && s.agents[i].Waiting?)
    && (forall i :: 0 <= i < |s.agents| ==> s.agents[i].Waiting? || s.agents[i].Finished?)
  }

  /** A step that neither a free slot nor the caller has to bring about. */
  predicate IsOwnStep(s: State, a: Action) {
    !TakesSlot(a) && !a.ParentEnds? && Step(s, a).Some?
  }

  /** A race that is not over can take a step of its own if and only if there is more to do than to
      wait for a busy pool. In particular it can once its context is cancelled, and when every
      goroutine has failed. */
  lemma NeverStuck(s: State)
    requires Inv(s) && !Final(s)
    ensures (exists a :: IsOwnStep(s, a)) <==> !OnlyWaits(s)
  {
    if !OnlyWaits(s) {
      CanStep(s);
    } else if a :| IsOwnStep(s, a) {
      assert a.Agent? ==> s.agents[a.i].Waiting? || s.agents[a.i].Finished?;
    }
  }

  lemma CanStep(s: State)
    requires Inv(s) && !Final(s) && !OnlyWaits(s)
    ensures exists a :: IsOwnStep(s, a)
  {
    if i :| 0 <= i < |s.agents| && Running(s.agents[i]) && !s.agents[i].Waiting? {
      var op := if s.agents[i].GotSlot? then CheckContext else if s.agents[i].Acquiring? then Acquired(true) else Send;
      assert IsOwnStep(s, Agent(i, op));
    } else if s.receiver.GivingBack? {
      assert IsOwnStep(s, FinishGivingBack);
    } else if i :| 0 <= i < |s.agents| && InChannel(s.agents[i]) {
      assert IsOwnStep(s, Agent(i, if s.receiver.Abandoned? then Drain else Receive));
    } else if i :| 0 <= i < |s.agents| && s.agents[i].Waiting? {
      assert IsOwnStep(s, Agent(i, SeeCancelled));
    } else {
      assert IsOwnStep(s, if s.closed then SeeClosed else CloseResults);
    }
  }

  predicate TakesSlot(a: Action) { a.Agent? && a.op.TakeSlot? }
}
