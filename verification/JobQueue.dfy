/** The job queue: an unbounded list under a lock, with a fixed number of workers that sleep on a
    condition variable while it is empty. Every step of the machine is one lock region. */
module JobQueue {
  import opened Wrappers
  import opened Counting

  datatype Kind = Torrent | Nzb

  datatype Job = Job(id: string, kind: Kind)

  /** What happened to the jobs so far. Accepted jobs are known by their place in the order of
      submission. */
  datatype Queue = Queue(accepted: seq<Job>, pending: seq<nat>, popped: seq<nat>, deleted: set<nat>, closed: bool)

  predicate Increasing(s: seq<nat>) {
    forall i, j :: 0 <= i < j < |s| ==> s[i] < s[j]
  }

  /** Every accepted job is popped, pending or deleted, and only one of these; jobs are popped in
      the order of submission. */
  ghost predicate Fair(q: Queue) {
    && Increasing(q.popped + q.pending)
    && (forall t :: t in q.popped || t in q.pending || t in q.deleted <==> 0 <= t < |q.accepted|)
    && (forall t :: t in q.deleted ==> t !in q.popped && t !in q.pending)
  }

  predicate InRange(q: Queue) {
    forall i :: 0 <= i < |q.pending| ==> q.pending[i] < |q.accepted|
  }

  function Submitted(q: Queue, job: Job): Queue {
    if q.closed then q
    else q.(accepted := q.accepted + [job], pending := q.pending + [|q.accepted|])
  }

  function Popped(q: Queue): Queue
    requires q.pending != []
  {
    q.(pending := q.pending[1..], popped := q.popped + [q.pending[0]])
  }

  /** Where the first pending job with this id stands; behind the end when there is none. */
  function Find(q: Queue, id: string, from: nat): (i: nat)
    requires from <= |q.pending| && InRange(q)
    ensures from <= i <= |q.pending|
    ensures forall j :: from <= j < i ==> q.accepted[q.pending[j]].id != id
    ensures i < |q.pending| ==> q.accepted[q.pending[i]].id == id
    decreases |q.pending| - from
  {
    if from == |q.pending| then from
    else if q.accepted[q.pending[from]].id == id then from
    else Find(q, id, from + 1)
  }

  function Deleted(q: Queue, id: string): Queue
    requires InRange(q)
  {
    var i := Find(q, id, 0);
    if i == |q.pending| then q
    else q.(pending := q.pending[..i] + q.pending[i + 1..], deleted := q.deleted + {q.pending[i]})
  }

  /** The first pending job with the id is gone, and all others are pending in the same order; without
      such a job nothing changes. */
  lemma DeletedMeans(q: Queue, id: string, i: nat)
    requires InRange(q) && i <= |q.pending|
    requires forall j :: 0 <= j < i ==> q.accepted[q.pending[j]].id != id
    ensures i == |q.pending| ==> Deleted(q, id) == q
    ensures i < |q.pending| && q.accepted[q.pending[i]].id == id ==>
      Deleted(q, id) == q.(pending := q.pending[..i] + q.pending[i + 1..], deleted := q.deleted + {q.pending[i]})
  {
    var found := Find(q, id, 0);
    assert found < |q.pending| ==> q.accepted[q.pending[found]].id == id;
  }

  lemma SubmittedFair(q: Queue, job: Job)
    requires Fair(q)
    ensures Fair(Submitted(q, job))
  {
    if !q.closed {
      var q' := Submitted(q, job);
      var s, s' := q.popped + q.pending, q'.popped + q'.pending;
      assert s' == s + [|q.accepted|];
      forall i | 0 <= i < |s|
        ensures s[i] < |q.accepted|
      {
        assert s[i] in q.popped || s[i] in q.pending;
      }
    }
  }

  lemma PoppedFair(q: Queue)
    requires Fair(q) && q.pending != []
    ensures Fair(Popped(q))
  {
    assert q.pending == [q.pending[0]] + q.pending[1..];
    assert Popped(q).popped + Popped(q).pending == q.popped + q.pending;
    forall t
      ensures t in Popped(q).popped <==> t in q.popped || t == q.pending[0]
      ensures t in q.pending <==> t == q.pending[0] || t in Popped(q).pending
    {
    }
  }

  lemma DropOne(a: seq<nat>, b: seq<nat>, i: nat)
    requires Increasing(a + b) && i < |b|
    ensures Increasing(a + (b[..i] + b[i + 1..]))
    ensures b[i] !in a && forall t :: t in b[..i] + b[i + 1..] <==> t in b && t != b[i]
  {
    var s, rest := a + b, b[..i] + b[i + 1..];
    assert forall k :: 0 <= k < |a| ==> s[k] == a[k];
    assert forall k :: 0 <= k < |b| ==> s[|a| + k] == b[k];
    assert a + rest == s[..|a| + i] + s[|a| + i + 1..];
    forall t | t in b && t != b[i]
      ensures t in rest
    {
      var k :| 0 <= k < |b| && b[k] == t;
      assert k < i ==> rest[k] == t;
      assert k > i ==> rest[k - 1] == t;
    }
  }

  lemma DeletedFair(q: Queue, id: string)
    requires Fair(q) && InRange(q)
    ensures Fair(Deleted(q, id))
  {
    var i := Find(q, id, 0);
    if i < |q.pending| {
      DropOne(q.popped, q.pending, i);
    }
  }

  // ----- the machine -----

  /** A worker is on its way to the lock, asleep, woken and on its way to the lock again, at work
      on a job, or gone. */
  datatype Stage = Ready | Asleep | Woken | Busy(ticket: nat) | Gone

  datatype State = State(q: Queue, workers: seq<Stage>, broadcast: bool)

  /** The steps. A submission wakes a sleeping worker if there is one, no matter which. Close first
      sets the flag, and wakes all sleepers in a step of its own. */
  datatype Op = Submit(job: Job, woken: nat) | Pop(w: nat) | Finish(w: nat) | Delete(id: string) | Close | Broadcast

  predicate IsWoken(x: Stage) { x.Woken? }

  function Weight(x: Stage): nat {
    match x
    case Busy(_) => 2
    case Ready => 1
    case Woken => 1
    case _ => 0
  }

  function WakeAll(workers: seq<Stage>): seq<Stage> {
    seq(|workers|, i requires 0 <= i < |workers| => if workers[i].Asleep? then Woken else workers[i])
  }

  predicate CanStep(s: State, op: Op) {
    match op
    case Submit(job, woken) =>
      !s.q.closed && (exists w :: 0 <= w < |s.workers| && s.workers[w].Asleep?) ==>
        woken < |s.workers| && s.workers[woken].Asleep?
    case Pop(w) => w < |s.workers| && (s.workers[w].Ready? || s.workers[w].Woken?)
    case Finish(w) => w < |s.workers| && s.workers[w].Busy?
    case Delete(_) => InRange(s.q)
    case Close => true
    case Broadcast => s.q.closed
  }

  /** One round of pop under the lock. */
  function PopOnce(s: State, w: nat): State
    requires w < |s.workers|
  {
    if s.q.pending == [] && !s.q.closed then s.(workers := s.workers[w := Asleep])
    else if s.q.pending == [] then s.(workers := s.workers[w := Gone])
    else s.(q := Popped(s.q), workers := s.workers[w := Busy(s.q.pending[0])])
  }

  function Step(s: State, op: Op): State
    requires CanStep(s, op)
  {
    match op
    case Submit(job, woken) =>
      var s' := s.(q := Submitted(s.q, job));
      if !s.q.closed && woken < |s.workers| && s.workers[woken].Asleep?
      then s'.(workers := s.workers[woken := Woken]) else s'
    case Pop(w) => PopOnce(s, w)
    case Finish(w) => s.(workers := s.workers[w := Ready])
    case Delete(id) => s.(q := Deleted(s.q, id))
    case Close => s.(q := s.q.(closed := true))
    case Broadcast => s.(workers := WakeAll(s.workers), broadcast := true)
  }

  ghost predicate Inv(s: State) {
    && Fair(s.q)
    && ((exists w :: 0 <= w < |s.workers| && s.workers[w].Gone?) ==> s.q.closed && s.q.pending == [])
    && ((exists w :: 0 <= w < |s.workers| && s.workers[w].Asleep?) ==>
          |s.q.pending| <= Count(s.workers, IsWoken) && !s.broadcast)
    && (s.broadcast ==> s.q.closed)
  }

  lemma StepKeeps(s: State, op: Op)
    requires Inv(s) && CanStep(s, op)
    ensures Inv(Step(s, op))
  {
    match op
    case Submit(job, woken) =>
      SubmittedFair(s.q, job);
      if !s.q.closed && woken < |s.workers| && s.workers[woken].Asleep? {
        CountUpdate(s.workers, woken, Woken, IsWoken);
      }
    case Pop(w) => PopKeeps(s, w);
    case Finish(w) => CountUpdate(s.workers, w, Ready, IsWoken);
    case Delete(id) => DeletedFair(s.q, id);
    case Close =>
    case Broadcast =>
  }

  /** Callers are never held up: in every state a job can be submitted, and an open queue takes it in behind
      all others and wakes a sleeper if there is one; a job can be deleted and the queue be closed; and the
      broadcast after that wakes everybody. */
  lemma CallersGoAhead(s: State, job: Job, id: string) returns (woken: nat)
    requires Inv(s)
    ensures CanStep(s, Submit(job, woken)) && CanStep(s, Delete(id)) && CanStep(s, Close)
    ensures var s' := Step(s, Submit(job, woken));
      if s.q.closed then s' == s
      else
        && s'.q.accepted == s.q.accepted + [job] && s'.q.pending == s.q.pending + [|s.q.accepted|]
        && if forall w :: 0 <= w < |s.workers| ==> s.workers[w] != Asleep then s'.workers == s.workers
           else woken < |s.workers| && s.workers[woken] == Asleep && s'.workers == s.workers[woken := Woken]
    ensures var s' := Step(s, Close);
      && s' == s.(q := s.q.(closed := true)) && CanStep(s', Broadcast) && Step(s', Broadcast).broadcast
      && forall w :: 0 <= w < |s.workers| ==>
           Step(s', Broadcast).workers[w] == if s.workers[w] == Asleep then Woken else s.workers[w]
  {
    if w :| 0 <= w < |s.workers| && s.workers[w].Asleep? {
      woken := w;
    } else {
      woken := 0;
    }
    forall i | 0 <= i < |s.q.pending|
      ensures s.q.pending[i] < |s.q.accepted|
    {
      assert s.q.pending[i] in s.q.pending;
    }
  }

  lemma PopKeeps(s: State, w: nat)
    requires Inv(s) && CanStep(s, Pop(w))
    ensures Inv(PopOnce(s, w))
  {
    var s' := PopOnce(s, w);
    CountUpdate(s.workers, w, s'.workers[w], IsWoken);
    if s.q.pending != [] {
      PoppedFair(s.q);
    }
    if v :| 0 <= v < |s'.workers| && s'.workers[v].Asleep? {
      assert v != w ==> s.workers[v].Asleep?;
    }
  }

  // ----- whole runs -----

  /** The queue as it starts: every worker on its way to its first job. */
  function Initial(workers: nat): State {
    State(Queue([], [], [], {}, false), seq(workers, _ => Ready), false)
  }

  predicate CanRun(s: State, ops: seq<Op>)
    decreases ops
  {
    ops == [] || (CanStep(s, ops[0]) && CanRun(Step(s, ops[0]), ops[1..]))
  }

  function Run(s: State, ops: seq<Op>): State
    requires CanRun(s, ops)
    decreases ops
  {
    if ops == [] then s else Run(Step(s, ops[0]), ops[1..])
  }

  lemma {:induction false} RunKeeps(s: State, ops: seq<Op>)
    requires Inv(s) && CanRun(s, ops)
    ensures Inv(Run(s, ops)) && |Run(s, ops).workers| == |s.workers|
    decreases ops
  {
    if ops != [] {
      StepKeeps(s, ops[0]);
      RunKeeps(Step(s, ops[0]), ops[1..]);
    }
  }

  /** In every run: every accepted job is popped, pending or deleted, and only one of these; the
      jobs come out in the order in which they were accepted; and a worker leaves only when the
      queue is closed and nothing is pending any more. */
  lemma EveryJobAccounted(workers: nat, ops: seq<Op>)
    requires CanRun(Initial(workers), ops)
    ensures var s := Run(Initial(workers), ops);
      && Inv(s) && Increasing(s.q.popped)
      && |s.q.accepted| == |s.q.popped| + |s.q.pending| + |s.q.deleted|
      && ((exists w :: 0 <= w < |s.workers| && s.workers[w].Gone?) ==>
            s.q.closed && forall t :: 0 <= t < |s.q.accepted| ==> t in s.q.popped || t in s.q.deleted)
  {
    RunKeeps(Initial(workers), ops);
    var s := Run(Initial(workers), ops);
    var all := s.q.popped + s.q.pending;
    assert forall i :: 0 <= i < |s.q.popped| ==> all[i] == s.q.popped[i];
    Tally(s.q);
  }

  /** The numbers below n. */
  function Below(n: nat): (r: set<nat>)
    ensures |r| == n && forall t: int :: t in r <==> 0 <= t < n
  {
    if n == 0 then {} else Below(n - 1) + {n - 1}
  }

  lemma {:induction false} ElementsOf(s: seq<nat>) returns (r: set<nat>)
    requires Increasing(s)
    ensures |r| == |s| && forall t :: t in r <==> t in s
  {
    if s == [] {
      return {};
    }
    var last := s[|s| - 1];
    r := ElementsOf(s[..|s| - 1]);
    assert last !in s[..|s| - 1];
    assert s == s[..|s| - 1] + [last];
    r := r + {last};
  }

  lemma Tally(q: Queue)
    requires Fair(q)
    ensures |q.accepted| == |q.popped| + |q.pending| + |q.deleted|
  {
    var r := ElementsOf(q.popped + q.pending);
    assert r + q.deleted == Below(|q.accepted|) by {
      forall t
        ensures t in r + q.deleted <==> t in Below(|q.accepted|)
      {
        assert t in q.popped + q.pending <==> t in q.popped || t in q.pending;
      }
    }
    assert r !! q.deleted;
  }

  /** Nothing is accepted once the queue is closed. */
  lemma {:induction false} NothingAfterClose(s: State, ops: seq<Op>)
    requires s.q.closed && CanRun(s, ops)
    ensures Run(s, ops).q.accepted == s.q.accepted && Run(s, ops).q.closed
    decreases ops
  {
    if ops != [] {
      NothingAfterClose(Step(s, ops[0]), ops[1..]);
    }
  }

  /** No wake-up is lost: while jobs are pending and a worker sleeps, at least as many workers as
      there are jobs are woken and on their way; and whenever a job is pending, some worker is
      not asleep and can take a step. */
  lemma NoLostWakeUp(workers: nat, ops: seq<Op>)
    requires workers > 0 && CanRun(Initial(workers), ops)
    ensures var s := Run(Initial(workers), ops);
      && ((exists w :: 0 <= w < |s.workers| && s.workers[w].Asleep?) ==> |s.q.pending| <= Count(s.workers, IsWoken))
      && (s.q.pending != [] ==>
            exists w :: 0 <= w < |s.workers| && (CanStep(s, Pop(w)) || CanStep(s, Finish(w))))
  {
    RunKeeps(Initial(workers), ops);
    var s := Run(Initial(workers), ops);
    if s.q.pending != [] {
      if s.workers[0].Asleep? {
        CountZero(s.workers, IsWoken);
        var x :| x in s.workers && IsWoken(x);
        var w :| 0 <= w < |s.workers| && s.workers[w] == x;
        assert CanStep(s, Pop(w));
      } else {
        assert CanStep(s, Pop(0)) || CanStep(s, Finish(0));
      }
    }
  }

  // ----- closing -----

  function WorkLeft(s: State): nat {
    2 * |s.q.pending| + Sum(s.workers, Weight)
  }

  predicate IsWorkerStep(op: Op) { op.Pop? || op.Finish? }

  /** Once all sleepers are woken, every step of a worker brings the end nearer, and no other
      step takes it away again. */
  lemma DrainStep(s: State, op: Op)
    requires Inv(s) && s.broadcast && CanStep(s, op)
    ensures Step(s, op).broadcast
    ensures WorkLeft(Step(s, op)) + (if IsWorkerStep(op) then 1 else 0) <= WorkLeft(s)
  {
    match op
    case Pop(w) => SumUpdate(s.workers, w, Step(s, op).workers[w], Weight);
    case Finish(w) => SumUpdate(s.workers, w, Ready, Weight);
    case Broadcast => assert WakeAll(s.workers) == s.workers;
    case _ =>
  }

  /** After Close has woken the sleepers the workers take boundedly many steps. */
  lemma {:induction false} DrainIsBounded(s: State, ops: seq<Op>)
    requires Inv(s) && s.broadcast && CanRun(s, ops)
    ensures Count(ops, IsWorkerStep) <= WorkLeft(s)
    decreases ops
  {
    if ops != [] {
      DrainStep(s, ops[0]);
      StepKeeps(s, ops[0]);
      DrainIsBounded(Step(s, ops[0]), ops[1..]);
    }
  }

  /** And when none can take a step, all have left and every job that was accepted and not deleted
      has been handed to a worker: Close returns. */
  lemma DrainedMeansGone(s: State)
    requires Inv(s) && s.broadcast && s.workers != []
    requires forall w :: 0 <= w < |s.workers| ==> !CanStep(s, Pop(w)) && !CanStep(s, Finish(w))
    ensures forall w :: 0 <= w < |s.workers| ==> s.workers[w].Gone?
    ensures forall t :: 0 <= t < |s.q.accepted| ==> t in s.q.popped || t in s.q.deleted
  {
    forall w | 0 <= w < |s.workers|
      ensures s.workers[w].Gone?
    {
      assert !CanStep(s, Pop(w)) && !CanStep(s, Finish(w));
    }
    assert s.workers[0].Gone?;
  }

  // ----- the code -----

  datatype PopResult = Wait | Exit | Got(job: Job)

  predicate StandFor(jobs: seq<Job>, accepted: seq<Job>, pending: seq<nat>) {
    |jobs| == |pending| && forall i :: 0 <= i < |jobs| ==> pending[i] < |accepted| && jobs[i] == accepted[pending[i]]
  }

  lemma StillStandFor(jobs: seq<Job>, q: Queue, i: nat)
    requires StandFor(jobs, q.accepted, q.pending) && i < |jobs|
    ensures StandFor(jobs[..i] + jobs[i + 1..], q.accepted, q.pending[..i] + q.pending[i + 1..])
  {
  }

  /** The fields that the lock guards, and what they stand for. */
  class JobQueue {
    var jobs: seq<Job>
    var closed: bool
    ghost var q: Queue

    ghost predicate Valid()
      reads this
    {
      Fair(q) && InRange(q) && closed == q.closed && StandFor(jobs, q.accepted, q.pending)
    }

    constructor ()
      ensures Valid() && q == Queue([], [], [], {}, false)
    {
      jobs, closed, q := [], false, Queue([], [], [], {}, false);
    }

    /** The caller also wakes one sleeping worker when the job was accepted. */
    method Submit(job: Job) returns (ok: bool)
      requires Valid()
      modifies this
      ensures Valid() && ok == !old(closed) && q == Submitted(old(q), job)
      ensures jobs == if old(closed) then old(jobs) else old(jobs) + [job]
      ensures closed == old(closed)
    {
      if closed {
        return false;
      }
      SubmittedFair(q, job);
      jobs := jobs + [job];
      q := Submitted(q, job);
      return true;
    }

    /** One round of pop: between taking the lock and giving it up or going to sleep. */
    method Pop() returns (r: PopResult)
      requires Valid()
      modifies this
      ensures Valid()
      ensures r.Wait? <==> old(jobs) == [] && !old(closed)
      ensures r.Exit? <==> old(jobs) == [] && old(closed)
      ensures r.Got? ==> q == Popped(old(q)) && [r.job] + jobs == old(jobs)
      ensures !r.Got? ==> q == old(q) && jobs == old(jobs)
      ensures closed == old(closed)
    {
      if |jobs| == 0 && !closed {
        return Wait;
      }
      if closed && |jobs| == 0 {
        return Exit;
      }
      PoppedFair(q);
      r := Got(jobs[0]);
      jobs := jobs[1..];
      q := Popped(q);
    }

    method DeleteJob(id: string) returns (found: bool)
      requires Valid()
      modifies this
      ensures Valid() && q == Deleted(old(q), id) && closed == old(closed)
      ensures found <==> exists i :: 0 <= i < |old(jobs)| && old(jobs)[i].id == id
      ensures !found ==> jobs == old(jobs)
      ensures found ==> exists i ::
        && 0 <= i < |old(jobs)| && old(jobs)[i].id == id && (forall j :: 0 <= j < i ==> old(jobs)[j].id != id)
        && jobs == old(jobs)[..i] + old(jobs)[i + 1..]
    {
      ghost var first := Find(q, id, 0);
      for i := 0 to |jobs|
        invariant Valid() && q == old(q) && jobs == old(jobs) && closed == old(closed) && i <= first
      {
        if jobs[i].id == id {
          RemoveFound(id, i);
          return true;
        }
      }
      return false;
    }

    method RemoveFound(id: string, i: nat)
      requires Valid() && i < |jobs| && i == Find(q, id, 0)
      modifies this
      ensures Valid() && q == Deleted(old(q), id) && closed == old(closed)
      ensures jobs == old(jobs)[..i] + old(jobs)[i + 1..]
    {
      DeletedFair(q, id);
      StillStandFor(jobs, q, i);
      jobs := jobs[..i] + jobs[i + 1..];
      q := Deleted(q, id);
    }

    method FindJob(id: string) returns (job: Option<Job>)
      requires Valid()
      ensures job == None <==> forall i :: 0 <= i < |jobs| ==> jobs[i].id != id
      ensures job != None ==> exists i ::
        && 0 <= i < |jobs| && jobs[i] == job.value && jobs[i].id == id
        && forall j :: 0 <= j < i ==> jobs[j].id != id
    {
      for i := 0 to |jobs|
        invariant i <= Find(q, id, 0)
      {
        if jobs[i].id == id {
          return Some(jobs[i]);
        }
      }
      return None;
    }

    method PendingCount(kind: Option<Kind>) returns (n: nat)
      requires Valid()
      ensures n == Count(jobs, (j: Job) => kind.None? || j.kind == kind.value)
    {
      var all := (j: Job) => kind.None? || j.kind == kind.value;
      if kind.None? {
        CountAll(jobs, all);
        return |jobs|;
      }
      n := 0;
      for i := 0 to |jobs|
        invariant n + Count(jobs[i..], all) == Count(jobs, all)
      {
        assert jobs[i..][0] == jobs[i] && jobs[i..][1..] == jobs[i + 1..];
        if jobs[i].kind == kind.value {
          n := n + 1;
        }
      }
    }

    method Close()
      requires Valid()
      modifies this
      ensures Valid() && closed && jobs == old(jobs) && q == old(q).(closed := true)
    {
      closed := true;
      q := q.(closed := true);
    }
  }

  lemma CountAll(s: seq<Job>, p: Job -> bool)
    requires forall x :: p(x)
    ensures Count(s, p) == |s|
  {
  }
}
