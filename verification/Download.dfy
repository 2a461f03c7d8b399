/** The parallel download of a file: segments are fetched in any order, and one writer puts
    them out in their order. */
module Download {
  import opened Octets
  import opened Wrappers

  /** start is SegmentDataStart, which may be negative; bytes is the expected size. */
  datatype Segment = Segment(start: int, bytes: nat)

  /** What fetching one segment gives; None is a failed fetch. */
  type Body = Option<Bytes>

  datatype Error = FetchFailed(index: nat) | OffsetExceedsData(index: nat) | WriteFailed(index: nat) | Cancelled
                 | Stopped(errors: seq<Error>) | NoSegments

  datatype Outcome = Data(data: Bytes) | Failed(error: Error)

  /** The part of a fetched body that belongs to the file. */
  function Cut(i: nat, seg: Segment, body: Body): Outcome {
    if body.None? then Failed(FetchFailed(i))
    else if seg.start > 0 && seg.start >= |body.value| then Failed(OffsetExceedsData(i))
    else
      var data := if seg.start > 0 then body.value[seg.start..] else body.value;
      Data(if |data| > seg.bytes then data[..seg.bytes] else data)
  }

  /** A segment contributes the part of its body that begins at its start, or at the front for a
      start below zero, and is at most as long as expected. */
  lemma CutIsSlice(i: nat, seg: Segment, body: Bytes)
    ensures var offset := if seg.start > 0 then seg.start else 0;
      var end := if offset + seg.bytes < |body| then offset + seg.bytes else |body|;
      && (Cut(i, seg, Some(body)).Data? <==> offset == 0 || offset < |body|)
      && (Cut(i, seg, Some(body)).Data? ==> Cut(i, seg, Some(body)).data == body[offset..end])
  {
  }

  function Cuts(segs: seq<Segment>, bodies: seq<Body>): seq<Outcome>
    requires |segs| == |bodies|
  {
    seq(|segs|, i requires 0 <= i < |segs| => Cut(i, segs[i], bodies[i]))
  }

  /** The data of the first n segments, one after the other. */
  function Joined(cuts: seq<Outcome>, n: nat): Bytes
    requires n <= |cuts|
  {
    if n == 0 then [] else Joined(cuts, n - 1) + (if cuts[n - 1].Data? then cuts[n - 1].data else [])
  }

  lemma {:induction false} JoinedPrefix(cuts: seq<Outcome>, m: nat, n: nat)
    requires m <= n <= |cuts|
    ensures Joined(cuts, m) <= Joined(cuts, n)
  {
    if m < n {
      JoinedPrefix(cuts, m, n - 1);
    }
  }

  function TotalBytes(segs: seq<Segment>, n: nat): nat
    requires n <= |segs|
  {
    if n == 0 then 0 else TotalBytes(segs, n - 1) + segs[n - 1].bytes
  }

  /** Whether a body is long enough for what its segment is to contribute. */
  predicate LongEnough(seg: Segment, body: Body) {
    body.Some? && |body.value| >= seg.bytes + (if seg.start > 0 then seg.start else 0)
  }

  /** A body that is too short goes unnoticed: the download still succeeds, and the result has
      the expected size exactly when no body was too short. */
  lemma {:induction false} ExpectedSize(segs: seq<Segment>, bodies: seq<Body>, n: nat)
    requires |segs| == |bodies| && n <= |segs|
    requires forall i :: 0 <= i < n ==> Cut(i, segs[i], bodies[i]).Data?
    ensures |Joined(Cuts(segs, bodies), n)| <= TotalBytes(segs, n)
    ensures |Joined(Cuts(segs, bodies), n)| == TotalBytes(segs, n)
      <==> forall i :: 0 <= i < n ==> LongEnough(segs[i], bodies[i])
  {
    if n > 0 {
      ExpectedSize(segs, bodies, n - 1);
      assert Cut(n - 1, segs[n - 1], bodies[n - 1]).Data?;
    }
  }

  /** The io.Writer: it writes everything, or less and reports an error. */
  class Sink {
    var written: Bytes
    ghost var failed: bool

    constructor ()
      ensures written == [] && !failed
    {
      written, failed := [], false;
    }

    method Write(data: Bytes) returns (n: nat, ok: bool)
      modifies this
      ensures n <= |data| && written == old(written) + data[..n]
      ensures ok ==> n == |data|
      ensures failed == (old(failed) || !ok)
    {
      n :| n <= |data|;
      ok := *;
      ok := ok && n == |data|;
      written := written + data[..n];
      failed := failed || !ok;
    }
  }

  datatype Result = Result(index: nat, outcome: Outcome)

  /** The writer goroutine, with the variables it shares with Download. */
  class Writer {
    ghost const cuts: seq<Outcome>
    const sink: Sink
    var pending: map<nat, Bytes>
    var next: nat
    var err: Option<Error>
    var completed: nat
    var downloaded: nat
    ghost var arrived: set<nat>
    ghost var broken: bool

    ghost predicate Valid()
      reads this, sink
    {
      && next <= |cuts| && (forall i :: i in arrived ==> i < |cuts| && cuts[i].Data?)
      && Waiting()
      && (forall i :: 0 <= i < next ==> i in arrived)
      && (if broken then StoppedAt() else sink.written == Joined(cuts, next))
      && sink.failed == broken && (err.Some? && err.value.WriteFailed? ==> broken && err.value.index == next)
      && (forall i :: 0 <= i < |cuts| && cuts[i].Failed? ==> !cuts[i].error.WriteFailed?)
      && completed == next && downloaded == |Joined(cuts, next)|
    }

    /** pending holds what has arrived and comes later in the file. */
    ghost predicate Waiting()
      requires forall i :: i in arrived ==> i < |cuts| && cuts[i].Data?
      reads this
    {
      && (forall i :: i in pending ==> i in arrived && next <= i && pending[i] == cuts[i].data)
      && (forall i :: i in arrived && next <= i && (broken ==> i != next) ==> i in pending)
    }

    /** After a failed write the output ends inside the segment that failed. */
    ghost predicate StoppedAt()
      requires next <= |cuts|
      reads this, sink
    {
      && err.Some? && next in arrived && next !in pending && next < |cuts| && cuts[next].Data?
      && Joined(cuts, next) <= sink.written <= Joined(cuts, next + 1)
    }

    /** Whatever has arrived in whatever order: the output is a prefix of the file, and if no
        write failed it consists of exactly the segments before the first that is missing. */
    ghost predicate Settled()
      reads this, sink
    {
      Valid() && next !in pending
    }

    constructor (ghost cuts: seq<Outcome>, sink: Sink)
      requires sink.written == [] && !sink.failed
      requires forall i :: 0 <= i < |cuts| && cuts[i].Failed? ==> !cuts[i].error.WriteFailed?
      ensures Settled() && this.cuts == cuts && this.sink == sink && arrived == {} && !broken && err == None
    {
      this.cuts, this.sink := cuts, sink;
      pending, next, err, completed, downloaded := map[], 0, None, 0, 0;
      arrived, broken := {}, false;
    }

    /** Nothing of a segment that has not arrived is written, nor of any later one. */
    lemma NothingBeyond(gap: nat)
      requires Valid() && gap <= |cuts| && gap !in arrived
      ensures sink.written <= Joined(cuts, gap)
    {
      assert next <= gap;
      JoinedPrefix(cuts, if broken then next + 1 else next, gap);
    }

    lemma WritesPrefix()
      requires Valid()
      ensures sink.written <= Joined(cuts, |cuts|)
    {
      JoinedPrefix(cuts, if broken then next + 1 else next, |cuts|);
    }

    /** Once all have arrived and no write has failed, everything is written. */
    lemma AllWritten()
      requires Settled() && !broken && forall i :: 0 <= i < |cuts| ==> i in arrived
      ensures sink.written == Joined(cuts, |cuts|)
    {
    }

    /** The writer's work on one result. */
    method Receive(result: Result)
      requires Settled() && result.index < |cuts| && result.index !in arrived
      requires result.outcome == cuts[result.index]
      modifies this, sink
      ensures Settled()
      ensures arrived == if result.outcome.Data? then old(arrived) + {result.index} else old(arrived)
      ensures result.outcome.Failed? ==> err.Some? && sink.written == old(sink.written)
      ensures old(err).Some? ==> err == old(err)
      ensures result.outcome.Failed? && old(err) == None ==> err == Some(result.outcome.error)
      ensures result.outcome.Data? && err != old(err) ==> broken && err == Some(WriteFailed(next))
      ensures old(broken) ==> broken && sink.written == old(sink.written)
    {
      if result.outcome.Failed? {
        if err == None {
          err := Some(result.outcome.error);
        }
        return;
      }
      pending := pending[result.index := result.outcome.data];
      arrived := arrived + {result.index};
      Flush();
    }

    /** Write all consecutive segments starting from next. */
    method Flush()
      requires Valid() && (broken ==> next !in pending)
      modifies this, sink
      ensures Settled() && arrived == old(arrived)
      ensures old(err).Some? ==> err == old(err)
      ensures err != old(err) ==> broken && err == Some(WriteFailed(next))
      ensures old(broken) ==> broken && sink.written == old(sink.written)
      ensures !old(broken) && broken ==> err.Some?
    {
      while next in pending
        invariant Valid() && arrived == old(arrived)
        invariant err == old(err) && broken == old(broken)
        invariant broken ==> next !in pending && sink.written == old(sink.written)
        decreases |pending|
      {
        var ok := WriteNext();
        if !ok {
          return;
        }
      }
    }

    method WriteNext() returns (ok: bool)
      requires Valid() && next in pending && !broken
      modifies this, sink
      ensures Valid() && arrived == old(arrived) && pending == old(pending) - {old(next)}
      ensures ok ==> next == old(next) + 1 && err == old(err) && !broken
      ensures !ok ==> broken && next !in pending && next == old(next)
      ensures !ok ==> err == if old(err) == None then Some(WriteFailed(next)) else old(err)
    {
      var data := pending[next];
      pending := pending - {next};
      var n;
      n, ok := sink.Write(data);
      assert Joined(cuts, next + 1) == Joined(cuts, next) + data;
      if !ok {
        if err == None {
          err := Some(WriteFailed(next));
        }
        broken := true;
        return;
      }
      assert data[..n] == data;
      completed := completed + 1;
      downloaded := downloaded + n;
      next := next + 1;
    }
  }

  /** Every segment is waiting, on its way to the writer, received, or given up by its worker. */
  ghost predicate Accounted(n: nat, waiting: set<nat>, sending: set<nat>, queue: seq<Result>,
                            received: set<nat>, skipped: set<nat>)
  {
    && (forall i :: 0 <= i < n ==> i in waiting || i in sending || Queued(queue, i) || i in received || i in skipped)
    && (forall i :: i in waiting ==> i < n && i !in sending && !Queued(queue, i) && i !in received)
    && (forall i :: i in sending ==> i < n && !Queued(queue, i) && i !in received)
    && (forall k :: 0 <= k < |queue| ==> queue[k].index < n && queue[k].index !in received)
    && (forall j, k :: 0 <= j < k < |queue| ==> queue[j].index != queue[k].index)
  }

  ghost predicate Queued(queue: seq<Result>, i: nat) {
    exists k :: 0 <= k < |queue| && queue[k].index == i
  }

  function Indices(n: nat): (s: set<nat>)
    ensures forall i: int :: i in s <==> 0 <= i < n
  {
    if n == 0 then {} else Indices(n - 1) + {n - 1}
  }

  lemma Started(n: nat, waiting: set<nat>, sending: set<nat>, queue: seq<Result>, received: set<nat>,
                skipped: set<nat>, i: nat)
    requires Accounted(n, waiting, sending, queue, received, skipped) && i in waiting
    ensures Accounted(n, waiting - {i}, sending + {i}, queue, received, skipped)
    ensures Accounted(n, waiting - {i}, sending, queue, received, skipped + {i})
  {
    var waiting', sending', skipped' := waiting - {i}, sending + {i}, skipped + {i};
    forall j | 0 <= j < n
      ensures j in waiting' || j in sending' || Queued(queue, j) || j in received || j in skipped
      ensures j in waiting' || j in sending || Queued(queue, j) || j in received || j in skipped'
    {
    }
  }

  lemma Enqueued(n: nat, waiting: set<nat>, sending: set<nat>, queue: seq<Result>, received: set<nat>,
                 skipped: set<nat>, r: Result)
    requires Accounted(n, waiting, sending, queue, received, skipped) && r.index in sending
    ensures Accounted(n, waiting, sending - {r.index}, queue + [r], received, skipped)
  {
    var queue' := queue + [r];
    assert queue'[|queue|] == r;
    assert forall k :: 0 <= k < |queue| ==> queue'[k] == queue[k];
    forall i | Queued(queue', i)
      ensures Queued(queue, i) || i == r.index
    {
    }
    forall i | Queued(queue, i)
      ensures Queued(queue', i)
    {
      var k :| 0 <= k < |queue| && queue[k].index == i;
      assert queue'[k].index == i;
    }
  }

  lemma Dequeued(n: nat, waiting: set<nat>, sending: set<nat>, queue: seq<Result>, received: set<nat>,
                 skipped: set<nat>)
    requires Accounted(n, waiting, sending, queue, received, skipped) && queue != []
    ensures Accounted(n, waiting, sending, queue[1..], received + {queue[0].index}, skipped)
  {
    assert forall k :: 0 <= k < |queue| - 1 ==> queue[1..][k] == queue[k + 1];
    forall i | Queued(queue, i)
      ensures Queued(queue[1..], i) || i == queue[0].index
    {
      var k :| 0 <= k < |queue| && queue[k].index == i;
      assert k > 0 ==> queue[1..][k - 1].index == i;
    }
    forall i | Queued(queue[1..], i)
      ensures Queued(queue, i) && i != queue[0].index
    {
      var k :| 0 <= k < |queue| - 1 && queue[1..][k].index == i;
      assert queue[k + 1].index == i;
    }
  }

  /** The error is that of a failed write or of a failed segment. */
  ghost predicate ErrorIsReal(err: Option<Error>, cuts: seq<Outcome>) {
    err.None? || err.value.WriteFailed? || exists i :: 0 <= i < |cuts| && cuts[i] == Failed(err.value)
  }

  /** The worker goroutines, at most limit at a time, and the channel to the writer. A channel without
      a buffer holds a result only while it is handed over. */
  class Workers {
    const segs: seq<Segment>
    const bodies: seq<Body>
    const limit: nat
    const capacity: nat
    var waiting: set<nat>
    var sending: set<nat>
    var queue: seq<Result>
    ghost var received: set<nat>
    ghost var skipped: set<nat>

    function Room(): nat { if capacity == 0 then 1 else capacity }

    ghost predicate Valid()
      reads this
    {
      && |segs| == |bodies| && |sending| <= limit && |queue| <= Room()
      && Accounted(|segs|, waiting, sending, queue, received, skipped)
      && (forall k :: 0 <= k < |queue| ==> queue[k].outcome == Cuts(segs, bodies)[queue[k].index])
    }

    constructor (segs: seq<Segment>, bodies: seq<Body>, maxConnections: nat)
      requires |segs| == |bodies|
      ensures Valid() && this.segs == segs && this.bodies == bodies && received == {} && skipped == {}
      ensures limit == (if maxConnections < 1 then 1 else maxConnections) && capacity == maxConnections * 2
      ensures queue == []
    {
      this.segs, this.bodies := segs, bodies;
      limit := if maxConnections < 1 then 1 else maxConnections;
      capacity := maxConnections * 2;
      waiting, sending, queue := Indices(|segs|), {}, [];
      received, skipped := {}, {};
    }

    /** A worker starts, and gives up when it is told to stop. */
    method Start(stop: bool)
      requires Valid() && waiting != {} && |sending| < limit
      modifies this
      ensures Valid() && |waiting| < |old(waiting)| && received == old(received) && queue == old(queue)
      ensures !stop ==> skipped == old(skipped)
    {
      var i :| i in waiting;
      Started(|segs|, waiting, sending, queue, received, skipped, i);
      waiting := waiting - {i};
      if stop {
        skipped := skipped + {i};
      } else {
        sending := sending + {i};
      }
    }

    /** A worker has fetched its segment and sends what belongs to the file. */
    method Send()
      requires Valid() && sending != {} && |queue| < Room()
      modifies this
      ensures Valid() && waiting == old(waiting) && |sending| < |old(sending)| && |queue| == |old(queue)| + 1
      ensures received == old(received) && skipped == old(skipped)
    {
      var i :| i in sending;
      var r := Result(i, Cut(i, segs[i], bodies[i]));
      Enqueued(|segs|, waiting, sending, queue, received, skipped, r);
      sending, queue := sending - {i}, queue + [r];
    }

    method Take() returns (r: Result)
      requires Valid() && queue != []
      modifies this
      ensures Valid() && waiting == old(waiting) && sending == old(sending) && |queue| == |old(queue)| - 1
      ensures r.index < |segs| && r.outcome == Cuts(segs, bodies)[r.index] && r.index !in old(received)
      ensures received == old(received) + {r.index} && skipped == old(skipped)
    {
      r := queue[0];
      Dequeued(|segs|, waiting, sending, queue, received, skipped);
      queue, received := queue[1..], received + {r.index};
    }

    lemma NothingLeft()
      requires Valid() && waiting == {} && sending == {} && queue == []
      ensures forall i :: 0 <= i < |segs| ==> i in received || i in skipped
    {
      assert forall i :: !Queued(queue, i);
    }
  }

  /** What the workers know of an error, and the writer of the segments it was sent. */
  ghost predicate Linked(w: Writer, workers: Workers, fetchErrs: seq<Error>, cancelled: bool)
    reads w, w.sink, workers
  {
    && w.Settled() && ErrorIsReal(w.err, w.cuts)
    && (workers.skipped != {} ==> fetchErrs != [])
    && (w.err == None ==> forall e :: e in fetchErrs ==> e == Cancelled && cancelled)
    && w.arrived <= workers.received
    && (w.err == None ==> !w.broken && w.arrived == workers.received)
  }

  method HandOver(w: Writer, r: Result, ghost before: set<nat>, ghost workers: Workers, ghost fetchErrs: seq<Error>,
                  ghost cancelled: bool)
    requires r.index < |w.cuts| && r.outcome == w.cuts[r.index] && r.index !in before
    requires workers.received == before + {r.index}
    requires w.Settled() && ErrorIsReal(w.err, w.cuts)
    requires workers.skipped != {} ==> fetchErrs != []
    requires w.err == None ==> forall e :: e in fetchErrs ==> e == Cancelled && cancelled
    requires w.arrived <= before && (w.err == None ==> !w.broken && w.arrived == before)
    modifies w, w.sink
    ensures Linked(w, workers, fetchErrs, cancelled)
  {
    w.Receive(r);
  }

  /** A worker puts its result into the channel. */
  method HandIn(w: Writer, workers: Workers, ghost fetchErrs: seq<Error>, ghost cancelled: bool)
    requires workers.Valid() && workers.sending != {} && |workers.queue| < workers.Room()
    requires Linked(w, workers, fetchErrs, cancelled)
    modifies workers
    ensures workers.Valid() && Linked(w, workers, fetchErrs, cancelled)
    ensures workers.waiting == old(workers.waiting) && |workers.sending| < |old(workers.sending)|
    ensures |workers.queue| == |old(workers.queue)| + 1
  {
    workers.Send();
  }

  /** The writer takes the next result from the channel. */
  method Deliver(w: Writer, workers: Workers, ghost fetchErrs: seq<Error>, ghost cancelled: bool)
    requires workers.Valid() && workers.queue != [] && w.cuts == Cuts(workers.segs, workers.bodies)
    requires Linked(w, workers, fetchErrs, cancelled)
    modifies w, w.sink, workers
    ensures workers.Valid() && Linked(w, workers, fetchErrs, cancelled)
    ensures workers.waiting == old(workers.waiting) && workers.sending == old(workers.sending)
    ensures |workers.queue| == |old(workers.queue)| - 1
  {
    ghost var before := workers.received;
    var r := workers.Take();
    HandOver(w, r, before, workers, fetchErrs, cancelled);
  }

  /** A worker that sees an error of the writer or a cancelled context returns that instead. */
  method StartWorker(w: Writer, workers: Workers, cancelled: bool, before: seq<Error>)
    returns (fetchErrs: seq<Error>)
    requires workers.Valid() && workers.waiting != {} && |workers.sending| < workers.limit
    requires Linked(w, workers, before, cancelled)
    modifies workers
    ensures workers.Valid() && |workers.waiting| < |old(workers.waiting)| && workers.queue == old(workers.queue)
    ensures Linked(w, workers, fetchErrs, cancelled)
  {
    fetchErrs := before;
    workers.Start(w.err.Some? || cancelled);
    if w.err.Some? || cancelled {
      fetchErrs := fetchErrs + [if w.err.Some? then w.err.value else Cancelled];
    }
  }

  /** The steps of the workers and the writer, in any order, until nothing is left. A worker
      starts when fewer than limit are at work, unless it sees an error of the writer or a cancelled
      context; it sends when the channel has room. Some step is always possible until then. */
  method Schedule(w: Writer, workers: Workers, mayCancel: bool) returns (fetchErrs: seq<Error>)
    requires workers.limit > 0 && workers.queue == []
    requires workers.Valid() && w.cuts == Cuts(workers.segs, workers.bodies)
    requires Linked(w, workers, [], false)
    modifies w, w.sink, workers
    ensures workers.Valid() && workers.waiting == {} && workers.sending == {} && workers.queue == []
    ensures Linked(w, workers, fetchErrs, mayCancel)
  {
    fetchErrs := [];
    var cancelled := false;
    while workers.waiting != {} || workers.sending != {} || workers.queue != []
      invariant workers.Valid() && Linked(w, workers, fetchErrs, cancelled) && (cancelled ==> mayCancel)
      invariant workers.capacity == 0 ==> workers.queue == []
      decreases |workers.waiting|, |workers.sending|, |workers.queue|
    {
      if {
        case workers.waiting != {} && |workers.sending| < workers.limit =>
          var cancels: bool := *;
          cancelled := cancelled || (mayCancel && cancels);
          fetchErrs := StartWorker(w, workers, cancelled, fetchErrs);
        case workers.sending != {} && |workers.queue| < workers.capacity =>
          HandIn(w, workers, fetchErrs, cancelled);
        case workers.sending != {} && workers.capacity == 0 =>
          HandIn(w, workers, fetchErrs, cancelled);
          Deliver(w, workers, fetchErrs, cancelled);
        case workers.queue != [] =>
          Deliver(w, workers, fetchErrs, cancelled);
      }
    }
  }

  // ----- what is written, in terms of the bodies -----

  /** The stretch of a body that belongs to the file: from the start of the segment, or from the front,
      and of at most its size. */
  function Wanted(seg: Segment, body: Bytes): Bytes {
    var from := if seg.start <= 0 then 0 else if seg.start <= |body| then seg.start else |body|;
    if |body| - from <= seg.bytes then body[from..] else body[from..from + seg.bytes]
  }

  lemma WantedMeans(seg: Segment, body: Bytes)
    requires seg.start <= |body|
    ensures var from, w := if seg.start > 0 then seg.start else 0, Wanted(seg, body);
      && |w| == (if |body| - from < seg.bytes then |body| - from else seg.bytes)
      && forall x: nat :: x < |w| ==> w[x] == body[from + x]
  {
  }

  /** The segment was fetched, and its start does not lie behind its data. */
  predicate IsGood(seg: Segment, body: Body) {
    body.Some? && (seg.start <= 0 || seg.start < |body.value|)
  }

  /** The data between the i-th place and the next one is that of segment i. */
  ghost predicate LiesAt(at: seq<nat>, segs: seq<Segment>, bodies: seq<Body>, data: Bytes, i: nat)
    requires |segs| == |bodies| && i + 1 < |at| <= |segs| + 1
  {
    && IsGood(segs[i], bodies[i]) && at[i] <= at[i + 1] <= |data|
    && data[at[i]..at[i + 1]] == Wanted(segs[i], bodies[i].value)
  }

  /** at says where the data of the first segments lies, one after the other; behind them there may be
      the beginning of one more, when a write has failed. */
  ghost predicate AccountsFor(at: seq<nat>, segs: seq<Segment>, bodies: seq<Body>, data: Bytes, failed: bool)
    requires |segs| == |bodies|
  {
    && 0 < |at| <= |segs| + 1 && at[0] == 0 && at[|at| - 1] <= |data|
    && (forall i: nat :: i + 1 < |at| ==> LiesAt(at, segs, bodies, data, i))
    && (at[|at| - 1] == |data|
        || (failed && |at| <= |segs| && IsGood(segs[|at| - 1], bodies[|at| - 1])
            && data[at[|at| - 1]..] <= Wanted(segs[|at| - 1], bodies[|at| - 1].value)))
  }

  /** Byte by byte: what lies at the place of a segment comes from its body. */
  lemma AccountMeans(at: seq<nat>, segs: seq<Segment>, bodies: seq<Body>, data: Bytes, failed: bool, i: nat, x: nat)
    requires |segs| == |bodies| && AccountsFor(at, segs, bodies, data, failed) && i + 1 < |at|
    ensures at[0] == 0 && at[|at| - 1] <= |data| && (!failed ==> at[|at| - 1] == |data|)
    ensures i < |segs| && bodies[i].Some? && (segs[i].start <= 0 || segs[i].start < |bodies[i].value|)
    ensures at[i] <= at[i + 1] <= |data|
    ensures var from, body := if segs[i].start > 0 then segs[i].start else 0, bodies[i].value;
      && at[i + 1] - at[i] == (if |body| - from < segs[i].bytes then |body| - from else segs[i].bytes)
      && (x < at[i + 1] - at[i] ==> data[at[i] + x] == body[from + x])
  {
    assert LiesAt(at, segs, bodies, data, i);
    WantedMeans(segs[i], bodies[i].value);
    PartAt(data, at[i], at[i + 1], x);
  }

  lemma PartAt(data: Bytes, a: nat, b: nat, x: nat)
    requires a <= b <= |data|
    ensures |data[a..b]| == b - a && (x < b - a ==> data[a..b][x] == data[a + x])
  {
  }

  /** Nothing of a segment that could not be fetched, or whose start lies behind its data, is written,
      nor of any later one. */
  lemma NothingFrom(at: seq<nat>, segs: seq<Segment>, bodies: seq<Body>, data: Bytes, failed: bool, i: nat)
    requires |segs| == |bodies| && AccountsFor(at, segs, bodies, data, failed) && i < |segs|
    requires bodies[i].None? || (0 < segs[i].start && |bodies[i].value| <= segs[i].start)
    ensures |at| <= i + 1 && (|at| == i + 1 ==> at[i] == |data|)
  {
    GoodBefore(at, segs, bodies, data, failed, i);
  }

  lemma GoodBefore(at: seq<nat>, segs: seq<Segment>, bodies: seq<Body>, data: Bytes, failed: bool, i: nat)
    requires |segs| == |bodies| && AccountsFor(at, segs, bodies, data, failed)
    ensures i + 1 < |at| ==> i < |segs| && IsGood(segs[i], bodies[i])
  {
    if i + 1 < |at| {
      assert LiesAt(at, segs, bodies, data, i);
    }
  }

  lemma CutMeans(segs: seq<Segment>, bodies: seq<Body>, i: nat)
    requires i < |segs| == |bodies|
    ensures var c := Cuts(segs, bodies)[i];
      && (c.Data? <==> IsGood(segs[i], bodies[i]))
      && (c.Data? ==> c.data == Wanted(segs[i], bodies[i].value))
      && (c.Failed? ==> c.error == if bodies[i].None? then FetchFailed(i) else OffsetExceedsData(i))
  {
  }

  lemma {:induction false} LaidOut(segs: seq<Segment>, bodies: seq<Body>, m: nat) returns (at: seq<nat>)
    requires |segs| == |bodies| && m <= |segs|
    requires forall i :: 0 <= i < m ==> Cuts(segs, bodies)[i].Data?
    ensures |at| == m + 1 && AccountsFor(at, segs, bodies, Joined(Cuts(segs, bodies), m), false)
  {
    at := [0];
    if m > 0 {
      var cuts := Cuts(segs, bodies);
      CutMeans(segs, bodies, m - 1);
      var before := LaidOut(segs, bodies, m - 1);
      at := before + [|Joined(cuts, m)|];
      OneMore(segs, bodies, before, Joined(cuts, m - 1), cuts[m - 1].data);
    }
  }

  lemma OneMore(segs: seq<Segment>, bodies: seq<Body>, at: seq<nat>, data: Bytes, more: Bytes)
    requires |segs| == |bodies| && AccountsFor(at, segs, bodies, data, false) && |at| <= |segs|
    requires IsGood(segs[|at| - 1], bodies[|at| - 1]) && more == Wanted(segs[|at| - 1], bodies[|at| - 1].value)
    ensures AccountsFor(at + [|data + more|], segs, bodies, data + more, false)
  {
    var at', all := at + [|data + more|], data + more;
    assert all[|data|..] == more;
    forall i: nat | i + 1 < |at'|
      ensures LiesAt(at', segs, bodies, all, i)
    {
      if i + 1 < |at| {
        StillLiesAt(at, at', segs, bodies, data, all, i);
      }
    }
  }

  lemma StillLiesAt(at: seq<nat>, at': seq<nat>, segs: seq<Segment>, bodies: seq<Body>, data: Bytes, data': Bytes,
                    i: nat)
    requires |segs| == |bodies| && i + 1 < |at| <= |at'| <= |segs| + 1 && at <= at' && data <= data'
    requires LiesAt(at, segs, bodies, data, i)
    ensures LiesAt(at', segs, bodies, data', i)
  {
    assert at'[i] == at[i] && at'[i + 1] == at[i + 1];
    assert data'[at[i]..at[i + 1]] == data[at[i]..at[i + 1]];
  }

  lemma Extended(at: seq<nat>, segs: seq<Segment>, bodies: seq<Body>, whole: Bytes, data: Bytes)
    requires |segs| == |bodies| && AccountsFor(at, segs, bodies, whole, false) && whole <= data && |at| <= |segs|
    requires IsGood(segs[|at| - 1], bodies[|at| - 1])
    requires data[|whole|..] <= Wanted(segs[|at| - 1], bodies[|at| - 1].value)
    ensures AccountsFor(at, segs, bodies, data, true)
  {
    assert at[|at| - 1] == |whole|;
    forall i: nat | i + 1 < |at|
      ensures LiesAt(at, segs, bodies, data, i)
    {
      StillLiesAt(at, at, segs, bodies, whole, data, i);
    }
  }

  /** What the writer has written, when all is done. */
  lemma Written(w: Writer, segs: seq<Segment>, bodies: seq<Body>) returns (at: seq<nat>)
    requires |segs| == |bodies| && w.Settled() && w.cuts == Cuts(segs, bodies)
    ensures |at| == w.next + 1 && AccountsFor(at, segs, bodies, w.sink.written, w.sink.failed)
  {
    at := LaidOut(segs, bodies, w.next);
    if w.broken {
      CutMeans(segs, bodies, w.next);
      var whole, data := Joined(w.cuts, w.next), w.sink.written;
      assert Joined(w.cuts, w.next + 1) == whole + w.cuts[w.next].data;
      assert data == whole + data[|whole|..];
      Extended(at, segs, bodies, whole, data);
    }
  }

  lemma ErrorMeans(segs: seq<Segment>, bodies: seq<Body>, err: Error)
    requires |segs| == |bodies| && ErrorIsReal(Some(err), Cuts(segs, bodies)) && !err.WriteFailed?
    ensures err.FetchFailed? || err.OffsetExceedsData?
    ensures err.index < |segs|
    ensures if err.FetchFailed? then bodies[err.index].None?
            else bodies[err.index].Some? && 0 < segs[err.index].start
                 && |bodies[err.index].value| <= segs[err.index].start
  {
    var i: nat :| i < |segs| && Cuts(segs, bodies)[i] == Failed(err);
    CutMeans(segs, bodies, i);
  }

  lemma AllGood(segs: seq<Segment>, bodies: seq<Body>)
    requires |segs| == |bodies|
    ensures (forall i :: 0 <= i < |segs| ==> Cuts(segs, bodies)[i].Data?)
      <==> (forall i :: 0 <= i < |segs| ==> IsGood(segs[i], bodies[i]))
  {
    forall i: nat | i < |segs| ensures Cuts(segs, bodies)[i].Data? <==> IsGood(segs[i], bodies[i]) {
      CutMeans(segs, bodies, i);
    }
  }

  /** Whatever the order of the steps, the download ends. What is written is the wanted stretches of the
      bodies one after the other: of all of them on success, and otherwise of those before the first
      segment that has failed, the last one perhaps in part when a write has failed. */
  method Download(segs: seq<Segment>, bodies: seq<Body>, maxConnections: nat, mayCancel: bool, sink: Sink)
    returns (err: Option<Error>)
    requires |segs| == |bodies| && sink.written == [] && !sink.failed
    modifies sink
    ensures exists at: seq<nat> ::
      && AccountsFor(at, segs, bodies, sink.written, sink.failed)
      && (err == None ==> |at| == |segs| + 1)
      && (err.Some? && err.value.WriteFailed? ==> sink.failed && err.value.index == |at| - 1)
    ensures sink.failed ==> err.Some?
    ensures err == None ==> segs != [] && forall i :: 0 <= i < |segs| ==>
      bodies[i].Some? && (segs[i].start <= 0 || segs[i].start < |bodies[i].value|)
    ensures !mayCancel && !sink.failed && segs != [] && err.Some? ==>
      exists i :: 0 <= i < |segs| && (bodies[i].None? || (0 < segs[i].start && |bodies[i].value| <= segs[i].start))
    ensures err.Some? ==> match err.value
      case FetchFailed(i) => i < |segs| && bodies[i].None?
      case OffsetExceedsData(i) =>
        i < |segs| && bodies[i].Some? && 0 < segs[i].start && |bodies[i].value| <= segs[i].start
      case Stopped(errors) => mayCancel && errors != [] && forall e :: e in errors ==> e == Cancelled
      case WriteFailed(_) => sink.failed
      case NoSegments => segs == []
      case Cancelled => false
  {
    if segs == [] {
      assert AccountsFor([0], segs, bodies, sink.written, sink.failed);
      return Some(NoSegments);
    }
    var w := new Writer(Cuts(segs, bodies), sink);
    var workers := new Workers(segs, bodies, maxConnections);
    var fetchErrs := Schedule(w, workers, mayCancel);
    ghost var at := Written(w, segs, bodies);
    if w.err.Some? {
      if !w.err.value.WriteFailed? {
        ErrorMeans(segs, bodies, w.err.value);
      }
      return w.err;
    }
    if fetchErrs != [] {
      assert fetchErrs[0] in fetchErrs;
      return Some(Stopped(fetchErrs));
    }
    workers.NothingLeft();
    w.AllWritten();
    AllGood(segs, bodies);
    return None;
  }
}
