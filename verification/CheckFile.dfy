/** From a file's segments to its availability: the sample that is checked, the chunks it is
    cut into, the results put back in place whatever order the chunks finish in, and the
    decision drawn from the totals. */
module CheckFile {
  import opened Wrappers
  import opened Nntp
  import opened BatchStat
  import opened Counting
  import RepairBank

  // ----- the sample -----

  /** Go's division truncates toward zero. */
  function TruncDiv(a: int, b: int): int
    requires b > 0
  {
    if a >= 0 then a / b else -((-a) / b)
  }

  function TargetCount(total: nat, percent: int): (t: nat)
    requires total >= 2
    ensures 2 <= t <= total
  {
    var t := TruncDiv(total * percent, 100);
    var t := if t < 2 then 2 else t;
    if t > total then total else t
  }

  /** Positions of the sampled segments. */
  function SampleIndices(total: nat, percent: int): (idx: seq<nat>)
    ensures forall k :: 0 <= k < |idx| ==> idx[k] < total
  {
    if percent >= 100 || total <= 3 then seq(total, k => k)
    else
      var mid := TargetCount(total, percent) - 2;
      [0] + seq(mid, k requires 0 <= k < mid => MiddleIndex(total, mid, k)) + [total - 1]
  }

  function Sampled(ids: seq<string>, percent: int): (s: seq<string>)
    ensures |s| == |SampleIndices(|ids|, percent)|
  {
    var idx := SampleIndices(|ids|, percent);
    seq(|idx|, k requires 0 <= k < |idx| => ids[idx[k]])
  }

  /** Segment number of the k-th of mid samples strictly between the ends: one past the whole
      part of (total - 2) * (k + 1) / (mid + 1). */
  function MiddleIndex(total: nat, mid: nat, k: nat): (i: nat)
    requires total > 3 && k < mid
    ensures 1 <= i < total - 1
  {
    Spread(total - 2, mid, k);
    1 + (total - 2) * (k + 1) / (mid + 1)
  }

  lemma Spread(m: nat, mid: nat, k: nat)
    requires k < mid && m > 0
    ensures 0 <= m * (k + 1) / (mid + 1) < m
  {
    assert m * (k + 1) < m * (mid + 1);
    DivBelow(m * (k + 1), mid + 1, m);
  }

  lemma MulMono(a: int, b: int, d: nat)
    ensures a <= b ==> a * d <= b * d
  {
  }

  lemma DivBelow(a: nat, d: nat, m: nat)
    requires d > 0 && a < m * d
    ensures a / d < m
  {
    MulMono(m, a / d, d);
  }

  lemma DivMono(a: nat, b: nat, d: nat)
    requires d > 0 && a <= b
    ensures a / d <= b / d
  {
    MulMono(b / d + 1, a / d, d);
  }

  lemma Steps(m: nat, mid: nat, j: nat, k: nat)
    requires j < k && mid + 1 <= m
    ensures m * (j + 1) / (mid + 1) < m * (k + 1) / (mid + 1)
  {
    var d := mid + 1;
    MulMono(j + 2, k + 1, m);
    assert m * (j + 1) + d <= m * (j + 2);
    DivMono(m * (j + 1) + d, m * (k + 1), d);
    DivPlusOne(m * (j + 1), d);
  }

  lemma DivPlusOne(a: nat, d: nat)
    requires d > 0
    ensures (a + d) / d == a / d + 1
  {
    var q, r := a / d, a % d;
    assert a + d == (q + 1) * d + r;
    DivBelow(a + d, d, q + 2);
    MulMono((a + d) / d + 1, q + 1, d);
  }

  /** For 1 to 99 percent of more than three segments the sample has max(2, n * p / 100)
      members, at strictly increasing positions from the first segment to the last. */
  lemma SampleSpreads(total: nat, percent: int)
    requires total > 3 && 1 <= percent <= 99
    ensures var idx := SampleIndices(total, percent);
      && |idx| == (if total * percent / 100 < 2 then 2 else total * percent / 100)
      && idx[0] == 0 && idx[|idx| - 1] == total - 1
      && forall j, k :: 0 <= j < k < |idx| ==> idx[j] < idx[k]
  {
    var idx, mid := SampleIndices(total, percent), TargetCount(total, percent) - 2;
    assert total * percent / 100 < total by {
      DivBelow(total * percent, 100, total);
    }
    assert mid + 1 <= total - 2;
    forall j, k | 0 <= j < k < |idx| ensures idx[j] < idx[k] {
      if 1 <= j && k <= mid {
        Steps(total - 2, mid, j - 1, k - 1);
        assert idx[j] == MiddleIndex(total, mid, j - 1) && idx[k] == MiddleIndex(total, mid, k - 1);
      }
    }
  }

  lemma SizeInWords(total: nat, percent: int)
    ensures total > 3 && percent < 100 ==>
      TargetCount(total, percent) == if total * percent < 300 then 2 else total * percent / 100
  {
    if total > 3 && percent < 100 {
      if percent > 0 {
        DivBelow(total * percent, 100, total);
      } else {
        assert total * percent <= 0;
      }
    }
  }

  /** The sample of a short file and of a full check is the whole. */
  lemma SampledWhole(ids: seq<string>, percent: int)
    requires percent >= 100 || |ids| <= 3
    ensures Sampled(ids, percent) == ids
  {
  }

  /** Any other has the requested share of the segments, and at least two. */
  lemma SampledSize(ids: seq<string>, percent: int)
    requires |ids| > 3 && percent < 100
    ensures |Sampled(ids, percent)| == if |ids| * percent < 300 then 2 else |ids| * percent / 100
  {
    SizeInWords(|ids|, percent);
  }

  /** Those between the ends are evenly spread. */
  lemma SampledSpread(ids: seq<string>, percent: int, k: nat)
    requires |ids| > 3 && percent < 100 && 0 < k < |Sampled(ids, percent)| - 1
    ensures var s := Sampled(ids, percent);
      var at := 1 + (|ids| - 2) * k / (|s| - 1); 0 < at < |ids| && s[k] == ids[at]
  {
    var mid := TargetCount(|ids|, percent) - 2;
    assert SampleIndices(|ids|, percent)[k] == MiddleIndex(|ids|, mid, k - 1);
  }

  /** sampleSegments, with exact rationals in place of floating point: the whole of a short file and of a
      full check, and else a part of it that begins with the first segment and ends with the last. */
  method SampleSegments(ids: seq<string>, percent: int) returns (sampled: seq<string>)
    ensures percent >= 100 || |ids| <= 3 ==> sampled == ids
    ensures ids != [] ==> sampled != [] && sampled[0] == ids[0] && sampled[|sampled| - 1] == ids[|ids| - 1]
    ensures |sampled| == |SampleIndices(|ids|, percent)|
    ensures forall k :: 0 <= k < |sampled| ==> sampled[k] == ids[SampleIndices(|ids|, percent)[k]]
  {
    var total := |ids|;
    if total == 0 {
      return [];
    }
    if percent >= 100 {
      return ids;
    }
    if total <= 3 {
      return ids;
    }
    var targetCount := TruncDiv(total * percent, 100);
    if targetCount < 2 {
      targetCount := 2;
    }
    if targetCount > total {
      targetCount := total;
    }
    sampled := [ids[0]];
    var middleCount := targetCount - 2;
    if middleCount > 0 {
      var middle := SampleMiddle(ids, middleCount);
      sampled := sampled + middle;
    }
    sampled := sampled + [ids[total - 1]];
  }

  method SampleMiddle(ids: seq<string>, middleCount: nat) returns (sampled: seq<string>)
    requires |ids| > 3 && middleCount > 0
    ensures |sampled| == middleCount
    ensures forall k :: 0 <= k < middleCount ==> sampled[k] == ids[MiddleIndex(|ids|, middleCount, k)]
  {
    var middle := ids[1..|ids| - 1];
    var step := |middle| as real / (middleCount + 1) as real;
    sampled := [];
    for i := 0 to middleCount
      invariant |sampled| == i
      invariant forall k :: 0 <= k < i ==> sampled[k] == ids[MiddleIndex(|ids|, middleCount, k)]
    {
      var idx := MiddlePick(|middle|, middleCount, i, step);
      assert idx + 1 == MiddleIndex(|ids|, middleCount, i) && middle[idx] == ids[idx + 1];
      sampled := sampled + [middle[idx]];
    }
  }

  /** The clamp to the last position never changes the index. */
  method MiddlePick(m: nat, middleCount: nat, i: nat, step: real) returns (idx: nat)
    requires i < middleCount && m > 0 && step == m as real / (middleCount + 1) as real
    ensures idx == m * (i + 1) / (middleCount + 1) < m
  {
    FloorIsDiv(m, middleCount + 1, i + 1);
    Spread(m, middleCount, i);
    idx := (step * (i + 1) as real).Floor;
    if idx >= m {
      idx := m - 1;
    }
  }

  lemma FloorIsDiv(m: nat, d: nat, k: nat)
    requires d > 0
    ensures (m as real / d as real * k as real).Floor == m * k / d
  {
    var q := m * k / d;
    assert q * d <= m * k < (q + 1) * d;
    var x := m as real / d as real * k as real;
    Quotient(m as real, d as real, k as real);
    RealCancel(q as real, x, d as real);
    RealCancel(x, (q + 1) as real, d as real);
  }

  lemma Quotient(m: real, d: real, k: real)
    requires d > 0.0
    ensures m / d * k * d == m * k
  {
    var y := m / d;
    assert y * d == m;
    assert y * k * d == y * d * k;
  }

  lemma RealCancel(a: real, b: real, d: real)
    requires d > 0.0
    ensures a * d <= b * d ==> a <= b
    ensures a * d < b * d ==> a < b
  {
  }

  // ----- chunks -----

  const CHUNK := 50

  function ChunkCount(n: nat): nat { (n + CHUNK - 1) / CHUNK }

  function ChunkEnd(n: nat, c: nat): nat {
    if c * CHUNK + CHUNK < n then c * CHUNK + CHUNK else n
  }

  function ChunkIds(ids: seq<string>, c: nat): (r: seq<string>)
    requires c < ChunkCount(|ids|)
    ensures |r| == ChunkEnd(|ids|, c) - c * CHUNK
  {
    ids[c * CHUNK..ChunkEnd(|ids|, c)]
  }

  /** Every message belongs to one chunk. */
  lemma ChunkOf(n: nat, i: nat)
    requires i < n
    ensures i / CHUNK < ChunkCount(n) && i / CHUNK * CHUNK <= i < ChunkEnd(n, i / CHUNK)
    ensures forall c: nat :: c * CHUNK <= i < ChunkEnd(n, c) ==> c == i / CHUNK
  {
  }

  /** What one chunk came to: its results, or the error of its worker or of the context. */
  datatype ChunkResult = ChunkResult(results: seq<StatResult>, connErr: Option<Error>)

  ghost predicate Answered(v: StatResult, id: string) {
    v.id == id && (v.available <==> v.error.None?)
  }

  /** The result of message i according to its own chunk. */
  function ResultOf(ids: seq<string>, chunk: nat -> ChunkResult, i: nat): StatResult
    requires i < |ids|
  {
    var cr := chunk(i / CHUNK);
    if cr.connErr.Some? then StatResult(ids[i], false, cr.connErr)
    else if i % CHUNK < |cr.results| then cr.results[i % CHUNK]
    else StatResult(ids[i], false, None)
  }

  predicate Available(v: StatResult) { v.available }

  predicate NotFound(v: StatResult) { !v.available && v.error == Some(Nntp(ArticleNotFound)) }

  predicate Errored(v: StatResult) { !v.available && v.error.Some? && v.error != Some(Nntp(ArticleNotFound)) }

  datatype BatchResult = BatchResult(results: seq<StatResult>, total: nat, found: nat, errors: nat)

  /** The receiving side of BatchStat: order lists the chunks in the order they finish. */
  method Collect(ids: seq<string>, chunk: nat -> ChunkResult, order: seq<nat>) returns (r: BatchResult)
    requires forall c: nat :: c in order <==> c < ChunkCount(|ids|)
    requires forall c: nat :: c < ChunkCount(|ids|) && chunk(c).connErr.None? ==> |chunk(c).results| <= CHUNK
    ensures r.total == |ids| == |r.results|
    ensures forall i :: 0 <= i < |ids| ==> r.results[i] == ResultOf(ids, chunk, i)
    ensures r.found == Count(r.results, Available) && r.errors == Count(r.results, Errored)
  {
    var all := seq(|ids|, i requires 0 <= i < |ids| => StatResult(ids[i], false, None));
    for k := 0 to |order|
      invariant |all| == |ids|
      invariant forall i :: 0 <= i < |ids| ==>
        all[i] == if i / CHUNK in order[..k] then ResultOf(ids, chunk, i) else StatResult(ids[i], false, None)
    {
      var c := order[k];
      assert c in order && order[..k + 1] == order[..k] + [c];
      all := Place(ids, all, chunk, c);
    }
    assert order[..|order|] == order;
    forall i | 0 <= i < |ids| ensures all[i] == ResultOf(ids, chunk, i) {
      ChunkOf(|ids|, i);
    }
    var found, errors := Tally(all);
    r := BatchResult(all, |ids|, found, errors);
  }

  /** The chunk numbers that a call on n messages queues for its workers. */
  function QueuedChunks(n: nat): seq<nat> { seq(ChunkCount(n), c requires 0 <= c < ChunkCount(n) => c) }

  /** Whatever the interleaving with other calls and the failures of acquire: once the workers of a
      call have exited, their results are an order in which all chunks of the call finish, each
      once. This is what Collect needs to put every result in its place. */
  lemma RunGivesOrder(s0: RepairBank.State, run: seq<(nat, RepairBank.Op)>, chunks: seq<seq<nat>>, call: nat, n: nat)
    requires RepairBank.Initial(s0, chunks) && RepairBank.Run(s0, run).Some? && call < |chunks|
    requires RepairBank.HasExited(RepairBank.Run(s0, run).value, call)
    requires chunks[call] == QueuedChunks(n)
    ensures var done := RepairBank.Run(s0, run).value.done;
      && call < |done| && |done[call]| == ChunkCount(n)
      && forall c: nat :: c in done[call] <==> c < ChunkCount(n)
  {
    RepairBank.EveryChunkDeliveredOnce(s0, run, chunks, call);
    var order := RepairBank.Run(s0, run).value.done[call];
    assert multiset(order) == multiset(QueuedChunks(n));
    assert |multiset(order)| == |order|;
    forall c: nat ensures c in order <==> c < ChunkCount(n) {
      assert c < ChunkCount(n) ==> QueuedChunks(n)[c] == c;
      assert c in order <==> c in multiset(order);
    }
  }

  /** Entry i after the results of chunk c have been put in place. */
  function PlacedAt(v: StatResult, cr: ChunkResult, c: nat, i: nat): StatResult {
    if i / CHUNK != c then v
    else if cr.connErr.Some? then v.(available := false, error := cr.connErr)
    else if i % CHUNK < |cr.results| then cr.results[i % CHUNK]
    else v
  }

  method Place(ids: seq<string>, before: seq<StatResult>, chunk: nat -> ChunkResult, c: nat)
    returns (all: seq<StatResult>)
    requires |before| == |ids| && c < ChunkCount(|ids|) && (chunk(c).connErr.None? ==> |chunk(c).results| <= CHUNK)
    ensures |all| == |ids|
    ensures forall i :: 0 <= i < |ids| ==> all[i] == PlacedAt(before[i], chunk(c), c, i)
  {
    all := before;
    var cr, start := chunk(c), c * CHUNK;
    if cr.connErr.Some? {
      var end := start + CHUNK;
      if end > |ids| {
        end := |ids|;
      }
      for i := start to end
        invariant |all| == |ids|
        invariant forall j :: 0 <= j < |ids| ==>
          all[j] == if start <= j < i then before[j].(available := false, error := cr.connErr) else before[j]
      {
        all := all[i := all[i].(available := false, error := cr.connErr)];
      }
      return;
    }
    for i := 0 to |cr.results|
      invariant |all| == |ids|
      invariant forall j :: 0 <= j < |ids| ==>
          all[j] == if start <= j < start + i then cr.results[j - start] else before[j]
    {
      if start + i < |all| {
        all := all[start + i := cr.results[i]];
      }
    }
  }

  /** The counting loop. */
  method Tally(all: seq<StatResult>) returns (found: nat, errors: nat)
    ensures found == Count(all, Available) && errors == Count(all, Errored)
  {
    found, errors := 0, 0;
    for i := 0 to |all|
      invariant found == Count(all[..i], Available) && errors == Count(all[..i], Errored)
    {
      assert all[..i + 1] == all[..i] + [all[i]];
      CountAppend(all[..i], [all[i]], Available);
      CountAppend(all[..i], [all[i]], Errored);
      if all[i].available {
        found := found + 1;
        continue;
      }
      if all[i].error.None? {
        continue;
      }
      if all[i].error.value == Nntp(ArticleNotFound) {
        continue;
      }
      errors := errors + 1;
    }
    assert all[..|all|] == all;
  }

  // ----- the decision -----

  ghost predicate AllAnswered(all: seq<StatResult>) {
    forall i :: 0 <= i < |all| ==> (all[i].available <==> all[i].error.None?)
  }

  /** Found, not found and errors make up the total. */
  lemma {:induction false} TotalsAddUp(all: seq<StatResult>)
    requires AllAnswered(all)
    ensures |all| == Count(all, Available) + Count(all, NotFound) + Count(all, Errored)
  {
    if all != [] {
      assert all[0].available <==> all[0].error.None?;
      TotalsAddUp(all[1..]);
    }
  }

  /** Missing is reported exactly when some sampled segment's verdict is not-found. */
  method Decide(r: Option<BatchResult>) returns (missing: bool)
    requires r.Some? ==> var b := r.value;
      b.total == |b.results| && b.found == Count(b.results, Available) && b.errors == Count(b.results, Errored)
      && AllAnswered(b.results)
    ensures r.None? ==> !missing
    ensures r.Some? ==> (missing <==> exists i :: 0 <= i < |r.value.results| && NotFound(r.value.results[i]))
  {
    if r.None? {
      return false;
    }
    var b := r.value;
    TotalsAddUp(b.results);
    CountZero(b.results, NotFound);
    assert (exists v :: v in b.results && NotFound(v)) <==>
        (exists i :: 0 <= i < |b.results| && NotFound(b.results[i]));
    if b.found != b.total {
      var notFound := b.total - b.found - b.errors;
      if b.errors > 0 && notFound == 0 {
        return false;
      }
      return true;
    }
    missing := false;
  }

  // ----- the whole check -----

  /** Whether the workers dropped a chunk, whether its context ended meanwhile, and what the
      providers reply to it. */
  datatype Fate = Fate(dropped: bool, ctxDone: nat -> bool, net: Net)

  ghost predicate Lost(ids: seq<string>, ps: seq<Provider>, f: Fate) {
    f.dropped || exists k: nat :: Interrupted(ids, ps, f.net, f.ctxDone, k)
  }

  /** The verdict on sampled message i. */
  ghost function VerdictOn(ids: seq<string>, ps: seq<Provider>, fate: nat -> Fate, i: nat): StatResult
    requires i < |ids|
  {
    ChunkOf(|ids|, i);
    var c := i / CHUNK;
    var chunkIds := ChunkIds(ids, c);
    if Lost(chunkIds, ps, fate(c)) then StatResult(ids[i], false, Some(Plain))
    else After(chunkIds, ps, fate(c).net, |ps|).states[i % CHUNK].Verdict(ids[i])
  }

  /** The chunk result that fate f produces. */
  ghost predicate ComesTo(ids: seq<string>, ps: seq<Provider>, f: Fate, r: ChunkResult) {
    if Lost(ids, ps, f) then r.connErr == Some(Plain)
    else r == ChunkResult(Verdicts(After(ids, ps, f.net, |ps|), ids), None)
  }

  method RunChunk(ids: seq<string>, ps: seq<Provider>, f: Fate) returns (r: ChunkResult)
    requires GoodNet(f.net)
    ensures ComesTo(ids, ps, f, r)
  {
    if f.dropped {
      return ChunkResult([], Some(Plain));
    }
    var results, err := BatchStatAcrossProviders(ids, ps, f.net, f.ctxDone);
    r := ChunkResult(results, err);
  }

  lemma ResultIsVerdict(ids: seq<string>, ps: seq<Provider>, fate: nat -> Fate, chunk: nat -> ChunkResult, i: nat)
    requires i < |ids| && GoodNet(fate(i / CHUNK).net)
    requires i / CHUNK < ChunkCount(|ids|) && ComesTo(ChunkIds(ids, i / CHUNK), ps, fate(i / CHUNK), chunk(i / CHUNK))
    ensures ResultOf(ids, chunk, i) == VerdictOn(ids, ps, fate, i)
    ensures Answered(VerdictOn(ids, ps, fate, i), ids[i])
  {
    ChunkOf(|ids|, i);
    var c := i / CHUNK;
    if !Lost(ChunkIds(ids, c), ps, fate(c)) {
      assert ChunkIds(ids, c)[i % CHUNK] == ids[i];
      EveryMessageAnswered(ChunkIds(ids, c), ps, fate(c).net, i % CHUNK);
    }
  }

  /** checkFileAvailability on a sample: for every assignment of fates to chunks and every order
      in which they finish, a missing segment is reported exactly when the verdict on some
      sampled message is not-found. */
  method CheckSample(ids: seq<string>, ps: seq<Provider>, fate: nat -> Fate, order: seq<nat>)
    returns (missing: bool, r: BatchResult)
    requires forall c: nat :: c in order <==> c < ChunkCount(|ids|)
    requires forall c: nat :: GoodNet(fate(c).net)
    ensures r.total == |ids| == |r.results|
    ensures forall i: nat :: i < |ids| ==> r.results[i] == VerdictOn(ids, ps, fate, i) && Answered(r.results[i], ids[i])
    ensures r.total == r.found + Count(r.results, NotFound) + r.errors
    ensures missing <==>
      exists i: nat :: i < |ids| && VerdictOn(ids, ps, fate, i).error == Some(Nntp(ArticleNotFound))
  {
    var chunk := RunAll(ids, ps, fate);
    r := Collect(ids, chunk, order);
    forall i: nat | i < |ids| ensures r.results[i] == VerdictOn(ids, ps, fate, i) && Answered(r.results[i], ids[i]) {
      ChunkOf(|ids|, i);
      ResultIsVerdict(ids, ps, fate, chunk, i);
    }
    TotalsAddUp(r.results);
    missing := Decide(Some(r));
  }

  /** checkFileAvailability: sample, check, decide; when the whole batch check fails the file
      counts as available. */
  method CheckFileAvailability(ids: seq<string>, percent: int, ps: seq<Provider>, fate: nat -> Fate,
                               order: seq<nat>, batchFails: bool)
    returns (missing: bool)
    requires forall c: nat :: c in order <==> c < ChunkCount(|Sampled(ids, percent)|)
    requires forall c: nat :: GoodNet(fate(c).net)
    ensures missing <==> !batchFails && exists k: nat ::
      k < |Sampled(ids, percent)| && VerdictOn(Sampled(ids, percent), ps, fate, k).error == Some(Nntp(ArticleNotFound))
    ensures percent >= 100 || |ids| <= 3 ==>
      (missing <==> !batchFails && exists i: nat ::
         i < |ids| && VerdictOn(ids, ps, fate, i).error == Some(Nntp(ArticleNotFound)))
  {
    var sampled := SampleSegments(ids, percent);
    assert sampled == Sampled(ids, percent);
    if batchFails {
      missing := Decide(None);
      return;
    }
    var r;
    missing, r := CheckSample(sampled, ps, fate, order);
  }

  method RunAll(ids: seq<string>, ps: seq<Provider>, fate: nat -> Fate) returns (chunk: nat -> ChunkResult)
    requires forall c: nat :: GoodNet(fate(c).net)
    ensures forall c: nat :: c < ChunkCount(|ids|) ==> ComesTo(ChunkIds(ids, c), ps, fate(c), chunk(c))
    ensures forall c: nat :: c < ChunkCount(|ids|) && chunk(c).connErr.None? ==> |chunk(c).results| <= CHUNK
  {
    var chunks: seq<ChunkResult> := [];
    for c := 0 to ChunkCount(|ids|)
      invariant |chunks| == c
      invariant forall k: nat :: k < c ==> ComesTo(ChunkIds(ids, k), ps, fate(k), chunks[k])
    {
      var cr := RunChunk(ChunkIds(ids, c), ps, fate(c));
      chunks := chunks + [cr];
    }
    var all := chunks;
    chunk := (c: nat) => if c < |all| then all[c] else ChunkResult([], Some(Plain));
  }
}
