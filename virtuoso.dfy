/** The triple-store client: `storeDataToGraph` (one push, retried a bounded number of
    times) and `storeDataToGraphInBatches` (a graph split into batches pushed in order).
    The network is an oracle: `attempt(i)` is what the i-th POST of a push yields, and
    `push(k)` is the attempt oracle of the push of batch k (counting from 0). What a push
    sends (the Turtle serialisation of the batch) is recorded as the batch itself. */
module Virtuoso {
  import opened Common
  import opened Rdf

  /** `retry`: the number of POST attempts one push makes at most. */
  const Retry: nat := 5

  /** What one POST yields: a response with an HTTP status code, or an exception (a timeout
      or any other error), after which the loop tries again. */
  datatype Attempt = Response(statusCode: int) | TimedOut | Failed

  const NoGraphMessage := "No graph specified for virtuoso storage"
  /** The text of the ZeroDivisionError that `// batch_size` raises when `batch_size` is 0. */
  const ZeroDivisionMessage := "integer division or modulo by zero"

  // ---------------------------------------------------------------------------
  // One push with retries

  /** The first attempt at or after `from` that yields a response, or `Retry` if none does. */
  function FirstResponseFrom(attempt: nat -> Attempt, from: nat): (k: nat)
    requires from <= Retry
    ensures from <= k <= Retry
    ensures k < Retry ==> attempt(k).Response?
    ensures forall j :: from <= j < k ==> !attempt(j).Response?
    decreases Retry - from
  {
    if from == Retry then Retry
    else if attempt(from).Response? then from
    else FirstResponseFrom(attempt, from + 1)
  }

  function FirstResponse(attempt: nat -> Attempt): nat
  {
    FirstResponseFrom(attempt, 0)
  }

  /** The number of POSTs a push makes: up to and including the first one answered. */
  function PostsMade(attempt: nat -> Attempt): nat
  {
    var k := FirstResponse(attempt);
    if k < Retry then k + 1 else Retry
  }

  /** A push succeeds when the first response it receives has status 200 or 201. */
  predicate PushSucceeds(attempt: nat -> Attempt)
  {
    var k := FirstResponse(attempt);
    k < Retry && attempt(k).statusCode in {200, 201}
  }

  /** `storeDataToGraph`: an empty graph name raises; otherwise POST up to `Retry` times,
      stop at the first attempt that yields a response, and report whether its status is
      200 or 201 (false when no attempt yields one). `posts` is the number of POSTs made. */
  method StoreDataToGraph(graph: string, attempt: nat -> Attempt) returns (r: Result<bool>, posts: nat)
    ensures graph == "" ==> r == Err(NoGraphMessage) && posts == 0
    ensures graph != "" ==> r == Ok(PushSucceeds(attempt)) && posts == PostsMade(attempt)
  {
    if graph == "" {
      return Err(NoGraphMessage), 0;
    }
    var response: Option<int> := None;
    posts := 0;
    var i := 0;
    while i < Retry
      invariant i <= Retry
      invariant posts == i && response == None
      invariant forall j :: 0 <= j < i ==> !attempt(j).Response?
    {
      posts := posts + 1;
      var outcome := attempt(i);
      if outcome.Response? {
        response := Some(outcome.statusCode);
        break;
      }
      // a timeout or other exception: sleep, then retry
      i := i + 1;
    }
    if response == None {
      return Ok(false), posts;
    }
    r := Ok(response.value == 200 || response.value == 201);
  }

  /** The push succeeds exactly when some attempt yields 200 or 201 and every earlier one
      yielded no response at all. */
  lemma PushSucceedsIff(attempt: nat -> Attempt)
    ensures PushSucceeds(attempt) <==>
      exists k :: 0 <= k < Retry && attempt(k).Response? && attempt(k).statusCode in {200, 201}
        && forall j :: 0 <= j < k ==> !attempt(j).Response?
  {
    var f := FirstResponse(attempt);
    if PushSucceeds(attempt) {
      assert 0 <= f < Retry && attempt(f).Response? && attempt(f).statusCode in {200, 201};
    }
  }

  /** At most `Retry` POSTs, and at least one. */
  lemma PostsMadeBounds(attempt: nat -> Attempt)
    ensures 1 <= PostsMade(attempt) <= Retry
    ensures PostsMade(attempt) < Retry ==> attempt(PostsMade(attempt) - 1).Response?
  {
  }

  // ---------------------------------------------------------------------------
  // Batches

  /** The batches the iterator loop cuts `ts[pos..]` into: consecutive runs of `b` triples,
      the last one possibly shorter. */
  function ChunksFrom(ts: seq<Triple>, b: nat, pos: nat): seq<seq<Triple>>
    requires b > 0 && pos <= |ts|
    decreases |ts| - pos
  {
    if pos == |ts| then []
    else
      var next := pos + Min(b, |ts| - pos);
      [ts[pos..next]] + ChunksFrom(ts, b, next)
  }

  /** What `storeDataToGraphInBatches` pushes, in order, when every push succeeds: the whole
      graph once if it has at most `b` triples, its chunks otherwise. */
  function Plan(ts: seq<Triple>, b: nat): seq<seq<Triple>>
    requires |ts| <= b || b > 0
  {
    if |ts| <= b then [ts] else ChunksFrom(ts, b, 0)
  }

  function Flatten(bs: seq<seq<Triple>>): seq<Triple>
  {
    if bs == [] then [] else Flatten(bs[..|bs| - 1]) + bs[|bs| - 1]
  }

  /** The number of triples in `bs` altogether. */
  function SizeSum(bs: seq<seq<Triple>>): nat
  {
    if bs == [] then 0 else SizeSum(bs[..|bs| - 1]) + |bs[|bs| - 1]|
  }

  /** One call of the progress callback: `(batch_num, processed_triples, total_triples)`. */
  datatype Report = Report(batch: nat, processed: nat, total: nat)

  /** The callbacks fired for the first `f` batches of `plan`, each after its batch was pushed. */
  function Reports(plan: seq<seq<Triple>>, f: nat, n: nat): (rs: seq<Report>)
    requires f <= |plan|
    ensures |rs| == f
  {
    if f == 0 then [] else Reports(plan, f - 1, n) + [Report(f, SizeSum(plan[..f]), n)]
  }

  /** The first batch at or after `from` (of `count`) whose push fails, or `count`. */
  function FirstFailureFrom(count: nat, push: nat -> nat -> Attempt, from: nat): (f: nat)
    requires from <= count
    ensures from <= f <= count
    ensures f < count ==> !PushSucceeds(push(f))
    ensures forall k :: from <= k < f ==> PushSucceeds(push(k))
    decreases count - from
  {
    if from == count then count
    else if !PushSucceeds(push(from)) then from
    else FirstFailureFrom(count, push, from + 1)
  }

  function FirstFailure(count: nat, push: nat -> nat -> Attempt): nat
  {
    FirstFailureFrom(count, push, 0)
  }

  /** `storeDataToGraphInBatches`: an empty graph name raises before any push. A graph of at
      most `batchSize` triples is pushed whole and the callback `(1, n, n)` fires only if that
      push succeeds. A larger graph is cut into `ceil(n / batchSize)` batches pushed in order;
      after batch k succeeds the callback receives k and the number of triples pushed so far;
      at the first failed push the result is false and nothing further happens. `pushed` is
      every batch handed to a push (the failed one included) and `reports` every callback. */
  method StoreDataToGraphInBatches(graph: string, triples: seq<Triple>, batchSize: nat, push: nat -> nat -> Attempt)
    returns (r: Result<bool>, pushed: seq<seq<Triple>>, reports: seq<Report>)
    ensures graph == "" ==> r == Err(NoGraphMessage) && pushed == [] && reports == []
    ensures graph != "" && batchSize == 0 && |triples| > 0 ==>
      r == Err(ZeroDivisionMessage) && pushed == [] && reports == []
    ensures graph != "" && (batchSize > 0 || |triples| == 0) ==>
      var plan := Plan(triples, batchSize);
      var f := FirstFailure(|plan|, push);
      && r == Ok(f == |plan|)
      && pushed == plan[..Min(f + 1, |plan|)]
      && reports == Reports(plan, f, |triples|)
  {
    if graph == "" {
      return Err(NoGraphMessage), [], [];
    }
    var total := |triples|;
    if total <= batchSize {
      // small enough to upload in one go
      var res, _ := StoreDataToGraph(graph, push(0));
      pushed := [triples];
      reports := if res.value then [Report(1, total, total)] else [];
      assert [triples][..1] == [triples];
      assert [triples][..0] == [];
      assert SizeSum([triples]) == total;
      if res.value {
        FirstFailureIs(1, push, 1);
      } else {
        FirstFailureIs(1, push, 0);
      }
      return res, pushed, reports;
    }
    if batchSize == 0 {
      return Err(ZeroDivisionMessage), [], [];
    }
    r, pushed, reports := PushChunks(graph, triples, batchSize, push);
  }

  /** The batch loop of `storeDataToGraphInBatches`, for a graph of more than `batchSize`
      triples. */
  method PushChunks(graph: string, triples: seq<Triple>, batchSize: nat, push: nat -> nat -> Attempt)
    returns (r: Result<bool>, pushed: seq<seq<Triple>>, reports: seq<Report>)
    requires graph != "" && 0 < batchSize < |triples|
    ensures var plan := ChunksFrom(triples, batchSize, 0);
      var f := FirstFailure(|plan|, push);
      && r == Ok(f == |plan|)
      && pushed == plan[..Min(f + 1, |plan|)]
      && reports == Reports(plan, f, |triples|)
  {
    var total := |triples|;
    var totalBatches := TotalBatches(triples, batchSize);
    ghost var plan := ChunksFrom(triples, batchSize, 0);
    var processed := 0;  // also how far the shared iterator `triples_iter` has advanced
    pushed, reports := [], [];
    var batchNum := 0;
    while batchNum < totalBatches
      invariant batchNum <= totalBatches == |plan|
      invariant BatchLoop(triples, batchSize, plan, push, batchNum, pushed, processed, reports)
    {
      var ok;
      ok, pushed, processed, reports := PushNextBatch(graph, triples, batchSize, push, plan, batchNum, pushed, processed, reports);
      if !ok {
        FirstFailureIs(|plan|, push, batchNum);
        return Ok(false), pushed, reports;
      }
      batchNum := batchNum + 1;
    }
    FirstFailureIs(|plan|, push, |plan|);
    assert pushed == plan[..|plan|];
    return Ok(true), pushed, reports;
  }

  /** What holds before batch `batchNum` (from 0) of `plan` is drawn: the earlier batches were
      pushed successfully, the iterator stands after them and each fired its callback. */
  ghost predicate BatchLoop(ts: seq<Triple>, b: nat, plan: seq<seq<Triple>>, push: nat -> nat -> Attempt,
                            batchNum: nat, pushed: seq<seq<Triple>>, processed: nat, reports: seq<Report>)
  {
    && b > 0 && processed <= |ts| && batchNum <= |plan|
    && |pushed| == batchNum
    && plan == pushed + ChunksFrom(ts, b, processed)
    && SizeSum(pushed) == processed
    && (forall k :: 0 <= k < batchNum ==> PushSucceeds(push(k)))
    && reports == Reports(plan, batchNum, |ts|)
  }

  /** One turn of the batch loop: draw the next batch, push it and, on success, fire the
      callback with the running count. */
  method PushNextBatch(graph: string, triples: seq<Triple>, batchSize: nat, push: nat -> nat -> Attempt,
                       ghost plan: seq<seq<Triple>>, batchNum: nat, pushed: seq<seq<Triple>>, processed: nat,
                       reports: seq<Report>)
    returns (ok: bool, pushed': seq<seq<Triple>>, processed': nat, reports': seq<Report>)
    requires graph != "" && batchNum < |plan|
    requires BatchLoop(triples, batchSize, plan, push, batchNum, pushed, processed, reports)
    ensures ok == PushSucceeds(push(batchNum))
    ensures pushed' == plan[..batchNum + 1]
    ensures ok ==> BatchLoop(triples, batchSize, plan, push, batchNum + 1, pushed', processed', reports')
    ensures !ok ==> reports' == reports
  {
    assert ChunksFrom(triples, batchSize, processed) != [];
    var batch, count, pos := NextBatch(triples, processed, batchSize);
    BatchStep(triples, batchSize, plan, pushed, processed, batch);
    // the `batch_triples_count == 0` break cannot be taken
    assert count > 0;
    var res, _ := StoreDataToGraph(graph, push(batchNum));
    ok := res.value;
    pushed' := pushed + [batch];
    processed' := processed + count;
    reports' := if ok then reports + [Report(batchNum + 1, processed', |triples|)] else reports;
  }

  /** The inner loop: draw up to `batchSize` triples from the iterator, which stands at
      `start`, stopping early when it is exhausted. */
  method NextBatch(triples: seq<Triple>, start: nat, batchSize: nat) returns (batch: seq<Triple>, count: nat, pos: nat)
    requires start <= |triples|
    ensures pos == start + Min(batchSize, |triples| - start) && count == pos - start
    ensures batch == triples[start..pos]
  {
    pos := start;
    batch := [];
    count := 0;
    while count < batchSize
      invariant start <= pos <= |triples| && count == pos - start && count <= batchSize
      invariant batch == triples[start..pos]
    {
      if pos == |triples| {
        break;  // StopIteration
      }
      batch := batch + [triples[pos]];
      pos := pos + 1;
      count := count + 1;
    }
  }

  // ---------------------------------------------------------------------------
  // Helper lemmas for the batch loop

  lemma MulNonNeg(a: int, b: int)
    requires a >= 0 && b >= 0
    ensures a * b >= 0
  {
  }

  lemma MulSmall(d: int, b: int)
    requires b > 0 && -b < d * b < b
    ensures d == 0
  {
    if d >= 1 {
      assert d * b == b + (d - 1) * b;
      MulNonNeg(d - 1, b);
    }
  }

  lemma DivUnique(y: int, b: int, q: int, r: int)
    requires b > 0 && 0 <= r < b && y == q * b + r
    ensures y / b == q
  {
    var q', r' := y / b, y % b;
    assert (q' - q) * b == r - r';
    MulSmall(q' - q, b);
  }

  lemma DivStep(x: nat, b: nat)
    requires b > 0
    ensures (x + b) / b == x / b + 1
  {
    DivUnique(x + b, b, x / b + 1, x % b);
  }

  lemma DivOfFirst(n: nat, b: nat)
    requires 0 < n <= b
    ensures (n + b - 1) / b == 1
  {
    DivStep(n - 1, b);
    assert (n - 1) / b == 0;
  }

  /** The chunking makes `ceil(m / b)` batches of the remaining `m` triples. */
  lemma {:induction false} ChunksCount(ts: seq<Triple>, b: nat, pos: nat)
    requires b > 0 && pos <= |ts|
    ensures |ChunksFrom(ts, b, pos)| == (|ts| - pos + b - 1) / b
    decreases |ts| - pos
  {
    if pos < |ts| {
      var next := pos + Min(b, |ts| - pos);
      ChunksCount(ts, b, next);
      if |ts| - pos <= b {
        DivOfFirst(|ts| - pos, b);
      } else {
        DivStep(|ts| - pos - 1, b);
      }
    }
  }

  /** `total_batches = (total_triples + batch_size - 1) // batch_size`, the number of chunks. */
  method TotalBatches(ts: seq<Triple>, b: nat) returns (totalBatches: nat)
    requires b > 0
    ensures totalBatches == |ChunksFrom(ts, b, 0)|
  {
    totalBatches := (|ts| + b - 1) / b;
    ChunksCount(ts, b, 0);
  }

  /** One turn of the batch loop keeps the loop's picture of the plan. */
  lemma BatchStep(ts: seq<Triple>, b: nat, plan: seq<seq<Triple>>, pushed: seq<seq<Triple>>, start: nat, batch: seq<Triple>)
    requires b > 0 && start < |ts|
    requires plan == pushed + ChunksFrom(ts, b, start)
    requires SizeSum(pushed) == start
    requires batch == ts[start..start + Min(b, |ts| - start)]
    ensures var pos := start + Min(b, |ts| - start);
      && plan == (pushed + [batch]) + ChunksFrom(ts, b, pos)
      && pushed + [batch] == plan[..|pushed| + 1]
      && SizeSum(pushed + [batch]) == pos
  {
    var pos := start + Min(b, |ts| - start);
    var rest := ChunksFrom(ts, b, pos);
    assert ChunksFrom(ts, b, start) == [batch] + rest;
    assert plan == (pushed + [batch]) + rest;
    assert (pushed + [batch])[..|pushed|] == pushed;
  }

  lemma FlattenSnoc(bs: seq<seq<Triple>>, x: seq<Triple>)
    ensures Flatten(bs + [x]) == Flatten(bs) + x
  {
    assert (bs + [x])[..|bs|] == bs;
  }

  lemma {:induction false} FlattenCons(x: seq<Triple>, bs: seq<seq<Triple>>)
    ensures Flatten([x] + bs) == x + Flatten(bs)
    decreases |bs|
  {
    if bs == [] {
      assert [x] + bs == [] + [x];
      FlattenSnoc([], x);
    } else {
      var init, last := bs[..|bs| - 1], bs[|bs| - 1];
      assert [x] + bs == ([x] + init) + [last];
      FlattenSnoc([x] + init, last);
      FlattenCons(x, init);
      FlattenSnoc(init, last);
      assert bs == init + [last];
    }
  }

  lemma FirstFailureIs(count: nat, push: nat -> nat -> Attempt, f: nat)
    requires f <= count
    requires forall k :: 0 <= k < f ==> PushSucceeds(push(k))
    requires f < count ==> !PushSucceeds(push(f))
    ensures FirstFailure(count, push) == f
  {
  }

  // ---------------------------------------------------------------------------
  // Properties of the batch plan and of the callback trace

  /** Every batch but the last holds exactly `b` triples, every batch holds at least one (so
      the loop's empty-batch exit is unreachable) and concatenating the batches in order gives
      back the triples from `pos` on. */
  lemma {:induction false} ChunksShape(ts: seq<Triple>, b: nat, pos: nat)
    requires b > 0 && pos <= |ts|
    ensures var cs := ChunksFrom(ts, b, pos);
      && (forall k :: 0 <= k < |cs| - 1 ==> |cs[k]| == b)
      && (forall k :: 0 <= k < |cs| ==> 0 < |cs[k]| <= b)
      && Flatten(cs) == ts[pos..]
    decreases |ts| - pos
  {
    if pos < |ts| {
      var next := pos + Min(b, |ts| - pos);
      ChunksShape(ts, b, next);
      var cs, rest := ChunksFrom(ts, b, pos), ChunksFrom(ts, b, next);
      assert cs == [ts[pos..next]] + rest;
      assert forall k :: 1 <= k < |cs| ==> cs[k] == rest[k - 1];
      if |ts| - pos > b {
        ChunksCount(ts, b, next);
        DivStep(|ts| - next - 1, b);
        assert |rest| > 0;
      } else {
        assert rest == [];
      }
      FlattenCons(ts[pos..next], rest);
      assert ts[pos..next] + ts[next..] == ts[pos..];
    } else {
      assert ChunksFrom(ts, b, pos) == [];
    }
  }

  /** The plan always covers the input exactly, whichever branch is taken; the multi-batch
      plan has `ceil(n / b)` batches, all but the last of exactly `b` triples. */
  lemma PlanShape(ts: seq<Triple>, b: nat)
    requires |ts| <= b || b > 0
    ensures |ts| <= b ==> Plan(ts, b) == [ts]
    ensures |ts| > b ==> |Plan(ts, b)| == (|ts| + b - 1) / b
    ensures |ts| > b ==> forall k :: 0 <= k < |Plan(ts, b)| - 1 ==> |Plan(ts, b)[k]| == b
    ensures Flatten(Plan(ts, b)) == ts
    ensures |ts| > 0 ==> forall k :: 0 <= k < |Plan(ts, b)| ==> 0 < |Plan(ts, b)[k]|
  {
    if |ts| <= b {
      FlattenSnoc([], ts);
      assert [] + [ts] == [ts];
    } else {
      ChunksCount(ts, b, 0);
      ChunksShape(ts, b, 0);
      assert ts[0..] == ts;
    }
  }

  /** The k-th callback (counting from 0) reports batch k + 1 and the size of batches 1..k+1. */
  lemma {:induction false} ReportsAt(plan: seq<seq<Triple>>, f: nat, n: nat)
    requires f <= |plan|
    ensures forall k :: 0 <= k < f ==>
      Reports(plan, f, n)[k] == Report(k + 1, SizeSum(plan[..k + 1]), n)
  {
    if f > 0 {
      ReportsAt(plan, f - 1, n);
    }
  }

  /** The triple count of a sequence of batches is the length of their concatenation. */
  lemma {:induction false} SizeSumIsFlattenLength(bs: seq<seq<Triple>>)
    ensures SizeSum(bs) == |Flatten(bs)|
    decreases |bs|
  {
    if bs != [] {
      SizeSumIsFlattenLength(bs[..|bs| - 1]);
    }
  }

  lemma {:induction false} SizeSumPrefixGrows(plan: seq<seq<Triple>>, i: nat, j: nat)
    requires i < j <= |plan|
    requires forall k :: 0 <= k < |plan| ==> 0 < |plan[k]|
    ensures SizeSum(plan[..i]) < SizeSum(plan[..j])
    decreases j - i
  {
    assert plan[..j][..j - 1] == plan[..j - 1];
    if i < j - 1 {
      SizeSumPrefixGrows(plan, i, j - 1);
    }
  }

  /** The processed counts the callback receives are strictly increasing, never exceed n,
      and end at n once every batch has been pushed. */
  lemma ProcessedIncreasing(ts: seq<Triple>, b: nat, f: nat)
    requires |ts| <= b || b > 0
    requires f <= |Plan(ts, b)|
    ensures var rs := Reports(Plan(ts, b), f, |ts|);
      && (forall i, j :: 0 <= i < j < f ==> rs[i].processed < rs[j].processed)
      && (forall i :: 0 <= i < f ==> rs[i].batch == i + 1 && rs[i].processed <= |ts| && rs[i].total == |ts|)
      && (f == |Plan(ts, b)| && f > 0 ==> rs[f - 1].processed == |ts|)
  {
    var plan := Plan(ts, b);
    ReportsAt(plan, f, |ts|);
    PlanShape(ts, b);
    SizeSumIsFlattenLength(plan);
    assert plan[..|plan|] == plan;
    if |ts| > 0 {
      ProcessedGrows(plan, f, |ts|);
      ProcessedBounded(plan, f, |ts|);
    }
  }

  lemma ProcessedGrows(plan: seq<seq<Triple>>, f: nat, n: nat)
    requires f <= |plan|
    requires forall k :: 0 <= k < |plan| ==> 0 < |plan[k]|
    ensures var rs := Reports(plan, f, n);
      forall i, j :: 0 <= i < j < f ==> rs[i].processed < rs[j].processed
  {
    var rs := Reports(plan, f, n);
    ReportsAt(plan, f, n);
    forall i, j | 0 <= i < j < f
      ensures rs[i].processed < rs[j].processed
    {
      SizeSumPrefixGrows(plan, i + 1, j + 1);
    }
  }

  lemma ProcessedBounded(plan: seq<seq<Triple>>, f: nat, n: nat)
    requires f <= |plan| && SizeSum(plan[..|plan|]) == n
    requires forall k :: 0 <= k < |plan| ==> 0 < |plan[k]|
    ensures var rs := Reports(plan, f, n);
      forall i :: 0 <= i < f ==> rs[i].processed <= n
  {
    var rs := Reports(plan, f, n);
    ReportsAt(plan, f, n);
    forall i | 0 <= i < f
      ensures rs[i].processed <= n
    {
      if i + 1 < |plan| {
        SizeSumPrefixGrows(plan, i + 1, |plan|);
      }
    }
  }

  /** The batch upload returns true exactly when every planned push succeeded. */
  lemma AllPushesSucceedIff(ts: seq<Triple>, b: nat, push: nat -> nat -> Attempt)
    requires |ts| <= b || b > 0
    ensures var plan := Plan(ts, b);
      FirstFailure(|plan|, push) == |plan| <==> forall k :: 0 <= k < |plan| ==> PushSucceeds(push(k))
  {
  }

  /** 250 triples in batches of 100, all pushes succeeding: batches 1, 2, 3 with 100, 200
      and 250 triples processed. */
  lemma ThreeBatchesOf250(ts: seq<Triple>, push: nat -> nat -> Attempt)
    requires |ts| == 250
    requires forall k :: 0 <= k < 3 ==> PushSucceeds(push(k))
    ensures |Plan(ts, 100)| == 3
    ensures FirstFailure(3, push) == 3
    ensures Reports(Plan(ts, 100), 3, 250) == [Report(1, 100, 250), Report(2, 200, 250), Report(3, 250, 250)]
  {
    PlanShape(ts, 100);
    var plan := Plan(ts, 100);
    ReportsAt(plan, 3, 250);
    assert plan[..3] == plan;
    SizeSumIsFlattenLength(plan);
    assert plan[..1][..0] == [];
    assert SizeSum(plan[..1]) == 100;
    assert plan[..2][..1] == plan[..1];
    assert SizeSum(plan[..2]) == 200;
    assert plan[..3][..2] == plan[..2];
  }
}
