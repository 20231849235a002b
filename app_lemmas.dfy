/** What the upload backend promises about a whole background upload: how a job that was
    created for the parsed graph ends, what the progress callback reports on the way, and the
    case-insensitive file-extension check. */
module AppProperties {
  import opened Common
  import opened Rdf
  import opened Analysis
  import opened App
  import Virtuoso

  // ---------------------------------------------------------------------------
  // Percentages

  /** Dividing by a positive real keeps strict order (the monotonicity step of `PercentBounds`). */
  lemma DivMonotone(x: real, y: real, d: real)
    requires d > 0.0 && x < y
    ensures x / d < y / d
  {
    assert (y / d - x / d) * d == y - x;
  }

  /** The end points of the percentage: 0 for none processed, 1 for all (used by `PercentBounds`). */
  lemma DivSelf(d: real)
    requires d > 0.0
    ensures d / d == 1.0 && 0.0 / d == 0.0
  {
  }

  /** The upload percentage grows with the processed count, stays within 0..100 and is 100
      exactly when every triple has been processed. */
  lemma PercentBounds(p: nat, q: nat, t: nat)
    requires 0 < t && p <= q <= t
    ensures 0.0 <= Percent(p, t) <= Percent(q, t) <= 100.0
    ensures p < q ==> Percent(p, t) < Percent(q, t)
    ensures Percent(q, t) == 100.0 <==> q == t
  {
    var d := t as real;
    DivSelf(d);
    if 0 < p {
      DivMonotone(0.0, p as real, d);
    }
    if p < q {
      DivMonotone(p as real, q as real, d);
    }
    if q < t {
      DivMonotone(q as real, d, d);
    }
  }

  // ---------------------------------------------------------------------------
  // The batch count

  /** For a non-empty graph the count `create_upload_job` stores is the number of batches
      the upload pushes; an empty graph stores 0 batches and still pushes once (the whole
      empty graph), see `EmptyUpload`. */
  lemma PlanLengthIsBatchCount(graph: seq<Triple>)
    ensures |graph| > 0 ==> |UploadPlan(graph)| == BatchCount(|graph|)
    ensures |graph| == 0 ==> BatchCount(|graph|) == 0 && |UploadPlan(graph)| == 1
  {
    Virtuoso.PlanShape(graph, UploadBatchSize);
    if 0 < |graph| <= UploadBatchSize {
      Virtuoso.DivOfFirst(|graph|, UploadBatchSize);
    }
  }

  /** A job as `upload_file` creates it for `graph`. */
  predicate CreatedFor(job: UploadJob, graph: seq<Triple>)
  {
    job.totalTriples == |graph| && job.totalBatches == BatchCount(|graph|)
  }

  /** The store invariant gives every stored job the batch count of its triples, so a job
      whose triple count is that of `graph` was created for it. */
  lemma StoredJobCreatedFor(s: AppState, jobId: string, graph: seq<Triple>)
    requires s.Valid() && jobId in s.uploadJobs && s.uploadJobs[jobId].totalTriples == |graph|
    ensures s.uploadJobs[jobId].jobId == jobId && CreatedFor(s.uploadJobs[jobId], graph)
  {
  }

  // ---------------------------------------------------------------------------
  // The progress callback

  /** During the upload of a non-empty graph the job's progress climbs strictly with each
      callback and never exceeds 100; callback k reports batch k + 1. */
  lemma CallbackProgressClimbs(graph: seq<Triple>, push: nat -> nat -> Virtuoso.Attempt)
    requires |graph| > 0
    ensures var rs := UploadReports(graph, push);
      && (forall i, j :: 0 <= i < j < |rs| ==> Percent(rs[i].processed, |graph|) < Percent(rs[j].processed, |graph|))
      && (forall i :: 0 <= i < |rs| ==> rs[i].batch == i + 1 && Percent(rs[i].processed, |graph|) <= 100.0)
  {
    var plan := UploadPlan(graph);
    var f := FirstFailedBatch(graph, push);
    var rs := UploadReports(graph, push);
    assert f <= |plan| && rs == Virtuoso.Reports(plan, f, |graph|);
    Virtuoso.ProcessedIncreasing(graph, UploadBatchSize, f);
    assert forall i :: 0 <= i < |rs| ==> rs[i].processed <= |graph|;
    forall i, j | 0 <= i < j < |rs|
      ensures Percent(rs[i].processed, |graph|) < Percent(rs[j].processed, |graph|)
    {
      PercentBounds(rs[i].processed, rs[j].processed, |graph|);
    }
    forall i | 0 <= i < |rs|
      ensures Percent(rs[i].processed, |graph|) <= 100.0
    {
      PercentBounds(rs[i].processed, rs[i].processed, |graph|);
    }
  }

  // ---------------------------------------------------------------------------
  // How an upload ends

  /** A callback that raises is the first one, after the first push succeeded: the job fails
      with "division by zero", carrying batch 1 and the size of the first batch, which
      `update_job_progress` assigned before dividing; nothing else about the job changes. */
  lemma OutcomeWhenCallbackRaises(job: UploadJob, graph: seq<Triple>, federalState: string,
                                  push: nat -> nat -> Virtuoso.Attempt, definitionsLoaded: nat, known: map<string, ClassInfo>)
    requires CallbackRaises(job, graph, push)
    ensures Virtuoso.PushSucceeds(push(0))
    ensures var o := Outcome(job, graph, federalState, push, definitionsLoaded, known);
      && o.status == Failed && o.errorMessage == Some(DivisionByZeroMessage)
      && o.currentBatch == 1 && o.processedTriples == |UploadPlan(graph)[0]|
      && o.(status := job.status, errorMessage := job.errorMessage,
            currentBatch := job.currentBatch, processedTriples := job.processedTriples) == job
  {
    var plan := UploadPlan(graph);
    var f := FirstFailedBatch(graph, push);
    Virtuoso.ReportsAt(plan, f, |graph|);
    assert plan[..1] == [plan[0]];
    assert [plan[0]][..0] == [];
    assert UploadReports(graph, push)[0].processed == Virtuoso.SizeSum([plan[0]]) == |plan[0]|;
  }

  /** A background upload always settles, and it succeeds exactly when the graph is not
      empty and every batch push succeeds. */
  lemma UploadSucceedsIff(job: UploadJob, graph: seq<Triple>, federalState: string,
                          push: nat -> nat -> Virtuoso.Attempt, definitionsLoaded: nat, known: map<string, ClassInfo>)
    requires job.totalTriples == |graph|
    ensures var o := Outcome(job, graph, federalState, push, definitionsLoaded, known);
      && o.status != Processing
      && (o.status == Success <==>
            |graph| > 0 && forall k :: 0 <= k < |UploadPlan(graph)| ==> Virtuoso.PushSucceeds(push(k)))
  {
    Virtuoso.PlanShape(graph, UploadBatchSize);
    Virtuoso.AllPushesSucceedIff(graph, UploadBatchSize, push);
    if |graph| == 0 && !CallbackRaises(job, graph, push) {
      assert FirstFailedBatch(graph, push) == 0;
    }
  }

  /** Every push of a non-empty graph succeeded: the last callback reports the last batch
      and every triple. */
  lemma LastReportOfFullUpload(graph: seq<Triple>, push: nat -> nat -> Virtuoso.Attempt)
    requires |graph| > 0
    requires forall k :: 0 <= k < |UploadPlan(graph)| ==> Virtuoso.PushSucceeds(push(k))
    ensures FirstFailedBatch(graph, push) == |UploadPlan(graph)|
    ensures var rs := UploadReports(graph, push);
      rs != [] && rs[|rs| - 1].batch == BatchCount(|graph|) && rs[|rs| - 1].processed == |graph|
  {
    var plan := UploadPlan(graph);
    Virtuoso.PlanShape(graph, UploadBatchSize);
    Virtuoso.AllPushesSucceedIff(graph, UploadBatchSize, push);
    Virtuoso.ProcessedIncreasing(graph, UploadBatchSize, |plan|);
    PlanLengthIsBatchCount(graph);
  }

  /** A job of at least one triple never raises in the callback: it ends as the reports and
      the push result leave it. */
  lemma OutcomeOfNonEmptyJob(job: UploadJob, graph: seq<Triple>, federalState: string,
                             push: nat -> nat -> Virtuoso.Attempt, definitionsLoaded: nat, known: map<string, ClassInfo>)
    requires job.totalTriples > 0
    ensures Outcome(job, graph, federalState, push, definitionsLoaded, known) ==
      Finished(ApplyReports(job, UploadReports(graph, push)), FirstFailedBatch(graph, push) == |UploadPlan(graph)|,
               AnalysisTabs(graph, federalState, GraphBase + federalState, LocalSparqlEndpoint, definitionsLoaded, known))
  {
  }

  /** A successful upload: the job is completed with the analysis of the graph, every
      triple counts as processed, the last batch reported is the job's batch count, and
      nothing else about the job changes. */
  lemma SuccessfulUpload(job: UploadJob, graph: seq<Triple>, federalState: string,
                         push: nat -> nat -> Virtuoso.Attempt, definitionsLoaded: nat, known: map<string, ClassInfo>)
    requires CreatedFor(job, graph) && |graph| > 0
    requires forall k :: 0 <= k < |UploadPlan(graph)| ==> Virtuoso.PushSucceeds(push(k))
    ensures var o := Outcome(job, graph, federalState, push, definitionsLoaded, known);
      && o.status == Success && o.progress == 100.0
      && o.resultData == Some(AnalysisTabs(graph, federalState, GraphBase + federalState, LocalSparqlEndpoint, definitionsLoaded, known))
      && o.processedTriples == |graph| && o.currentBatch == job.totalBatches
      && o.(status := job.status, progress := job.progress, resultData := job.resultData,
            processedTriples := job.processedTriples, currentBatch := job.currentBatch) == job
  {
    var rs := UploadReports(graph, push);
    LastReportOfFullUpload(graph, push);
    OutcomeOfNonEmptyJob(job, graph, federalState, push, definitionsLoaded, known);
    var last := rs[|rs| - 1];
    var j := WithProgress(job, last.batch, last.processed);
    assert ApplyReports(job, rs) == j;
  }

  /** A failed push: the job fails with "Failed to upload data to Virtuoso" and no result;
      if earlier batches went through it keeps the progress of the last one, short of 100. */
  lemma FailedPushUpload(job: UploadJob, graph: seq<Triple>, federalState: string,
                         push: nat -> nat -> Virtuoso.Attempt, definitionsLoaded: nat, known: map<string, ClassInfo>)
    requires job.totalTriples == |graph| > 0
    requires FirstFailedBatch(graph, push) < |UploadPlan(graph)|
    ensures var o := Outcome(job, graph, federalState, push, definitionsLoaded, known);
      var f := FirstFailedBatch(graph, push);
      && o.status == Failed && o.errorMessage == Some(UploadFailedMessage) && o.resultData == job.resultData
      && (f == 0 ==> o == FailedWith(job, UploadFailedMessage))
      && (f > 0 ==>
            && o.currentBatch == f
            && o.processedTriples == Virtuoso.SizeSum(UploadPlan(graph)[..f])
            && o.processedTriples < |graph|
            && o.progress < 100.0)
  {
    var f := FirstFailedBatch(graph, push);
    var rs := UploadReports(graph, push);
    if f > 0 {
      Virtuoso.ProcessedIncreasing(graph, UploadBatchSize, f);
      Virtuoso.ReportsAt(UploadPlan(graph), f, |graph|);
      Virtuoso.PlanShape(graph, UploadBatchSize);
      Virtuoso.SizeSumPrefixGrows(UploadPlan(graph), f, |UploadPlan(graph)|);
      assert UploadPlan(graph)[..|UploadPlan(graph)|] == UploadPlan(graph);
      Virtuoso.SizeSumIsFlattenLength(UploadPlan(graph));
      PercentBounds(rs[f - 1].processed, rs[f - 1].processed, |graph|);
    }
  }

  /** An empty graph never succeeds: if its single push fails the job fails with "Failed
      to upload data to Virtuoso"; if it succeeds the callback `(1, 0, 0)` divides by zero
      and the job fails with that error, after recording batch 1 and 0 triples. */
  lemma EmptyUpload(job: UploadJob, graph: seq<Triple>, federalState: string,
                    push: nat -> nat -> Virtuoso.Attempt, definitionsLoaded: nat, known: map<string, ClassInfo>)
    requires job.totalTriples == |graph| == 0
    ensures var o := Outcome(job, graph, federalState, push, definitionsLoaded, known);
      && o.status == Failed
      && (Virtuoso.PushSucceeds(push(0)) ==>
            o == FailedWith(job.(currentBatch := 1, processedTriples := 0), DivisionByZeroMessage))
      && (!Virtuoso.PushSucceeds(push(0)) ==> o == FailedWith(job, UploadFailedMessage))
  {
    var plan := UploadPlan(graph);
    Virtuoso.PlanShape(graph, UploadBatchSize);
    assert plan == [graph];
    if Virtuoso.PushSucceeds(push(0)) {
      assert FirstFailedBatch(graph, push) == 1;
      Virtuoso.ReportsAt(plan, 1, 0);
      assert plan[..1] == [graph];
      assert Virtuoso.SizeSum([graph]) == 0 by {
        assert [graph][..0] == [];
      }
    } else {
      assert FirstFailedBatch(graph, push) == 0;
    }
  }

  // ---------------------------------------------------------------------------
  // The file-extension check

  /** The extension check ignores case: the name ends in '.' followed by t, t and l, each
      in either case. */
  lemma TtlExtensionIgnoresCase(filename: string)
    ensures HasTtlExtension(filename) <==>
      var n := |filename|;
      && n >= 4 && filename[n - 4] == '.'
      && filename[n - 3] in {'t', 'T'} && filename[n - 2] in {'t', 'T'} && filename[n - 1] in {'l', 'L'}
  {
    var l := Lower(filename);
    var n := |filename|;
    if n >= 4 {
      assert l[n - 4..] == [l[n - 4], l[n - 3], l[n - 2], l[n - 1]];
    }
  }
}
