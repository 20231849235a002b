/** The upload backend of `app.py`: the in-memory job store `upload_jobs`, the separate
    `analysis_progress` store, the background upload of a parsed graph and the checks
    `upload_file` makes before it creates a job. Fresh job ids and timestamps are parameters,
    the triple store is an oracle of push outcomes, and every call is one atomic step. */
module App {
  import opened Common
  import opened Rdf
  import opened Progress
  import opened Analysis
  import Virtuoso

  // ---------------------------------------------------------------------------
  // Jobs

  datatype Status = Processing | Failed | Success

  /** `UploadJob`; `timestamp` is the creation time as ISO text. */
  datatype UploadJob = UploadJob(
    jobId: string,
    filename: string,
    federalState: string,
    timestamp: string,
    status: Status,
    progress: real,
    totalTriples: nat,
    processedTriples: nat,
    currentBatch: nat,
    totalBatches: nat,
    errorMessage: Option<string>,
    resultData: Option<seq<Tab>>)

  /** An entry of `analysis_progress`. */
  datatype ProgressEntry = ProgressEntry(progress: real, status: string, timestamp: string)

  const UploadBatchSize: nat := 2000
  /** The text of the ZeroDivisionError that `/ job.total_triples` raises. */
  const DivisionByZeroMessage := "division by zero"
  const UploadFailedMessage := "Failed to upload data to Virtuoso"
  const GraphBase := "http://localhost:8080/graph/"
  /** The endpoint the background job reports, whatever `VIRTUOSO_URL` says. */
  const LocalSparqlEndpoint := "http://localhost:8890/sparql"
  const DefaultVirtuosoUrl := "http://localhost:8890"
  const JobNotFoundMessage := "Job not found"
  const NotProcessingMessage := "Job is not in processing state"
  const ForceCompletedMessage := "Job marked as completed"
  const StartingStatus := "Starting..."

  /** `(total_triples + 1999) // 2000`: the number of 2000-triple batches `n` triples need. */
  function BatchCount(n: nat): (b: nat)
    ensures b * UploadBatchSize >= n
    ensures b > 0 ==> (b - 1) * UploadBatchSize < n
  {
    var b := (n + 1999) / 2000;
    assert b * 2000 + (n + 1999) % 2000 == n + 1999;
    b
  }

  /** `processed / total * 100`. */
  function Percent(processed: nat, total: nat): real
    requires total > 0
  {
    (processed as real / total as real) * 100.0
  }

  /** The record `create_upload_job` inserts. */
  function NewJob(jobId: string, filename: string, federalState: string, timestamp: string, totalTriples: nat): (j: UploadJob)
    ensures j.jobId == jobId && j.filename == filename && j.federalState == federalState && j.timestamp == timestamp
    ensures j.status == Processing && j.progress == 0.0
    ensures j.totalTriples == totalTriples && j.processedTriples == 0 && j.currentBatch == 0
    ensures j.totalBatches * UploadBatchSize >= totalTriples
    ensures j.totalBatches > 0 ==> (j.totalBatches - 1) * UploadBatchSize < totalTriples
    ensures j.errorMessage.None? && j.resultData.None?
  {
    UploadJob(jobId, filename, federalState, timestamp, Processing, 0.0, totalTriples, 0, 0,
              BatchCount(totalTriples), None, None)
  }

  /** `update_job_progress` on an existing job of at least one triple: only the batch, the
      processed count and the percentage change. */
  function WithProgress(j: UploadJob, batch: nat, processed: nat): (r: UploadJob)
    requires j.totalTriples > 0
    ensures r.currentBatch == batch && r.processedTriples == processed
    ensures r.progress == Percent(processed, j.totalTriples)
    ensures r.(currentBatch := j.currentBatch, processedTriples := j.processedTriples, progress := j.progress) == j
  {
    j.(currentBatch := batch, processedTriples := processed, progress := Percent(processed, j.totalTriples))
  }

  /** `complete_job`: status, progress and result change, nothing else. */
  function Completed(j: UploadJob, data: seq<Tab>): (r: UploadJob)
    ensures r.status == Success && r.progress == 100.0 && r.resultData == Some(data)
    ensures r.(status := j.status, progress := j.progress, resultData := j.resultData) == j
  {
    j.(status := Success, progress := 100.0, resultData := Some(data))
  }

  /** `fail_job`: status and error message change, nothing else. */
  function FailedWith(j: UploadJob, message: string): (r: UploadJob)
    ensures r.status == Failed && r.errorMessage == Some(message)
    ensures r.(status := j.status, errorMessage := j.errorMessage) == j
  {
    j.(status := Failed, errorMessage := Some(message))
  }

  /** The job after the progress callback has fired for each of `rs`, in order. */
  function ApplyReports(j: UploadJob, rs: seq<Virtuoso.Report>): (r: UploadJob)
    requires j.totalTriples > 0
    ensures rs == [] ==> r == j
    ensures rs != [] ==> r == WithProgress(j, rs[|rs| - 1].batch, rs[|rs| - 1].processed)
  {
    if rs == [] then j
    else
      var r := rs[|rs| - 1];
      WithProgress(ApplyReports(j, rs[..|rs| - 1]), r.batch, r.processed)
  }

  /** The minimal result `force_complete_job` stores: one summary tab, without analysis. */
  function MinimalResult(j: UploadJob, sparqlEndpoint: string): seq<Tab>
  {
    [SummaryTab("Summary", UploadInfo(
      "Erfolgreich (Timeout)", "TTL file uploaded successfully, analysis incomplete",
      j.federalState, j.federalState, None, j.totalTriples, sparqlEndpoint, None))]
  }

  // ---------------------------------------------------------------------------
  // The background upload

  /** The batches the background upload pushes and the callbacks that fire. */
  function UploadPlan(graph: seq<Triple>): seq<seq<Triple>>
  {
    Virtuoso.Plan(graph, UploadBatchSize)
  }

  function FirstFailedBatch(graph: seq<Triple>, push: nat -> nat -> Virtuoso.Attempt): nat
  {
    Virtuoso.FirstFailure(|UploadPlan(graph)|, push)
  }

  function UploadReports(graph: seq<Triple>, push: nat -> nat -> Virtuoso.Attempt): seq<Virtuoso.Report>
  {
    Virtuoso.Reports(UploadPlan(graph), FirstFailedBatch(graph, push), |graph|)
  }

  /** The callback raises (on its first call) exactly when the job has no triples. */
  predicate CallbackRaises(job: UploadJob, graph: seq<Triple>, push: nat -> nat -> Virtuoso.Attempt)
  {
    job.totalTriples == 0 && UploadReports(graph, push) != []
  }

  /** The analysis runs when every push succeeded and no callback raised. */
  predicate AnalysisRuns(job: UploadJob, graph: seq<Triple>, push: nat -> nat -> Virtuoso.Attempt)
  {
    !CallbackRaises(job, graph, push) && FirstFailedBatch(graph, push) == |UploadPlan(graph)|
  }

  /** The record `process_upload_async` leaves behind for `job`. */
  function Outcome(job: UploadJob, graph: seq<Triple>, federalState: string, push: nat -> nat -> Virtuoso.Attempt,
                   definitionsLoaded: nat, known: map<string, ClassInfo>): UploadJob
  {
    var rs := UploadReports(graph, push);
    if CallbackRaises(job, graph, push) then
      FailedWith(job.(currentBatch := rs[0].batch, processedTriples := rs[0].processed), DivisionByZeroMessage)
    else
      var j := if job.totalTriples > 0 then ApplyReports(job, rs) else job;
      Finished(j, FirstFailedBatch(graph, push) == |UploadPlan(graph)|,
               AnalysisTabs(graph, federalState, GraphBase + federalState, LocalSparqlEndpoint, definitionsLoaded, known))
  }

  /** The end of `process_upload_async`: completed with the analysis when every push
      succeeded, failed otherwise. */
  function Finished(j: UploadJob, allPushed: bool, tabs: seq<Tab>): UploadJob
  {
    if allPushed then Completed(j, tabs) else FailedWith(j, UploadFailedMessage)
  }

  function LogOf(log: map<string, seq<Checkpoint>>, jobId: string): seq<Checkpoint>
  {
    if jobId in log then log[jobId] else []
  }

  /** The checkpoints an analysis of `graph` reports. */
  function GraphCheckpoints(graph: seq<Triple>, known: map<string, ClassInfo>): seq<Checkpoint>
  {
    var pairs := TypeAssertions(graph);
    AnalysisCheckpoints(|graph|, |pairs|, |FoundClasses(pairs, known)|)
  }

  /** A second write to the same key hides the first (lets `ProcessUploadAsync` collapse the
      callback writes and the final write into one update). */
  lemma UpdateTwice(m: map<string, UploadJob>, k: string, a: UploadJob, b: UploadJob)
    ensures m[k := a][k := b] == m[k := b]
  {
  }

  // ---------------------------------------------------------------------------
  // Uploads

  /** `'.ttl'` ends `filename.lower()`. */
  predicate HasTtlExtension(filename: string)
  {
    var l := Lower(filename);
    |l| >= 4 && l[|l| - 4..] == ".ttl"
  }

  /** The checks of `upload_file`, in order; `file` is the uploaded file's name, if any. */
  function ValidationError(file: Option<string>, federalState: string): (err: Option<string>)
    ensures err.None? <==> file.Some? && file.value != "" && HasTtlExtension(file.value) && federalState != ""
    ensures file.None? ==> err == Some("No file provided")
    ensures file == Some("") ==> err == Some("No file selected")
    ensures file.Some? && file.value != "" && !HasTtlExtension(file.value) ==> err == Some("File must be a TTL file")
    ensures file.Some? && file.value != "" && HasTtlExtension(file.value) && federalState == "" ==>
      err == Some("Federal state is required")
  {
    if file.None? then Some("No file provided")
    else if file.value == "" then Some("No file selected")
    else if !HasTtlExtension(file.value) then Some("File must be a TTL file")
    else if federalState == "" then Some("Federal state is required")
    else None
  }

  /** What a started upload answers with. */
  datatype UploadStarted = UploadStarted(jobId: string, filename: string, federalState: string, triplesCount: nat)

  /** What `/upload/status/<job_id>` answers with for an existing job. */
  datatype StatusView = StatusView(job: UploadJob, analysisProgress: Option<ProgressEntry>)

  /** What `/upload/analysis_progress/<job_id>` answers with for an existing job. */
  datatype AnalysisView = AnalysisView(
    jobId: string, uploadComplete: bool, analysisProgress: real, analysisStatus: string, overallStatus: Status)

  // ---------------------------------------------------------------------------
  // The store

  class AppState {
    var uploadJobs: map<string, UploadJob>
    var analysisProgress: map<string, ProgressEntry>
    /** Every analysis checkpoint ever reported, per job. */
    ghost var analysisLog: map<string, seq<Checkpoint>>
    /** `len(CLASS_DEFINITIONS)`. */
    const classDefinitionsCount: nat
    const uriToClass: map<string, ClassInfo>
    /** `SPARQL_ENDPOINT`. */
    const sparqlEndpoint: string

    /** Every job is filed under its own id and has the batch count of its triples: for a
        non-empty graph the `total_batches` a job carries is the number of batches its upload
        pushes (an empty one stores 0 batches and pushes 1, see `AppProperties.EmptyUpload`;
        `AppProperties.PlanLengthIsBatchCount`, `AppProperties.StoredJobCreatedFor`). */
    ghost predicate Valid()
      reads this
    {
      forall id :: id in uploadJobs ==>
        uploadJobs[id].jobId == id && uploadJobs[id].totalBatches == BatchCount(uploadJobs[id].totalTriples)
    }

    /** Start-up: the class definitions (the values of `class_definitions.json`, in file
        order) and the `VIRTUOSO_URL` environment variable, if set. */
    constructor (classDefinitions: seq<ClassInfo>, virtuosoUrl: Option<string>)
      ensures Valid()
      ensures uploadJobs == map[] && analysisProgress == map[] && analysisLog == map[]
      ensures classDefinitionsCount == |classDefinitions|
      ensures uriToClass == UriToClass(classDefinitions)
      ensures sparqlEndpoint == (if virtuosoUrl.Some? then virtuosoUrl.value else DefaultVirtuosoUrl) + "/sparql"
    {
      var m := BuildUriToClass(classDefinitions);
      uploadJobs, analysisProgress, analysisLog := map[], map[], map[];
      classDefinitionsCount := |classDefinitions|;
      uriToClass := m;
      sparqlEndpoint := (if virtuosoUrl.Some? then virtuosoUrl.value else DefaultVirtuosoUrl) + "/sparql";
    }

    /** `create_upload_job` with the fresh id and the current time given. */
    method CreateUploadJob(jobId: string, filename: string, federalState: string, totalTriples: nat, timestamp: string)
      returns (id: string)
      requires Valid()
      modifies this
      ensures Valid()
      ensures id == jobId
      ensures uploadJobs == old(uploadJobs)[jobId := NewJob(jobId, filename, federalState, timestamp, totalTriples)]
      ensures analysisProgress == old(analysisProgress) && analysisLog == old(analysisLog)
    {
      var totalBatches := (totalTriples + 1999) / 2000;
      uploadJobs := uploadJobs[jobId := UploadJob(jobId, filename, federalState, timestamp, Processing, 0.0,
                                                  totalTriples, 0, 0, totalBatches, None, None)];
      id := jobId;
    }

    /** `update_job_progress`: the batch and processed count are assigned before the
        percentage is computed, so a job of no triples keeps them and raises. */
    method UpdateJobProgress(jobId: string, currentBatch: nat, processedTriples: nat) returns (raised: Option<string>)
      requires Valid()
      modifies this
      ensures Valid()
      ensures jobId !in old(uploadJobs) ==> raised.None? && uploadJobs == old(uploadJobs)
      ensures jobId in old(uploadJobs) && old(uploadJobs)[jobId].totalTriples == 0 ==>
        && raised == Some(DivisionByZeroMessage)
        && uploadJobs == old(uploadJobs)[jobId := old(uploadJobs)[jobId].(currentBatch := currentBatch, processedTriples := processedTriples)]
      ensures jobId in old(uploadJobs) && old(uploadJobs)[jobId].totalTriples > 0 ==>
        && raised.None?
        && uploadJobs == old(uploadJobs)[jobId := WithProgress(old(uploadJobs)[jobId], currentBatch, processedTriples)]
      ensures analysisProgress == old(analysisProgress) && analysisLog == old(analysisLog)
    {
      raised := None;
      if jobId in uploadJobs {
        var job := uploadJobs[jobId];
        job := job.(currentBatch := currentBatch, processedTriples := processedTriples);
        uploadJobs := uploadJobs[jobId := job];
        if job.totalTriples == 0 {
          return Some(DivisionByZeroMessage);
        }
        job := job.(progress := (processedTriples as real / job.totalTriples as real) * 100.0);
        uploadJobs := uploadJobs[jobId := job];
      }
    }

    /** `complete_job`: no check of the current status; nothing happens for an unknown id. */
    method CompleteJob(jobId: string, resultData: seq<Tab>)
      requires Valid()
      modifies this
      ensures Valid()
      ensures uploadJobs == if jobId in old(uploadJobs)
        then old(uploadJobs)[jobId := Completed(old(uploadJobs)[jobId], resultData)] else old(uploadJobs)
      ensures analysisProgress == old(analysisProgress) && analysisLog == old(analysisLog)
    {
      if jobId in uploadJobs {
        var job := uploadJobs[jobId];
        uploadJobs := uploadJobs[jobId := job.(status := Success, progress := 100.0, resultData := Some(resultData))];
      }
    }

    /** `fail_job`: no check of the current status; nothing happens for an unknown id. */
    method FailJob(jobId: string, errorMessage: string)
      requires Valid()
      modifies this
      ensures Valid()
      ensures uploadJobs == if jobId in old(uploadJobs)
        then old(uploadJobs)[jobId := FailedWith(old(uploadJobs)[jobId], errorMessage)] else old(uploadJobs)
      ensures analysisProgress == old(analysisProgress) && analysisLog == old(analysisLog)
    {
      if jobId in uploadJobs {
        var job := uploadJobs[jobId];
        uploadJobs := uploadJobs[jobId := job.(status := Failed, errorMessage := Some(errorMessage))];
      }
    }

    /** `get_job`. */
    method GetJob(jobId: string) returns (job: Option<UploadJob>)
      ensures job.Some? <==> jobId in uploadJobs
      ensures job.Some? ==> job.value == uploadJobs[jobId]
    {
      job := if jobId in uploadJobs then Some(uploadJobs[jobId]) else None;
    }

    /** `force_complete_job`: an unknown job is not found, a job that is not processing is
        refused, and only then is the job completed with the minimal result; on either
        refusal the store is unchanged. */
    method ForceCompleteJob(jobId: string) returns (r: Result<string>)
      requires Valid()
      modifies this
      ensures Valid()
      ensures jobId !in old(uploadJobs) ==> r == Err(JobNotFoundMessage) && uploadJobs == old(uploadJobs)
      ensures jobId in old(uploadJobs) && old(uploadJobs)[jobId].status != Processing ==>
        r == Err(NotProcessingMessage) && uploadJobs == old(uploadJobs)
      ensures jobId in old(uploadJobs) && old(uploadJobs)[jobId].status == Processing ==>
        && r == Ok(ForceCompletedMessage)
        && uploadJobs == old(uploadJobs)[jobId := Completed(old(uploadJobs)[jobId], MinimalResult(old(uploadJobs)[jobId], sparqlEndpoint))]
      ensures analysisProgress == old(analysisProgress) && analysisLog == old(analysisLog)
    {
      var job := GetJob(jobId);
      if job.None? {
        return Err(JobNotFoundMessage);
      }
      if job.value.status != Processing {
        return Err(NotProcessingMessage);
      }
      var minimalResult := [SummaryTab("Summary", UploadInfo(
        "Erfolgreich (Timeout)", "TTL file uploaded successfully, analysis incomplete",
        job.value.federalState, job.value.federalState, None, job.value.totalTriples, sparqlEndpoint, None))];
      CompleteJob(jobId, minimalResult);
      r := Ok(ForceCompletedMessage);
    }

    /** `update_analysis_progress`, stamped with `now`. */
    method UpdateAnalysisProgress(jobId: string, progress: real, status: string, now: string)
      modifies this
      ensures analysisProgress == old(analysisProgress)[jobId := ProgressEntry(progress, status, now)]
      ensures analysisLog == old(analysisLog)[jobId := LogOf(old(analysisLog), jobId) + [Checkpoint(progress, status)]]
      ensures uploadJobs == old(uploadJobs)
    {
      analysisProgress := analysisProgress[jobId := ProgressEntry(progress, status, now)];
      analysisLog := analysisLog[jobId := LogOf(analysisLog, jobId) + [Checkpoint(progress, status)]];
    }

    /** `get_analysis_progress`: the stored entry, or 0% "Starting..." stamped `now`. */
    method GetAnalysisProgress(jobId: string, now: string) returns (p: ProgressEntry)
      ensures jobId in analysisProgress ==> p == analysisProgress[jobId]
      ensures jobId !in analysisProgress ==> p == ProgressEntry(0.0, StartingStatus, now)
    {
      p := if jobId in analysisProgress then analysisProgress[jobId] else ProgressEntry(0.0, StartingStatus, now);
    }

    /** `get_upload_status`: the job, with its analysis progress while it is processing. */
    method GetUploadStatus(jobId: string, now: string) returns (r: Result<StatusView>)
      ensures jobId !in uploadJobs ==> r == Err(JobNotFoundMessage)
      ensures jobId in uploadJobs ==> r.Ok? && r.value.job == uploadJobs[jobId]
      ensures jobId in uploadJobs ==> (r.value.analysisProgress.Some? <==> uploadJobs[jobId].status == Processing)
      ensures jobId in uploadJobs && uploadJobs[jobId].status == Processing ==>
        r.value.analysisProgress.value ==
          (if jobId in analysisProgress then analysisProgress[jobId] else ProgressEntry(0.0, StartingStatus, now))
    {
      var job := GetJob(jobId);
      if job.None? {
        return Err(JobNotFoundMessage);
      }
      var prog := None;
      if job.value.status == Processing {
        var p := GetAnalysisProgress(jobId, now);
        prog := Some(p);
      }
      r := Ok(StatusView(job.value, prog));
    }

    /** `get_upload_analysis_progress`: the upload counts as complete once its progress has
        reached 100. */
    method GetUploadAnalysisProgress(jobId: string, now: string) returns (r: Result<AnalysisView>)
      ensures jobId !in uploadJobs ==> r == Err(JobNotFoundMessage)
      ensures jobId in uploadJobs ==>
        var p := if jobId in analysisProgress then analysisProgress[jobId] else ProgressEntry(0.0, StartingStatus, now);
        r == Ok(AnalysisView(jobId, uploadJobs[jobId].progress >= 100.0, p.progress, p.status, uploadJobs[jobId].status))
    {
      var job := GetJob(jobId);
      if job.None? {
        return Err(JobNotFoundMessage);
      }
      var p := GetAnalysisProgress(jobId, now);
      r := Ok(AnalysisView(jobId, job.value.progress >= 100.0, p.progress, p.status, job.value.status));
    }

    /** `analyze_uploaded_data_optimized` for job `jobId`: the tabs, with every checkpoint
        reported to `analysis_progress` in order, the last one being 100% "Analysis
        completed!". */
    method AnalyzeUploadedDataOptimized(graph: seq<Triple>, federalState: string, graphName: string,
                                        sparqlEndpoint: string, jobId: string, now: string)
      returns (tabs: seq<Tab>)
      modifies this
      ensures tabs == AnalysisTabs(graph, federalState, graphName, sparqlEndpoint, classDefinitionsCount, uriToClass)
      ensures analysisLog == old(analysisLog)[jobId := LogOf(old(analysisLog), jobId) + GraphCheckpoints(graph, uriToClass)]
      ensures analysisProgress == old(analysisProgress)[jobId := ProgressEntry(100.0, CompletedStatus, now)]
      ensures uploadJobs == old(uploadJobs)
    {
      var cps;
      tabs, cps := AnalyzeUploadedData(graph, federalState, graphName, sparqlEndpoint, classDefinitionsCount, uriToClass);
      var pairs := TypeAssertions(graph);
      CheckpointsMonotone(|graph|, |pairs|, |FoundClasses(pairs, uriToClass)|);
      ReportCheckpoints(jobId, cps, now);
    }

    /** The `update_analysis_progress` calls of one analysis, in order. */
    method ReportCheckpoints(jobId: string, cps: seq<Checkpoint>, now: string)
      requires cps != []
      modifies this
      ensures analysisLog == old(analysisLog)[jobId := LogOf(old(analysisLog), jobId) + cps]
      ensures analysisProgress == old(analysisProgress)[jobId := ProgressEntry(cps[|cps| - 1].progress, cps[|cps| - 1].status, now)]
      ensures uploadJobs == old(uploadJobs)
    {
      ghost var log0 := LogOf(analysisLog, jobId);
      for k := 0 to |cps|
        invariant k == 0 ==> analysisLog == old(analysisLog) && analysisProgress == old(analysisProgress)
        invariant k > 0 ==> analysisLog == old(analysisLog)[jobId := log0 + cps[..k]]
        invariant k > 0 ==> analysisProgress == old(analysisProgress)[jobId := ProgressEntry(cps[k - 1].progress, cps[k - 1].status, now)]
        invariant uploadJobs == old(uploadJobs)
      {
        assert cps[..k + 1] == cps[..k] + [cps[k]];
        assert log0 + cps[..k + 1] == (log0 + cps[..k]) + [cps[k]];
        assert LogOf(analysisLog, jobId) == log0 + cps[..k] by {
          if k == 0 {
            assert log0 + cps[..0] == log0;
          }
        }
        UpdateAnalysisProgress(jobId, cps[k].progress, cps[k].status, now);
      }
      assert cps[..|cps|] == cps;
    }

    /** `process_upload_async`: nothing happens for an unknown job. Otherwise the graph is
        pushed in 2000-triple batches; every callback updates the job's progress until one
        raises, which fails the job with the error text; a failed push fails the job with
        "Failed to upload data to Virtuoso"; only when all pushes succeeded is the graph
        analysed and the job completed with the tabs. */
    method ProcessUploadAsync(jobId: string, graph: seq<Triple>, federalState: string,
                              push: nat -> nat -> Virtuoso.Attempt, now: string)
      requires Valid()
      modifies this
      ensures Valid()
      ensures jobId !in old(uploadJobs) ==>
        uploadJobs == old(uploadJobs) && analysisProgress == old(analysisProgress) && analysisLog == old(analysisLog)
      ensures jobId in old(uploadJobs) ==>
        uploadJobs == old(uploadJobs)[jobId := Outcome(old(uploadJobs)[jobId], graph, federalState, push, classDefinitionsCount, uriToClass)]
      ensures jobId in old(uploadJobs) && AnalysisRuns(old(uploadJobs)[jobId], graph, push) ==>
        && analysisProgress == old(analysisProgress)[jobId := ProgressEntry(100.0, CompletedStatus, now)]
        && analysisLog == old(analysisLog)[jobId := LogOf(old(analysisLog), jobId) + GraphCheckpoints(graph, uriToClass)]
      ensures jobId in old(uploadJobs) && !AnalysisRuns(old(uploadJobs)[jobId], graph, push) ==>
        analysisProgress == old(analysisProgress) && analysisLog == old(analysisLog)
    {
      var found := GetJob(jobId);
      if found.None? {
        return;
      }
      var job := found.value;
      var raised, allPushed := PushGraph(jobId, job, graph, federalState, push);
      ghost var pushedJobs := uploadJobs;
      ghost var outcome := Outcome(job, graph, federalState, push, classDefinitionsCount, uriToClass);
      if raised.Some? {
        FailJob(jobId, raised.value);
        UpdateTwice(old(uploadJobs), jobId, pushedJobs[jobId], outcome);
        return;
      }
      ghost var tabs := AnalysisTabs(graph, federalState, GraphBase + federalState, LocalSparqlEndpoint, classDefinitionsCount, uriToClass);
      assert outcome == Finished(pushedJobs[jobId], allPushed, tabs);
      FinishUpload(jobId, graph, federalState, allPushed, now);
      UpdateTwice(old(uploadJobs), jobId, pushedJobs[jobId], outcome);
    }

    /** The batch upload of `process_upload_async` with its progress callback: whether every
        push succeeded, and the error of a raising callback. */
    method PushGraph(jobId: string, job: UploadJob, graph: seq<Triple>, federalState: string,
                     push: nat -> nat -> Virtuoso.Attempt)
      returns (raised: Option<string>, allPushed: bool)
      requires Valid() && jobId in uploadJobs && uploadJobs[jobId] == job
      modifies this
      ensures Valid()
      ensures allPushed == (FirstFailedBatch(graph, push) == |UploadPlan(graph)|)
      ensures raised.Some? <==> CallbackRaises(job, graph, push)
      ensures raised.Some? ==>
        && raised == Some(DivisionByZeroMessage)
        && uploadJobs == old(uploadJobs)[jobId := job.(currentBatch := UploadReports(graph, push)[0].batch,
                                                       processedTriples := UploadReports(graph, push)[0].processed)]
      ensures raised.None? ==>
        uploadJobs == old(uploadJobs)[jobId := if job.totalTriples > 0 then ApplyReports(job, UploadReports(graph, push)) else job]
      ensures analysisProgress == old(analysisProgress) && analysisLog == old(analysisLog)
    {
      var graphUri := GraphBase + federalState;
      var success, pushed, reports := Virtuoso.StoreDataToGraphInBatches(graphUri, graph, UploadBatchSize, push);
      assert success == Ok(FirstFailedBatch(graph, push) == |UploadPlan(graph)|) && reports == UploadReports(graph, push);
      raised := ApplyProgressReports(jobId, job, reports);
      allPushed := success.value;
    }

    /** The end of `process_upload_async` once the callbacks are done: a failed push fails the
        job, otherwise the graph is analysed and the job completed with the tabs. */
    method FinishUpload(jobId: string, graph: seq<Triple>, federalState: string, allPushed: bool, now: string)
      requires Valid() && jobId in uploadJobs
      modifies this
      ensures Valid()
      ensures uploadJobs == old(uploadJobs)[jobId := Finished(old(uploadJobs)[jobId], allPushed,
        AnalysisTabs(graph, federalState, GraphBase + federalState, LocalSparqlEndpoint, classDefinitionsCount, uriToClass))]
      ensures !allPushed ==> analysisProgress == old(analysisProgress) && analysisLog == old(analysisLog)
      ensures allPushed ==>
        && analysisProgress == old(analysisProgress)[jobId := ProgressEntry(100.0, CompletedStatus, now)]
        && analysisLog == old(analysisLog)[jobId := LogOf(old(analysisLog), jobId) + GraphCheckpoints(graph, uriToClass)]
    {
      if !allPushed {
        FailJob(jobId, UploadFailedMessage);
        return;
      }
      var graphUri := GraphBase + federalState;
      var resultData := AnalyzeUploadedDataOptimized(graph, federalState, graphUri, LocalSparqlEndpoint, jobId, now);
      CompleteJob(jobId, resultData);
    }

    /** The progress callback of `process_upload_async`, fired for each of `reports` in
        order until one raises. */
    method ApplyProgressReports(jobId: string, job: UploadJob, reports: seq<Virtuoso.Report>) returns (raised: Option<string>)
      requires Valid() && jobId in uploadJobs && uploadJobs[jobId] == job
      modifies this
      ensures Valid()
      ensures job.totalTriples == 0 && reports != [] ==>
        && raised == Some(DivisionByZeroMessage)
        && uploadJobs == old(uploadJobs)[jobId := job.(currentBatch := reports[0].batch, processedTriples := reports[0].processed)]
      ensures job.totalTriples == 0 && reports == [] ==> raised.None? && uploadJobs == old(uploadJobs)
      ensures job.totalTriples > 0 ==> raised.None? && uploadJobs == old(uploadJobs)[jobId := ApplyReports(job, reports)]
      ensures analysisProgress == old(analysisProgress) && analysisLog == old(analysisLog)
    {
      raised := None;
      for i := 0 to |reports|
        invariant Valid()
        invariant raised.None?
        invariant job.totalTriples == 0 ==> i == 0 && uploadJobs == old(uploadJobs)
        invariant job.totalTriples > 0 ==> uploadJobs == old(uploadJobs)[jobId := ApplyReports(job, reports[..i])]
        invariant analysisProgress == old(analysisProgress) && analysisLog == old(analysisLog)
      {
        raised := UpdateJobProgress(jobId, reports[i].batch, reports[i].processed);
        if raised.Some? {
          return;
        }
        assert reports[..i + 1][..i] == reports[..i];
      }
      assert reports[..|reports|] == reports;
    }

    /** `upload_file` with the parse of the file's content given: the checks come first and
        in order, then a parse error is reported; only then is a job created, for the parsed
        triples. */
    method UploadFile(file: Option<string>, federalState: string, parsed: Result<seq<Triple>>,
                      jobId: string, timestamp: string)
      returns (r: Result<UploadStarted>)
      requires Valid()
      modifies this
      ensures Valid()
      ensures ValidationError(file, federalState).Some? ==>
        r == Err(ValidationError(file, federalState).value) && uploadJobs == old(uploadJobs)
      ensures ValidationError(file, federalState).None? && parsed.Err? ==>
        r == Err("Failed to start upload: " + parsed.error) && uploadJobs == old(uploadJobs)
      ensures ValidationError(file, federalState).None? && parsed.Ok? ==>
        && r == Ok(UploadStarted(jobId, file.value, federalState, |parsed.value|))
        && uploadJobs == old(uploadJobs)[jobId := NewJob(jobId, file.value, federalState, timestamp, |parsed.value|)]
      ensures analysisProgress == old(analysisProgress) && analysisLog == old(analysisLog)
    {
      if file.None? {
        return Err("No file provided");
      }
      var filename := file.value;
      if filename == "" {
        return Err("No file selected");
      }
      var lowered := Lower(filename);
      if !(|lowered| >= 4 && lowered[|lowered| - 4..] == ".ttl") {
        return Err("File must be a TTL file");
      }
      if federalState == "" {
        return Err("Federal state is required");
      }
      if parsed.Err? {
        return Err("Failed to start upload: " + parsed.error);
      }
      var graph := parsed.value;
      var id := CreateUploadJob(jobId, filename, federalState, |graph|, timestamp);
      r := Ok(UploadStarted(id, filename, federalState, |graph|));
    }
  }
}
