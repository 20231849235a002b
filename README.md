# Curricula viewer upload backend, modelled in Dafny

The backend accepts a Turtle file holding a curriculum graph for one federal state. It
creates an upload job and pushes the parsed triples to a Virtuoso triple store in batches of
2000. Along the way it records the job's progress, then analyses the graph into tabs: a
summary tab followed by one table tab per known class. A separate script builds the class
catalogue of an ontology.

The model covers four parts.

- **Job store** (`app.dfy`, module `App`). The class `AppState` holds two maps:
  - `uploadJobs`: job id to `UploadJob`;
  - `analysisProgress`: job id to the latest analysis checkpoint.

  It also has constants for the class definitions and the SPARQL endpoint. There is one
  method per operation:
  - `create_upload_job`, `update_job_progress`, `complete_job`, `fail_job`, `get_job`;
  - `force_complete_job`;
  - `update_analysis_progress`, `get_analysis_progress`;
  - the two status views;
  - `process_upload_async`;
  - `upload_file`.

  The ghost field `analysisLog` records every analysis checkpoint reported, per job. Pure
  functions state what each update does to one job (`NewJob`, `WithProgress`, `Completed`,
  `FailedWith`) and how a whole background upload ends (`Outcome`). The module
  `AppProperties` (`app_lemmas.dfy`) proves what that means for a job created for its graph.
- **Triple store client** (`virtuoso.dfy`, module `Virtuoso`).
  - `storeDataToGraph` is the bounded retry loop of one push. The network is an oracle: a
    function from attempt number to `Attempt`.
  - `storeDataToGraphInBatches` is the batch loop. It cuts the graph into batches with an
    inner loop that draws from a shared iterator position. The push of batch `k` is the
    oracle `push(k)`. The progress callback is returned as the trace of `Report`s it would
    receive.

  The spec functions `Plan`, `FirstFailure` and `Reports` describe the loop's result, and
  lemmas prove the shape of the batches and of the callback trace.
- **Analysis** (`analysis.dfy`, module `Analysis`; `progress.dfy`, module `Progress`;
  `analysis_lemmas.dfy`, module `AnalysisProperties`). `analyze_uploaded_data_optimized` is
  a sequence of loops:
  1. collect the `rdf:type` assertions;
  2. group the subjects under the known classes in first-seen order;
  3. build the class list and sort it by instance count (stable, largest first);
  4. build one table tab per class, with the instance labels.

  Each loop is a method proved against a spec function. Every `update_analysis_progress`
  value the analysis reports is a `Checkpoint`; the trace never decreases and ends at 100.
- **Class catalogue** (`extract_classes.dfy`, module `ExtractClasses`).
  `extract_classes_from_ttl` makes two passes over the parsed graph, both imperative:
  - the first collects classes;
  - the second fills each class's labels and comment, with the language-tag rules and the
    fill-if-unset fallback.

  A label whose object is not a literal raises `AttributeError` in the source. The model
  returns `Err` for it.

Triples are values of `Rdf.Triple`. The subject and predicate are strings, and the object is
an IRI, a blank node or a literal with an optional language tag. A parsed graph is a
sequence of distinct triples. The parse itself is a parameter: `upload_file` receives it as
a `Result`, and a decode or parse failure is its `Err`. Fresh job ids and timestamps are
parameters too. Every call on `AppState` is one atomic step.

Behaviour of the code that the model keeps:
- **Empty upload.** A file with no triples is not rejected by the checks. A job of 0 triples
  is created, and its single push is the whole empty graph.
  - If that push succeeds, the callback `(1, 0, 0)` divides by zero. `update_job_progress`
    assigns the batch and the count before that division. The job then fails with
    "division by zero".
  - If the push fails, the job fails with "Failed to upload data to Virtuoso".

  So the job always ends failed (`AppProperties.EmptyUpload`), and the error is not a
  validation message.
- **Status writes are not guarded.** `complete_job` and `fail_job` do not check the job's
  current status. In one background upload, though, exactly one terminal write happens. The
  model states this through `Outcome`, not as a store invariant.
- **Label keys differ between the two files.** The catalogue script writes the keys
  `german_label` and `english_label`. The analysis reads `label_de`, `label_en` and
  `display_label` from `class_definitions.json`. The two files are modelled as written.
  `Analysis.ClassInfo` carries the keys the analysis reads.

## Model

| member | source | states |
|---|---|---|
| App.BatchCount | backend/app.py:63 | `(n + 1999) // 2000` is the ceiling of n / 2000: enough 2000-triple batches for n, and one fewer is not |
| App.NewJob | backend/app.py:66-77 | the new record is processing, progress 0, no triples processed, batch 0, no error, no result, with the given id, name, state, time and triple count and `ceil(n/2000)` batches |
| App.WithProgress | backend/app.py:85-88 | progress update of a job with triples: the batch and processed count are the given ones, progress is processed / total * 100, every other field is unchanged |
| App.Completed | backend/app.py:94-97 | `complete_job` on one record: status success, progress 100, the result stored; counters and error message unchanged |
| App.FailedWith | backend/app.py:103-105 | `fail_job` on one record: status failed and the error message set; progress, counters and result unchanged |
| App.ApplyReports | backend/app.py:217-218 | after a sequence of callbacks the job carries the last callback's batch and count (unchanged if none fired) |
| App.Outcome | backend/app.py:205-246 | the record `process_upload_async` leaves: a raising callback fails the job with its text; otherwise the callbacks' progress, then completed with the analysis tabs exactly when every push succeeded, else failed with the upload message (its properties are the `AppProperties` lemmas) |
| App.ValidationError | backend/app.py:420-433 | the checks in order: no file, empty name, not `.ttl` (any case), empty federal state; no error exactly when all four pass |
| App.AppState.constructor | backend/app.py:40-52 | both stores start empty; `URI_TO_CLASS` is built from the definitions; the endpoint is `VIRTUOSO_URL` (default `http://localhost:8890`) plus `/sparql`, as backend/app.py:113-114 builds it |
| App.AppState.CreateUploadJob | backend/app.py:60-79 | inserts exactly the record `NewJob` describes under the given id, returns that id, and keeps every job filed under its own id with the batch count of its triples |
| App.AppState.UpdateJobProgress | backend/app.py:81-88 | unknown id: store unchanged; known job of 0 triples: batch and count assigned, then division by zero raised; otherwise the job becomes `WithProgress` of itself |
| App.AppState.CompleteJob | backend/app.py:90-97 | known id: the job becomes `Completed` whatever its status; unknown id: nothing changes |
| App.AppState.FailJob | backend/app.py:99-105 | known id: the job becomes `FailedWith` the message whatever its status; unknown id: nothing changes |
| App.AppState.GetJob | backend/app.py:107-110 | returns the stored job exactly when the id is in the store |
| App.AppState.ForceCompleteJob | backend/app.py:167-200 | unknown id: not found; a job not in processing: refused; both leave the store unchanged; otherwise the job is completed with one summary tab whose triple count is the job's total |
| App.AppState.UpdateAnalysisProgress | backend/app.py:401-408 | overwrites the job's analysis progress entry with the value, status and time; the job store is unchanged |
| App.AppState.GetAnalysisProgress | backend/app.py:411-413 | the stored entry, or 0 % "Starting..." when there is none |
| App.AppState.GetUploadStatus | backend/app.py:121-137 | unknown id: not found; otherwise the job, together with its analysis progress exactly while it is processing |
| App.AppState.GetUploadAnalysisProgress | backend/app.py:139-153 | unknown id: not found; otherwise the upload counts as complete exactly when its progress is at least 100, with the analysis progress and the job's status |
| App.AppState.AnalyzeUploadedDataOptimized | backend/app.py:248-396 | returns the analysis tabs of the graph and reports every analysis checkpoint in order; the last entry stored is 100 % "Analysis completed!" |
| App.AppState.ReportCheckpoints | backend/app.py:280-284 | the `update_analysis_progress` calls in order: the log grows by exactly the checkpoints and the stored entry is the last one |
| App.AppState.ProcessUploadAsync | backend/app.py:205-246 | unknown job: nothing changes; otherwise the job ends as `Outcome` says. The analysis is reported exactly when every push succeeded and no callback raised; else the analysis store is untouched |
| App.AppState.PushGraph | backend/app.py:213-228 | the batch upload of the graph at `http://localhost:8080/graph/<state>` in 2000-triple batches: whether every push succeeded, and the division error exactly when the callback raises |
| App.AppState.FinishUpload | backend/app.py:230-240 | a failed upload fails the job with "Failed to upload data to Virtuoso" and runs no analysis; otherwise the job is completed with the analysis tabs |
| App.AppState.ApplyProgressReports | backend/app.py:217-218 | each callback updates the job in turn; for a job of 0 triples the first callback raises after assigning its batch and count |
| App.AppState.UploadFile | backend/app.py:415-467 | a failed check is answered with its message and no job; a parse error likewise; otherwise one job `NewJob` of the parsed triple count is created and reported |
| AppProperties.PercentBounds | backend/app.py:88 | the percentage lies in 0..100, grows strictly with the processed count, and is 100 exactly when every triple is processed |
| AppProperties.PlanLengthIsBatchCount | backend/app.py:63 | for a non-empty graph the batch count stored at creation is the number of batches the upload pushes; an empty graph stores 0 batches and still pushes once (see `AppProperties.EmptyUpload`) |
| AppProperties.CallbackProgressClimbs | backend/app.py:217-228 | during an upload the job's progress climbs strictly with each callback and never exceeds 100; callback k reports batch k+1 |
| AppProperties.OutcomeWhenCallbackRaises | backend/app.py:217-218 | a callback raises only after the first push succeeded; the job then fails with "division by zero", carrying batch 1 and the size of the first batch, and nothing else about it changes |
| AppProperties.StoredJobCreatedFor | backend/app.py:60-79 | every stored job is filed under its own id with the batch count of its triples, so a job of the graph's size was created for that graph |
| AppProperties.UploadSucceedsIff | backend/app.py:205-246 | a background upload never stays processing; it succeeds exactly when the graph is non-empty and every batch push succeeds |
| AppProperties.LastReportOfFullUpload | backend/app.py:223-228 | when every push succeeds the last callback reports the job's batch count and every triple |
| AppProperties.SuccessfulUpload | backend/app.py:237-240 | a successful upload stores the analysis tabs with progress 100, every triple processed and the last batch reached; nothing else about the job changes |
| AppProperties.FailedPushUpload | backend/app.py:230-232 | a failed push fails the job with "Failed to upload data to Virtuoso" and no result; after earlier successes it keeps their batch and count, short of 100 % |
| AppProperties.EmptyUpload | backend/app.py:81-88 | an empty graph always ends failed: "division by zero" after the callback (1, 0, 0) when the push succeeds, the upload failure otherwise |
| AppProperties.TtlExtensionIgnoresCase | backend/app.py:429 | the extension check accepts exactly names ending in '.', t, t, l, each letter in either case |
| Virtuoso.FirstResponseFrom | backend/virtuoso.py:47-61 | the retry loop stops at the first attempt that yields a response, no later than the fifth |
| Virtuoso.StoreDataToGraph | backend/virtuoso.py:27-73 | an empty graph name raises before any POST; otherwise the result is whether the first response has status 200 or 201 (false if none), after the attempts up to that response |
| Virtuoso.PushSucceedsIff | backend/virtuoso.py:47-73 | a push succeeds exactly when some attempt answers 200 or 201 and every earlier attempt yielded no response |
| Virtuoso.PostsMadeBounds | backend/virtuoso.py:47-52 | a push makes between 1 and 5 POSTs; fewer than 5 only if the last one was answered |
| Virtuoso.Reports | backend/virtuoso.py:139-144 | one callback per successful batch before the first failure |
| Virtuoso.FirstFailureFrom | backend/virtuoso.py:133-137 | the first batch whose push fails, all earlier ones having succeeded |
| Virtuoso.StoreDataToGraphInBatches | backend/virtuoso.py:75-151 | empty name raises before any push; batch size 0 raises on a non-empty graph; otherwise pushes the plan up to and including the first failure, returns whether none failed, and fires one callback per successful batch |
| Virtuoso.PushChunks | backend/virtuoso.py:102-151 | the batch loop: the batches of the plan are pushed in order up to the first failure, with their callbacks |
| Virtuoso.PushNextBatch | backend/virtuoso.py:108-144 | one turn of the loop pushes the next batch and, on success only, fires its callback with the running total |
| Virtuoso.NextBatch | backend/virtuoso.py:115-124 | the inner loop draws the next `min(batch_size, remaining)` triples in order |
| Virtuoso.TotalBatches | backend/virtuoso.py:102 | `(n + b - 1) // b` is the number of batches the loop cuts |
| Virtuoso.ChunksCount | backend/virtuoso.py:102-127 | the chunking makes `ceil(m / b)` batches of m remaining triples |
| Virtuoso.ChunksShape | backend/virtuoso.py:115-127 | every batch but the last holds exactly b triples and none is empty, so the empty-batch break never fires |
| Virtuoso.Plan | backend/virtuoso.py:92-127 | the batches the upload pushes when all succeed: the whole graph once if it fits one batch, else consecutive runs of `batch_size` triples (characterised by `Virtuoso.PlanShape`) |
| Virtuoso.PlanShape | backend/virtuoso.py:92-127 | a small graph is one push of the whole graph; a large one is `ceil(n/b)` batches, all full but the last; the batches concatenate back to the graph |
| Virtuoso.ReportsAt | backend/virtuoso.py:139-144 | callback k receives batch k+1, the size of batches 1..k+1 and n |
| Virtuoso.ProcessedIncreasing | backend/virtuoso.py:139-144 | the processed counts the callback receives increase strictly, never exceed n, and end at n when every batch was pushed |
| Virtuoso.AllPushesSucceedIff | backend/virtuoso.py:108-151 | the batch upload returns true exactly when every planned push succeeded |
| Virtuoso.ThreeBatchesOf250 | backend/virtuoso.py:102-144 | 250 triples in batches of 100 give callbacks (1, 100), (2, 200), (3, 250) |
| Progress.AnalysisCheckpoints | backend/app.py:275-395 | the `update_analysis_progress` calls of an analysis in order: a scan checkpoint every 50000 triples, 50 %, a grouping checkpoint every 10000 assertions, 80 %, 90 %, a tab checkpoint every 5 tabs, 100 % (characterised by `Progress.CheckpointsMonotone`) |
| Progress.ScanMonotone | backend/app.py:275-284 | the scan checkpoints never decrease and stay within 0..50 |
| Progress.GroupMonotone | backend/app.py:290-302 | the grouping checkpoints never decrease and stay within 50..80 |
| Progress.TabMonotone | backend/app.py:351-392 | the tab checkpoints never decrease and stay within 90..100 |
| Progress.CheckpointsMonotone | backend/app.py:275-395 | the whole analysis trace never decreases, stays within 0..100 and ends at 100 % "Analysis completed!" |
| Analysis.TypeAssertions | backend/app.py:272-285 | `type_triples`: the (subject, object) pair of each `rdf:type` triple, in order (characterised by `AnalysisProperties.TypeAssertionsAre` and `AnalysisProperties.TypeAssertionsAppend`) |
| Analysis.ClassLabel | backend/app.py:313 | the class label chain: the first of `label_de`, `label_en` and `display_label` present in the definition (a present key wins even if empty), else the part of the uri after its last '/' |
| Analysis.SortByCount | backend/app.py:321 | the stable sort of the class list, largest instance count first (characterised by `AnalysisProperties.SortByCountSorts` and `AnalysisProperties.SortByCountStable`) |
| Analysis.AnalysisTabs | backend/app.py:248-396 | the tabs the analysis returns: the summary tab, then one table tab per found class (characterised by `AnalysisProperties.TabsLayout` and `AnalysisProperties.SummaryLayout`) |
| Analysis.BuildUriToClass | backend/app.py:49-52 | the start-up loop builds exactly `URI_TO_CLASS` |
| Analysis.ExtractTypeAssertions | backend/app.py:272-285 | collects the (subject, class) pair of every `rdf:type` triple in order, reporting every 50000 triples |
| Analysis.GroupByClass | backend/app.py:287-302 | groups the subjects under the known classes in first-seen order, reporting every 10000 assertions |
| Analysis.GroupStep | backend/app.py:290-296 | one assertion of a known class appends its subject under that class and adds the class at the end if new; any other leaves the grouping unchanged |
| Analysis.FoundClassesKnown | backend/app.py:292 | every grouped class is a key of `URI_TO_CLASS` |
| Analysis.InstancesOfUnseen | backend/app.py:290-296 | a known class that no assertion names has no instances |
| Analysis.ClassAnalysis | backend/app.py:310-319 | one class-list entry per grouped class, in grouping order, with its label and instance count |
| Analysis.CollectInstanceLabels | backend/app.py:360-366 | the label map of a tab's instances |
| Analysis.InstanceRows | backend/app.py:368-376 | one row per instance, in order |
| Analysis.CreateClassTabs | backend/app.py:349-392 | one table tab per grouped class in grouping order, reporting every 5 tabs |
| Analysis.ClassTab | backend/app.py:352-387 | the table tab of one class |
| Analysis.AnalyzeUploadedData | backend/app.py:248-396 | the tabs of the analysis and its checkpoints, in the order the source reports them |
| AnalysisProperties.TypeAssertionsAppend | backend/app.py:275-285 | the pairs of two parts of the graph are those of the first followed by those of the second, so they keep the order of their triples |
| AnalysisProperties.TypeAssertionsAre | backend/app.py:275-285 | `type_triples` holds exactly the (subject, object) pairs of the `rdf:type` triples |
| AnalysisProperties.UriToClassKeys | backend/app.py:49-52 | `URI_TO_CLASS` holds exactly the truthy uris of the definitions, each mapped to a definition with that uri |
| AnalysisProperties.UriToClassLastWins | backend/app.py:49-52 | of several definitions with the same uri, the last one is kept |
| AnalysisProperties.FoundClassesAre | backend/app.py:287-302 | the grouping's classes are exactly the known classes some assertion names, each once, in first-seen order |
| AnalysisProperties.FoundClassesCount | backend/app.py:327 | `foundClassesCount` is the number of distinct known classes with an instance |
| AnalysisProperties.InstancesOfAre | backend/app.py:290-296 | the instances of a class are the subjects asserted to be of it; there are some exactly when some assertion names it |
| AnalysisProperties.SortByCountSorts | backend/app.py:321 | the sort yields a permutation of its input ordered by instance count, largest first |
| AnalysisProperties.SortByCountStable | backend/app.py:321 | the sort is stable: entries of equal count keep their order |
| AnalysisProperties.ClassEntriesAt | backend/app.py:310-319 | the k-th unsorted entry describes the k-th class, with its label chain and its instance count |
| AnalysisProperties.LabelMapIs | backend/app.py:360-366 | an instance has a collected label exactly when some `rdfs:label` triple is about it, and it is the last such label |
| AnalysisProperties.RowsAt | backend/app.py:368-376 | one row per instance, in order, each with the instance's label |
| AnalysisProperties.InstanceLabelFallback | backend/app.py:369-371 | an instance's label is its collected label when non-empty, else the part after the last '/', else the uri itself |
| AnalysisProperties.ClassTabsAt | backend/app.py:351-387 | the k-th table tab is the tab of the k-th class |
| AnalysisProperties.TabOfRows | backend/app.py:352-387 | a table tab is labelled with the class label and instance count and holds one row per instance |
| AnalysisProperties.TabsLayout | backend/app.py:340-395 | the analysis yields the summary tab followed by exactly one table tab per found class, in grouping order |
| AnalysisProperties.ClassListSorted | backend/app.py:310-328 | the class list is sorted by instance count and is a permutation of the found classes' entries |
| AnalysisProperties.ClassListHasAll | backend/app.py:310-328 | every found class has its entry, with its instance count, in the class list |
| AnalysisProperties.ClassListOnlyFound | backend/app.py:310-328 | every class-list entry is about a found class and counts its (at least one) instances |
| AnalysisProperties.SummaryLayout | backend/app.py:256-345 | the summary tab reports the triple count, the definitions loaded, the found-class count and the class list |
| ExtractClasses.Annotate | backend/extract_classes.py:42-59 | what one triple does to a class entry: a `de` or `en` label overwrites its field, an untagged label fills each unset or empty field, other tags and other triples change nothing, a comment overwrites, and a non-literal label raises (characterised by the lemmas below) |
| ExtractClasses.ExtractClassesFromTtl | backend/extract_classes.py:11-61 | a parse failure yields the empty catalogue; otherwise the result of the two passes, failing at the first non-literal label |
| ExtractClasses.CollectClasses | backend/extract_classes.py:25-36 | the first pass inserts every declared class once, in first-seen order, with no labels and no comment |
| ExtractClasses.AnnotateEntry | backend/extract_classes.py:39-59 | the second pass for one class updates only that class's entry, as the label and comment rules say |
| ExtractClasses.EntriesKeys | backend/extract_classes.py:31-36 | the catalogue's keys are the collected classes, and each entry's uri is its key |
| ExtractClasses.UriKept | backend/extract_classes.py:41-59 | the second pass never changes an entry's uri |
| ExtractClasses.DeclaredClassesAre | backend/extract_classes.py:26-30 | a class is collected exactly when some triple declares it (`rdf:type owl:Class`, `rdf:type rdfs:Class` or `rdfs:subClassOf`), each once |
| ExtractClasses.CatalogKeys | backend/extract_classes.py:16-36 | the catalogue's keys are exactly the declared classes, each entry carrying its own uri; a parse failure gives the empty catalogue |
| ExtractClasses.AnnotateAllFailsIff | backend/extract_classes.py:43-46 | annotating a class raises exactly when some label about it is not a literal |
| ExtractClasses.CatalogFailsIff | backend/extract_classes.py:39-46 | extraction raises exactly when some declared class has a non-literal label |
| ExtractClasses.TruthyLabelsKept | backend/extract_classes.py:50-55 | an untagged label never replaces a non-empty German or English label |
| ExtractClasses.LastTaggedLabelWins | backend/extract_classes.py:46-49 | the last `de`-tagged (resp. `en`-tagged) non-empty label is the German (resp. English) label, whatever untagged labels follow |
| ExtractClasses.FalsyGermanKept | backend/extract_classes.py:50-53 | without `de` labels and without non-empty untagged labels the German label stays unset or empty |
| ExtractClasses.FirstUntaggedLabelFillsGerman | backend/extract_classes.py:50-53 | without a `de`-tagged label the German label is the first non-empty untagged one |
| ExtractClasses.FalsyEnglishKept | backend/extract_classes.py:48-55 | without `en` labels and without non-empty untagged labels the English label stays unset or empty |
| ExtractClasses.FirstUntaggedLabelFillsEnglish | backend/extract_classes.py:50-55 | without an `en`-tagged label the English label is the first non-empty untagged one |
| ExtractClasses.CommentKept | backend/extract_classes.py:36 | a class with no comment triple keeps its comment (None) |
| ExtractClasses.CommentIsLast | backend/extract_classes.py:57-59 | the comment is that of the last comment triple about the class |
| ExtractClasses.OnlyRelevantTriplesMatter | backend/extract_classes.py:41-59 | triples about other subjects, other predicates and labels in other languages change nothing |
| ExtractClasses.IrrelevantTripleIgnored | backend/extract_classes.py:42-57 | one such triple leaves the entry as it is |
| Common.LastSegmentIs | backend/app.py:313 | `split('/')[-1]` is the suffix after the last '/', itself without '/' |
| Common.LastSegmentOfPlain | backend/app.py:371 | a uri without '/' is its own last segment |
| Common.NatToString | backend/app.py:379 | `str(n)` is a non-empty string of decimal digits whose first digit is not 0 when n > 0 |
| Common.NatToStringRoundTrip | backend/app.py:379 | the digits of `str(n)` spell n, so a tab label and a tab-progress status show the true counts |
| Common.NatToStringInjective | backend/app.py:392 | different counts are written differently |
| Common.Lower | backend/app.py:429 | `lower()` keeps the length and lowers each letter |

## Left out

- Web layer: Flask routing, CORS, JSON serialisation, HTTP status codes, `MAX_CONTENT_LENGTH`
  and `/health`. Only the decision each endpoint makes is modelled.
- `get_all_jobs` (`/upload/jobs`, backend/app.py:155-165): a debug listing that only reads the
  store.
- Threads and `job_lock`. Every store call is one atomic step, and the background upload runs
  to its end inside one call of `ProcessUploadAsync`. The unlocked `analysis_progress` dict is
  therefore not modelled as shared state.
- rdflib parsing and serialisation. The parse result is a parameter of `UploadFile` and
  `ExtractClassesFromTtl`. A UTF-8 decode error and a parse error are both its `Err`. A graph
  is a sequence of distinct triples in iteration order.
- The network. `requests`, digest authentication, the urllib3 retry adapter, timeouts and
  `time.sleep` become an oracle of attempt outcomes. The adapter's own retries are part of
  what one attempt yields.
- `uuid.uuid4` and `datetime.now` are parameters. A colliding fresh id overwrites the old job,
  as a dict assignment does. The timestamp is stored as text.
- App.AppState.AnalyzeUploadedDataOptimized: one `now` stamps every progress entry of an
  analysis, where the source reads the clock at each update.
- Floating point. Progress is a Dafny `real`, so float rounding is not modelled.
- App.AppState.ProcessUploadAsync: the callbacks are applied after the batch loop rather than
  during it. A push after a callback that raised is therefore not modelled. A callback can
  raise only for a job of 0 triples, whose single push is the last one, so the final job
  record is the same.
- All `print` logging.
- The German text of the summary tab's `content` (backend/app.py:331-338) and the `content`
  string of the force-complete result (backend/app.py:181). The string formatting of floats
  and lists has no counterpart here.
- Loading `class_definitions.json` at start-up (backend/app.py:44-46). Its values are a
  constructor parameter. JSON `null` values are not distinguished from missing keys in the
  label chain: a key is present or absent.
- `main()` of backend/extract_classes.py (file search, `json.dump`, statistics).
- Common.Lower: only ASCII letters are lowered. Python's `str.lower` handles all of Unicode.
- The `except` branch of `force_complete_job` (backend/app.py:202-203): no statement of the
  modelled body can raise.
- The SPARQL endpoint string the background job passes to the analysis is the hard-coded
  local one (backend/app.py:214). `VIRTUOSO_URL` is used only by `force_complete_job` and is a
  constructor parameter.
