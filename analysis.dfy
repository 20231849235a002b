/** `analyze_uploaded_data_optimized` and the `URI_TO_CLASS` lookup it relies on. The analysis
    keeps the `rdf:type` assertions of the uploaded graph, groups their subjects by the known
    classes they are asserted to belong to (first-seen order), labels each class and each
    instance, sorts the class list by instance count and lays the result out as one summary
    tab followed by one table tab per class. The progress it reports on the way is returned
    as a checkpoint trace. */
module Analysis {
  import opened Common
  import opened Rdf
  import opened Progress

  // ---------------------------------------------------------------------------
  // Data

  /** An entry of the class definitions file as the backend reads it with `dict.get`: each
      key may be absent. */
  datatype ClassInfo = ClassInfo(
    uri: Option<string>,
    labelDe: Option<string>,
    labelEn: Option<string>,
    displayLabel: Option<string>)

  /** `{}`, what `URI_TO_CLASS.get(class_uri, {})` falls back to. */
  const NoInfo := ClassInfo(None, None, None, None)

  /** One entry of `classList`. */
  datatype ClassEntry = ClassEntry(classLabel: string, instanceCount: nat, uri: string)

  /** One row of a class tab. */
  datatype Row = Row(uri: string, rowLabel: string)

  datatype AnalysisResults = AnalysisResults(
    totalTriples: nat,
    classDefinitionsLoaded: nat,
    foundClassesCount: nat,
    classList: seq<ClassEntry>)

  /** The `uploadInfo` of a summary tab; `graphName` and `analysisResults` are present only in
      the summary an analysis produces. */
  datatype UploadInfo = UploadInfo(
    status: string,
    message: string,
    federalState: string,
    graphId: string,
    graphName: Option<string>,
    triplesCount: nat,
    sparqlEndpoint: string,
    analysisResults: Option<AnalysisResults>)

  datatype Tab =
    | SummaryTab(tabLabel: string, uploadInfo: UploadInfo)
    | TableTab(tabLabel: string, rows: seq<Row>)

  // ---------------------------------------------------------------------------
  // URI_TO_CLASS

  /** `URI_TO_CLASS`: the definitions with a truthy `uri`, keyed by it, a later definition
      replacing an earlier one with the same uri. */
  function UriToClass(defs: seq<ClassInfo>): map<string, ClassInfo>
  {
    if defs == [] then map[]
    else
      var m := UriToClass(defs[..|defs| - 1]);
      var info := defs[|defs| - 1];
      if info.uri.Some? && info.uri.value != "" then m[info.uri.value := info] else m
  }

  /** The start-up loop over the definitions (in file order) that builds `URI_TO_CLASS`. */
  method BuildUriToClass(defs: seq<ClassInfo>) returns (uriToClass: map<string, ClassInfo>)
    ensures uriToClass == UriToClass(defs)
  {
    uriToClass := map[];
    for i := 0 to |defs|
      invariant uriToClass == UriToClass(defs[..i])
    {
      assert defs[..i + 1][..i] == defs[..i];
      var uri := defs[i].uri;
      if uri.Some? && uri.value != "" {
        uriToClass := uriToClass[uri.value := defs[i]];
      }
    }
    assert defs[..|defs|] == defs;
  }

  // ---------------------------------------------------------------------------
  // Specification of the analysis

  /** `type_triples`: `(str(subject), str(object))` of every `rdf:type` triple, in order. */
  function TypeAssertions(ts: seq<Triple>): seq<(string, string)>
  {
    if ts == [] then []
    else
      var t := ts[|ts| - 1];
      TypeAssertions(ts[..|ts| - 1]) + (if t.pred == RdfType then [(t.subject, Str(t.obj))] else [])
  }

  /** The keys of `class_instances` in insertion order: the known classes, first-seen. */
  function FoundClasses(pairs: seq<(string, string)>, known: map<string, ClassInfo>): seq<string>
  {
    if pairs == [] then []
    else
      var cs := FoundClasses(pairs[..|pairs| - 1], known);
      var c := pairs[|pairs| - 1].1;
      if c in known && c !in cs then cs + [c] else cs
  }

  /** The subjects asserted to be of class `c`, in order. */
  function InstancesOf(pairs: seq<(string, string)>, c: string): seq<string>
  {
    if pairs == [] then []
    else
      var p := pairs[|pairs| - 1];
      InstancesOf(pairs[..|pairs| - 1], c) + (if p.1 == c then [p.0] else [])
  }

  /** `class_instances` for the classes `cs`. */
  function InstanceMap(pairs: seq<(string, string)>, cs: seq<string>): map<string, seq<string>>
  {
    map c | c in cs :: InstancesOf(pairs, c)
  }

  /** The instances grouped under `c`. */
  function Members(instances: map<string, seq<string>>, c: string): seq<string>
  {
    if c in instances then instances[c] else []
  }

  function InfoOf(known: map<string, ClassInfo>, c: string): ClassInfo
  {
    if c in known then known[c] else NoInfo
  }

  /** The label of a class: the first of `label_de`, `label_en` and `display_label` present
      in its definition, else the part of its uri after the last '/'. */
  function ClassLabel(info: ClassInfo, classUri: string): string
  {
    if info.labelDe.Some? then info.labelDe.value
    else if info.labelEn.Some? then info.labelEn.value
    else if info.displayLabel.Some? then info.displayLabel.value
    else LastSegment(classUri)
  }

  /** `class_analysis` before sorting, one entry per class of `cs`. */
  function ClassEntries(known: map<string, ClassInfo>, cs: seq<string>, instances: map<string, seq<string>>): seq<ClassEntry>
  {
    if cs == [] then []
    else
      var c := cs[|cs| - 1];
      ClassEntries(known, cs[..|cs| - 1], instances) + [EntryOf(known, c, |Members(instances, c)|)]
  }

  /** The `classList` entry of class `c` with `count` instances. */
  function EntryOf(known: map<string, ClassInfo>, c: string, count: nat): ClassEntry
  {
    ClassEntry(ClassLabel(InfoOf(known, c), c), count, c)
  }

  /** Insert `x` into `s` before the first entry with a smaller count. */
  function InsertByCount(s: seq<ClassEntry>, x: ClassEntry): seq<ClassEntry>
  {
    if s == [] then [x]
    else if s[0].instanceCount < x.instanceCount then [x] + s
    else [s[0]] + InsertByCount(s[1..], x)
  }

  /** `class_analysis.sort(key=lambda x: x['instanceCount'], reverse=True)`: a stable sort by
      count, largest first. */
  function SortByCount(xs: seq<ClassEntry>): seq<ClassEntry>
  {
    if xs == [] then [] else InsertByCount(SortByCount(xs[..|xs| - 1]), xs[|xs| - 1])
  }

  /** `instance_labels` for the subjects `instances`: the object of the last `rdfs:label`
      triple about each of them. */
  function LabelMap(ts: seq<Triple>, instances: seq<string>): map<string, string>
  {
    if ts == [] then map[]
    else
      var m := LabelMap(ts[..|ts| - 1], instances);
      var t := ts[|ts| - 1];
      if t.pred == RdfsLabel && t.subject in instances then m[t.subject := Str(t.obj)] else m
  }

  /** An instance's label: its collected label if non-empty, else the part of its uri after
      the last '/', else the uri itself. */
  function InstanceLabel(labels: map<string, string>, s: string): string
  {
    if s in labels && labels[s] != "" then labels[s]
    else if '/' in s then LastSegment(s)
    else s
  }

  function Rows(labels: map<string, string>, instances: seq<string>): seq<Row>
  {
    if instances == [] then []
    else
      var s := instances[|instances| - 1];
      Rows(labels, instances[..|instances| - 1]) + [Row(s, InstanceLabel(labels, s))]
  }

  function TabLabel(classLabel: string, count: nat): string
  {
    classLabel + " (" + NatToString(count) + ")"
  }

  /** The table tabs, one per class of `cs`, in the order of `cs`. */
  function ClassTabs(ts: seq<Triple>, known: map<string, ClassInfo>, cs: seq<string>, instances: map<string, seq<string>>): seq<Tab>
  {
    if cs == [] then []
    else
      var c := cs[|cs| - 1];
      ClassTabs(ts, known, cs[..|cs| - 1], instances) + [TabOf(ts, known, c, Members(instances, c))]
  }

  /** The table tab of class `c` whose instances are `instances`. */
  function TabOf(ts: seq<Triple>, known: map<string, ClassInfo>, c: string, instances: seq<string>): Tab
  {
    TableTab(TabLabel(ClassLabel(InfoOf(known, c), c), |instances|), Rows(LabelMap(ts, instances), instances))
  }

  function Summary(ts: seq<Triple>, federalState: string, graphName: string, endpoint: string,
                   definitionsLoaded: nat, known: map<string, ClassInfo>): Tab
  {
    var pairs := TypeAssertions(ts);
    var cs := FoundClasses(pairs, known);
    var entries := ClassEntries(known, cs, InstanceMap(pairs, cs));
    SummaryTab("Summary", UploadInfo(
      "Erfolgreich", "TTL file uploaded and stored successfully", federalState, federalState,
      Some(graphName), |ts|, endpoint,
      Some(AnalysisResults(|ts|, definitionsLoaded, |cs|, SortByCount(entries)))))
  }

  /** The tabs `analyze_uploaded_data_optimized` returns. */
  function AnalysisTabs(ts: seq<Triple>, federalState: string, graphName: string, endpoint: string,
                        definitionsLoaded: nat, known: map<string, ClassInfo>): seq<Tab>
  {
    var pairs := TypeAssertions(ts);
    var cs := FoundClasses(pairs, known);
    [Summary(ts, federalState, graphName, endpoint, definitionsLoaded, known)]
    + ClassTabs(ts, known, cs, InstanceMap(pairs, cs))
  }

  // ---------------------------------------------------------------------------
  // The analysis loops

  /** The first loop: collect the type assertions, reporting every 50000 triples. */
  method ExtractTypeAssertions(graph: seq<Triple>) returns (typeTriples: seq<(string, string)>, cps: seq<Checkpoint>)
    ensures typeTriples == TypeAssertions(graph)
    ensures cps == ScanCheckpoints(|graph|, |graph|)
  {
    var totalTriples := |graph|;
    typeTriples, cps := [], [];
    var processedCount := 0;
    for i := 0 to |graph|
      invariant processedCount == i
      invariant typeTriples == TypeAssertions(graph[..i])
      invariant cps == ScanCheckpoints(totalTriples, i)
    {
      var t := graph[i];
      assert graph[..i + 1][..i] == graph[..i];
      if t.pred == RdfType {
        typeTriples := typeTriples + [(t.subject, Str(t.obj))];
      }
      processedCount := processedCount + 1;
      if processedCount % 50000 == 0 {
        var analysisProgress := (processedCount as real / totalTriples as real) * 50.0;
        cps := cps + [Checkpoint(analysisProgress, ExtractingStatus)];
      }
    }
    assert graph[..|graph|] == graph;
  }

  /** The second loop: group the subjects by known class, reporting every 10000 assertions.
      `order` is the insertion order of the keys of `classInstances`. */
  method GroupByClass(typeTriples: seq<(string, string)>, known: map<string, ClassInfo>)
    returns (order: seq<string>, classInstances: map<string, seq<string>>, cps: seq<Checkpoint>)
    ensures order == FoundClasses(typeTriples, known)
    ensures classInstances == InstanceMap(typeTriples, order)
    ensures cps == GroupCheckpoints(|typeTriples|, |typeTriples|)
  {
    order, classInstances, cps := [], map[], [];
    for i := 0 to |typeTriples|
      invariant order == FoundClasses(typeTriples[..i], known)
      invariant classInstances == InstanceMap(typeTriples[..i], order)
      invariant cps == GroupCheckpoints(|typeTriples|, i)
    {
      var (subj, classUri) := typeTriples[i];
      GroupStep(typeTriples, known, i);
      if classUri in known {
        if classUri !in classInstances {
          classInstances := classInstances[classUri := []];
          order := order + [classUri];
        }
        classInstances := classInstances[classUri := classInstances[classUri] + [subj]];
      }
      if (i + 1) % 10000 == 0 {
        var analysisProgress := 50.0 + ((i + 1) as real / |typeTriples| as real) * 30.0;
        cps := cps + [Checkpoint(analysisProgress, AnalyzingStatus)];
      }
    }
    assert typeTriples[..|typeTriples|] == typeTriples;
  }

  /** One assertion extends the grouping: its class, if known, is added at the end when new,
      and its subject appended to that class only. */
  lemma GroupStep(pairs: seq<(string, string)>, known: map<string, ClassInfo>, i: nat)
    requires i < |pairs|
    ensures var cs, c := FoundClasses(pairs[..i], known), pairs[i].1;
      && FoundClasses(pairs[..i + 1], known) == (if c in known && c !in cs then cs + [c] else cs)
      && (c in known ==>
            var cs' := FoundClasses(pairs[..i + 1], known);
            var m := InstanceMap(pairs[..i], cs);
            var m' := if c in m then m else m[c := []];
            InstanceMap(pairs[..i + 1], cs') == m'[c := m'[c] + [pairs[i].0]])
      && (c !in known ==> InstanceMap(pairs[..i + 1], cs) == InstanceMap(pairs[..i], cs))
  {
    var pre, all := pairs[..i], pairs[..i + 1];
    assert all[..i] == pre;
    var c := pairs[i].1;
    FoundClassesKnown(pre, known);
    var cs := FoundClasses(pre, known);
    assert forall d :: InstancesOf(all, d) == InstancesOf(pre, d) + (if pairs[i].1 == d then [pairs[i].0] else []);
    if c !in known {
      var m0, m1 := InstanceMap(pre, cs), InstanceMap(all, cs);
      forall d | d in cs
        ensures m1[d] == m0[d]
      {
        assert d in known;
      }
      assert m1 == m0;
    } else {
      if c !in cs {
        InstancesOfUnseen(pre, known, c);
      }
      var cs' := FoundClasses(all, known);
      var m := InstanceMap(pre, cs);
      var m' := if c in m then m else m[c := []];
      var goal := m'[c := m'[c] + [pairs[i].0]];
      var m1 := InstanceMap(all, cs');
      assert m1.Keys == goal.Keys;
      forall d | d in cs'
        ensures m1[d] == goal[d]
      {
      }
      assert m1 == goal;
    }
  }

  /** Every found class is known, and a known class not yet found has no instances. */
  lemma {:induction false} FoundClassesKnown(pairs: seq<(string, string)>, known: map<string, ClassInfo>)
    ensures forall c :: c in FoundClasses(pairs, known) ==> c in known
  {
    if pairs != [] {
      FoundClassesKnown(pairs[..|pairs| - 1], known);
    }
  }

  lemma {:induction false} InstancesOfUnseen(pairs: seq<(string, string)>, known: map<string, ClassInfo>, c: string)
    requires c in known && c !in FoundClasses(pairs, known)
    ensures InstancesOf(pairs, c) == []
  {
    if pairs != [] {
      InstancesOfUnseen(pairs[..|pairs| - 1], known, c);
    }
  }

  /** The third loop: one `classList` entry per class, in grouping order. */
  method ClassAnalysis(order: seq<string>, classInstances: map<string, seq<string>>, known: map<string, ClassInfo>)
    returns (classAnalysis: seq<ClassEntry>)
    requires forall c :: c in order ==> c in classInstances
    ensures classAnalysis == ClassEntries(known, order, classInstances)
  {
    classAnalysis := [];
    for j := 0 to |order|
      invariant classAnalysis == ClassEntries(known, order[..j], classInstances)
    {
      assert order[..j + 1][..j] == order[..j];
      var classUri := order[j];
      var classInfo := InfoOf(known, classUri);
      var classLabel := ClassLabel(classInfo, classUri);
      classAnalysis := classAnalysis + [ClassEntry(classLabel, |classInstances[classUri]|, classUri)];
    }
    assert order[..|order|] == order;
  }

  /** The label lookup loop of one class tab. */
  method CollectInstanceLabels(graph: seq<Triple>, instances: seq<string>) returns (instanceLabels: map<string, string>)
    ensures instanceLabels == LabelMap(graph, instances)
  {
    instanceLabels := map[];
    for k := 0 to |graph|
      invariant instanceLabels == LabelMap(graph[..k], instances)
    {
      assert graph[..k + 1][..k] == graph[..k];
      var t := graph[k];
      if t.pred == RdfsLabel && t.subject in instances {
        instanceLabels := instanceLabels[t.subject := Str(t.obj)];
      }
    }
    assert graph[..|graph|] == graph;
  }

  /** The row loop of one class tab. */
  method InstanceRows(instances: seq<string>, instanceLabels: map<string, string>) returns (instanceData: seq<Row>)
    ensures instanceData == Rows(instanceLabels, instances)
  {
    instanceData := [];
    for k := 0 to |instances|
      invariant instanceData == Rows(instanceLabels, instances[..k])
    {
      assert instances[..k + 1][..k] == instances[..k];
      var instanceUri := instances[k];
      var instanceLabel := if instanceUri in instanceLabels then instanceLabels[instanceUri] else "";
      if instanceLabel == "" {
        instanceLabel := if '/' in instanceUri then LastSegment(instanceUri) else instanceUri;
      }
      instanceData := instanceData + [Row(instanceUri, instanceLabel)];
    }
    assert instances[..|instances|] == instances;
  }

  /** The last loop: one table tab per class, reporting every 5 tabs. */
  method CreateClassTabs(graph: seq<Triple>, order: seq<string>, classInstances: map<string, seq<string>>,
                         known: map<string, ClassInfo>)
    returns (tabs: seq<Tab>, cps: seq<Checkpoint>)
    requires forall c :: c in order ==> c in classInstances
    ensures tabs == ClassTabs(graph, known, order, classInstances)
    ensures cps == TabCheckpoints(|order|, |order|)
  {
    tabs, cps := [], [];
    var tabCount := 0;
    for j := 0 to |order|
      invariant tabCount == j
      invariant tabs == ClassTabs(graph, known, order[..j], classInstances)
      invariant cps == TabCheckpoints(|order|, j)
    {
      assert order[..j + 1][..j] == order[..j];
      var tab := ClassTab(graph, order[j], classInstances[order[j]], known);
      tabs := tabs + [tab];
      tabCount := tabCount + 1;
      if tabCount % 5 == 0 {
        cps := cps + [TabCheckpoint(tabCount, |order|)];
      }
    }
    assert order[..|order|] == order;
  }

  /** The body of the last loop: the table tab of class `classUri`. */
  method ClassTab(graph: seq<Triple>, classUri: string, instances: seq<string>, known: map<string, ClassInfo>)
    returns (tab: Tab)
    ensures tab == TabOf(graph, known, classUri, instances)
  {
    var classLabel := ClassLabel(InfoOf(known, classUri), classUri);
    var instanceLabels := CollectInstanceLabels(graph, instances);
    var instanceData := InstanceRows(instances, instanceLabels);
    var tabLabel := classLabel + " (" + NatToString(|instances|) + ")";
    tab := TableTab(tabLabel, instanceData);
  }

  /** `analyze_uploaded_data_optimized`: the tabs, and the progress checkpoints in the order
      they are reported. */
  method AnalyzeUploadedData(graph: seq<Triple>, federalState: string, graphName: string, sparqlEndpoint: string,
                             definitionsLoaded: nat, uriToClass: map<string, ClassInfo>)
    returns (tabs: seq<Tab>, cps: seq<Checkpoint>)
    ensures tabs == AnalysisTabs(graph, federalState, graphName, sparqlEndpoint, definitionsLoaded, uriToClass)
    ensures var pairs := TypeAssertions(graph);
      cps == AnalysisCheckpoints(|graph|, |pairs|, |FoundClasses(pairs, uriToClass)|)
  {
    var totalTriples := |graph|;
    var typeTriples, scanned := ExtractTypeAssertions(graph);
    cps := scanned + [Checkpoint(50.0, AnalyzingStatus)];
    var order, classInstances, grouped := GroupByClass(typeTriples, uriToClass);
    cps := cps + grouped + [Checkpoint(80.0, PreparingStatus)];
    var classAnalysis := ClassAnalysis(order, classInstances, uriToClass);
    classAnalysis := SortByCount(classAnalysis);
    var uploadInfo := UploadInfo(
      "Erfolgreich", "TTL file uploaded and stored successfully", federalState, federalState,
      Some(graphName), totalTriples, sparqlEndpoint,
      Some(AnalysisResults(totalTriples, definitionsLoaded, |order|, classAnalysis)));
    tabs := [SummaryTab("Summary", uploadInfo)];
    cps := cps + [Checkpoint(90.0, CreatingTabsStatus)];
    var classTabs, created := CreateClassTabs(graph, order, classInstances, uriToClass);
    tabs := tabs + classTabs;
    cps := cps + created + [Checkpoint(100.0, CompletedStatus)];
  }
}
