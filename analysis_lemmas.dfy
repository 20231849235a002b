/** What the analysis promises: which classes `URI_TO_CLASS` and the grouping keep, in which
    order, how the class list is sorted, and how the tabs and their rows are laid out. */
module AnalysisProperties {
  import opened Common
  import opened Rdf
  import opened Analysis

  // ---------------------------------------------------------------------------
  // URI_TO_CLASS

  /** `URI_TO_CLASS` holds exactly the truthy uris of the definitions, each mapped to a
      definition carrying that uri. */
  lemma {:induction false} UriToClassKeys(defs: seq<ClassInfo>)
    ensures forall u :: u in UriToClass(defs) <==>
      u != "" && exists i :: 0 <= i < |defs| && defs[i].uri == Some(u)
    ensures forall u :: u in UriToClass(defs) ==> UriToClass(defs)[u].uri == Some(u)
  {
    if defs != [] {
      var init := defs[..|defs| - 1];
      UriToClassKeys(init);
      assert forall i :: 0 <= i < |init| ==> init[i] == defs[i];
    }
  }

  /** Of several definitions with the same uri, the last one is kept. */
  lemma {:induction false} UriToClassLastWins(defs: seq<ClassInfo>, k: nat)
    requires k < |defs| && defs[k].uri.Some? && defs[k].uri.value != ""
    requires forall i :: k < i < |defs| ==> defs[i].uri != defs[k].uri
    ensures defs[k].uri.value in UriToClass(defs)
    ensures UriToClass(defs)[defs[k].uri.value] == defs[k]
  {
    var init := defs[..|defs| - 1];
    if k < |defs| - 1 {
      assert forall i :: k < i < |init| ==> init[i] == defs[i];
      UriToClassLastWins(init, k);
    }
  }

  // ---------------------------------------------------------------------------
  // Grouping

  /** `type_triples` of two parts of the graph is that of the first followed by that of the
      second: the pairs keep the order of their triples. */
  lemma {:induction false} TypeAssertionsAppend(a: seq<Triple>, b: seq<Triple>)
    ensures TypeAssertions(a + b) == TypeAssertions(a) + TypeAssertions(b)
    decreases |b|
  {
    if b == [] {
      assert a + b == a;
    } else {
      var init := b[..|b| - 1];
      assert (a + b)[..|a + b| - 1] == a + init;
      TypeAssertionsAppend(a, init);
    }
  }

  /** `type_triples` holds exactly the `(subject, object)` pairs of the `rdf:type` triples. */
  lemma {:induction false} TypeAssertionsAre(ts: seq<Triple>)
    ensures forall p :: p in TypeAssertions(ts) <==>
      exists i :: 0 <= i < |ts| && ts[i].pred == RdfType && p == (ts[i].subject, Str(ts[i].obj))
  {
    if ts != [] {
      var init := ts[..|ts| - 1];
      TypeAssertionsAre(init);
      assert forall i :: 0 <= i < |init| ==> init[i] == ts[i];
    }
  }

  /** The grouping keeps exactly the known classes that some type assertion names, each
      once, in the order of their first assertion. */
  lemma FoundClassesAre(pairs: seq<(string, string)>, known: map<string, ClassInfo>)
    ensures var cs := FoundClasses(pairs, known);
      && (forall c :: c in cs <==> c in known && exists i :: 0 <= i < |pairs| && pairs[i].1 == c)
      && (forall a, b :: 0 <= a < b < |cs| ==> cs[a] != cs[b])
      && (forall a, b, q :: 0 <= a < b < |cs| && 0 <= q < |pairs| && pairs[q].1 == cs[b] ==>
            exists p :: 0 <= p < q && pairs[p].1 == cs[a])
  {
    FoundClassesMembers(pairs, known);
    FoundClassesDistinct(pairs, known);
    FoundClassesFirstSeen(pairs, known);
  }

  lemma {:induction false} FoundClassesMembers(pairs: seq<(string, string)>, known: map<string, ClassInfo>)
    ensures forall c :: c in FoundClasses(pairs, known) <==> c in known && exists i :: 0 <= i < |pairs| && pairs[i].1 == c
  {
    if pairs != [] {
      var init := pairs[..|pairs| - 1];
      FoundClassesMembers(init, known);
      forall c | c in known && (exists i :: 0 <= i < |pairs| && pairs[i].1 == c)
        ensures c in FoundClasses(pairs, known)
      {
        var i :| 0 <= i < |pairs| && pairs[i].1 == c;
        if i < |init| {
          assert init[i].1 == c;
        }
      }
      forall c | c in FoundClasses(pairs, known) && c != pairs[|pairs| - 1].1
        ensures exists i :: 0 <= i < |pairs| && pairs[i].1 == c
      {
        var i :| 0 <= i < |init| && init[i].1 == c;
        assert pairs[i].1 == c;
      }
    }
  }

  lemma {:induction false} FoundClassesDistinct(pairs: seq<(string, string)>, known: map<string, ClassInfo>)
    ensures forall a, b :: 0 <= a < b < |FoundClasses(pairs, known)| ==>
      FoundClasses(pairs, known)[a] != FoundClasses(pairs, known)[b]
  {
    if pairs != [] {
      var cs0 := FoundClasses(pairs[..|pairs| - 1], known);
      var cs := FoundClasses(pairs, known);
      FoundClassesDistinct(pairs[..|pairs| - 1], known);
      forall a, b | 0 <= a < b < |cs|
        ensures cs[a] != cs[b]
      {
        assert cs[a] == cs0[a] && cs0[a] in cs0;
        var c := pairs[|pairs| - 1].1;
        if b < |cs0| {
          assert cs[b] == cs0[b];
          assert cs0[a] != cs0[b];
        } else {
          assert c in known && c !in cs0 && cs == cs0 + [c];
        }
      }
    }
  }

  lemma FoundClassesFirstSeen(pairs: seq<(string, string)>, known: map<string, ClassInfo>)
    ensures var cs := FoundClasses(pairs, known);
      forall a, b, q :: 0 <= a < b < |cs| && 0 <= q < |pairs| && pairs[q].1 == cs[b] ==>
        exists p :: 0 <= p < q && pairs[p].1 == cs[a]
  {
    var cs := FoundClasses(pairs, known);
    forall a, b, q | 0 <= a < b < |cs| && 0 <= q < |pairs| && pairs[q].1 == cs[b]
      ensures exists p :: 0 <= p < q && pairs[p].1 == cs[a]
    {
      FirstSeenAt(pairs, known, a, b, q);
    }
  }

  /** If class b of the grouping is named at position q, class a (a < b) is named earlier. */
  lemma {:induction false} FirstSeenAt(pairs: seq<(string, string)>, known: map<string, ClassInfo>, a: nat, b: nat, q: nat)
    requires a < b < |FoundClasses(pairs, known)| && q < |pairs| && pairs[q].1 == FoundClasses(pairs, known)[b]
    ensures exists p :: 0 <= p < q && pairs[p].1 == FoundClasses(pairs, known)[a]
  {
    var init := pairs[..|pairs| - 1];
    var cs0, cs := FoundClasses(init, known), FoundClasses(pairs, known);
    var last := |pairs| - 1;
    FoundClassesMembers(init, known);
    assert cs[a] == cs0[a];
    if b == |cs0| {
      // cs[b] is new: no earlier assertion names it
      assert q == last;
      assert cs0[a] in cs0;
      var p :| 0 <= p < |init| && init[p].1 == cs0[a];
      assert pairs[p].1 == cs[a];
    } else {
      assert cs[b] == cs0[b];
      if q == last {
        assert cs0[b] in cs0;
        var q' :| 0 <= q' < |init| && init[q'].1 == cs0[b];
        FirstSeenAt(init, known, a, b, q');
      } else {
        assert init[q].1 == cs0[b];
        FirstSeenAt(init, known, a, b, q);
      }
      var p :| 0 <= p < |init| && p < q && init[p].1 == cs0[a];
      assert pairs[p].1 == cs[a];
    }
  }

  /** The set of known classes named by some type assertion. */
  function KnownClassSet(pairs: seq<(string, string)>, known: map<string, ClassInfo>): set<string>
  {
    set i | 0 <= i < |pairs| && pairs[i].1 in known :: pairs[i].1
  }

  lemma {:induction false} DistinctCard(s: seq<string>)
    requires forall a, b :: 0 <= a < b < |s| ==> s[a] != s[b]
    ensures |set x | x in s| == |s|
  {
    if s != [] {
      var init := s[..|s| - 1];
      DistinctCard(init);
      assert (set x | x in s) == (set x | x in init) + {s[|s| - 1]};
    }
  }

  /** `foundClassesCount` is the number of distinct known classes with an instance. */
  lemma FoundClassesCount(pairs: seq<(string, string)>, known: map<string, ClassInfo>)
    ensures |FoundClasses(pairs, known)| == |KnownClassSet(pairs, known)|
  {
    var cs := FoundClasses(pairs, known);
    FoundClassesAre(pairs, known);
    DistinctCard(cs);
    assert (set x | x in cs) == KnownClassSet(pairs, known) by {
      forall x | x in KnownClassSet(pairs, known)
        ensures x in cs
      {
        var i :| 0 <= i < |pairs| && pairs[i].1 in known && pairs[i].1 == x;
      }
    }
  }

  /** The instances of a class are the subjects of the assertions naming it, in order; a
      class has an instance exactly when some assertion names it. */
  lemma {:induction false} InstancesOfAre(pairs: seq<(string, string)>, c: string)
    ensures forall s :: s in InstancesOf(pairs, c) <==> exists i :: 0 <= i < |pairs| && pairs[i] == (s, c)
    ensures |InstancesOf(pairs, c)| > 0 <==> exists i :: 0 <= i < |pairs| && pairs[i].1 == c
  {
    if pairs != [] {
      var init := pairs[..|pairs| - 1];
      InstancesOfAre(init, c);
      assert forall i :: 0 <= i < |init| ==> init[i] == pairs[i];
    }
  }

  // ---------------------------------------------------------------------------
  // The class list

  predicate SortedDesc(s: seq<ClassEntry>)
  {
    forall i, j :: 0 <= i < j < |s| ==> s[i].instanceCount >= s[j].instanceCount
  }

  lemma {:induction false} InsertPerm(s: seq<ClassEntry>, x: ClassEntry)
    ensures multiset(InsertByCount(s, x)) == multiset(s) + multiset{x}
    decreases |s|
  {
    if s != [] && s[0].instanceCount >= x.instanceCount {
      InsertPerm(s[1..], x);
      assert s == [s[0]] + s[1..];
    }
  }

  lemma {:induction false} InsertBounded(s: seq<ClassEntry>, x: ClassEntry, v: nat)
    requires forall i :: 0 <= i < |s| ==> s[i].instanceCount <= v
    requires x.instanceCount <= v
    ensures forall i :: 0 <= i < |InsertByCount(s, x)| ==> InsertByCount(s, x)[i].instanceCount <= v
    decreases |s|
  {
    if s != [] && s[0].instanceCount >= x.instanceCount {
      InsertBounded(s[1..], x, v);
    }
  }

  lemma {:induction false} InsertSorted(s: seq<ClassEntry>, x: ClassEntry)
    requires SortedDesc(s)
    ensures SortedDesc(InsertByCount(s, x))
    decreases |s|
  {
    if s != [] && s[0].instanceCount >= x.instanceCount {
      var rest := InsertByCount(s[1..], x);
      assert SortedDesc(s[1..]);
      InsertSorted(s[1..], x);
      InsertBounded(s[1..], x, s[0].instanceCount);
      var r := [s[0]] + rest;
      assert forall j :: 0 < j < |r| ==> r[j] == rest[j - 1];
    }
  }

  /** The class list is sorted by instance count, largest first, and is a permutation of
      the unsorted entries. */
  lemma {:induction false} SortByCountSorts(xs: seq<ClassEntry>)
    ensures SortedDesc(SortByCount(xs))
    ensures multiset(SortByCount(xs)) == multiset(xs)
  {
    if xs != [] {
      var init := xs[..|xs| - 1];
      SortByCountSorts(init);
      InsertSorted(SortByCount(init), xs[|xs| - 1]);
      InsertPerm(SortByCount(init), xs[|xs| - 1]);
      SplitLast(xs);
    }
  }

  /** The entries with instance count `v`, in order. */
  function WithCount(s: seq<ClassEntry>, v: nat): seq<ClassEntry>
  {
    if s == [] then []
    else (if s[0].instanceCount == v then [s[0]] else []) + WithCount(s[1..], v)
  }

  lemma {:induction false} WithCountAppend(a: seq<ClassEntry>, b: seq<ClassEntry>, v: nat)
    ensures WithCount(a + b, v) == WithCount(a, v) + WithCount(b, v)
    decreases |a|
  {
    if a == [] {
      EmptyAppend(b);
    } else {
      ConsAppend(a, b);
      WithCountAppend(a[1..], b, v);
      var h := if a[0].instanceCount == v then [a[0]] else [];
      assert WithCount(a + b, v) == h + WithCount(a[1..] + b, v);
      assert WithCount(a, v) == h + WithCount(a[1..], v);
    }
  }

  lemma {:induction false} WithCountNone(s: seq<ClassEntry>, v: nat)
    requires forall i :: 0 <= i < |s| ==> s[i].instanceCount < v
    ensures WithCount(s, v) == []
    decreases |s|
  {
    if s != [] {
      WithCountNone(s[1..], v);
    }
  }

  lemma {:induction false} InsertStable(s: seq<ClassEntry>, x: ClassEntry, v: nat)
    requires SortedDesc(s)
    ensures WithCount(InsertByCount(s, x), v) == WithCount(s, v) + (if x.instanceCount == v then [x] else [])
    decreases |s|
  {
    if s == [] {
    } else if s[0].instanceCount < x.instanceCount {
      var r := [x] + s;
      assert r[0] == x && r[1..] == s;
      if x.instanceCount == v {
        WithCountNone(s, v);
      }
    } else {
      var r := [s[0]] + InsertByCount(s[1..], x);
      assert r[0] == s[0] && r[1..] == InsertByCount(s[1..], x);
      InsertStable(s[1..], x, v);
    }
  }

  /** The sort is stable: entries with equal counts keep their grouping order. */
  lemma {:induction false} SortByCountStable(xs: seq<ClassEntry>, v: nat)
    ensures WithCount(SortByCount(xs), v) == WithCount(xs, v)
  {
    if xs != [] {
      var init, x := xs[..|xs| - 1], xs[|xs| - 1];
      SortByCountStable(init, v);
      SortByCountSorts(init);
      InsertStable(SortByCount(init), x, v);
      SplitLast(xs);
      WithCountAppend(init, [x], v);
      assert [x][1..] == [];
    }
  }

  /** The k-th unsorted entry describes the k-th class and counts its instances. */
  lemma {:induction false} ClassEntriesAt(known: map<string, ClassInfo>, cs: seq<string>, instances: map<string, seq<string>>)
    ensures |ClassEntries(known, cs, instances)| == |cs|
    ensures forall k :: 0 <= k < |cs| ==>
      ClassEntries(known, cs, instances)[k] ==
        EntryOf(known, cs[k], |Members(instances, cs[k])|)
    decreases |cs|
  {
    if cs != [] {
      var init := cs[..|cs| - 1];
      ClassEntriesAt(known, init, instances);
      forall k | 0 <= k < |cs|
        ensures ClassEntries(known, cs, instances)[k] ==
          EntryOf(known, cs[k], |Members(instances, cs[k])|)
      {
        if k < |init| {
          assert init[k] == cs[k];
        }
      }
    }
  }

  // ---------------------------------------------------------------------------
  // Labels and rows

  /** The collected label of an instance is the object of the last `rdfs:label` triple about
      it; an instance without one has none. */
  lemma LabelMapIs(ts: seq<Triple>, instances: seq<string>)
    ensures forall s :: s in LabelMap(ts, instances) <==>
      s in instances && exists i :: 0 <= i < |ts| && ts[i].pred == RdfsLabel && ts[i].subject == s
    ensures forall k :: (0 <= k < |ts| && ts[k].pred == RdfsLabel && ts[k].subject in instances
        && (forall i :: k < i < |ts| ==> !(ts[i].pred == RdfsLabel && ts[i].subject == ts[k].subject))) ==>
      LabelMap(ts, instances)[ts[k].subject] == Str(ts[k].obj)
  {
    LabelMapKeys(ts, instances);
    forall k | (0 <= k < |ts| && ts[k].pred == RdfsLabel && ts[k].subject in instances
        && (forall i :: k < i < |ts| ==> !(ts[i].pred == RdfsLabel && ts[i].subject == ts[k].subject)))
      ensures LabelMap(ts, instances)[ts[k].subject] == Str(ts[k].obj)
    {
      LabelMapLast(ts, instances, k);
    }
  }

  predicate IsLabelOf(t: Triple, s: string)
  {
    t.pred == RdfsLabel && t.subject == s
  }

  lemma {:induction false} LabelMapKeys(ts: seq<Triple>, instances: seq<string>)
    ensures forall s :: s in LabelMap(ts, instances) <==>
      s in instances && exists i :: 0 <= i < |ts| && IsLabelOf(ts[i], s)
  {
    if ts != [] {
      var init := ts[..|ts| - 1];
      LabelMapKeys(init, instances);
      forall s | s in instances && (exists i :: 0 <= i < |ts| && IsLabelOf(ts[i], s))
        ensures s in LabelMap(ts, instances)
      {
        var i :| 0 <= i < |ts| && IsLabelOf(ts[i], s);
        if i < |init| {
          assert IsLabelOf(init[i], s);
        }
      }
      forall s | s in LabelMap(ts, instances) && s != ts[|ts| - 1].subject
        ensures exists i :: 0 <= i < |ts| && IsLabelOf(ts[i], s)
      {
        var i :| 0 <= i < |init| && IsLabelOf(init[i], s);
        assert IsLabelOf(ts[i], s);
      }
    }
  }

  lemma {:induction false} LabelMapLast(ts: seq<Triple>, instances: seq<string>, k: nat)
    requires k < |ts| && IsLabelOf(ts[k], ts[k].subject) && ts[k].subject in instances
    requires forall i :: k < i < |ts| ==> !IsLabelOf(ts[i], ts[k].subject)
    ensures ts[k].subject in LabelMap(ts, instances)
    ensures LabelMap(ts, instances)[ts[k].subject] == Str(ts[k].obj)
  {
    var init := ts[..|ts| - 1];
    if k < |init| {
      assert init[k] == ts[k];
      assert !IsLabelOf(ts[|ts| - 1], ts[k].subject);
      LabelMapLast(init, instances, k);
    }
  }

  /** One row per instance, in order, each with its instance's label. */
  lemma {:induction false} RowsAt(labels: map<string, string>, instances: seq<string>)
    ensures |Rows(labels, instances)| == |instances|
    ensures forall i :: 0 <= i < |instances| ==>
      Rows(labels, instances)[i] == Row(instances[i], InstanceLabel(labels, instances[i]))
  {
    if instances != [] {
      var init := instances[..|instances| - 1];
      RowsAt(labels, init);
      assert forall i :: 0 <= i < |init| ==> init[i] == instances[i];
    }
  }

  /** An instance's label is its collected label when that is non-empty; otherwise the part
      of its uri after the last '/', which is the whole uri when it has no '/'. */
  lemma InstanceLabelFallback(labels: map<string, string>, s: string)
    ensures s in labels && labels[s] != "" ==> InstanceLabel(labels, s) == labels[s]
    ensures !(s in labels && labels[s] != "") ==>
      && InstanceLabel(labels, s) == LastSegment(s)
      && '/' !in InstanceLabel(labels, s)
      && |InstanceLabel(labels, s)| <= |s|
      && s[|s| - |InstanceLabel(labels, s)|..] == InstanceLabel(labels, s)
  {
    LastSegmentIs(s);
    if '/' !in s {
      LastSegmentOfPlain(s);
    }
  }

  // ---------------------------------------------------------------------------
  // The tabs

  lemma {:induction false} ClassTabsAt(ts: seq<Triple>, known: map<string, ClassInfo>, cs: seq<string>, instances: map<string, seq<string>>)
    ensures |ClassTabs(ts, known, cs, instances)| == |cs|
    ensures forall k :: 0 <= k < |cs| ==>
      ClassTabs(ts, known, cs, instances)[k] ==
        TabOf(ts, known, cs[k], Members(instances, cs[k]))
    decreases |cs|
  {
    if cs != [] {
      var init := cs[..|cs| - 1];
      ClassTabsAt(ts, known, init, instances);
      forall k | 0 <= k < |cs|
        ensures ClassTabs(ts, known, cs, instances)[k] ==
          TabOf(ts, known, cs[k], Members(instances, cs[k]))
      {
        if k < |init| {
          assert init[k] == cs[k];
        }
      }
    }
  }

  /** A class tab is labelled with the class label and the instance count, and holds one
      row per instance, in order, each with that instance's label. */
  lemma TabOfRows(ts: seq<Triple>, known: map<string, ClassInfo>, c: string, instances: seq<string>)
    ensures var tab := TabOf(ts, known, c, instances);
      && tab.TableTab?
      && tab.tabLabel == TabLabel(ClassLabel(InfoOf(known, c), c), |instances|)
      && |tab.rows| == |instances|
      && forall i :: 0 <= i < |instances| ==>
           tab.rows[i] == Row(instances[i], InstanceLabel(LabelMap(ts, instances), instances[i]))
  {
    RowsAt(LabelMap(ts, instances), instances);
  }

  /** Over the grouping of `pairs`, the k-th class tab is the tab of the k-th class and
      its instances. */
  lemma ClassTabsOfGrouping(ts: seq<Triple>, known: map<string, ClassInfo>, pairs: seq<(string, string)>, cs: seq<string>)
    ensures |ClassTabs(ts, known, cs, InstanceMap(pairs, cs))| == |cs|
    ensures forall k :: 0 <= k < |cs| ==>
      ClassTabs(ts, known, cs, InstanceMap(pairs, cs))[k] == TabOf(ts, known, cs[k], InstancesOf(pairs, cs[k]))
  {
    var m := InstanceMap(pairs, cs);
    ClassTabsAt(ts, known, cs, m);
    forall k | 0 <= k < |cs|
      ensures Members(m, cs[k]) == InstancesOf(pairs, cs[k])
    {
      assert cs[k] in cs;
    }
  }

  /** The analysis yields the summary tab followed by exactly one table tab per found class,
      in grouping order, each over the instances of its class. */
  lemma TabsLayout(ts: seq<Triple>, federalState: string, graphName: string, endpoint: string,
                   definitionsLoaded: nat, known: map<string, ClassInfo>)
    ensures var tabs := AnalysisTabs(ts, federalState, graphName, endpoint, definitionsLoaded, known);
      var pairs := TypeAssertions(ts);
      var cs := FoundClasses(pairs, known);
      && |tabs| == 1 + |cs|
      && tabs[0] == Summary(ts, federalState, graphName, endpoint, definitionsLoaded, known)
      && forall k :: 0 <= k < |cs| ==> tabs[k + 1] == TabOf(ts, known, cs[k], InstancesOf(pairs, cs[k]))
  {
    var pairs := TypeAssertions(ts);
    var cs := FoundClasses(pairs, known);
    ClassTabsOfGrouping(ts, known, pairs, cs);
    var rest := ClassTabs(ts, known, cs, InstanceMap(pairs, cs));
    var tabs := [Summary(ts, federalState, graphName, endpoint, definitionsLoaded, known)] + rest;
    assert tabs == AnalysisTabs(ts, federalState, graphName, endpoint, definitionsLoaded, known);
    forall k | 0 <= k < |cs|
      ensures tabs[k + 1] == TabOf(ts, known, cs[k], InstancesOf(pairs, cs[k]))
    {
      ConsAt(Summary(ts, federalState, graphName, endpoint, definitionsLoaded, known), rest, k);
    }
  }

  /** The class list: the entries in grouping order, sorted by instance count. */
  function ClassList(pairs: seq<(string, string)>, known: map<string, ClassInfo>): seq<ClassEntry>
  {
    var cs := FoundClasses(pairs, known);
    SortByCount(ClassEntries(known, cs, InstanceMap(pairs, cs)))
  }

  /** The class list is sorted by instance count, largest first, and is a permutation of the
      entries in grouping order, one per found class. */
  lemma ClassListSorted(pairs: seq<(string, string)>, known: map<string, ClassInfo>)
    ensures var cs := FoundClasses(pairs, known);
      var list := ClassList(pairs, known);
      && SortedDesc(list)
      && multiset(list) == multiset(ClassEntries(known, cs, InstanceMap(pairs, cs)))
      && |list| == |cs|
  {
    var cs := FoundClasses(pairs, known);
    var entries := ClassEntries(known, cs, InstanceMap(pairs, cs));
    ClassEntriesAt(known, cs, InstanceMap(pairs, cs));
    SortByCountSorts(entries);
    var list := SortByCount(entries);
    assert |list| == |multiset(list)| == |entries|;
  }

  /** Every found class has its entry, with its number of instances, in the class list. */
  lemma ClassListHasAll(pairs: seq<(string, string)>, known: map<string, ClassInfo>)
    ensures var cs := FoundClasses(pairs, known);
      forall k :: 0 <= k < |cs| ==> EntryOf(known, cs[k], |InstancesOf(pairs, cs[k])|) in ClassList(pairs, known)
  {
    var cs := FoundClasses(pairs, known);
    var m := InstanceMap(pairs, cs);
    var entries := ClassEntries(known, cs, m);
    ClassEntriesAt(known, cs, m);
    SortByCountSorts(entries);
    forall k | 0 <= k < |cs|
      ensures EntryOf(known, cs[k], |InstancesOf(pairs, cs[k])|) in ClassList(pairs, known)
    {
      assert cs[k] in cs;
      assert Members(m, cs[k]) == InstancesOf(pairs, cs[k]);
      assert entries[k] in multiset(entries);
    }
  }

  /** Every entry of the class list is about a found class and counts its instances, of which
      there is at least one. */
  lemma ClassListOnlyFound(pairs: seq<(string, string)>, known: map<string, ClassInfo>)
    ensures var cs := FoundClasses(pairs, known);
      forall e :: e in ClassList(pairs, known) ==>
        e.uri in cs && e.instanceCount == |InstancesOf(pairs, e.uri)| && e.instanceCount > 0
  {
    var cs := FoundClasses(pairs, known);
    var m := InstanceMap(pairs, cs);
    var entries := ClassEntries(known, cs, m);
    ClassEntriesAt(known, cs, m);
    SortByCountSorts(entries);
    FoundClassesAre(pairs, known);
    forall e | e in ClassList(pairs, known)
      ensures e.uri in cs && e.instanceCount == |InstancesOf(pairs, e.uri)| && e.instanceCount > 0
    {
      assert e in multiset(entries);
      var k :| 0 <= k < |entries| && entries[k] == e;
      assert cs[k] in cs;
      InstancesOfAre(pairs, cs[k]);
    }
  }

  /** The summary tab reports the triple count, the number of loaded definitions and the
      number of found classes, and carries the sorted class list. */
  lemma SummaryLayout(ts: seq<Triple>, federalState: string, graphName: string, endpoint: string,
                      definitionsLoaded: nat, known: map<string, ClassInfo>)
    ensures var summary := Summary(ts, federalState, graphName, endpoint, definitionsLoaded, known);
      var pairs := TypeAssertions(ts);
      var cs := FoundClasses(pairs, known);
      && summary.SummaryTab? && summary.tabLabel == "Summary"
      && summary.uploadInfo.status == "Erfolgreich"
      && summary.uploadInfo.graphId == federalState
      && summary.uploadInfo.triplesCount == |ts|
      && summary.uploadInfo.analysisResults.Some?
      && var results := summary.uploadInfo.analysisResults.value;
      && results.totalTriples == |ts|
      && results.classDefinitionsLoaded == definitionsLoaded
      && results.foundClassesCount == |cs| == |results.classList|
      && SortedDesc(results.classList)
      && (forall k :: 0 <= k < |cs| ==> EntryOf(known, cs[k], |InstancesOf(pairs, cs[k])|) in results.classList)
      && (forall e :: e in results.classList ==> e.uri in cs && e.instanceCount > 0)
  {
    var pairs := TypeAssertions(ts);
    assert Summary(ts, federalState, graphName, endpoint, definitionsLoaded, known).uploadInfo.analysisResults.value.classList
      == ClassList(pairs, known);
    ClassListSorted(pairs, known);
    ClassListHasAll(pairs, known);
    ClassListOnlyFound(pairs, known);
  }
}
