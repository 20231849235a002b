/** `extract_classes_from_ttl`: the class catalogue of an ontology. A first pass over the
    parsed graph collects every class (the subject of an `rdf:type owl:Class`, an `rdf:type
    rdfs:Class` or any `rdfs:subClassOf` triple); a second pass, per class, fills its German
    and English labels and its comment from the triples about it. */
module ExtractClasses {
  import opened Common
  import opened Rdf

  /** One catalogue entry, as the dictionary `{uri, german_label, english_label, comment}`. */
  datatype ClassDefinition = ClassDefinition(
    uri: string,
    germanLabel: Option<string>,
    englishLabel: Option<string>,
    comment: Option<string>)

  /** The entry the first pass inserts: every field but the uri is `None`. */
  function Unset(c: string): ClassDefinition
  {
    ClassDefinition(c, None, None, None)
  }

  /** Python truthiness of an optional string: present and non-empty. */
  predicate Truthy(o: Option<string>)
  {
    o.Some? && o.value != ""
  }

  /** The triples the first pass reads as declaring their subject a class. */
  predicate DeclaresClass(t: Triple)
  {
    || (t.pred == RdfType && (t.obj == Iri(OwlClass) || t.obj == Iri(RdfsClass)))
    || t.pred == RdfsSubClassOf
  }

  /** The text of the AttributeError raised by `obj.language` on an object that is not a
      literal. */
  function AttributeErrorText(n: Node): string
  {
    (if n.Iri? then "'URIRef'" else "'BNode'") + " object has no attribute 'language'"
  }

  // ---------------------------------------------------------------------------
  // Specification

  /** The keys of the catalogue in insertion order: declared classes, first-seen. */
  function DeclaredClasses(ts: seq<Triple>): seq<string>
  {
    if ts == [] then []
    else
      var cs := DeclaredClasses(ts[..|ts| - 1]);
      var t := ts[|ts| - 1];
      if DeclaresClass(t) && t.subject !in cs then cs + [t.subject] else cs
  }

  /** The catalogue right after the first pass. */
  function Unsets(cs: seq<string>): map<string, ClassDefinition>
  {
    map c | c in cs :: Unset(c)
  }

  /** What one triple of the second pass does to the entry of class `d.uri`. */
  function Annotate(d: ClassDefinition, t: Triple): Result<ClassDefinition>
  {
    if t.subject != d.uri then Ok(d)
    else if t.pred == RdfsLabel then
      match t.obj
      case Literal(l, lang) =>
        if lang == Some("de") then Ok(d.(germanLabel := Some(l)))
        else if lang == Some("en") then Ok(d.(englishLabel := Some(l)))
        else if !Truthy(lang) then
          Ok(d.(germanLabel := if Truthy(d.germanLabel) then d.germanLabel else Some(l),
                englishLabel := if Truthy(d.englishLabel) then d.englishLabel else Some(l)))
        else Ok(d)
      case _ => Err(AttributeErrorText(t.obj))
    else if t.pred == RdfsComment then Ok(d.(comment := Some(Str(t.obj))))
    else Ok(d)
  }

  /** The inner loop of the second pass: `ts` applied to `d` in order, stopping at the first
      exception. */
  function AnnotateAll(d: ClassDefinition, ts: seq<Triple>): Result<ClassDefinition>
  {
    if ts == [] then Ok(d)
    else
      match AnnotateAll(d, ts[..|ts| - 1])
      case Err(e) => Err(e)
      case Ok(d') => Annotate(d', ts[|ts| - 1])
  }

  /** The entries of classes `cs`, each annotated from the whole graph, in the order of `cs`. */
  function Entries(ts: seq<Triple>, cs: seq<string>): Result<map<string, ClassDefinition>>
  {
    if cs == [] then Ok(map[])
    else
      match Entries(ts, cs[..|cs| - 1])
      case Err(e) => Err(e)
      case Ok(m) =>
        match AnnotateAll(Unset(cs[|cs| - 1]), ts)
        case Err(e) => Err(e)
        case Ok(d) => Ok(m[cs[|cs| - 1] := d])
  }

  /** The result of `extract_classes_from_ttl` on a parse outcome. */
  function Catalog(parsed: Result<seq<Triple>>): Result<map<string, ClassDefinition>>
  {
    if parsed.Err? then Ok(map[])
    else Entries(parsed.value, DeclaredClasses(parsed.value))
  }

  // ---------------------------------------------------------------------------
  // The two passes

  /** `extract_classes_from_ttl`: a parse failure yields the empty catalogue; otherwise the
      two passes build the catalogue in place, and a label whose object is not a literal
      raises. */
  method ExtractClassesFromTtl(parsed: Result<seq<Triple>>) returns (r: Result<map<string, ClassDefinition>>)
    ensures r == Catalog(parsed)
  {
    if parsed.Err? {
      return Ok(map[]);
    }
    var graph := parsed.value;
    var defs, order := CollectClasses(graph);
    DeclaredClassesAre(graph);
    for j := 0 to |order|
      invariant Entries(graph, order[..j]).Ok?
      invariant defs == Unsets(order) + Entries(graph, order[..j]).value
    {
      var c := order[j];
      EntriesNext(graph, order, j);
      var res := AnnotateEntry(graph, c, defs);
      if res.Err? {
        EntriesErrPersists(graph, order, j + 1);
        return res;
      }
      defs := res.value;
    }
    assert order[..|order|] == order;
    UnsetsCovered(graph, order);
    return Ok(defs);
  }

  /** The first pass: every declared class gets an entry with no labels and no comment;
      `order` is the order in which the keys were inserted. */
  method CollectClasses(graph: seq<Triple>) returns (defs: map<string, ClassDefinition>, order: seq<string>)
    ensures order == DeclaredClasses(graph)
    ensures defs == Unsets(order)
  {
    defs, order := map[], [];
    for i := 0 to |graph|
      invariant order == DeclaredClasses(graph[..i])
      invariant defs == Unsets(order)
    {
      var t := graph[i];
      assert graph[..i + 1][..i] == graph[..i];
      if (t.pred == RdfType && (t.obj == Iri(OwlClass) || t.obj == Iri(RdfsClass))) || t.pred == RdfsSubClassOf {
        var classUri := t.subject;
        if classUri !in defs {
          defs := defs[classUri := Unset(classUri)];
          order := order + [classUri];
        }
      }
    }
    assert graph[..|graph|] == graph;
  }

  /** The second pass for class `c`: scan the whole graph and update the entry of `c` in
      place from its labels and comments. */
  method AnnotateEntry(graph: seq<Triple>, c: string, defs: map<string, ClassDefinition>)
    returns (r: Result<map<string, ClassDefinition>>)
    requires c in defs && defs[c].uri == c
    ensures r == match AnnotateAll(defs[c], graph)
      case Err(e) => Err(e)
      case Ok(d) => Ok(defs[c := d])
  {
    var entries := defs;
    for k := 0 to |graph|
      invariant c in entries && entries == defs[c := entries[c]]
      invariant AnnotateAll(defs[c], graph[..k]) == Ok(entries[c])
    {
      var t := graph[k];
      assert graph[..k + 1][..k] == graph[..k];
      UriKept(defs[c], graph[..k]);
      if t.subject == c {
        if t.pred == RdfsLabel {
          var lexical := Str(t.obj);
          if !t.obj.Literal? {
            AnnotateAllErrPersists(defs[c], graph, k + 1);
            return Err(AttributeErrorText(t.obj));
          }
          var lang := t.obj.language;
          if lang == Some("de") {
            entries := entries[c := entries[c].(germanLabel := Some(lexical))];
          } else if lang == Some("en") {
            entries := entries[c := entries[c].(englishLabel := Some(lexical))];
          } else if !Truthy(lang) {
            // no language tag: use as a fallback
            if !Truthy(entries[c].germanLabel) {
              entries := entries[c := entries[c].(germanLabel := Some(lexical))];
            }
            if !Truthy(entries[c].englishLabel) {
              entries := entries[c := entries[c].(englishLabel := Some(lexical))];
            }
          }
        } else if t.pred == RdfsComment {
          entries := entries[c := entries[c].(comment := Some(Str(t.obj)))];
        }
      }
    }
    assert graph[..|graph|] == graph;
    return Ok(entries);
  }

  // ---------------------------------------------------------------------------
  // Helper lemmas for the passes

  /** Before class `cs[j]` is annotated its entry is still unset; annotating it extends the
      entries of the classes before it. */
  lemma EntriesNext(ts: seq<Triple>, cs: seq<string>, j: nat)
    requires j < |cs| && Entries(ts, cs[..j]).Ok?
    requires forall a, b :: 0 <= a < b < |cs| ==> cs[a] != cs[b]
    ensures (Unsets(cs) + Entries(ts, cs[..j]).value)[cs[j]] == Unset(cs[j])
    ensures Entries(ts, cs[..j + 1]) ==
      match AnnotateAll(Unset(cs[j]), ts)
      case Err(e) => Err(e)
      case Ok(d) => Ok(Entries(ts, cs[..j]).value[cs[j] := d])
    ensures AnnotateAll(Unset(cs[j]), ts).Ok? ==>
      (Unsets(cs) + Entries(ts, cs[..j]).value)[cs[j] := AnnotateAll(Unset(cs[j]), ts).value] ==
      Unsets(cs) + Entries(ts, cs[..j + 1]).value
  {
    assert cs[..j + 1][..j] == cs[..j];
    assert cs[j] in Unsets(cs);
    EntriesKeys(ts, cs[..j]);
    assert cs[j] !in cs[..j];
  }

  lemma {:induction false} AnnotateAllErrPersists(d: ClassDefinition, ts: seq<Triple>, k: nat)
    requires k <= |ts| && AnnotateAll(d, ts[..k]).Err?
    ensures AnnotateAll(d, ts) == AnnotateAll(d, ts[..k])
    decreases |ts| - k
  {
    if k < |ts| {
      assert ts[..k + 1][..k] == ts[..k];
      AnnotateAllErrPersists(d, ts, k + 1);
    } else {
      assert ts[..k] == ts;
    }
  }

  lemma {:induction false} EntriesErrPersists(ts: seq<Triple>, cs: seq<string>, j: nat)
    requires j <= |cs| && Entries(ts, cs[..j]).Err?
    ensures Entries(ts, cs) == Entries(ts, cs[..j])
    decreases |cs| - j
  {
    if j < |cs| {
      assert cs[..j + 1][..j] == cs[..j];
      EntriesErrPersists(ts, cs, j + 1);
    } else {
      assert cs[..j] == cs;
    }
  }

  /** The annotated entries cover every key of the first pass's catalogue. */
  lemma UnsetsCovered(ts: seq<Triple>, cs: seq<string>)
    requires Entries(ts, cs).Ok?
    ensures Unsets(cs) + Entries(ts, cs).value == Entries(ts, cs).value
  {
    EntriesKeys(ts, cs);
  }

  // ---------------------------------------------------------------------------
  // Properties

  /** A successful catalogue has exactly the classes `cs` as keys, and each entry's uri is
      its key. */
  lemma {:induction false} EntriesKeys(ts: seq<Triple>, cs: seq<string>)
    requires Entries(ts, cs).Ok?
    ensures Entries(ts, cs).value.Keys == set c | c in cs
    ensures forall c :: c in Entries(ts, cs).value ==> Entries(ts, cs).value[c].uri == c
  {
    if cs != [] {
      var init, c := cs[..|cs| - 1], cs[|cs| - 1];
      EntriesKeys(ts, init);
      UriKept(Unset(c), ts);
      assert cs == init + [c];
    }
  }

  /** The second pass never changes an entry's uri. */
  lemma {:induction false} UriKept(d: ClassDefinition, ts: seq<Triple>)
    requires AnnotateAll(d, ts).Ok?
    ensures AnnotateAll(d, ts).value.uri == d.uri
  {
    if ts != [] {
      UriKept(d, ts[..|ts| - 1]);
    }
  }

  /** A class is collected exactly when some triple declares it; each one once. */
  lemma {:induction false} DeclaredClassesAre(ts: seq<Triple>)
    ensures forall c :: c in DeclaredClasses(ts) <==>
      exists i :: 0 <= i < |ts| && DeclaresClass(ts[i]) && ts[i].subject == c
    ensures forall i, j :: 0 <= i < j < |DeclaredClasses(ts)| ==> DeclaredClasses(ts)[i] != DeclaredClasses(ts)[j]
  {
    if ts != [] {
      var init := ts[..|ts| - 1];
      DeclaredClassesAre(init);
      assert forall i :: 0 <= i < |init| ==> init[i] == ts[i];
    }
  }

  /** The keys of the catalogue of a parsed graph are exactly the declared classes, and each
      entry carries its own uri; a parse failure gives the empty catalogue. */
  lemma CatalogKeys(parsed: Result<seq<Triple>>)
    requires Catalog(parsed).Ok?
    ensures parsed.Err? ==> Catalog(parsed).value == map[]
    ensures parsed.Ok? ==> forall c :: c in Catalog(parsed).value <==>
      exists i :: 0 <= i < |parsed.value| && DeclaresClass(parsed.value[i]) && parsed.value[i].subject == c
    ensures forall c :: c in Catalog(parsed).value ==> Catalog(parsed).value[c].uri == c
  {
    if parsed.Ok? {
      EntriesKeys(parsed.value, DeclaredClasses(parsed.value));
      DeclaredClassesAre(parsed.value);
    }
  }

  /** A label triple about the class whose object is not a literal. */
  predicate BadLabel(c: string, t: Triple)
  {
    t.subject == c && t.pred == RdfsLabel && !t.obj.Literal?
  }

  /** Annotating raises exactly when some label about the class is not a literal. */
  lemma {:induction false} AnnotateAllFailsIff(d: ClassDefinition, ts: seq<Triple>)
    ensures AnnotateAll(d, ts).Err? <==> exists i :: 0 <= i < |ts| && BadLabel(d.uri, ts[i])
  {
    if ts != [] {
      var init := ts[..|ts| - 1];
      AnnotateAllFailsIff(d, init);
      assert forall i :: 0 <= i < |init| ==> init[i] == ts[i];
      if AnnotateAll(d, init).Ok? {
        UriKept(d, init);
      }
    }
  }

  /** The catalogue fails exactly when some declared class has a label that is not a literal. */
  lemma {:induction false} EntriesFailIff(ts: seq<Triple>, cs: seq<string>)
    ensures Entries(ts, cs).Err? <==>
      exists j, i :: 0 <= j < |cs| && 0 <= i < |ts| && BadLabel(cs[j], ts[i])
  {
    if cs != [] {
      var init, c := cs[..|cs| - 1], cs[|cs| - 1];
      EntriesFailIff(ts, init);
      AnnotateAllFailsIff(Unset(c), ts);
      assert forall j :: 0 <= j < |init| ==> init[j] == cs[j];
      if exists j, i :: 0 <= j < |cs| && 0 <= i < |ts| && BadLabel(cs[j], ts[i]) {
        var j, i :| 0 <= j < |cs| && 0 <= i < |ts| && BadLabel(cs[j], ts[i]);
        if j < |init| {
          assert BadLabel(init[j], ts[i]);
        }
      }
    }
  }

  /** Extraction of a parsed graph raises exactly when a declared class has a label that is
      not a literal. */
  lemma CatalogFailsIff(ts: seq<Triple>)
    ensures Catalog(Ok(ts)).Err? <==>
      exists j, i :: 0 <= j < |ts| && 0 <= i < |ts| && DeclaresClass(ts[j]) && BadLabel(ts[j].subject, ts[i])
  {
    var cs := DeclaredClasses(ts);
    EntriesFailIff(ts, cs);
    DeclaredClassesAre(ts);
    if Catalog(Ok(ts)).Err? {
      var j, i :| 0 <= j < |cs| && 0 <= i < |ts| && BadLabel(cs[j], ts[i]);
      assert cs[j] in cs;
      var j' :| 0 <= j' < |ts| && DeclaresClass(ts[j']) && ts[j'].subject == cs[j];
      assert DeclaresClass(ts[j']) && BadLabel(ts[j'].subject, ts[i]);
    }
    if exists j, i :: 0 <= j < |ts| && 0 <= i < |ts| && DeclaresClass(ts[j]) && BadLabel(ts[j].subject, ts[i]) {
      var j, i :| 0 <= j < |ts| && 0 <= i < |ts| && DeclaresClass(ts[j]) && BadLabel(ts[j].subject, ts[i]);
      var c := ts[j].subject;
      assert c in cs;
      var k :| 0 <= k < |cs| && cs[k] == c;
      assert BadLabel(cs[k], ts[i]);
    }
  }

  /** Splitting the triples: annotate with the first part, then with the rest. */
  lemma {:induction false} AnnotateAllAppend(d: ClassDefinition, a: seq<Triple>, b: seq<Triple>)
    ensures AnnotateAll(d, a + b) ==
      match AnnotateAll(d, a)
      case Err(e) => Err(e)
      case Ok(d') => AnnotateAll(d', b)
    decreases |b|
  {
    if b == [] {
      assert a + b == a;
    } else {
      var init := b[..|b| - 1];
      assert (a + b)[..|a + b| - 1] == a + init;
      AnnotateAllAppend(d, a, init);
    }
  }

  /** A `de`-tagged label about the class. */
  predicate GermanLabel(c: string, t: Triple)
  {
    t.subject == c && t.pred == RdfsLabel && t.obj.Literal? && t.obj.language == Some("de")
  }

  predicate EnglishLabel(c: string, t: Triple)
  {
    t.subject == c && t.pred == RdfsLabel && t.obj.Literal? && t.obj.language == Some("en")
  }

  /** A label about the class without a language tag. */
  predicate UntaggedLabel(c: string, t: Triple)
  {
    t.subject == c && t.pred == RdfsLabel && t.obj.Literal? && !Truthy(t.obj.language)
  }

  /** Once the German label is non-empty, only a `de`-tagged label replaces it: untagged
      labels never do. The same holds for the English label and `en`. */
  lemma {:induction false} TruthyLabelsKept(d: ClassDefinition, ts: seq<Triple>)
    requires AnnotateAll(d, ts).Ok?
    ensures Truthy(d.germanLabel) && (forall i :: 0 <= i < |ts| ==> !GermanLabel(d.uri, ts[i])) ==>
      AnnotateAll(d, ts).value.germanLabel == d.germanLabel
    ensures Truthy(d.englishLabel) && (forall i :: 0 <= i < |ts| ==> !EnglishLabel(d.uri, ts[i])) ==>
      AnnotateAll(d, ts).value.englishLabel == d.englishLabel
  {
    if ts != [] {
      var init := ts[..|ts| - 1];
      TruthyLabelsKept(d, init);
      UriKept(d, init);
      assert forall i :: 0 <= i < |init| ==> init[i] == ts[i];
    }
  }

  /** The triple at index `k` acts on the entry annotated from the triples before it, and the
      triples after it act on the result. */
  lemma AnnotateAllAt(d: ClassDefinition, ts: seq<Triple>, k: nat)
    requires k < |ts| && AnnotateAll(d, ts).Ok?
    ensures AnnotateAll(d, ts[..k]).Ok? && AnnotateAll(d, ts[..k]).value.uri == d.uri
    ensures Annotate(AnnotateAll(d, ts[..k]).value, ts[k]).Ok?
    ensures Annotate(AnnotateAll(d, ts[..k]).value, ts[k]).value.uri == d.uri
    ensures AnnotateAll(d, ts) == AnnotateAll(Annotate(AnnotateAll(d, ts[..k]).value, ts[k]).value, ts[k + 1..])
  {
    assert ts == ts[..k + 1] + ts[k + 1..];
    AnnotateAllAppend(d, ts[..k + 1], ts[k + 1..]);
    assert ts[..k + 1][..k] == ts[..k];
    if AnnotateAll(d, ts[..k]).Ok? {
      UriKept(d, ts[..k]);
    }
  }

  /** The last `de`-tagged label about the class, if non-empty, is its German label (and
      likewise for `en`), whatever untagged labels follow it. */
  lemma LastTaggedLabelWins(d: ClassDefinition, ts: seq<Triple>, k: nat)
    requires AnnotateAll(d, ts).Ok?
    requires k < |ts| && ts[k].subject == d.uri && ts[k].pred == RdfsLabel && ts[k].obj.Literal? && ts[k].obj.lexical != ""
    ensures GermanLabel(d.uri, ts[k]) && (forall i :: k < i < |ts| ==> !GermanLabel(d.uri, ts[i])) ==>
      AnnotateAll(d, ts).value.germanLabel == Some(ts[k].obj.lexical)
    ensures EnglishLabel(d.uri, ts[k]) && (forall i :: k < i < |ts| ==> !EnglishLabel(d.uri, ts[i])) ==>
      AnnotateAll(d, ts).value.englishLabel == Some(ts[k].obj.lexical)
  {
    AnnotateAllAt(d, ts, k);
    var d1 := Annotate(AnnotateAll(d, ts[..k]).value, ts[k]).value;
    var post := ts[k + 1..];
    assert forall i :: 0 <= i < |post| ==> post[i] == ts[k + 1 + i];
    TruthyLabelsKept(d1, post);
  }

  /** Without `de`-tagged labels, the German label stays falsy as long as no non-empty
      untagged label has been seen. */
  lemma {:induction false} FalsyGermanKept(d: ClassDefinition, ts: seq<Triple>)
    requires AnnotateAll(d, ts).Ok? && !Truthy(d.germanLabel)
    requires forall i :: 0 <= i < |ts| ==> !GermanLabel(d.uri, ts[i])
    requires forall i :: 0 <= i < |ts| ==> !(UntaggedLabel(d.uri, ts[i]) && ts[i].obj.lexical != "")
    ensures !Truthy(AnnotateAll(d, ts).value.germanLabel)
  {
    if ts != [] {
      var init := ts[..|ts| - 1];
      assert forall i :: 0 <= i < |init| ==> init[i] == ts[i];
      FalsyGermanKept(d, init);
      UriKept(d, init);
    }
  }

  /** With no `de`-tagged label about the class, its German label is the first non-empty
      untagged label. */
  lemma FirstUntaggedLabelFillsGerman(c: string, ts: seq<Triple>, k: nat)
    requires AnnotateAll(Unset(c), ts).Ok?
    requires k < |ts| && UntaggedLabel(c, ts[k]) && ts[k].obj.lexical != ""
    requires forall i :: 0 <= i < k ==> !(UntaggedLabel(c, ts[i]) && ts[i].obj.lexical != "")
    requires forall i :: 0 <= i < |ts| ==> !GermanLabel(c, ts[i])
    ensures AnnotateAll(Unset(c), ts).value.germanLabel == Some(ts[k].obj.lexical)
  {
    AnnotateAllAt(Unset(c), ts, k);
    var d0 := AnnotateAll(Unset(c), ts[..k]).value;
    FalsyBeforeFirstUntagged(c, ts, k);
    var d1 := Annotate(d0, ts[k]).value;
    assert d1.germanLabel == Some(ts[k].obj.lexical);
    NoGermanLabelAfter(c, ts, k, ts[k + 1..]);
    TruthyLabelsKept(d1, ts[k + 1..]);
  }

  lemma FalsyBeforeFirstUntagged(c: string, ts: seq<Triple>, k: nat)
    requires k < |ts| && AnnotateAll(Unset(c), ts[..k]).Ok?
    requires forall i :: 0 <= i < k ==> !(UntaggedLabel(c, ts[i]) && ts[i].obj.lexical != "")
    requires forall i :: 0 <= i < |ts| ==> !GermanLabel(c, ts[i])
    ensures !Truthy(AnnotateAll(Unset(c), ts[..k]).value.germanLabel)
  {
    var pre := ts[..k];
    assert forall i :: 0 <= i < |pre| ==> pre[i] == ts[i];
    FalsyGermanKept(Unset(c), pre);
  }

  lemma NoGermanLabelAfter(c: string, ts: seq<Triple>, k: nat, post: seq<Triple>)
    requires k < |ts| && post == ts[k + 1..]
    requires forall i :: 0 <= i < |ts| ==> !GermanLabel(c, ts[i])
    ensures forall i :: 0 <= i < |post| ==> !GermanLabel(c, post[i])
  {
    assert forall i :: 0 <= i < |post| ==> post[i] == ts[k + 1 + i];
  }

  /** Without `en`-tagged labels, the English label stays falsy as long as no non-empty
      untagged label has been seen. */
  lemma {:induction false} FalsyEnglishKept(d: ClassDefinition, ts: seq<Triple>)
    requires AnnotateAll(d, ts).Ok? && !Truthy(d.englishLabel)
    requires forall i :: 0 <= i < |ts| ==> !EnglishLabel(d.uri, ts[i])
    requires forall i :: 0 <= i < |ts| ==> !(UntaggedLabel(d.uri, ts[i]) && ts[i].obj.lexical != "")
    ensures !Truthy(AnnotateAll(d, ts).value.englishLabel)
  {
    if ts != [] {
      var init := ts[..|ts| - 1];
      assert forall i :: 0 <= i < |init| ==> init[i] == ts[i];
      FalsyEnglishKept(d, init);
      UriKept(d, init);
    }
  }

  /** With no `en`-tagged label about the class, its English label is the first non-empty
      untagged label. */
  lemma FirstUntaggedLabelFillsEnglish(c: string, ts: seq<Triple>, k: nat)
    requires AnnotateAll(Unset(c), ts).Ok?
    requires k < |ts| && UntaggedLabel(c, ts[k]) && ts[k].obj.lexical != ""
    requires forall i :: 0 <= i < k ==> !(UntaggedLabel(c, ts[i]) && ts[i].obj.lexical != "")
    requires forall i :: 0 <= i < |ts| ==> !EnglishLabel(c, ts[i])
    ensures AnnotateAll(Unset(c), ts).value.englishLabel == Some(ts[k].obj.lexical)
  {
    AnnotateAllAt(Unset(c), ts, k);
    var d0 := AnnotateAll(Unset(c), ts[..k]).value;
    FalsyEnglishBeforeFirstUntagged(c, ts, k);
    var d1 := Annotate(d0, ts[k]).value;
    assert d1.englishLabel == Some(ts[k].obj.lexical);
    NoEnglishLabelAfter(c, ts, k, ts[k + 1..]);
    TruthyLabelsKept(d1, ts[k + 1..]);
  }

  lemma FalsyEnglishBeforeFirstUntagged(c: string, ts: seq<Triple>, k: nat)
    requires k < |ts| && AnnotateAll(Unset(c), ts[..k]).Ok?
    requires forall i :: 0 <= i < k ==> !(UntaggedLabel(c, ts[i]) && ts[i].obj.lexical != "")
    requires forall i :: 0 <= i < |ts| ==> !EnglishLabel(c, ts[i])
    ensures !Truthy(AnnotateAll(Unset(c), ts[..k]).value.englishLabel)
  {
    var pre := ts[..k];
    assert forall i :: 0 <= i < |pre| ==> pre[i] == ts[i];
    FalsyEnglishKept(Unset(c), pre);
  }

  lemma NoEnglishLabelAfter(c: string, ts: seq<Triple>, k: nat, post: seq<Triple>)
    requires k < |ts| && post == ts[k + 1..]
    requires forall i :: 0 <= i < |ts| ==> !EnglishLabel(c, ts[i])
    ensures forall i :: 0 <= i < |post| ==> !EnglishLabel(c, post[i])
  {
    assert forall i :: 0 <= i < |post| ==> post[i] == ts[k + 1 + i];
  }

  /** A comment about the class. */
  predicate CommentOn(c: string, t: Triple)
  {
    t.subject == c && t.pred == RdfsComment
  }

  /** Without comment triples the comment is never touched: a class with no comment keeps
      `None`. */
  lemma {:induction false} CommentKept(d: ClassDefinition, ts: seq<Triple>)
    requires AnnotateAll(d, ts).Ok?
    requires forall i :: 0 <= i < |ts| ==> !CommentOn(d.uri, ts[i])
    ensures AnnotateAll(d, ts).value.comment == d.comment
  {
    if ts != [] {
      var init := ts[..|ts| - 1];
      assert forall i :: 0 <= i < |init| ==> init[i] == ts[i];
      CommentKept(d, init);
      UriKept(d, init);
    }
  }

  /** The comment is that of the last comment triple about the class. */
  lemma CommentIsLast(d: ClassDefinition, ts: seq<Triple>, k: nat)
    requires AnnotateAll(d, ts).Ok?
    requires k < |ts| && CommentOn(d.uri, ts[k])
    requires forall i :: k < i < |ts| ==> !CommentOn(d.uri, ts[i])
    ensures AnnotateAll(d, ts).value.comment == Some(Str(ts[k].obj))
  {
    AnnotateAllAt(d, ts, k);
    var post := ts[k + 1..];
    assert forall i :: 0 <= i < |post| ==> post[i] == ts[k + 1 + i];
    CommentKept(Annotate(AnnotateAll(d, ts[..k]).value, ts[k]).value, post);
  }

  /** The triples that can affect the entry of class `c`: its comments and its labels, except
      labels tagged with a language other than `de` and `en`. */
  predicate Relevant(c: string, t: Triple)
  {
    && t.subject == c
    && (t.pred == RdfsComment
        || (t.pred == RdfsLabel && !(t.obj.Literal? && Truthy(t.obj.language)
                                     && t.obj.language != Some("de") && t.obj.language != Some("en"))))
  }

  function RelevantTo(c: string, ts: seq<Triple>): seq<Triple>
  {
    if ts == [] then []
    else RelevantTo(c, ts[..|ts| - 1]) + (if Relevant(c, ts[|ts| - 1]) then [ts[|ts| - 1]] else [])
  }

  /** Triples about other subjects, other predicates and labels in other languages change
      nothing: annotating with the relevant triples alone gives the same outcome. */
  lemma {:induction false} OnlyRelevantTriplesMatter(d: ClassDefinition, ts: seq<Triple>)
    ensures AnnotateAll(d, ts) == AnnotateAll(d, RelevantTo(d.uri, ts))
  {
    if ts != [] {
      var init, t := ts[..|ts| - 1], ts[|ts| - 1];
      OnlyRelevantTriplesMatter(d, init);
      var r := RelevantTo(d.uri, init);
      SplitLast(ts);
      AnnotateAllSnoc(d, init, t);
      if Relevant(d.uri, t) {
        assert RelevantTo(d.uri, ts) == r + [t];
        AnnotateAllSnoc(d, r, t);
      } else {
        assert RelevantTo(d.uri, ts) == r by {
          EmptyAppend<Triple>(r);
          assert r + [] == r;
        }
        if AnnotateAll(d, init).Ok? {
          UriKept(d, init);
          IrrelevantTripleIgnored(AnnotateAll(d, init).value, t);
        }
      }
    }
  }

  lemma AnnotateAllSnoc(d: ClassDefinition, s: seq<Triple>, t: Triple)
    ensures AnnotateAll(d, s + [t]) ==
      if AnnotateAll(d, s).Err? then AnnotateAll(d, s) else Annotate(AnnotateAll(d, s).value, t)
  {
    assert (s + [t])[..|s|] == s;
  }

  lemma IrrelevantTripleIgnored(d: ClassDefinition, t: Triple)
    requires !Relevant(d.uri, t)
    ensures Annotate(d, t) == Ok(d)
  {
  }
}
