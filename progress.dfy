/** The analysis progress checkpoints of `analyze_uploaded_data_optimized`: every value it
    hands to `update_analysis_progress`, in order, with its status text. Progress is a
    percentage, modelled as a `real`. */
module Progress {
  import opened Common

  datatype Checkpoint = Checkpoint(progress: real, status: string)

  const ExtractingStatus := "Extracting type information..."
  const AnalyzingStatus := "Analyzing class instances..."
  const PreparingStatus := "Preparing results..."
  const CreatingTabsStatus := "Creating class tabs..."
  const CompletedStatus := "Analysis completed!"

  /** Every 50000 scanned triples (of `total`), the share scanned scaled to 0..50. */
  function ScanCheckpoints(total: nat, p: nat): seq<Checkpoint>
    requires p <= total
  {
    if p == 0 then []
    else
      ScanCheckpoints(total, p - 1)
      + (if p % 50000 == 0 then [Checkpoint((p as real / total as real) * 50.0, ExtractingStatus)] else [])
  }

  /** Every 10000 type assertions (of `total`), the share processed scaled to 50..80. */
  function GroupCheckpoints(total: nat, i: nat): seq<Checkpoint>
    requires i <= total
  {
    if i == 0 then []
    else
      GroupCheckpoints(total, i - 1)
      + (if i % 10000 == 0 then [Checkpoint(50.0 + (i as real / total as real) * 30.0, AnalyzingStatus)] else [])
  }

  function TabStatus(k: nat, total: nat): string
  {
    "Created " + NatToString(k) + "/" + NatToString(total) + " class tabs..."
  }

  /** Every 5 class tabs (of `total`), the share created scaled to 90..100. */
  function TabCheckpoints(total: nat, k: nat): seq<Checkpoint>
    requires k <= total
  {
    if k == 0 then []
    else
      TabCheckpoints(total, k - 1)
      + (if k % 5 == 0 then [TabCheckpoint(k, total)] else [])
  }

  function TabCheckpoint(k: nat, total: nat): Checkpoint
    requires 0 < k <= total
  {
    Checkpoint(90.0 + (k as real / total as real) * 10.0, TabStatus(k, total))
  }

  /** The whole trace for `n` triples, `m` type assertions and `c` found classes. */
  function AnalysisCheckpoints(n: nat, m: nat, c: nat): seq<Checkpoint>
  {
    ScanCheckpoints(n, n)
    + [Checkpoint(50.0, AnalyzingStatus)]
    + GroupCheckpoints(m, m)
    + [Checkpoint(80.0, PreparingStatus)]
    + [Checkpoint(90.0, CreatingTabsStatus)]
    + TabCheckpoints(c, c)
    + [Checkpoint(100.0, CompletedStatus)]
  }

  predicate NonDecreasing(s: seq<Checkpoint>)
  {
    forall i, j :: 0 <= i < j < |s| ==> s[i].progress <= s[j].progress
  }

  predicate Within(s: seq<Checkpoint>, lo: real, hi: real)
  {
    forall i :: 0 <= i < |s| ==> lo <= s[i].progress <= hi
  }

  /** A share `p / t` of a positive total grows with `p` and stays within 0..1 (the step of
      `ScanMonotone`, `GroupMonotone` and `TabMonotone`). */
  lemma ShareBounds(p: nat, q: nat, t: nat)
    requires 0 < p <= q <= t
    ensures 0.0 < p as real / t as real <= q as real / t as real <= 1.0
  {
    var tr := t as real;
    assert (p as real / tr) * tr == p as real;
    assert (q as real / tr) * tr == q as real;
    assert (q as real / tr - p as real / tr) * tr == q as real - p as real;
    assert (1.0 - q as real / tr) * tr == tr - q as real;
  }

  /** The first segment climbs, and stays below the share already scanned times 50. */
  lemma {:induction false} ScanMonotone(total: nat, p: nat)
    requires p <= total
    ensures NonDecreasing(ScanCheckpoints(total, p))
    ensures p > 0 ==> Within(ScanCheckpoints(total, p), 0.0, (p as real / total as real) * 50.0)
    ensures Within(ScanCheckpoints(total, p), 0.0, 50.0)
  {
    if p > 0 {
      ScanMonotone(total, p - 1);
      ShareBounds(p, p, total);
      if p > 1 {
        ShareBounds(p - 1, p, total);
      }
    }
  }

  lemma {:induction false} GroupMonotone(total: nat, i: nat)
    requires i <= total
    ensures NonDecreasing(GroupCheckpoints(total, i))
    ensures i > 0 ==> Within(GroupCheckpoints(total, i), 50.0, 50.0 + (i as real / total as real) * 30.0)
    ensures Within(GroupCheckpoints(total, i), 50.0, 80.0)
  {
    if i > 0 {
      GroupMonotone(total, i - 1);
      ShareBounds(i, i, total);
      if i > 1 {
        ShareBounds(i - 1, i, total);
      }
    }
  }

  lemma {:induction false} TabMonotone(total: nat, k: nat)
    requires k <= total
    ensures NonDecreasing(TabCheckpoints(total, k))
    ensures k > 0 ==> Within(TabCheckpoints(total, k), 90.0, 90.0 + (k as real / total as real) * 10.0)
    ensures Within(TabCheckpoints(total, k), 90.0, 100.0)
  {
    if k > 0 {
      TabMonotone(total, k - 1);
      ShareBounds(k, k, total);
      if k > 1 {
        ShareBounds(k - 1, k, total);
      }
    }
  }

  /** Two climbing traces in adjacent ranges climb when joined (how `CheckpointsMonotone`
      chains the analysis phases). */
  lemma Concat(a: seq<Checkpoint>, b: seq<Checkpoint>, lo: real, mid: real, hi: real)
    requires lo <= mid <= hi
    requires NonDecreasing(a) && Within(a, lo, mid)
    requires NonDecreasing(b) && Within(b, mid, hi)
    ensures NonDecreasing(a + b) && Within(a + b, lo, hi)
  {
  }

  /** The progress an analysis reports never goes back, stays within 0..100 and ends at 100
      with "Analysis completed!". */
  lemma CheckpointsMonotone(n: nat, m: nat, c: nat)
    ensures var s := AnalysisCheckpoints(n, m, c);
      && NonDecreasing(s) && Within(s, 0.0, 100.0)
      && s[|s| - 1] == Checkpoint(100.0, CompletedStatus)
  {
    ScanMonotone(n, n);
    GroupMonotone(m, m);
    TabMonotone(c, c);
    var s1 := ScanCheckpoints(n, n) + [Checkpoint(50.0, AnalyzingStatus)];
    Concat(ScanCheckpoints(n, n), [Checkpoint(50.0, AnalyzingStatus)], 0.0, 50.0, 50.0);
    var s2 := s1 + GroupCheckpoints(m, m);
    Concat(s1, GroupCheckpoints(m, m), 0.0, 50.0, 80.0);
    var s3 := s2 + [Checkpoint(80.0, PreparingStatus)];
    Concat(s2, [Checkpoint(80.0, PreparingStatus)], 0.0, 80.0, 80.0);
    var s3' := s3 + [Checkpoint(90.0, CreatingTabsStatus)];
    Concat(s3, [Checkpoint(90.0, CreatingTabsStatus)], 0.0, 80.0, 90.0);
    var s4 := s3' + TabCheckpoints(c, c);
    Concat(s3', TabCheckpoints(c, c), 0.0, 90.0, 100.0);
    Concat(s4, [Checkpoint(100.0, CompletedStatus)], 0.0, 100.0, 100.0);
  }
}
