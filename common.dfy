/** Small value types and string helpers shared by the backend model. */
module Common {

  /** Python's `None` / present value. */
  datatype Option<T> = None | Some(value: T)

  /** A computation that either returns a value or raises an exception whose text is `error`. */
  datatype Result<T> = Ok(value: T) | Err(error: string)

  function Min(a: int, b: int): (m: int)
    ensures m <= a && m <= b && (m == a || m == b)
  {
    if a <= b then a else b
  }

  /** `s.split('/')[-1]`: the part of `s` after its last '/', or all of `s` if it has none. */
  function LastSegment(s: string): string
  {
    if s == [] then []
    else if s[|s| - 1] == '/' then []
    else LastSegment(s[..|s| - 1]) + [s[|s| - 1]]
  }

  /** The last segment is a suffix without '/', preceded by a '/' unless it is all of `s`. */
  lemma {:induction false} LastSegmentIs(s: string)
    ensures var r := LastSegment(s);
      && |r| <= |s| && s[|s| - |r|..] == r
      && '/' !in r
      && (|r| < |s| ==> s[|s| - |r| - 1] == '/')
  {
    if s != [] && s[|s| - 1] != '/' {
      var init := s[..|s| - 1];
      LastSegmentIs(init);
      var r0 := LastSegment(init);
      assert s[|s| - |r0| - 1..] == init[|init| - |r0|..] + [s[|s| - 1]];
      if |r0| < |init| {
        assert s[|s| - |r0| - 2] == init[|init| - |r0| - 1];
      }
    }
  }

  /** A segment without '/' is the whole string. */
  lemma {:induction false} LastSegmentOfPlain(s: string)
    requires '/' !in s
    ensures LastSegment(s) == s
  {
    if s != [] {
      var init := s[..|s| - 1];
      assert '/' !in init by {
        forall i | 0 <= i < |init|
          ensures init[i] != '/'
        {
          assert init[i] == s[i];
        }
      }
      LastSegmentOfPlain(init);
      assert s == init + [s[|s| - 1]];
    }
  }

  function DigitChar(d: nat): (c: char)
    requires d < 10
    ensures '0' <= c <= '9'
    ensures DigitValue(c) == d
  {
    ['0', '1', '2', '3', '4', '5', '6', '7', '8', '9'][d]
  }

  /** The value of a decimal digit character (0 for any other character). */
  function DigitValue(c: char): nat
  {
    if '0' <= c <= '9' then c as int - '0' as int else 0
  }

  /** The number a string of decimal digits spells, most significant first. */
  function DecimalValue(s: string): nat
  {
    if s == [] then 0 else 10 * DecimalValue(s[..|s| - 1]) + DigitValue(s[|s| - 1])
  }

  /** Python's `str(n)` for a non-negative integer: its decimal digits, most significant first,
      with no leading zero. */
  function NatToString(n: nat): (s: string)
    ensures |s| > 0
    ensures forall i :: 0 <= i < |s| ==> '0' <= s[i] <= '9'
    ensures n > 0 ==> s[0] != '0'
  {
    if n < 10 then [DigitChar(n)] else NatToString(n / 10) + [DigitChar(n % 10)]
  }

  /** The digits of `str(n)` spell `n`. */
  lemma {:induction false} NatToStringRoundTrip(n: nat)
    ensures DecimalValue(NatToString(n)) == n
  {
    var s := NatToString(n);
    if n >= 10 {
      NatToStringRoundTrip(n / 10);
      assert s[..|s| - 1] == NatToString(n / 10);
    }
  }

  /** Distinct numbers are written differently. */
  lemma NatToStringInjective(m: nat, n: nat)
    requires NatToString(m) == NatToString(n)
    ensures m == n
  {
    NatToStringRoundTrip(m);
    NatToStringRoundTrip(n);
  }

  /** Python's `str.lower()` restricted to ASCII letters. */
  function LowerChar(c: char): (l: char)
    ensures 'A' <= c <= 'Z' ==> l as int == c as int + 32
    ensures !('A' <= c <= 'Z') ==> l == c
  {
    if 'A' <= c <= 'Z' then (c as int + 32) as char else c
  }

  function Lower(s: string): (r: string)
    ensures |r| == |s|
    ensures forall i :: 0 <= i < |s| ==> r[i] == LowerChar(s[i])
  {
    if s == [] then [] else [LowerChar(s[0])] + Lower(s[1..])
  }

  // ---------------------------------------------------------------------------
  // Sequence facts, stated generically so that no element structure gets unfolded

  /** A non-empty sequence is its prefix plus its last element (used by the inductions on
      the last element in `SortByCountSorts`, `SortByCountStable`, `OnlyRelevantTriplesMatter`). */
  lemma SplitLast<T>(s: seq<T>)
    requires s != []
    ensures s == s[..|s| - 1] + [s[|s| - 1]]
  {
  }

  /** Indexing past a prepended element (used by `TabsLayout` for the tabs after the summary). */
  lemma ConsAt<T>(x: T, rest: seq<T>, k: nat)
    requires k < |rest|
    ensures ([x] + rest)[k + 1] == rest[k]
  {
  }

  /** The empty sequence is a left unit (base cases of `WithCountAppend`, `OnlyRelevantTriplesMatter`). */
  lemma EmptyAppend<T>(b: seq<T>)
    ensures [] + b == b
  {
  }

  /** Head and tail of a concatenation (inductive step of `WithCountAppend`). */
  lemma ConsAppend<T>(a: seq<T>, b: seq<T>)
    requires a != []
    ensures (a + b)[0] == a[0] && (a + b)[1..] == a[1..] + b
  {
  }
}
