/** The normalised edit distance of src/domain/utils/levenshtein.ts.

  `Distance` is the recurrence the row-buffer program evaluates. What makes it the edit
  distance is proved against edit scripts: it is the cost of some script, and no script
  is cheaper. The metric laws follow from that. */
module Levenshtein {
  import opened Outcomes

  const MAX_LENGTH := 100

  function DropLast(s: string): string
    requires s != []
  {
    s[..|s| - 1]
  }

  function Last(s: string): char
    requires s != []
  {
    s[|s| - 1]
  }

  // ---- Edit scripts: the independent notion of distance ----

  /** One step of an edit script, read from left to right over the two strings. */
  datatype Edit =
    | Keep
    | Substitute(c: char)
    | Insert(c: char)
    | Delete

  /** Whether `script` turns `a` into `b`, consuming all of `a` and producing all of `b`. */
  ghost predicate Transforms(script: seq<Edit>, a: string, b: string)
    decreases |script|
  {
    if script == [] then a == [] && b == []
    else
      var init := script[..|script| - 1];
      match script[|script| - 1]
      case Keep => a != [] && b != [] && Last(a) == Last(b) && Transforms(init, DropLast(a), DropLast(b))
      case Substitute(c) => a != [] && b != [] && c == Last(b) && Transforms(init, DropLast(a), DropLast(b))
      case Insert(c) => b != [] && c == Last(b) && Transforms(init, a, DropLast(b))
      case Delete => a != [] && Transforms(init, DropLast(a), b)
  }

  /** Every edit but a kept character costs one. */
  function Cost(script: seq<Edit>): nat {
    if script == [] then 0
    else Cost(script[..|script| - 1]) + if script[|script| - 1].Keep? then 0 else 1
  }

  // ---- The recurrence ----

  function Min(x: nat, y: nat): nat {
    if x <= y then x else y
  }

  function Max(x: nat, y: nat): nat {
    if x <= y then y else x
  }

  function Distance(a: string, b: string): nat
    decreases |a| + |b|
  {
    if a == [] then |b|
    else if b == [] then |a|
    else if Last(a) == Last(b) then Distance(DropLast(a), DropLast(b))
    else 1 + Min(Min(Distance(DropLast(a), b), Distance(a, DropLast(b))), Distance(DropLast(a), DropLast(b)))
  }

  /** Removing the last character of either string moves the distance by at most one. */
  lemma {:induction false} Neighbours(a: string, b: string)
    ensures a != [] ==> -1 <= Distance(a, b) - Distance(DropLast(a), b) <= 1
    ensures b != [] ==> -1 <= Distance(a, b) - Distance(a, DropLast(b)) <= 1
    decreases |a| + |b|
  {
    if a != [] && b != [] {
      Neighbours(DropLast(a), b);
      Neighbours(a, DropLast(b));
    }
  }

  lemma {:induction false} NoScriptIsCheaper(script: seq<Edit>, a: string, b: string)
    requires Transforms(script, a, b)
    ensures Distance(a, b) <= Cost(script)
    decreases |script|
  {
    if script != [] {
      var init := script[..|script| - 1];
      Neighbours(a, b);
      match script[|script| - 1]
      case Keep =>
        NoScriptIsCheaper(init, DropLast(a), DropLast(b));
      case Substitute(c) =>
        NoScriptIsCheaper(init, DropLast(a), DropLast(b));
      case Insert(c) =>
        NoScriptIsCheaper(init, a, DropLast(b));
      case Delete =>
        NoScriptIsCheaper(init, DropLast(a), b);
    }
  }

  lemma {:induction false} AppendEdit(script: seq<Edit>, e: Edit)
    ensures (script + [e])[..|script + [e]| - 1] == script
    ensures (script + [e])[|script + [e]| - 1] == e
    ensures Cost(script + [e]) == Cost(script) + if e.Keep? then 0 else 1
  {
    assert (script + [e])[..|script + [e]| - 1] == script;
  }

  lemma {:induction false} CheapestScript(a: string, b: string) returns (script: seq<Edit>)
    ensures Transforms(script, a, b)
    ensures Cost(script) == Distance(a, b)
    decreases |a| + |b|
  {
    if a == [] && b == [] {
      script := [];
    } else if a == [] || (b != [] && Last(a) != Last(b) && Distance(a, b) == 1 + Distance(a, DropLast(b))) {
      var init := CheapestScript(a, DropLast(b));
      script := init + [Insert(Last(b))];
      AppendEdit(init, Insert(Last(b)));
    } else if b == [] || (Last(a) != Last(b) && Distance(a, b) == 1 + Distance(DropLast(a), b)) {
      var init := CheapestScript(DropLast(a), b);
      script := init + [Delete];
      AppendEdit(init, Delete);
    } else {
      var init := CheapestScript(DropLast(a), DropLast(b));
      var e := if Last(a) == Last(b) then Keep else Substitute(Last(b));
      script := init + [e];
      AppendEdit(init, e);
    }
  }

  /** The recurrence is the edit distance: `d` is the least cost of a script from `a` to `b`
      exactly when it is `Distance(a, b)`. */
  lemma DistanceIsLeastScriptCost(a: string, b: string, d: nat)
    ensures d == Distance(a, b) <==>
            && (exists script :: Transforms(script, a, b) && Cost(script) == d)
            && (forall script :: Transforms(script, a, b) ==> d <= Cost(script))
  {
    var best := CheapestScript(a, b);
    forall script | Transforms(script, a, b)
      ensures Distance(a, b) <= Cost(script)
    {
      NoScriptIsCheaper(script, a, b);
    }
  }

  // ---- The distance is a metric ----

  lemma {:induction false} Symmetric(a: string, b: string)
    ensures Distance(a, b) == Distance(b, a)
    decreases |a| + |b|
  {
    if a != [] && b != [] {
      Symmetric(DropLast(a), b);
      Symmetric(a, DropLast(b));
      Symmetric(DropLast(a), DropLast(b));
    }
  }

  lemma {:induction false} LengthBounds(a: string, b: string)
    ensures Distance(a, b) <= Max(|a|, |b|)
    ensures |a| <= Distance(a, b) + |b|
    ensures |b| <= Distance(a, b) + |a|
    decreases |a| + |b|
  {
    if a != [] && b != [] {
      LengthBounds(DropLast(a), b);
      LengthBounds(a, DropLast(b));
      LengthBounds(DropLast(a), DropLast(b));
    }
  }

  lemma {:induction false} ZeroIffEqual(a: string, b: string)
    ensures Distance(a, b) == 0 <==> a == b
    decreases |a| + |b|
  {
    if a != [] && b != [] && Last(a) == Last(b) {
      ZeroIffEqual(DropLast(a), DropLast(b));
      assert a == DropLast(a) + [Last(a)] && b == DropLast(b) + [Last(b)];
    }
  }

  /** Running a script first never beats going straight. */
  lemma {:induction false} ScriptDetour(script: seq<Edit>, a: string, b: string, c: string)
    requires Transforms(script, a, b)
    ensures Distance(a, c) <= Cost(script) + Distance(b, c)
    decreases |script| + |c|
  {
    if script == [] {
    } else if c == [] {
      NoScriptIsCheaper(script, a, b);
      LengthBounds(a, b);
    } else {
      var init := script[..|script| - 1];
      Neighbours(a, c);
      match script[|script| - 1]
      case Delete =>
        ScriptDetour(init, DropLast(a), b, c);
      case Insert(_) =>
        ScriptDetour(init, a, DropLast(b), c);
        Neighbours(b, c);
      case _ =>
        ScriptDetour(init, DropLast(a), DropLast(b), c);
        ScriptDetour(init, DropLast(a), DropLast(b), DropLast(c));
        ScriptDetour(script, a, b, DropLast(c));
    }
  }

  lemma TriangleInequality(a: string, b: string, c: string)
    ensures Distance(a, c) <= Distance(a, b) + Distance(b, c)
  {
    var best := CheapestScript(a, b);
    ScriptDetour(best, a, b, c);
  }

  // ---- The similarity ----

  function Similarity(a: string, b: string): real {
    if a == [] && b == [] then 1.0
    else 1.0 - Distance(a, b) as real / Max(|a|, |b|) as real
  }

  lemma RatioBounds(d: nat, n: nat)
    requires 0 < n && d <= n
    ensures 0.0 <= d as real / n as real <= 1.0
    ensures d as real / n as real == 0.0 <==> d == 0
    ensures d as real / n as real == 1.0 <==> d == n
  {
    var q := d as real / n as real;
    assert q * n as real == d as real;
  }

  /** The similarity ranges over [0, 1], does not depend on the order of its arguments,
      and is 1 for equal strings only. */
  lemma SimilarityLaws(a: string, b: string)
    ensures 0.0 <= Similarity(a, b) <= 1.0
    ensures Similarity(a, b) == Similarity(b, a)
    ensures Similarity(a, b) == 1.0 <==> a == b
    ensures (a == []) != (b == []) ==> Similarity(a, b) == 0.0
  {
    Symmetric(a, b);
    ZeroIffEqual(a, b);
    LengthBounds(a, b);
    if a != [] || b != [] {
      RatioBounds(Distance(a, b), Max(|a|, |b|));
    }
  }

  /** No script from `a` to `b` is cheaper. */
  ghost predicate Cheapest(script: seq<Edit>, a: string, b: string) {
    Transforms(script, a, b) && forall other :: Transforms(other, a, b) ==> Cost(script) <= Cost(other)
  }

  /** `r` is one less the share of the longer string that the cheapest edit script changes. */
  ghost predicate Normalises(r: real, a: string, b: string) {
    var n := if |a| >= |b| then |a| else |b|;
    n > 0 ==> exists script :: Cheapest(script, a, b) && r == 1.0 - Cost(script) as real / n as real
  }

  lemma SimilarityNormalises(a: string, b: string)
    ensures Normalises(Similarity(a, b), a, b)
  {
    var script := CheapestScript(a, b);
    forall other | Transforms(other, a, b)
      ensures Cost(script) <= Cost(other)
    {
      NoScriptIsCheaper(other, a, b);
    }
    assert Cheapest(script, a, b);
  }

  /** No character stands in both. */
  ghost predicate NothingInCommon(a: string, b: string) {
    forall c :: c in a ==> c !in b
  }

  lemma {:induction false} NothingIsKept(a: string, b: string)
    requires NothingInCommon(a, b)
    ensures Distance(a, b) == Max(|a|, |b|)
    decreases |a| + |b|
  {
    if a != [] && b != [] {
      assert Last(a) in a && Last(b) in b;
      NothingIsKept(DropLast(a), b);
      NothingIsKept(a, DropLast(b));
      NothingIsKept(DropLast(a), DropLast(b));
    }
  }

  lemma NothingInCommonIsZero(a: string, b: string)
    requires NothingInCommon(a, b) && (a != [] || b != [])
    ensures Similarity(a, b) == 0.0
  {
    NothingIsKept(a, b);
    RatioBounds(Max(|a|, |b|), Max(|a|, |b|));
  }

  // ---- The program ----

  datatype InputTooLong = InputTooLong(limit: nat)

  /** The distances from `a` to every prefix of `b`. */
  predicate IsRow(row: seq<nat>, a: string, b: string) {
    |row| == |b| + 1 && forall j :: 0 <= j <= |b| ==> row[j] == Distance(a, b[..j])
  }

  /** Fills `curr[1..]` from the row before it. */
  method ComputeRow(aChar: char, b: string, prev: array<nat>, curr: array<nat>, n: nat, ghost a: string)
    requires n == |b| && prev.Length == n + 1 && curr.Length == n + 1 && prev != curr
    requires a != [] && Last(a) == aChar && curr[0] == |a|
    requires IsRow(prev[..], DropLast(a), b)
    modifies curr
    ensures IsRow(curr[..], a, b)
  {
    for j := 1 to n + 1
      invariant forall k :: 0 <= k < j ==> curr[k] == Distance(a, b[..k])
    {
      assert forall k :: 0 <= k <= n ==> prev[k] == prev[..][k];
      assert DropLast(b[..j]) == b[..j - 1] && Last(b[..j]) == b[j - 1];
      curr[j] := if aChar == b[j - 1] then prev[j - 1]
                 else 1 + Min(Min(prev[j], curr[j - 1]), prev[j - 1]);
    }
  }

/** What the result tells, whichever way it is computed. */
  lemma MeansSimilarity(a: string, b: string)
    ensures Normalises(Similarity(a, b), a, b)
    ensures NothingInCommon(a, b) && (a != "" || b != "") ==> Similarity(a, b) == 0.0
  {
    SimilarityNormalises(a, b);
    if NothingInCommon(a, b) && (a != [] || b != []) {
      NothingInCommonIsZero(a, b);
    }
  }

    method LevenshteinSimilarity(a: string, b: string) returns (r: Result<real, InputTooLong>)
    ensures r == if |a| > MAX_LENGTH || |b| > MAX_LENGTH then Failure(InputTooLong(MAX_LENGTH))
                 else Success(Similarity(a, b))
    ensures r.Failure? <==> |a| > 100 || |b| > 100
    ensures r.Success? ==> Normalises(r.value, a, b)
    ensures a == b == "" ==> r == Success(1.0)
    ensures r.Success? && NothingInCommon(a, b) && (a != "" || b != "") ==> r == Success(0.0)
  {
    MeansSimilarity(a, b);
    if |a| > MAX_LENGTH || |b| > MAX_LENGTH {
      return Failure(InputTooLong(MAX_LENGTH));
    }
    var m, n := |a|, |b|;
    SimilarityLaws(a, b);
    if m == 0 {
      return Success(if n == 0 then 1.0 else 0.0);
    }
    if n == 0 {
      return Success(0.0);
    }
    var maxLen := Max(m, n);
    var prev := new nat[n + 1];
    var curr := new nat[n + 1];

    for j := 0 to n + 1
      invariant forall k :: 0 <= k < j ==> prev[k] == k
    {
      prev[j] := j;
    }

    assert a[..0] == [];
    for i := 1 to m + 1
      invariant IsRow(prev[..], a[..i - 1], b)
    {
      curr[0] := i;
      var aChar := a[i - 1];
      assert DropLast(a[..i]) == a[..i - 1];
      ComputeRow(aChar, b, prev, curr, n, a[..i]);
      for j := 0 to n + 1
        modifies prev
        invariant forall k :: 0 <= k < j ==> prev[k] == curr[k]
      {
        prev[j] := curr[j];
      }
      assert prev[..] == curr[..];
    }

    assert a[..m] == a && b[..n] == b;
    var distance := prev[..][n];
    return Success(1.0 - distance as real / maxLen as real);
  }
}
