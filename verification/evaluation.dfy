/** `evaluate_function` and `evaluate_file` of `src/code_quality.py`: the
    per-function record and the per-file record, built from the metrics and
    scores. The file's syntax tree is an input (`None` when the source did not
    parse); reading and parsing the file are outside the model. */
module Evaluation {
  import opened Wrappers
  import opened Syntax
  import opened Metrics
  import opened Scoring

  /** One metric of a function: its raw value, its rounded 0–10 score and
      the constant it is measured against. */
  datatype MetricResult = MetricResult(value: nat, score: real, max: nat)

  datatype FunctionMetrics = FunctionMetrics(
    name: string,
    complexity: MetricResult,
    methodLength: MetricResult,
    workingMemory: MetricResult,
    overall: real)

  datatype FileEvaluation = FileEvaluation(filename: string, functions: seq<FunctionMetrics>, overall: real)

  /** A `ComplexityMetrics` object once its file has been read and parsed. */
  datatype Analyzer = Analyzer(filePath: string, tree: Option<Node>)

  /** `os.path.basename`: the part of the path after its last `/`. */
  function BaseName(path: string): (r: string)
    ensures '/' !in r
    ensures |r| <= |path| && path[|path| - |r|..] == r
    ensures |r| < |path| ==> path[|path| - |r| - 1] == '/'
  {
    if path == [] || path[|path| - 1] == '/' then []
    else
      var r := BaseName(path[..|path| - 1]);
      assert path[..|path| - 1][|path| - 1 - |r|..] == path[|path| - 1 - |r|..|path| - 1];
      r + [path[|path| - 1]]
  }

  /** The rounded score of one metric. It is 10.0 exactly for a raw value of
      0 and 0.0 exactly from the maximum on (for the three maxima used,
      which are at most 50). */
  function MetricScore(raw: nat, max: nat): (r: real)
    requires 0 < max <= 50
    ensures 0.0 <= r <= 10.0 && IsTenths(r)
    ensures r == 10.0 <==> raw == 0
    ensures r == 0.0 <==> raw >= max
  {
    RoundedExtremes(raw, max);
    Round1(ComponentScore(raw, max))
  }

  lemma RoundedExtremes(raw: nat, max: nat)
    requires 0 < max <= 50
    ensures var r := Round1(ComponentScore(raw, max));
            0.0 <= r <= 10.0 && (r == 10.0 <==> raw == 0) && (r == 0.0 <==> raw >= max)
  {
    var s := ComponentScore(raw, max);
    Round1Within(s, 0.0, 10.0);
    Round1Tenths(0.0);
    Round1Tenths(10.0);
    var m := max as real;
    if raw > 0 {
      QuotientAtLeast(raw as real, m, 0.02);
      Round1Monotone(s, 9.8);
      Round1Tenths(9.8);
    }
    if raw < max {
      QuotientAtMost(raw as real, m, 0.98);
      Round1Monotone(0.2, s);
      Round1Tenths(0.2);
    }
  }

  function Metric(raw: nat, max: nat): (m: MetricResult)
    requires 0 < max <= 50
    ensures m.value == raw && m.max == max && m.score == MetricScore(raw, max)
  {
    MetricResult(raw, MetricScore(raw, max), max)
  }

  /** `evaluate_function`: the name and the three raw values copied
      unchanged next to their maxima, each with its rounded score, and the
      overall score computed from the UNROUNDED component scores. */
  function EvaluateFunction(a: Analyzer, fn: Node): (r: FunctionMetrics)
    requires IsFunctionDef(fn)
    ensures r.name == fn.kind.name
    ensures r.complexity == Metric(Complexity(a.tree, fn), MaxComplexity)
    ensures r.methodLength == Metric(MethodLength(fn), MaxMethodLength)
    ensures r.workingMemory == Metric(WorkingMemory(fn), MaxWorkingMemory)
    ensures r.overall == FunctionScore(r.complexity.value, r.methodLength.value, r.workingMemory.value)
    ensures 0.0 <= r.overall <= 10.0
  {
    var c := Complexity(a.tree, fn);
    var l := MethodLength(fn);
    var m := WorkingMemory(fn);
    FunctionMetrics(fn.kind.name, Metric(c, MaxComplexity), Metric(l, MaxMethodLength),
                    Metric(m, MaxWorkingMemory), FunctionScore(c, l, m))
  }

  /** The function definitions among `s`, in order: every occurrence of a
      `FunctionDef` and nothing else (async definitions are `Other`). */
  function FunctionDefs(s: seq<Node>): (r: seq<Node>)
    ensures forall i :: 0 <= i < |r| ==> IsFunctionDef(r[i])
    ensures forall m :: multiset(r)[m] == if IsFunctionDef(m) then multiset(s)[m] else 0
  {
    if s == [] then []
    else
      assert s == [s[0]] + s[1..];
      (if IsFunctionDef(s[0]) then [s[0]] else []) + FunctionDefs(s[1..])
  }

  /** The filter keeps the walk's order: the definitions of a
      concatenation are those of the first part, then those of the second. */
  lemma {:induction false} FunctionDefsAppend(a: seq<Node>, b: seq<Node>)
    ensures FunctionDefs(a + b) == FunctionDefs(a) + FunctionDefs(b)
  {
    if a == [] {
      assert a + b == b;
    } else {
      var head := if IsFunctionDef(a[0]) then [a[0]] else [];
      FunctionDefsAppend(a[1..], b);
      NodesUncons(a, b);
      FunctionDefsCons(a[0], a[1..] + b);
      FunctionDefsCons(a[0], a[1..]);
      NodesReassociate(head, FunctionDefs(a[1..]), FunctionDefs(b));
    }
  }

  lemma FunctionDefsCons(n: Node, rest: seq<Node>)
    ensures FunctionDefs([n] + rest) == (if IsFunctionDef(n) then [n] else []) + FunctionDefs(rest)
  {
    assert ([n] + rest)[1..] == rest;
  }

  lemma NodesUncons<T>(a: seq<T>, b: seq<T>)
    requires a != []
    ensures a + b == [a[0]] + (a[1..] + b) && a == [a[0]] + a[1..]
  {
  }

  lemma NodesReassociate<T>(x: seq<T>, y: seq<T>, z: seq<T>)
    ensures x + (y + z) == (x + y) + z
  {
  }

  function Overalls(fs: seq<FunctionMetrics>): (r: seq<real>)
    ensures |r| == |fs| && forall i :: 0 <= i < |fs| ==> r[i] == fs[i].overall
  {
    seq(|fs|, i requires 0 <= i < |fs| => fs[i].overall)
  }

  /** `evaluate_file`. */
  function EvaluateFile(a: Analyzer): (r: FileEvaluation)
    ensures r.filename == BaseName(a.filePath)
    ensures a.tree.None? ==> r.functions == [] && r.overall == 0.0
    ensures a.tree.Some? ==>
      var defs := FunctionDefs(Walk(a.tree.value));
      |r.functions| == |defs|
      && forall i :: 0 <= i < |defs| ==> r.functions[i] == EvaluateFunction(a, defs[i])
    ensures a.tree.Some? && r.functions == [] ==> r.overall == 10.0
    ensures r.functions != [] ==>
      var mean := Sum(Overalls(r.functions)) / |r.functions| as real;
      mean - 0.05 <= r.overall <= mean + 0.05
    ensures 0.0 <= r.overall <= 10.0 && IsTenths(r.overall)
  {
    var name := BaseName(a.filePath);
    match a.tree
    case None => FileEvaluation(name, [], 0.0)
    case Some(t) =>
      var fs := EvaluateAll(a, FunctionDefs(Walk(t)));
      FileEvaluation(name, fs, FileOverall(fs))
  }

  /** The file score of a list of function records. */
  function FileOverall(fs: seq<FunctionMetrics>): (r: real)
    requires forall i :: 0 <= i < |fs| ==> 0.0 <= fs[i].overall <= 10.0
    ensures 0.0 <= r <= 10.0 && IsTenths(r)
    ensures fs == [] ==> r == 10.0
    ensures fs != [] ==>
      var mean := Sum(Overalls(fs)) / |fs| as real;
      mean - 0.05 <= r <= mean + 0.05
  {
    var scores := Overalls(fs);
    assert forall i :: 0 <= i < |scores| ==> 0.0 <= scores[i] <= 10.0;
    FileScore(scores)
  }

  /** One record per definition, in the same order. */
  function EvaluateAll(a: Analyzer, defs: seq<Node>): (fs: seq<FunctionMetrics>)
    requires forall i :: 0 <= i < |defs| ==> IsFunctionDef(defs[i])
    ensures |fs| == |defs|
    ensures forall i :: 0 <= i < |defs| ==> fs[i] == EvaluateFunction(a, defs[i])
    ensures forall i :: 0 <= i < |fs| ==> 0.0 <= fs[i].overall <= 10.0
  {
    seq(|defs|, i requires 0 <= i < |defs| => EvaluateFunction(a, defs[i]))
  }

  /** Every function definition anywhere in the tree, nested ones included,
      gets its own entry. */
  lemma NestedFunctionsEvaluated(a: Analyzer, m: Node)
    requires a.tree.Some? && m in Walk(a.tree.value) && IsFunctionDef(m)
    ensures EvaluateFunction(a, m) in EvaluateFile(a).functions
  {
    var defs := FunctionDefs(Walk(a.tree.value));
    assert multiset(defs)[m] > 0;
    var i :| 0 <= i < |defs| && defs[i] == m;
    assert EvaluateFile(a).functions[i] == EvaluateFunction(a, m);
  }
}
