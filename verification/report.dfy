/** `format_quality_report` of `src/code_quality.py`: the markdown report
    over a list of file evaluations, files and functions worst first. */
module QualityReport {
  import opened Strings
  import opened Sorting
  import opened Scoring
  import opened Evaluation
  import opened Syntax

  /** A score as `evaluate_function` and `evaluate_file` leave it:
      non-negative and a whole number of tenths. */
  predicate ValidScore(r: real) {
    0.0 <= r && IsTenths(r)
  }

  predicate ValidFunction(f: FunctionMetrics) {
    ValidScore(f.overall) && ValidScore(f.complexity.score)
    && ValidScore(f.methodLength.score) && ValidScore(f.workingMemory.score)
  }

  predicate ValidFile(e: FileEvaluation) {
    ValidScore(e.overall) && forall f :: f in e.functions ==> ValidFunction(f)
  }

  /** Every evaluation the model produces can be reported. */
  lemma EvaluationValid(a: Analyzer)
    ensures ValidFile(EvaluateFile(a))
  {
    var e := EvaluateFile(a);
    forall f | f in e.functions
      ensures ValidFunction(f)
    {
      var i :| 0 <= i < |e.functions| && e.functions[i] == f;
      var defs := FunctionDefs(Walk(a.tree.value));
      assert f == EvaluateFunction(a, defs[i]);
      FunctionValid(a, defs[i]);
    }
  }

  lemma FunctionValid(a: Analyzer, fn: Node)
    requires IsFunctionDef(fn)
    ensures ValidFunction(EvaluateFunction(a, fn))
  {
  }

  /** Python's `str` of a float holding a whole number of tenths:
      the integer part, a point, one digit. */
  function Decimal(x: real): (r: string)
    requires ValidScore(x)
    ensures |r| >= 3 && r[|r| - 2] == '.'
    ensures forall i :: 0 <= i < |r| && i != |r| - 2 ==> IsDigit(r[i])
  {
    var k := (x * 10.0).Floor;
    NatToString(k / 10) + "." + [DigitChar(k % 10)]
  }

  /** Reading the digits around the point back gives the score. */
  lemma DecimalReadBack(x: real)
    requires ValidScore(x)
    ensures var d := Decimal(x);
            (DigitsValue(d[..|d| - 2]) * 10 + DigitValue(d[|d| - 1])) as real == x * 10.0
  {
    var k := (x * 10.0).Floor;
    var d := Decimal(x);
    assert d[..|d| - 2] == NatToString(k / 10);
    NatToStringValue(k / 10);
  }

  /** Different scores never print alike. */
  lemma DecimalInjective(x: real, y: real)
    requires ValidScore(x) && ValidScore(y)
    requires Decimal(x) == Decimal(y)
    ensures x == y
  {
    DecimalReadBack(x);
    DecimalReadBack(y);
  }

  /** A component score: `max(0, ...)` hands back the integer 0 when it
      clamps, which prints without a decimal point. */
  function ScoreText(s: real): (r: string)
    requires ValidScore(s)
    ensures r == "0" <==> s == 0.0
    ensures s != 0.0 ==> r == Decimal(s)
  {
    if s == 0.0 then "0" else Decimal(s)
  }

  /** For an evaluated metric the bare "0" appears exactly when the raw
      value has reached its maximum. */
  lemma ScoreTextClamped(raw: nat, max: nat)
    requires 0 < max <= 50
    ensures var m := Metric(raw, max);
            ValidScore(m.score) && (ScoreText(m.score) == "0" <==> raw >= max)
  {
  }

  function FunctionScoreLe(f: FunctionMetrics, g: FunctionMetrics): bool {
    f.overall <= g.overall
  }

  function FileScoreLe(e: FileEvaluation, g: FileEvaluation): bool {
    e.overall <= g.overall
  }

  lemma ScoreOrders()
    ensures Total(FunctionScoreLe) && Transitive(FunctionScoreLe)
    ensures Total(FileScoreLe) && Transitive(FileScoreLe)
  {
  }

  function MetricLine(title: string, m: MetricResult): string
    requires ValidScore(m.score)
  {
    "- " + title + ": " + NatToString(m.value) + "/" + NatToString(m.max)
    + " (Score: " + ScoreText(m.score) + "/10)"
  }

  function FunctionHeader(f: FunctionMetrics): string
    requires ValidScore(f.overall)
  {
    "### " + f.name + " (Score: " + Decimal(f.overall) + "/10)"
  }

  /** The five lines of one function: its header, its three metrics, a
      blank line. */
  function FunctionLines(f: FunctionMetrics): (r: seq<string>)
    requires ValidFunction(f)
    ensures |r| == 5
  {
    [FunctionHeader(f),
     MetricLine("Complexity", f.complexity),
     MetricLine("Method Length", f.methodLength),
     MetricLine("Working Memory", f.workingMemory),
     ""]
  }

  function FunctionBlocks(fs: seq<FunctionMetrics>): (r: seq<string>)
    requires forall f :: f in fs ==> ValidFunction(f)
    ensures |r| == 5 * |fs|
  {
    if fs == [] then [] else FunctionLines(fs[0]) + FunctionBlocks(fs[1..])
  }

  /** The functions of a file in report order: ascending score, ties in
      evaluation order. */
  function ShownFunctions(e: FileEvaluation): (r: seq<FunctionMetrics>)
    ensures forall f :: f in r <==> f in e.functions
  {
    SortMembers(e.functions, FunctionScoreLe);
    Sort(e.functions, FunctionScoreLe)
  }

  function FileHeader(e: FileEvaluation): string
    requires ValidScore(e.overall)
  {
    "## " + e.filename + " (Overall: " + Decimal(e.overall) + "/10)"
  }

  /** The lines of one file: its header, then either the no-functions
      notice or every function's block, then a blank line. */
  function FileLines(e: FileEvaluation): (r: seq<string>)
    requires ValidFile(e)
    ensures |r| == if e.functions == [] then 3 else 5 * |e.functions| + 2
    ensures r[0] == FileHeader(e) && r[|r| - 1] == ""
    ensures e.functions == [] ==> r[1] == "No functions found in this file."
    ensures e.functions != [] ==>
      ShownFunctions(e) != [] && ValidScore(ShownFunctions(e)[0].overall)
      && r[1] == FunctionHeader(ShownFunctions(e)[0])
  {
    if e.functions == [] then [FileHeader(e), "No functions found in this file.", ""]
    else
      var fs := ShownFunctions(e);
      assert e.functions[0] in fs;
      assert fs[0] in e.functions;
      BlocksFirst(fs);
      Framed(FileHeader(e), FunctionBlocks(fs), "");
      [FileHeader(e)] + FunctionBlocks(fs) + [""]
  }

  lemma BlocksFirst(fs: seq<FunctionMetrics>)
    requires fs != [] && forall f :: f in fs ==> ValidFunction(f)
    ensures fs[0] in fs && FunctionBlocks(fs)[0] == FunctionHeader(fs[0])
  {
  }

  lemma Framed<T>(h: T, b: seq<T>, t: T)
    requires |b| >= 1
    ensures var r := [h] + b + [t];
            |r| == |b| + 2 && r[0] == h && r[1] == b[0] && r[|r| - 1] == t
  {
  }

  function FileBlocks(es: seq<FileEvaluation>): (r: seq<string>)
    requires forall e :: e in es ==> ValidFile(e)
    ensures es != [] ==> |r| >= 3
  {
    if es == [] then [] else FileLines(es[0]) + FileBlocks(es[1..])
  }

  /** The files in report order: ascending overall score, ties in input
      order. */
  function ShownFiles(evals: seq<FileEvaluation>): (r: seq<FileEvaluation>)
    ensures forall e :: e in r <==> e in evals
  {
    SortMembers(evals, FileScoreLe);
    Sort(evals, FileScoreLe)
  }

  function ReportLines(evals: seq<FileEvaluation>): (r: seq<string>)
    requires forall e :: e in evals ==> ValidFile(e)
  {
    ["# Code Quality Report", ""] + FileBlocks(ShownFiles(evals))
  }

  /** `format_quality_report`: a fixed notice for no files, otherwise the
      title, a blank line and every file's lines, joined by newlines. */
  function FormatQualityReport(evals: seq<FileEvaluation>): (r: string)
    requires forall e :: e in evals ==> ValidFile(e)
    ensures evals == [] <==> r == "No Python files found for evaluation."
    ensures evals != [] ==> StartsWith(r, "# Code Quality Report\n\n")
  {
    if evals == [] then "No Python files found for evaluation."
    else
      TitleFirst(FileBlocks(ShownFiles(evals)));
      Join(ReportLines(evals), "\n")
  }

  lemma TitleFirst(rest: seq<string>)
    requires rest != []
    ensures var r := Join(["# Code Quality Report", ""] + rest, "\n");
            StartsWith(r, "# Code Quality Report\n\n") && r != "No Python files found for evaluation."
  {
    var lines := ["# Code Quality Report", ""] + rest;
    assert lines[1..] == [""] + rest;
    assert lines[1..][1..] == rest;
    var t := "# Code Quality Report\n\n";
    var r := Join(lines, "\n");
    assert Join(lines[1..], "\n") == "" + "\n" + Join(rest, "\n");
    assert r == "# Code Quality Report" + "\n" + Join(lines[1..], "\n");
    assert r == t + Join(rest, "\n");
    assert r[..|t|] == t;
    assert r[0] == '#';
  }

  function FileHeaders(es: seq<FileEvaluation>): (r: seq<string>)
    requires forall e :: e in es ==> ValidScore(e.overall)
    ensures |r| == |es|
    ensures forall i :: 0 <= i < |es| ==> r[i] == FileHeader(es[i])
  {
    if es == [] then [] else [FileHeader(es[0])] + FileHeaders(es[1..])
  }

  function FunctionHeaders(fs: seq<FunctionMetrics>): (r: seq<string>)
    requires forall f :: f in fs ==> ValidScore(f.overall)
    ensures |r| == |fs|
    ensures forall i :: 0 <= i < |fs| ==> r[i] == FunctionHeader(fs[i])
  {
    if fs == [] then [] else [FunctionHeader(fs[0])] + FunctionHeaders(fs[1..])
  }

  lemma MetricLineDash(title: string, m: MetricResult)
    requires ValidScore(m.score)
    ensures |MetricLine(title, m)| > 0 && MetricLine(title, m)[0] == '-'
  {
  }

  lemma FunctionHeaderShape(f: FunctionMetrics)
    requires ValidScore(f.overall)
    ensures StartsWith(FunctionHeader(f), "### ")
    ensures FunctionHeader(f)[2] == '#'
  {
    var h := FunctionHeader(f);
    var tail := f.name + " (Score: " + Decimal(f.overall) + "/10)";
    assert h == "### " + tail;
    assert h[..4] == "### ";
    assert h[2] == h[..4][2];
  }

  lemma FunctionLinesNoFileHeader(f: FunctionMetrics)
    requires ValidFunction(f)
    ensures LinesStartingWith(FunctionLines(f), "## ") == []
  {
    var ls := FunctionLines(f);
    FunctionHeaderShape(f);
    MetricLineDash("Complexity", f.complexity);
    MetricLineDash("Method Length", f.methodLength);
    MetricLineDash("Working Memory", f.workingMemory);
    DiffersAt(ls[0], "## ", 2);
    DiffersAt(ls[1], "## ", 0);
    DiffersAt(ls[2], "## ", 0);
    DiffersAt(ls[3], "## ", 0);
    NoneStartWith(ls, "## ");
  }

  /** No line of a function block starts like a file header. */
  lemma {:induction false} BlocksHaveNoFileHeader(fs: seq<FunctionMetrics>)
    requires forall f :: f in fs ==> ValidFunction(f)
    ensures LinesStartingWith(FunctionBlocks(fs), "## ") == []
  {
    if fs != [] {
      FunctionLinesNoFileHeader(fs[0]);
      BlocksHaveNoFileHeader(fs[1..]);
      LinesStartingWithAppend(FunctionLines(fs[0]), FunctionBlocks(fs[1..]), "## ");
    }
  }

  /** The only file header among a file's lines is its own. */
  lemma FileLinesHeader(e: FileEvaluation)
    requires ValidFile(e)
    ensures LinesStartingWith(FileLines(e), "## ") == [FileHeader(e)]
  {
    var h := FileHeader(e);
    FileHeaderShape(e);
    if e.functions == [] {
      var rest := ["No functions found in this file.", ""];
      DiffersAt(rest[0], "## ", 0);
      NoneStartWith(rest, "## ");
      HeaderThenNone(h, rest, "## ");
      assert FileLines(e) == [h] + rest;
    } else {
      FramedBlocksHeader(h, ShownFunctions(e));
    }
  }

  lemma FramedBlocksHeader(h: string, fs: seq<FunctionMetrics>)
    requires StartsWith(h, "## ")
    requires forall f :: f in fs ==> ValidFunction(f)
    ensures LinesStartingWith([h] + FunctionBlocks(fs) + [""], "## ") == [h]
  {
    var blocks := FunctionBlocks(fs);
    BlocksHaveNoFileHeader(fs);
    NoneStartWith([""], "## ");
    LinesStartingWithAppend(blocks, [""], "## ");
    HeaderThenNone(h, blocks + [""], "## ");
    assert [h] + blocks + [""] == [h] + (blocks + [""]);
  }

  lemma FileHeaderShape(e: FileEvaluation)
    requires ValidScore(e.overall)
    ensures StartsWith(FileHeader(e), "## ")
  {
    var h := FileHeader(e);
    assert h == "## " + (e.filename + " (Overall: " + Decimal(e.overall) + "/10)");
    assert h[..3] == "## ";
  }

  lemma HeaderThenNone(h: string, rest: seq<string>, p: string)
    requires StartsWith(h, p) && LinesStartingWith(rest, p) == []
    ensures LinesStartingWith([h] + rest, p) == [h]
  {
    LinesStartingWithCons(h, rest, p);
  }

  lemma {:induction false} FileBlocksHeaders(es: seq<FileEvaluation>)
    requires forall e :: e in es ==> ValidFile(e)
    ensures LinesStartingWith(FileBlocks(es), "## ") == FileHeaders(es)
  {
    if es != [] {
      FileLinesHeader(es[0]);
      FileBlocksHeaders(es[1..]);
      LinesStartingWithAppend(FileLines(es[0]), FileBlocks(es[1..]), "## ");
    }
  }

  /** The report lists one header per file, in ascending order of the
      file's overall score; files that tie keep their input order, and
      every input file is listed exactly as often as it was given. */
  lemma ReportFileOrder(evals: seq<FileEvaluation>)
    requires forall e :: e in evals ==> ValidFile(e)
    ensures var shown := ShownFiles(evals);
            LinesStartingWith(ReportLines(evals), "## ") == FileHeaders(shown)
            && multiset(shown) == multiset(evals)
            && Sorted(shown, FileScoreLe)
            && forall v :: TiedWith(shown, v, FileScoreLe) == TiedWith(evals, v, FileScoreLe)
  {
    var shown := ShownFiles(evals);
    ReportHeaders(evals);
    ScoreOrders();
    SortSorted(evals, FileScoreLe);
    forall v
      ensures TiedWith(shown, v, FileScoreLe) == TiedWith(evals, v, FileScoreLe)
    {
      SortStable(evals, v, FileScoreLe);
    }
  }

  lemma ReportHeaders(evals: seq<FileEvaluation>)
    requires forall e :: e in evals ==> ValidFile(e)
    ensures LinesStartingWith(ReportLines(evals), "## ") == FileHeaders(ShownFiles(evals))
  {
    var shown := ShownFiles(evals);
    var title := ["# Code Quality Report", ""];
    assert LinesStartingWith(title, "## ") == [] by {
      assert !StartsWith(title[0], "## ") by { assert title[0][..3][1] == ' '; }
      NoneStartWith(title, "## ");
    }
    FileBlocksHeaders(shown);
    LinesStartingWithAppend(title, FileBlocks(shown), "## ");
  }

  lemma FunctionLinesHeader(f: FunctionMetrics)
    requires ValidFunction(f)
    ensures LinesStartingWith(FunctionLines(f), "### ") == [FunctionHeader(f)]
  {
    var ls := FunctionLines(f);
    FunctionHeaderShape(f);
    MetricLineDash("Complexity", f.complexity);
    MetricLineDash("Method Length", f.methodLength);
    MetricLineDash("Working Memory", f.workingMemory);
    DiffersAt(ls[1], "### ", 0);
    DiffersAt(ls[2], "### ", 0);
    DiffersAt(ls[3], "### ", 0);
    NoneStartWith(ls[1..], "### ");
    LinesStartingWithCons(ls[0], ls[1..], "### ");
    assert ls == [ls[0]] + ls[1..];
  }

  lemma {:induction false} FunctionBlocksHeaders(fs: seq<FunctionMetrics>)
    requires forall f :: f in fs ==> ValidFunction(f)
    ensures LinesStartingWith(FunctionBlocks(fs), "### ") == FunctionHeaders(fs)
  {
    if fs != [] {
      FunctionLinesHeader(fs[0]);
      FunctionBlocksHeaders(fs[1..]);
      LinesStartingWithAppend(FunctionLines(fs[0]), FunctionBlocks(fs[1..]), "### ");
    }
  }

  /** Within a file's lines there is one function header per function, in
      ascending order of the function's score; functions that tie keep
      the order in which the file was walked, and none is lost or
      repeated. */
  lemma FileFunctionOrder(e: FileEvaluation)
    requires ValidFile(e)
    ensures var shown := ShownFunctions(e);
            LinesStartingWith(FileLines(e), "### ") == FunctionHeaders(shown)
            && multiset(shown) == multiset(e.functions)
            && Sorted(shown, FunctionScoreLe)
            && forall v :: TiedWith(shown, v, FunctionScoreLe) == TiedWith(e.functions, v, FunctionScoreLe)
  {
    var shown := ShownFunctions(e);
    FileFunctionHeaders(e);
    ScoreOrders();
    SortSorted(e.functions, FunctionScoreLe);
    forall v
      ensures TiedWith(shown, v, FunctionScoreLe) == TiedWith(e.functions, v, FunctionScoreLe)
    {
      SortStable(e.functions, v, FunctionScoreLe);
    }
  }

  lemma FileFunctionHeaders(e: FileEvaluation)
    requires ValidFile(e)
    ensures LinesStartingWith(FileLines(e), "### ") == FunctionHeaders(ShownFunctions(e))
  {
    var h := FileHeader(e);
    assert !StartsWith(h, "### ") by { assert h[..4][2] == ' '; }
    if e.functions == [] {
      var ls := FileLines(e);
      assert !StartsWith(ls[1], "### ") by { assert ls[1][..4][0] == 'N'; }
      NoneStartWith(ls, "### ");
    } else {
      var shown := ShownFunctions(e);
      FunctionBlocksHeaders(shown);
      FramedHeaders(h, FunctionBlocks(shown), "### ");
    }
  }

  /** Framing lines that do not match leave the matching lines alone. */
  lemma FramedHeaders(h: string, blocks: seq<string>, p: string)
    requires !StartsWith(h, p) && p != []
    ensures LinesStartingWith([h] + blocks + [""], p) == LinesStartingWith(blocks, p)
  {
    NoneStartWith([h], p);
    NoneStartWith([""], p);
    LinesStartingWithAppend([h], blocks, p);
    LinesStartingWithAppend([h] + blocks, [""], p);
  }

  /** File and function names free of newlines. */
  predicate PlainNames(e: FileEvaluation) {
    '\n' !in e.filename && forall f :: f in e.functions ==> '\n' !in f.name
  }

  lemma NumbersSingleLine(x: real, n: nat)
    requires ValidScore(x)
    ensures '\n' !in Decimal(x) && '\n' !in NatToString(n) && '\n' !in ScoreText(x)
  {
    var d := Decimal(x);
    var s := NatToString(n);
    assert forall i :: 0 <= i < |d| ==> d[i] != '\n';
    assert forall i :: 0 <= i < |s| ==> s[i] != '\n';
  }

  lemma MetricLineSingle(title: string, m: MetricResult)
    requires ValidScore(m.score) && '\n' !in title
    ensures '\n' !in MetricLine(title, m)
  {
    NumbersSingleLine(m.score, m.value);
    NumbersSingleLine(m.score, m.max);
    var a := "- " + title + ": " + NatToString(m.value);
    var b := a + "/" + NatToString(m.max);
    assert '\n' !in a;
    assert '\n' !in b;
    assert MetricLine(title, m) == b + " (Score: " + ScoreText(m.score) + "/10)";
  }

  lemma FunctionLinesSingle(f: FunctionMetrics)
    requires ValidFunction(f) && '\n' !in f.name
    ensures SingleLines(FunctionLines(f))
  {
    NumbersSingleLine(f.overall, 0);
    MetricLineSingle("Complexity", f.complexity);
    MetricLineSingle("Method Length", f.methodLength);
    MetricLineSingle("Working Memory", f.workingMemory);
    assert '\n' !in FunctionHeader(f);
    FiveSingle(FunctionHeader(f), MetricLine("Complexity", f.complexity),
               MetricLine("Method Length", f.methodLength), MetricLine("Working Memory", f.workingMemory));
  }

  lemma FiveSingle(h: string, a: string, b: string, c: string)
    requires '\n' !in h && '\n' !in a && '\n' !in b && '\n' !in c
    ensures SingleLines([h, a, b, c, ""])
  {
  }

  lemma {:induction false} FunctionBlocksSingle(fs: seq<FunctionMetrics>)
    requires forall f :: f in fs ==> ValidFunction(f) && '\n' !in f.name
    ensures SingleLines(FunctionBlocks(fs))
  {
    if fs != [] {
      FunctionLinesSingle(fs[0]);
      FunctionBlocksSingle(fs[1..]);
      SingleLinesAppend(FunctionLines(fs[0]), FunctionBlocks(fs[1..]));
    }
  }

  lemma FileLinesSingle(e: FileEvaluation)
    requires ValidFile(e) && PlainNames(e)
    ensures SingleLines(FileLines(e))
  {
    NumbersSingleLine(e.overall, 0);
    assert '\n' !in FileHeader(e);
    if e.functions != [] {
      FramedBlocksSingle(FileHeader(e), ShownFunctions(e));
    }
  }

  lemma FramedBlocksSingle(h: string, fs: seq<FunctionMetrics>)
    requires '\n' !in h
    requires forall f :: f in fs ==> ValidFunction(f) && '\n' !in f.name
    ensures SingleLines([h] + FunctionBlocks(fs) + [""])
  {
    FunctionBlocksSingle(fs);
    SingleLinesAppend([h], FunctionBlocks(fs));
    SingleLinesAppend([h] + FunctionBlocks(fs), [""]);
  }

  lemma {:induction false} FileBlocksSingle(es: seq<FileEvaluation>)
    requires forall e :: e in es ==> ValidFile(e) && PlainNames(e)
    ensures SingleLines(FileBlocks(es))
  {
    if es != [] {
      FileLinesSingle(es[0]);
      FileBlocksSingle(es[1..]);
      SingleLinesAppend(FileLines(es[0]), FileBlocks(es[1..]));
    }
  }

  /** Splitting the report at its newlines gives back exactly its lines:
      the title, a blank line, then each file's lines in report order. */
  lemma ReportSplitsIntoLines(evals: seq<FileEvaluation>)
    requires evals != []
    requires forall e :: e in evals ==> ValidFile(e) && PlainNames(e)
    ensures Split(FormatQualityReport(evals), '\n') == ReportLines(evals)
  {
    ReportLinesSingle(evals);
    SplitJoin(ReportLines(evals), '\n');
  }

  lemma ReportLinesSingle(evals: seq<FileEvaluation>)
    requires forall e :: e in evals ==> ValidFile(e) && PlainNames(e)
    ensures |ReportLines(evals)| >= 1 && SingleLines(ReportLines(evals))
  {
    var blocks := FileBlocks(ShownFiles(evals));
    FileBlocksSingle(ShownFiles(evals));
    TitleSingle();
    SingleLinesAppend(["# Code Quality Report", ""], blocks);
    assert ReportLines(evals) == ["# Code Quality Report", ""] + blocks;
  }

  lemma TitleSingle()
    ensures SingleLines(["# Code Quality Report", ""])
  {
    assert '\n' !in "# Code Quality Report";
  }
}
