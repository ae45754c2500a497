/** Reading git's output in `src/git_summarizer.py`: the branch list of
    `get_branches` and the commit list `get_commit_history` builds from
    `git log --pretty=format:%H|%an|%ad|%s| --date=short --name-status`.
    Running git is outside the model: both parsers take the text
    `run_git_command` returns. */
module GitLog {
  import opened Wrappers
  import opened Strings

  /** One `--name-status` line: git's status letter(s) and the path. */
  datatype Change = Change(status: string, path: string)

  datatype Commit = Commit(hash: string, author: string, date: string, message: string, changes: seq<Change>)

  /** The non-empty strings of `lines`, in order. */
  function NonEmpty(lines: seq<string>): (r: seq<string>)
    ensures forall b :: b in r <==> b in lines && b != ""
  {
    if lines == [] then []
    else (if lines[0] != "" then [lines[0]] else []) + NonEmpty(lines[1..])
  }

  /** `get_branches`: every non-empty line of the branch listing. */
  function GetBranches(output: string): (r: seq<string>)
    ensures forall b :: b in r ==> b != "" && '\n' !in b
    ensures forall b :: b in r <==> b in Split(output, '\n') && b != ""
  {
    NonEmpty(Split(output, '\n'))
  }

  /** The filter keeps the input order: filtering a concatenation filters
      each part in turn. */
  lemma {:induction false} NonEmptyAppend(a: seq<string>, b: seq<string>)
    ensures NonEmpty(a + b) == NonEmpty(a) + NonEmpty(b)
  {
    if a == [] {
      assert a + b == b;
    } else {
      var head := if a[0] != "" then [a[0]] else [];
      NonEmptyAppend(a[1..], b);
      Uncons(a, b);
      NonEmptyCons(a[0], a[1..] + b);
      NonEmptyCons(a[0], a[1..]);
      Reassociate(head, NonEmpty(a[1..]), NonEmpty(b));
    }
  }

  lemma Uncons<T>(a: seq<T>, b: seq<T>)
    requires a != []
    ensures a + b == [a[0]] + (a[1..] + b) && a == [a[0]] + a[1..]
  {
  }

  lemma Reassociate<T>(x: seq<T>, y: seq<T>, z: seq<T>)
    ensures x + (y + z) == (x + y) + z
  {
  }

  lemma NonEmptyCons(x: string, rest: seq<string>)
    ensures NonEmpty([x] + rest) == (if x != "" then [x] else []) + NonEmpty(rest)
  {
    assert ([x] + rest)[1..] == rest;
  }

  /** Every non-empty line is kept as often as it occurs; empty lines are
      dropped. */
  lemma {:induction false} NonEmptyCount(lines: seq<string>, b: string)
    ensures multiset(NonEmpty(lines))[b] == if b == "" then 0 else multiset(lines)[b]
  {
    if lines != [] {
      NonEmptyCount(lines[1..], b);
      assert lines == [lines[0]] + lines[1..];
    }
  }

  /** Two listings joined by a newline give the branches of the first, then
      those of the second. */
  lemma GetBranchesAppend(x: string, y: string)
    ensures GetBranches(x + "\n" + y) == GetBranches(x) + GetBranches(y)
  {
    SplitAppend(x, '\n', y);
    NonEmptyAppend(Split(x, '\n'), Split(y, '\n'));
  }

  /** A branch name appears in the result as often as it appears as a line
      of the listing. */
  lemma GetBranchesCount(output: string, b: string)
    requires b != ""
    ensures multiset(GetBranches(output))[b] == multiset(Split(output, '\n'))[b]
  {
    NonEmptyCount(Split(output, '\n'), b);
  }

  lemma {:induction false} NonEmptyKeeps(lines: seq<string>)
    requires forall i :: 0 <= i < |lines| ==> lines[i] != ""
    ensures NonEmpty(lines) == lines
  {
    if lines != [] {
      NonEmptyKeeps(lines[1..]);
    }
  }

  /** Round trip: listing branches one per line and reading the listing
      back gives the same branches, in the same order. */
  lemma GetBranchesJoin(branches: seq<string>)
    requires forall i :: 0 <= i < |branches| ==> branches[i] != "" && '\n' !in branches[i]
    ensures GetBranches(Join(branches, "\n")) == branches
  {
    if branches != [] {
      SplitJoin(branches, '\n');
      NonEmptyKeeps(branches);
    }
  }

  /** A line with a `|`: its first four `|`-separated fields become a
      commit without changes; fewer than four fields give nothing. */
  function ParseHeader(line: string): (r: Option<Commit>)
    ensures r.Some? <==> Count(line, '|') >= 3
    ensures r.Some? ==> r.value.changes == []
  {
    var parts := Split(line, '|');
    if |parts| >= 4 then Some(Commit(parts[0], parts[1], parts[2], parts[3], [])) else None
  }

  /** A line without `|`: its first two tab-separated fields are the status
      and the path; a line without a tab gives nothing. */
  function ParseChange(line: string): (r: Option<Change>)
    ensures r.Some? <==> Count(line, '\t') >= 1
    ensures r.Some? ==> '\t' !in r.value.status && '\t' !in r.value.path
    ensures r.Some? ==> var head := r.value.status + "\t" + r.value.path;
                        line == head || StartsWith(line, head + "\t")
  {
    var parts := Split(line, '\t');
    if |parts| >= 2 then
      FirstTwoFields(parts, '\t');
      Some(Change(parts[0], parts[1]))
    else None
  }

  /** A join of at least two parts is the first two parts around the
      separator, followed by nothing or by the separator and the rest. */
  lemma FirstTwoFields(parts: seq<string>, c: char)
    requires |parts| >= 2
    ensures var head := parts[0] + [c] + parts[1];
            Join(parts, [c]) == head || StartsWith(Join(parts, [c]), head + [c])
  {
    var head := parts[0] + [c] + parts[1];
    var rest := parts[1..];
    assert Join(parts, [c]) == parts[0] + [c] + Join(rest, [c]);
    if |rest| > 1 {
      var tail := Join(rest[1..], [c]);
      assert Join(rest, [c]) == parts[1] + [c] + tail;
      assert Join(parts, [c]) == (head + [c]) + tail;
      StartsWithSelf(head + [c]);
      StartsWithExtend(head + [c], tail, head + [c]);
    }
  }

  /** A change line gives its first two tab-separated fields whatever
      follows a further tab: a rename line `R100<TAB>old<TAB>new` gives the
      status and the old path. */
  lemma ChangeFields(status: string, path: string, tail: string)
    requires '\t' !in status && '\t' !in path
    requires tail == "" || tail[0] == '\t'
    ensures ParseChange(status + "\t" + path + tail) == Some(Change(status, path))
  {
    SplitFirst(status, '\t', path + tail);
    assert status + "\t" + path + tail == status + ['\t'] + (path + tail);
    if tail == "" {
      assert path + tail == path;
      SplitNoSeparator(path, '\t');
    } else {
      assert path + tail == path + ['\t'] + tail[1..];
      SplitFirst(path, '\t', tail[1..]);
    }
  }


  /** The parser's variables between two lines. Python's `commits` list may
      hold the current commit already, `pending` times: a `|` line with
      fewer than four fields appends the current commit without starting a
      new one, so later change lines also show up in those earlier
      appended references. `done` is the list before those references. */
  datatype ParseState = ParseState(done: seq<Commit>, current: Option<Commit>, pending: nat)

  const Start := ParseState([], None, 0)

  function Repeat(c: Commit, n: nat): (r: seq<Commit>)
    ensures |r| == n && forall i :: 0 <= i < n ==> r[i] == c
  {
    if n == 0 then [] else [c] + Repeat(c, n - 1)
  }

  /** `commits` once the current commit is appended one more time. */
  function Closed(st: ParseState): seq<Commit> {
    st.done + (if st.current.Some? then Repeat(st.current.value, st.pending + 1) else [])
  }

  /** One iteration of the loop over the output's lines. */
  function Step(st: ParseState, line: string): (r: ParseState)
    ensures IsBlank(line) ==> r == st
    ensures '|' !in line ==> r.done == st.done && r.pending == st.pending && r.current.Some? == st.current.Some?
    ensures '|' !in line && st.current.Some? ==>
      var before := st.current.value;
      r.current.value.(changes := before.changes) == before
      && |before.changes| <= |r.current.value.changes|
      && r.current.value.changes[..|before.changes|] == before.changes
    ensures !IsBlank(line) && Count(line, '|') >= 3 ==>
      r.done == Closed(st) && r.pending == 0 && r.current == ParseHeader(line) && r.current.Some?
    ensures !IsBlank(line) && '|' !in line && st.current.Some? && ParseChange(line).Some? ==>
      r.current.value.changes == st.current.value.changes + [ParseChange(line).value]
    ensures '|' !in line && (st.current.None? || ParseChange(line).None?) ==> r == st
  {
    CountZero(line, '|');
    if IsBlank(line) then st
    else if '|' in line then
      match ParseHeader(line)
      case Some(c) => ParseState(Closed(st), Some(c), 0)
      case None => if st.current.Some? then st.(pending := st.pending + 1) else st
    else if st.current.Some? then
      match ParseChange(line)
      case Some(ch) =>
        var c := st.current.value;
        st.(current := Some(c.(changes := c.changes + [ch])))
      case None => st
    else st
  }

  /** A change line under a current commit adds exactly its first two
      tab fields; for a rename `R100<tab>old<tab>new` that is `R100` and
      the old path. */
  lemma StepChangeLine(st: ParseState, status: string, path: string, tail: string)
    requires st.current.Some?
    requires '\t' !in status && '\t' !in path && '|' !in status && '|' !in path && '|' !in tail
    requires tail == "" || tail[0] == '\t'
    requires exists i :: 0 <= i < |status| && !IsWhitespace(status[i])
    ensures Step(st, status + "\t" + path + tail).current.value.changes
         == st.current.value.changes + [Change(status, path)]
  {
    var line := status + "\t" + path + tail;
    ChangeFields(status, path, tail);
    var i :| 0 <= i < |status| && !IsWhitespace(status[i]);
    assert line[i] == status[i];
    assert '|' !in line by {
      forall k | 0 <= k < |line|
        ensures line[k] != '|'
      {
        if k < |status| {
          assert line[k] == status[k];
        } else if k == |status| {
          assert line[k] == '\t';
        } else if k < |status| + 1 + |path| {
          assert line[k] == path[k - |status| - 1];
        } else {
          assert line[k] == tail[k - |status| - 1 - |path|];
        }
      }
    }
  }

  function Run(st: ParseState, lines: seq<string>): ParseState
    decreases lines
  {
    if lines == [] then st else Run(Step(st, lines[0]), lines[1..])
  }

  /** `get_commit_history` on the log text. */
  function ParseHistory(output: string): (r: seq<Commit>)
    ensures forall c :: c in r ==> WellFormed(c)
    ensures '|' !in output ==> r == []
  {
    var lines := Split(output, '\n');
    RunWellFormed(Start, lines);
    ClosedWellFormed(Run(Start, lines));
    NoPipeRun(output);
    Closed(Run(Start, lines))
  }

  /** The number of lines that hold a `|`. */
  function PipeLines(lines: seq<string>): nat {
    if lines == [] then 0 else (if '|' in lines[0] then 1 else 0) + PipeLines(lines[1..])
  }

  /** A line with a `|` has no field missing from the four a commit needs. */
  predicate FullHeaders(lines: seq<string>) {
    forall i :: 0 <= i < |lines| ==> '|' !in lines[i] || Count(lines[i], '|') >= 3
  }

  /** When every `|` line has at least four fields, the log yields one
      commit per `|` line: change lines, blank lines and lines before the
      first header add none. */
  lemma HistoryCount(output: string)
    requires FullHeaders(Split(output, '\n'))
    ensures |ParseHistory(output)| == PipeLines(Split(output, '\n'))
  {
    RunCount(Start, Split(output, '\n'));
  }

  lemma {:induction false} RunCount(st: ParseState, lines: seq<string>)
    requires FullHeaders(lines)
    ensures |Closed(Run(st, lines))| == |Closed(st)| + PipeLines(lines)
    decreases lines
  {
    if lines != [] {
      StepCount(st, lines[0]);
      assert FullHeaders(lines[1..]) by {
        assert forall i :: 0 <= i < |lines[1..]| ==> lines[1..][i] == lines[i + 1];
      }
      RunCount(Step(st, lines[0]), lines[1..]);
    }
  }

  lemma StepCount(st: ParseState, line: string)
    requires '|' !in line || Count(line, '|') >= 3
    ensures |Closed(Step(st, line))| == |Closed(st)| + (if '|' in line then 1 else 0)
  {
    if '|' in line {
      var i :| 0 <= i < |line| && line[i] == '|';
      assert !IsWhitespace(line[i]);
    }
  }

  lemma {:induction false} RunAppend(st: ParseState, a: seq<string>, b: seq<string>)
    ensures Run(st, a + b) == Run(Run(st, a), b)
    decreases a
  {
    if a == [] {
      assert a + b == b;
    } else {
      RunAppend(Step(st, a[0]), a[1..], b);
      assert (a + b)[1..] == a[1..] + b;
      assert (a + b)[0] == a[0];
    }
  }

  /** A field as the parser returns it: cut at `|` and at line ends. */
  predicate Field(s: string) {
    '|' !in s && '\n' !in s
  }

  predicate ChangeField(s: string) {
    Field(s) && '\t' !in s
  }

  predicate WellFormedChange(ch: Change) {
    ChangeField(ch.status) && ChangeField(ch.path)
  }

  predicate WellFormed(c: Commit) {
    Field(c.hash) && Field(c.author) && Field(c.date) && Field(c.message)
    && forall ch :: ch in c.changes ==> WellFormedChange(ch)
  }

  predicate StateWellFormed(st: ParseState) {
    (forall c :: c in st.done ==> WellFormed(c))
    && (st.current.Some? ==> WellFormed(st.current.value))
  }

  lemma StepWellFormed(st: ParseState, line: string)
    requires StateWellFormed(st) && '\n' !in line
    ensures StateWellFormed(Step(st, line))
  {
    if !IsBlank(line) {
      if '|' in line {
        var parts := Split(line, '|');
        if |parts| >= 4 {
          assert forall i :: 0 <= i < |parts| ==> '\n' !in parts[i] by {
            forall i | 0 <= i < |parts|
              ensures '\n' !in parts[i]
            {
              PieceWithin(parts, '|', i, '\n');
            }
          }
          assert Field(parts[0]) && Field(parts[1]) && Field(parts[2]) && Field(parts[3]);
        }
      } else if st.current.Some? {
        var parts := Split(line, '\t');
        if |parts| >= 2 {
          PieceWithin(parts, '\t', 0, '\n');
          PieceWithin(parts, '\t', 1, '\n');
          PieceWithin(parts, '\t', 0, '|');
          PieceWithin(parts, '\t', 1, '|');
        }
      }
    }
  }

  /** A character absent from a joined string is absent from every part. */
  lemma {:induction false} PieceWithin(parts: seq<string>, c: char, i: nat, x: char)
    requires i < |parts| && x !in Join(parts, [c])
    ensures x !in parts[i]
  {
    if |parts| > 1 {
      if i > 0 {
        PieceWithin(parts[1..], c, i - 1, x);
      }
    }
  }

  lemma {:induction false} RunWellFormed(st: ParseState, lines: seq<string>)
    requires StateWellFormed(st)
    requires forall i :: 0 <= i < |lines| ==> '\n' !in lines[i]
    ensures StateWellFormed(Run(st, lines))
    decreases lines
  {
    if lines != [] {
      StepWellFormed(st, lines[0]);
      RunWellFormed(Step(st, lines[0]), lines[1..]);
    }
  }

  /** Every parsed field is cut at `|` and at line ends, and change fields
      also at tabs. */
  lemma ClosedWellFormed(st: ParseState)
    requires StateWellFormed(st)
    ensures forall c :: c in Closed(st) ==> WellFormed(c)
  {
    forall c | c in Closed(st)
      ensures WellFormed(c)
    {
      if c !in st.done {
        assert c == st.current.value;
      }
    }
  }

  /** Blank lines change nothing: the parse depends only on the other lines. */
  function NonBlank(lines: seq<string>): seq<string> {
    if lines == [] then []
    else (if IsBlank(lines[0]) then [] else [lines[0]]) + NonBlank(lines[1..])
  }

  lemma {:induction false} BlankLinesIgnored(st: ParseState, lines: seq<string>)
    ensures Run(st, lines) == Run(st, NonBlank(lines))
    decreases lines
  {
    if lines != [] {
      BlankLinesIgnored(Step(st, lines[0]), lines[1..]);
      var nb := NonBlank(lines);
      if IsBlank(lines[0]) {
        assert nb == NonBlank(lines[1..]);
        BlankLinesIgnored(st, lines[1..]);
      } else {
        assert nb == [lines[0]] + NonBlank(lines[1..]);
        assert nb[0] == lines[0] && nb[1..] == NonBlank(lines[1..]);
      }
    }
  }

  /** Text without a `|` never starts a commit, so nothing is returned. */
  lemma {:induction false} NoHeaderNoCommits(st: ParseState, lines: seq<string>)
    requires st.current.None?
    requires forall i :: 0 <= i < |lines| ==> '|' !in lines[i]
    ensures Run(st, lines) == st
    decreases lines
  {
    if lines != [] {
      NoHeaderNoCommits(Step(st, lines[0]), lines[1..]);
    }
  }

  lemma NoPipeRun(output: string)
    ensures '|' !in output ==> Run(Start, Split(output, '\n')) == Start
  {
    if '|' !in output {
      var lines := Split(output, '\n');
      forall i | 0 <= i < |lines|
        ensures '|' !in lines[i]
      {
        PieceWithin(lines, '\n', i, '|');
      }
      NoHeaderNoCommits(Start, lines);
    }
  }

  /** A `|` line with fewer than four fields after a commit has started
      appends that commit once more without starting a new one: the
      commit comes out twice. */
  lemma ShortPipeLineRepeats(st: ParseState, line: string)
    requires st.current.Some?
    requires '|' in line && Count(line, '|') < 3
    ensures Closed(Step(st, line)) == Closed(st) + [st.current.value]
  {
    var i :| 0 <= i < |line| && line[i] == '|';
    assert !IsBlank(line);
    var c := st.current.value;
    assert Repeat(c, st.pending + 2) == Repeat(c, st.pending + 1) + [c];
  }

  /** The log line of a commit's header, as the `--pretty` format prints it. */
  function HeaderLine(c: Commit): string {
    c.hash + "|" + c.author + "|" + c.date + "|" + c.message + "|"
  }

  /** A `--name-status` line. */
  function ChangeLine(ch: Change): string {
    ch.status + "\t" + ch.path
  }

  function ChangeLines(chs: seq<Change>): (r: seq<string>)
    ensures |r| == |chs| && forall i :: 0 <= i < |chs| ==> r[i] == ChangeLine(chs[i])
  {
    if chs == [] then [] else [ChangeLine(chs[0])] + ChangeLines(chs[1..])
  }

  function LogLines(cs: seq<Commit>): (r: seq<string>)
    ensures cs != [] ==> r != []
  {
    if cs == [] then [] else [HeaderLine(cs[0])] + ChangeLines(cs[0].changes) + LogLines(cs[1..])
  }

  /** The log text git prints for these commits. */
  function Render(cs: seq<Commit>): string {
    Join(LogLines(cs), "\n")
  }

  /** A commit git could print and the parser could read back: well formed,
      and every status has a visible character (git's are letters). */
  predicate Printable(c: Commit) {
    WellFormed(c) && forall ch :: ch in c.changes ==> !IsBlank(ch.status)
  }

  /** A header line gives its first four fields whatever follows the
      fourth `|`: a subject that itself holds a `|` is cut there. */
  lemma HeaderFields(hash: string, author: string, date: string, message: string, tail: string)
    requires Field(hash) && Field(author) && Field(date) && Field(message)
    ensures ParseHeader(hash + "|" + author + "|" + date + "|" + message + "|" + tail)
         == Some(Commit(hash, author, date, message, []))
  {
    var t3 := message + "|" + tail;
    var t2 := date + "|" + t3;
    var t1 := author + "|" + t2;
    assert hash + "|" + author + "|" + date + "|" + message + "|" + tail == hash + "|" + t1;
    SplitFirst(message, '|', tail);
    SplitFirst(date, '|', t3);
    SplitFirst(author, '|', t2);
    SplitFirst(hash, '|', t1);
  }

  /** The plain four-field header, with nothing after the subject. */
  lemma HeaderFieldsExact(hash: string, author: string, date: string, message: string)
    requires Field(hash) && Field(author) && Field(date) && Field(message)
    ensures ParseHeader(hash + "|" + author + "|" + date + "|" + message)
         == Some(Commit(hash, author, date, message, []))
  {
    var t2 := date + "|" + message;
    var t1 := author + "|" + t2;
    assert hash + "|" + author + "|" + date + "|" + message == hash + "|" + t1;
    SplitNoSeparator(message, '|');
    SplitFirst(date, '|', message);
    SplitFirst(author, '|', t2);
    SplitFirst(hash, '|', t1);
  }

  lemma HeaderParses(c: Commit)
    requires WellFormed(c)
    ensures '|' in HeaderLine(c) && !IsBlank(HeaderLine(c)) && '\n' !in HeaderLine(c)
    ensures ParseHeader(HeaderLine(c)) == Some(c.(changes := []))
  {
    var line := HeaderLine(c);
    var parts := [c.hash, c.author, c.date, c.message, ""];
    assert Join(parts, "|") == line by {
      var j3 := Join([c.message, ""], "|");
      assert [c.message, ""][1..] == [""];
      assert Join([""], "|") == "";
      assert j3 == c.message + "|" + "";
      assert j3 == c.message + "|";
      var j2 := Join([c.date, c.message, ""], "|");
      assert [c.date, c.message, ""][1..] == [c.message, ""];
      assert j2 == c.date + "|" + j3;
      var j1 := Join([c.author, c.date, c.message, ""], "|");
      assert [c.author, c.date, c.message, ""][1..] == [c.date, c.message, ""];
      assert j1 == c.author + "|" + j2;
      assert parts[1..] == [c.author, c.date, c.message, ""];
      assert Join(parts, "|") == c.hash + "|" + j1;
    }
    SplitJoin(parts, '|');
    assert line[|line| - 1] == '|';
  }

  lemma ChangeParses(ch: Change)
    requires WellFormedChange(ch) && !IsBlank(ch.status)
    ensures '|' !in ChangeLine(ch) && !IsBlank(ChangeLine(ch)) && '\n' !in ChangeLine(ch)
    ensures ParseChange(ChangeLine(ch)) == Some(ch)
  {
    var line := ChangeLine(ch);
    assert Join([ch.status, ch.path], "\t") == line;
    SplitJoin([ch.status, ch.path], '\t');
    var i :| 0 <= i < |ch.status| && !IsWhitespace(ch.status[i]);
    assert line[i] == ch.status[i];
  }

  lemma StepChange(st: ParseState, ch: Change)
    requires st.current.Some?
    requires WellFormedChange(ch) && !IsBlank(ch.status)
    ensures var c := st.current.value;
            Step(st, ChangeLine(ch)) == st.(current := Some(c.(changes := c.changes + [ch])))
  {
    ChangeParses(ch);
  }

  lemma RunCons(st: ParseState, line: string, lines: seq<string>)
    ensures Run(st, [line] + lines) == Run(Step(st, line), lines)
  {
    assert ([line] + lines)[1..] == lines;
  }

  lemma {:induction false} RunChanges(st: ParseState, chs: seq<Change>)
    requires st.current.Some?
    requires forall i :: 0 <= i < |chs| ==> WellFormedChange(chs[i]) && !IsBlank(chs[i].status)
    ensures var c := st.current.value;
            Run(st, ChangeLines(chs)) == st.(current := Some(c.(changes := c.changes + chs)))
    decreases chs
  {
    var c := st.current.value;
    if chs == [] {
      assert c.changes + chs == c.changes;
      assert c.(changes := c.changes) == c;
      assert st.(current := Some(c)) == st;
    } else {
      var c' := c.(changes := c.changes + [chs[0]]);
      var st' := st.(current := Some(c'));
      RunFirstChange(st, chs);
      assert forall i :: 0 <= i < |chs[1..]| ==> chs[1..][i] == chs[i + 1];
      RunChanges(st', chs[1..]);
      ShiftFirst(c.changes, chs);
    }
  }

  lemma ShiftFirst<T>(done: seq<T>, chs: seq<T>)
    requires chs != []
    ensures (done + [chs[0]]) + chs[1..] == done + chs
  {
    assert chs == [chs[0]] + chs[1..];
  }

  /** The first change line of a run only extends the current commit. */
  lemma RunFirstChange(st: ParseState, chs: seq<Change>)
    requires st.current.Some? && chs != []
    requires WellFormedChange(chs[0]) && !IsBlank(chs[0].status)
    ensures var c := st.current.value;
            (Run(st, ChangeLines(chs))
             == Run(st.(current := Some(c.(changes := c.changes + [chs[0]]))), ChangeLines(chs[1..])))
  {
    StepChange(st, chs[0]);
    assert ChangeLines(chs) == [ChangeLine(chs[0])] + ChangeLines(chs[1..]);
    RunCons(st, ChangeLine(chs[0]), ChangeLines(chs[1..]));
  }

  lemma RunCommit(st: ParseState, c: Commit)
    requires Printable(c)
    ensures Run(st, [HeaderLine(c)] + ChangeLines(c.changes)) == ParseState(Closed(st), Some(c), 0)
  {
    HeaderParses(c);
    var st' := Step(st, HeaderLine(c));
    assert st' == ParseState(Closed(st), Some(c.(changes := [])), 0);
    RunAppend(st, [HeaderLine(c)], ChangeLines(c.changes));
    assert forall i :: 0 <= i < |c.changes| ==> c.changes[i] in c.changes;
    RunChanges(st', c.changes);
    assert [] + c.changes == c.changes;
  }

  lemma {:induction false} RunLog(st: ParseState, cs: seq<Commit>)
    requires forall c :: c in cs ==> Printable(c)
    ensures Closed(Run(st, LogLines(cs))) == Closed(st) + cs
    decreases cs
  {
    if cs == [] {
      assert Closed(st) + cs == Closed(st);
    } else {
      var first := [HeaderLine(cs[0])] + ChangeLines(cs[0].changes);
      assert LogLines(cs) == first + LogLines(cs[1..]);
      RunAppend(st, first, LogLines(cs[1..]));
      RunCommit(st, cs[0]);
      var st' := ParseState(Closed(st), Some(cs[0]), 0);
      RunLog(st', cs[1..]);
      assert Closed(st') == Closed(st) + [cs[0]] by {
        assert Repeat(cs[0], 1) == [cs[0]];
      }
      ShiftFirst(Closed(st), cs);
    }
  }

  lemma {:induction false} LogLinesSingle(cs: seq<Commit>)
    requires forall c :: c in cs ==> Printable(c)
    ensures forall i :: 0 <= i < |LogLines(cs)| ==> '\n' !in LogLines(cs)[i]
    decreases cs
  {
    if cs != [] {
      assert cs[0] in cs;
      HeaderParses(cs[0]);
      forall ch | ch in cs[0].changes
        ensures '\n' !in ChangeLine(ch)
      {
        ChangeParses(ch);
      }
      LogLinesSingle(cs[1..]);
      var ls := ChangeLines(cs[0].changes);
      assert forall i :: 0 <= i < |ls| ==> '\n' !in ls[i] by {
        forall i | 0 <= i < |ls|
          ensures '\n' !in ls[i]
        {
          assert cs[0].changes[i] in cs[0].changes;
        }
      }
    }
  }

  /** Round trip: parsing the log git prints for a list of commits gives
      back that list. */
  lemma ParseRender(cs: seq<Commit>)
    requires forall c :: c in cs ==> Printable(c)
    ensures ParseHistory(Render(cs)) == cs
  {
    if cs == [] {
      assert Split("", '\n') == [""];
      assert IsBlank("");
    } else {
      LogLinesSingle(cs);
      SplitJoin(LogLines(cs), '\n');
      RunLog(Start, cs);
    }
  }
}
