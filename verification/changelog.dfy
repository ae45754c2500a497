/** The text `generate_changelog` of `src/git_summarizer.py` writes: the
    commits grouped by date, newest date first, each with its subject,
    author, short hash and the paths it added, modified and deleted.
    Opening and writing the file is outside the model; the text is the
    function's result. */
module Changelog {
  import opened Wrappers
  import opened Strings
  import opened Sorting
  import opened GitLog
  import opened ChangeSummary

  /** The key a date is grouped under: the date text itself. Named so the
      generic `DistinctBy` and `SortDistinct` of the sorting module can
      say "each date once" about a list of dates. */
  function DateKey(d: string): string {
    d
  }

  /** The keys of `commits_by_date`: every date once, in order of first
      appearance. */
  function Dates(commits: seq<Commit>): (r: seq<string>)
    ensures forall d :: d in r <==> exists i :: 0 <= i < |commits| && commits[i].date == d
    ensures DistinctBy(r, DateKey)
  {
    if commits == [] then []
    else
      var init := commits[..|commits| - 1];
      var ds := Dates(init);
      var d := commits[|commits| - 1].date;
      assert forall i :: 0 <= i < |init| ==> commits[i] == init[i];
      if d in ds then ds else ds + [d]
  }

  /** `reverse=True`: a date goes first when it sorts after the other. */
  function Later(a: string, b: string): bool {
    LexLe(b, a)
  }

  lemma LaterOrder()
    ensures Total(Later) && Transitive(Later)
  {
    forall a: string, b: string
      ensures Later(a, b) || Later(b, a)
    {
      LexLeTotal(a, b);
    }
    forall a: string, b: string, c: string | Later(a, b) && Later(b, c)
      ensures Later(a, c)
    {
      LexLeTransitive(c, b, a);
    }
  }

  /** The dates in the order the changelog lists them. */
  function ChangelogDates(commits: seq<Commit>): seq<string> {
    Sort(Dates(commits), Later)
  }

  /** `commits_by_date[d]`: the commits of that date, in input order. */
  function OnDate(commits: seq<Commit>, d: string): (r: seq<Commit>)
    ensures forall c :: c in r ==> c.date == d
  {
    if commits == [] then []
    else
      var last := commits[|commits| - 1];
      OnDate(commits[..|commits| - 1], d) + (if last.date == d then [last] else [])
  }

  /** The paths of the changes of one category, in order. */
  function PathsOf(chs: seq<Change>, cat: Category): seq<string> {
    if chs == [] then []
    else
      var last := chs[|chs| - 1];
      PathsOf(chs[..|chs| - 1], cat) + (if Categorize(last.status) == Some(cat) then [last.path] else [])
  }

  /** `  - Added: a, b` when the list is not empty. */
  function Detail(title: string, paths: seq<string>): seq<string> {
    if paths == [] then [] else ["  - " + title + ": " + Join(paths, ", ")]
  }

  /** One commit's entry: its subject line, a detail line per category
      it touches, then a blank line. */
  function CommitLines(c: Commit): (r: seq<string>)
    ensures |r| >= 2 && r[|r| - 1] == ""
    ensures r[0] == "- " + c.message + " (" + c.author + ", " + Prefix(c.hash, 7) + ")"
    ensures |r| == 2 + (if PathsOf(c.changes, Added) == [] then 0 else 1)
                     + (if PathsOf(c.changes, Modified) == [] then 0 else 1)
                     + (if PathsOf(c.changes, Deleted) == [] then 0 else 1)
  {
    ["- " + c.message + " (" + c.author + ", " + Prefix(c.hash, 7) + ")"]
      + Detail("Added", PathsOf(c.changes, Added))
      + Detail("Modified", PathsOf(c.changes, Modified))
      + Detail("Deleted", PathsOf(c.changes, Deleted))
      + [""]
  }

  function EntriesLines(cs: seq<Commit>): seq<string> {
    if cs == [] then [] else CommitLines(cs[0]) + EntriesLines(cs[1..])
  }

  function DateHeader(d: string): string {
    "## " + d
  }

  function DateLines(commits: seq<Commit>, d: string): seq<string> {
    [DateHeader(d), ""] + EntriesLines(OnDate(commits, d)) + [""]
  }

  function SectionsLines(commits: seq<Commit>, ds: seq<string>): seq<string> {
    if ds == [] then [] else DateLines(commits, ds[0]) + SectionsLines(commits, ds[1..])
  }

  /** The changelog, one string per line. */
  function ChangelogLines(branch: string, commits: seq<Commit>): seq<string> {
    ["# Changelog for " + branch, ""] + SectionsLines(commits, ChangelogDates(commits))
  }

  /** Every line followed by a newline, as the `write` calls produce it. */
  function Terminated(lines: seq<string>): string {
    if lines == [] then "" else lines[0] + "\n" + Terminated(lines[1..])
  }

  /** The text `generate_changelog` writes to its output file. */
  function GenerateChangelog(branch: string, commits: seq<Commit>): (r: string)
    ensures StartsWith(r, "# Changelog for " + branch + "\n\n")
  {
    var head := "# Changelog for " + branch + "\n\n";
    var rest := SectionsLines(commits, ChangelogDates(commits));
    assert ChangelogLines(branch, commits) == ["# Changelog for " + branch, ""] + rest;
    TitleTerminated("# Changelog for " + branch, rest);
    StartsWithExtend(head, Terminated(rest), head);
    Terminated(ChangelogLines(branch, commits))
  }

  /** The changelog lists every date of a commit once, strictly newest
      (greatest) first, and no other date. */
  lemma ChangelogDatesOrder(commits: seq<Commit>)
    ensures var ds := ChangelogDates(commits);
            (forall i, j :: 0 <= i < j < |ds| ==> LexLe(ds[j], ds[i]) && ds[i] != ds[j])
            && forall d :: d in ds <==> exists i :: 0 <= i < |commits| && commits[i].date == d
  {
    var ds := ChangelogDates(commits);
    LaterOrder();
    SortSorted(Dates(commits), Later);
    SortDistinct(Dates(commits), Later, DateKey);
    SortMembers(Dates(commits), Later);
    assert forall i, j :: 0 <= i < j < |ds| ==> DateKey(ds[i]) != DateKey(ds[j]);
  }

  /** The commits in the order the changelog lists them. */
  function Grouped(commits: seq<Commit>, ds: seq<string>): (r: seq<Commit>)
    ensures commits == [] ==> r == []
  {
    if ds == [] then [] else OnDate(commits, ds[0]) + Grouped(commits, ds[1..])
  }

  lemma DistinctTail(ds: seq<string>)
    requires ds != [] && DistinctBy(ds, DateKey)
    ensures DistinctBy(ds[1..], DateKey)
    ensures forall k :: 0 <= k < |ds[1..]| ==> ds[1..][k] != ds[0]
  {
    forall i, j | 0 <= i < j < |ds[1..]|
      ensures DateKey(ds[1..][i]) != DateKey(ds[1..][j])
    {
      assert ds[1..][i] == ds[i + 1] && ds[1..][j] == ds[j + 1];
    }
    forall k | 0 <= k < |ds[1..]|
      ensures ds[1..][k] != ds[0]
    {
      assert DateKey(ds[0]) != DateKey(ds[k + 1]);
    }
  }

  lemma OnDateSnoc(commits: seq<Commit>, c: Commit, d: string)
    ensures OnDate(commits + [c], d) == OnDate(commits, d) + (if c.date == d then [c] else [])
  {
    var cs := commits + [c];
    assert cs[..|cs| - 1] == commits;
  }

  /** A date's list holds every commit of that date, as often as the input
      does, and nothing else. */
  lemma {:induction false} OnDateCount(commits: seq<Commit>, d: string, c: Commit)
    ensures multiset(OnDate(commits, d))[c] == if c.date == d then multiset(commits)[c] else 0
  {
    if commits != [] {
      var init, last := commits[..|commits| - 1], commits[|commits| - 1];
      OnDateCount(init, d, c);
      assert commits == init + [last];
    }
  }

  /** Appending to a date's list follows the input: the commits of a
      concatenation are those of the first part, then those of the second. */
  lemma {:induction false} OnDateAppend(a: seq<Commit>, b: seq<Commit>, d: string)
    ensures OnDate(a + b, d) == OnDate(a, d) + OnDate(b, d)
    decreases |b|
  {
    if b == [] {
      assert a + b == a;
    } else {
      var init, last := b[..|b| - 1], b[|b| - 1];
      assert b == init + [last];
      assert a + b == (a + init) + [last];
      OnDateAppend(a, init, d);
      OnDateSnoc(a + init, last, d);
      OnDateSnoc(init, last, d);
    }
  }

  lemma {:induction false} GroupedSnoc(commits: seq<Commit>, c: Commit, ds: seq<string>)
    requires DistinctBy(ds, DateKey)
    ensures multiset(Grouped(commits + [c], ds))
         == multiset(Grouped(commits, ds)) + (if c.date in ds then multiset{c} else multiset{})
  {
    if ds != [] {
      var cs := commits + [c];
      DistinctTail(ds);
      GroupedSnoc(commits, c, ds[1..]);
      OnDateSnoc(commits, c, ds[0]);
      var o := OnDate(commits, ds[0]);
      var g := Grouped(commits, ds[1..]);
      assert Grouped(cs, ds) == OnDate(cs, ds[0]) + Grouped(cs, ds[1..]);
      assert Grouped(commits, ds) == o + g;
      assert c.date in ds <==> c.date == ds[0] || c.date in ds[1..] by {
        assert ds == [ds[0]] + ds[1..];
      }
      SnocStep(multiset(o), multiset(OnDate(cs, ds[0])), multiset(g), multiset(Grouped(cs, ds[1..])),
               c, c.date == ds[0], c.date in ds[1..]);
    }
  }

  /** Adding `c` to at most one of two parts adds it once to the whole. */
  lemma SnocStep(o: multiset<Commit>, o': multiset<Commit>, g: multiset<Commit>, g': multiset<Commit>,
                 c: Commit, inHead: bool, inTail: bool)
    requires o' == o + (if inHead then multiset{c} else multiset{})
    requires g' == g + (if inTail then multiset{c} else multiset{})
    requires !(inHead && inTail)
    ensures o' + g' == o + g + (if inHead || inTail then multiset{c} else multiset{})
  {
  }

  lemma {:induction false} GroupedPermutation(commits: seq<Commit>, ds: seq<string>)
    requires DistinctBy(ds, DateKey)
    requires forall i :: 0 <= i < |commits| ==> commits[i].date in ds
    ensures multiset(Grouped(commits, ds)) == multiset(commits)
  {
    if commits != [] {
      var init := commits[..|commits| - 1];
      var c := commits[|commits| - 1];
      assert commits == init + [c];
      GroupedPermutation(init, ds);
      GroupedSnoc(init, c, ds);
    }
  }

  /** Every commit is listed exactly once, under its own date. */
  lemma EachCommitOnce(commits: seq<Commit>)
    ensures multiset(Grouped(commits, ChangelogDates(commits))) == multiset(commits)
  {
    var ds := ChangelogDates(commits);
    SortDistinct(Dates(commits), Later, DateKey);
    SortMembers(Dates(commits), Later);
    forall i | 0 <= i < |commits|
      ensures commits[i].date in ds
    {
      assert commits[i].date in Dates(commits);
    }
    GroupedPermutation(commits, ds);
  }

  /** Listing a category's paths and counting them agree with
      `summarize_changes`: a path appears in the list as often as the
      summary counts it. */
  lemma {:induction false} PathsOfTally(chs: seq<Change>, cat: Category, p: string)
    ensures multiset(PathsOf(chs, cat))[p] == Tally(chs, cat, p)
  {
    if chs != [] {
      PathsOfTally(chs[..|chs| - 1], cat, p);
    }
  }

  function DateHeaders(ds: seq<string>): (r: seq<string>)
    ensures |r| == |ds| && forall i :: 0 <= i < |ds| ==> r[i] == DateHeader(ds[i])
  {
    if ds == [] then [] else [DateHeader(ds[0])] + DateHeaders(ds[1..])
  }

  lemma DetailNoHeader(title: string, paths: seq<string>)
    ensures LinesStartingWith(Detail(title, paths), "## ") == []
  {
    if paths != [] {
      var l := "  - " + title + ": " + Join(paths, ", ");
      assert !StartsWith(l, "## ") by { assert l[..3][0] == ' '; }
      NoneStartWith([l], "## ");
    }
  }

  lemma CommitLinesNoHeader(c: Commit)
    ensures LinesStartingWith(CommitLines(c), "## ") == []
  {
    var h := "- " + c.message + " (" + c.author + ", " + Prefix(c.hash, 7) + ")";
    var a := Detail("Added", PathsOf(c.changes, Added));
    var m := Detail("Modified", PathsOf(c.changes, Modified));
    var d := Detail("Deleted", PathsOf(c.changes, Deleted));
    assert !StartsWith(h, "## ") by { assert h[..3][0] == '-'; }
    NoneStartWith([h], "## ");
    NoneStartWith([""], "## ");
    DetailNoHeader("Added", PathsOf(c.changes, Added));
    DetailNoHeader("Modified", PathsOf(c.changes, Modified));
    DetailNoHeader("Deleted", PathsOf(c.changes, Deleted));
    LinesStartingWithAppend([h], a, "## ");
    LinesStartingWithAppend([h] + a, m, "## ");
    LinesStartingWithAppend([h] + a + m, d, "## ");
    LinesStartingWithAppend([h] + a + m + d, [""], "## ");
    assert CommitLines(c) == [h] + a + m + d + [""];
  }

  lemma {:induction false} EntriesNoHeader(cs: seq<Commit>)
    ensures LinesStartingWith(EntriesLines(cs), "## ") == []
  {
    if cs != [] {
      CommitLinesNoHeader(cs[0]);
      EntriesNoHeader(cs[1..]);
      LinesStartingWithAppend(CommitLines(cs[0]), EntriesLines(cs[1..]), "## ");
    }
  }

  lemma DateLinesHeader(commits: seq<Commit>, d: string)
    ensures LinesStartingWith(DateLines(commits, d), "## ") == [DateHeader(d)]
  {
    var h := DateHeader(d);
    var body := EntriesLines(OnDate(commits, d));
    assert StartsWith(h, "## ") by { assert h[..3] == "## "; }
    assert LinesStartingWith([h, ""], "## ") == [h] by {
      NoneStartWith([""], "## ");
      LinesStartingWithAppend([h], [""], "## ");
      assert [h, ""] == [h] + [""];
    }
    EntriesNoHeader(OnDate(commits, d));
    LinesStartingWithAppend([h, ""], body, "## ");
    NoneStartWith([""], "## ");
    LinesStartingWithAppend([h, ""] + body, [""], "## ");
  }

  lemma {:induction false} SectionsHeaders(commits: seq<Commit>, ds: seq<string>)
    ensures LinesStartingWith(SectionsLines(commits, ds), "## ") == DateHeaders(ds)
  {
    if ds != [] {
      DateLinesHeader(commits, ds[0]);
      SectionsHeaders(commits, ds[1..]);
      LinesStartingWithAppend(DateLines(commits, ds[0]), SectionsLines(commits, ds[1..]), "## ");
    }
  }

  /** The `## ` lines of the changelog are the dates, newest first, each
      once. */
  lemma DateHeadersInOrder(branch: string, commits: seq<Commit>)
    ensures LinesStartingWith(ChangelogLines(branch, commits), "## ") == DateHeaders(ChangelogDates(commits))
  {
    var title := ["# Changelog for " + branch, ""];
    assert !StartsWith(title[0], "## ") by { assert title[0][..3][1] == ' '; }
    NoneStartWith(title, "## ");
    SectionsHeaders(commits, ChangelogDates(commits));
    LinesStartingWithAppend(title, SectionsLines(commits, ChangelogDates(commits)), "## ");
  }

  /** The subject line of each commit, in order. */
  function SubjectLines(cs: seq<Commit>): (r: seq<string>)
    ensures |r| == |cs| && forall i :: 0 <= i < |cs| ==> r[i] == CommitLines(cs[i])[0]
  {
    if cs == [] then [] else [CommitLines(cs[0])[0]] + SubjectLines(cs[1..])
  }

  lemma {:induction false} SubjectLinesAppend(a: seq<Commit>, b: seq<Commit>)
    ensures SubjectLines(a + b) == SubjectLines(a) + SubjectLines(b)
  {
    var r, l := SubjectLines(a + b), SubjectLines(a) + SubjectLines(b);
    assert |r| == |l|;
    forall i | 0 <= i < |r|
      ensures r[i] == l[i]
    {
      if i < |a| {
        assert (a + b)[i] == a[i];
      } else {
        assert (a + b)[i] == b[i - |a|];
      }
    }
  }

  /** Only the subject line of a commit's entry starts with `- `. */
  lemma CommitLinesSubject(c: Commit)
    ensures LinesStartingWith(CommitLines(c), "- ") == [CommitLines(c)[0]]
  {
    var h := "- " + c.message + " (" + c.author + ", " + Prefix(c.hash, 7) + ")";
    var a := Detail("Added", PathsOf(c.changes, Added));
    var m := Detail("Modified", PathsOf(c.changes, Modified));
    var d := Detail("Deleted", PathsOf(c.changes, Deleted));
    assert StartsWith(h, "- ") by { assert h[..2] == "- "; }
    DetailNotSubject("Added", PathsOf(c.changes, Added));
    DetailNotSubject("Modified", PathsOf(c.changes, Modified));
    DetailNotSubject("Deleted", PathsOf(c.changes, Deleted));
    NoneStartWith([""], "- ");
    LinesStartingWithCons(h, [], "- ");
    LinesStartingWithAppend([h], a, "- ");
    LinesStartingWithAppend([h] + a, m, "- ");
    LinesStartingWithAppend([h] + a + m, d, "- ");
    LinesStartingWithAppend([h] + a + m + d, [""], "- ");
    assert CommitLines(c) == [h] + a + m + d + [""];
  }

  lemma DetailNotSubject(title: string, paths: seq<string>)
    ensures LinesStartingWith(Detail(title, paths), "- ") == []
  {
    if paths != [] {
      var l := "  - " + title + ": " + Join(paths, ", ");
      assert !StartsWith(l, "- ") by { assert l[..2][0] == ' '; }
      NoneStartWith([l], "- ");
    }
  }

  lemma {:induction false} EntriesSubjects(cs: seq<Commit>)
    ensures LinesStartingWith(EntriesLines(cs), "- ") == SubjectLines(cs)
  {
    if cs != [] {
      CommitLinesSubject(cs[0]);
      EntriesSubjects(cs[1..]);
      LinesStartingWithAppend(CommitLines(cs[0]), EntriesLines(cs[1..]), "- ");
    }
  }

  lemma DateLinesSubjects(commits: seq<Commit>, d: string)
    ensures LinesStartingWith(DateLines(commits, d), "- ") == SubjectLines(OnDate(commits, d))
  {
    var h := DateHeader(d);
    assert !StartsWith(h, "- ") by { assert h[..2][0] == '#'; }
    EntriesSubjects(OnDate(commits, d));
    Bracketed(h, EntriesLines(OnDate(commits, d)), "- ");
  }

  /** A header and blank line before a body and a blank line after it
      add nothing to the lines starting with `p`. */
  lemma Bracketed(h: string, body: seq<string>, p: string)
    requires !StartsWith(h, p) && p != ""
    ensures LinesStartingWith([h, ""] + body + [""], p) == LinesStartingWith(body, p)
  {
    assert !StartsWith("", p);
    NoneStartWith([h, ""], p);
    NoneStartWith([""], p);
    LinesStartingWithAppend([h, ""], body, p);
    LinesStartingWithAppend([h, ""] + body, [""], p);
  }

  lemma {:induction false} SectionsSubjects(commits: seq<Commit>, ds: seq<string>)
    ensures LinesStartingWith(SectionsLines(commits, ds), "- ") == SubjectLines(Grouped(commits, ds))
  {
    if ds != [] {
      DateLinesSubjects(commits, ds[0]);
      SectionsSubjects(commits, ds[1..]);
      LinesStartingWithAppend(DateLines(commits, ds[0]), SectionsLines(commits, ds[1..]), "- ");
      SubjectLinesAppend(OnDate(commits, ds[0]), Grouped(commits, ds[1..]));
    }
  }

  /** The `- ` lines of the changelog are the subject lines of the commits
      grouped by date, newest date first, which by `EachCommitOnce` lists
      every commit exactly once. */
  lemma ChangelogSubjects(branch: string, commits: seq<Commit>)
    ensures LinesStartingWith(ChangelogLines(branch, commits), "- ")
         == SubjectLines(Grouped(commits, ChangelogDates(commits)))
  {
    var title := ["# Changelog for " + branch, ""];
    assert !StartsWith(title[0], "- ") by { assert title[0][..2][0] == '#'; }
    NoneStartWith(title, "- ");
    SectionsSubjects(commits, ChangelogDates(commits));
    LinesStartingWithAppend(title, SectionsLines(commits, ChangelogDates(commits)), "- ");
  }

  lemma TitleTerminated(t: string, rest: seq<string>)
    ensures Terminated([t, ""] + rest) == t + "\n\n" + Terminated(rest)
  {
    var lines := [t, ""] + rest;
    assert lines[1..] == [""] + rest && ([""] + rest)[1..] == rest;
    assert Terminated([""] + rest) == "\n" + Terminated(rest);
  }

  lemma {:induction false} TerminatedJoin(lines: seq<string>)
    ensures Terminated(lines) == Join(lines + [""], "\n")
  {
    if lines != [] {
      TerminatedJoin(lines[1..]);
      assert (lines + [""])[1..] == lines[1..] + [""];
    }
  }

  lemma CommitLinesSingle(c: Commit)
    requires WellFormed(c)
    ensures SingleLines(CommitLines(c))
  {
    var h := Prefix(c.hash, 7);
    assert '\n' !in h by {
      assert forall k :: 0 <= k < |h| ==> h[k] == c.hash[k];
    }
    forall cat
      ensures '\n' !in Join(PathsOf(c.changes, cat), ", ")
    {
      PathsSingle(c.changes, cat);
      JoinAvoids(PathsOf(c.changes, cat), ", ", '\n');
    }
  }

  lemma {:induction false} PathsSingle(chs: seq<Change>, cat: Category)
    requires forall ch :: ch in chs ==> WellFormedChange(ch)
    ensures SingleLines(PathsOf(chs, cat))
  {
    if chs != [] {
      assert forall ch :: ch in chs[..|chs| - 1] ==> ch in chs;
      PathsSingle(chs[..|chs| - 1], cat);
      assert chs[|chs| - 1] in chs;
      var last := chs[|chs| - 1];
      SingleLinesAppend(PathsOf(chs[..|chs| - 1], cat),
                        if Categorize(last.status) == Some(cat) then [last.path] else []);
    }
  }

  lemma {:induction false} EntriesSingle(cs: seq<Commit>)
    requires forall c :: c in cs ==> WellFormed(c)
    ensures SingleLines(EntriesLines(cs))
  {
    if cs != [] {
      assert cs[0] in cs;
      CommitLinesSingle(cs[0]);
      EntriesSingle(cs[1..]);
      SingleLinesAppend(CommitLines(cs[0]), EntriesLines(cs[1..]));
    }
  }

  lemma DateLinesSingle(commits: seq<Commit>, d: string)
    requires forall c :: c in commits ==> WellFormed(c)
    requires '\n' !in d
    ensures SingleLines(DateLines(commits, d))
  {
    OnDateMembers(commits, d);
    EntriesSingle(OnDate(commits, d));
    var h := DateHeader(d);
    assert '\n' !in h by {
      assert forall k :: 3 <= k < |h| ==> h[k] == d[k - 3];
    }
    SingleLinesAppend([h, ""], EntriesLines(OnDate(commits, d)));
    SingleLinesAppend([h, ""] + EntriesLines(OnDate(commits, d)), [""]);
  }

  lemma {:induction false} SectionsSingle(commits: seq<Commit>, ds: seq<string>)
    requires forall c :: c in commits ==> WellFormed(c)
    requires SingleLines(ds)
    ensures SingleLines(SectionsLines(commits, ds))
  {
    if ds != [] {
      DateLinesSingle(commits, ds[0]);
      SectionsSingle(commits, ds[1..]);
      SingleLinesAppend(DateLines(commits, ds[0]), SectionsLines(commits, ds[1..]));
    }
  }

  lemma {:induction false} OnDateMembers(commits: seq<Commit>, d: string)
    ensures forall c :: c in OnDate(commits, d) ==> c in commits
  {
    if commits != [] {
      OnDateMembers(commits[..|commits| - 1], d);
      assert forall c :: c in commits[..|commits| - 1] ==> c in commits;
    }
  }

  lemma DatesSingle(commits: seq<Commit>)
    requires forall c :: c in commits ==> WellFormed(c)
    ensures SingleLines(ChangelogDates(commits))
  {
    var ds := ChangelogDates(commits);
    SortMembers(Dates(commits), Later);
    forall i | 0 <= i < |ds|
      ensures '\n' !in ds[i]
    {
      assert ds[i] in Dates(commits);
      var k :| 0 <= k < |commits| && commits[k].date == ds[i];
      assert commits[k] in commits;
    }
  }

  lemma TitleSingle(branch: string)
    requires '\n' !in branch
    ensures '\n' !in "# Changelog for " + branch
  {
    var t := "# Changelog for " + branch;
    forall i | 0 <= i < |t|
      ensures t[i] != '\n'
    {
      if i >= 16 {
        assert t[i] == branch[i - 16];
      }
    }
  }

  lemma ChangelogLinesSingle(branch: string, commits: seq<Commit>)
    requires '\n' !in branch
    requires forall c :: c in commits ==> WellFormed(c)
    ensures SingleLines(ChangelogLines(branch, commits) + [""])
  {
    var ds := ChangelogDates(commits);
    DatesSingle(commits);
    SectionsSingle(commits, ds);
    TitleSingle(branch);
    var title := ["# Changelog for " + branch, ""];
    SingleLinesAppend(title, SectionsLines(commits, ds));
    SingleLinesAppend(title + SectionsLines(commits, ds), [""]);
  }

  /** Splitting the written text at its newlines gives back the lines,
      then the empty rest after the final newline. */
  lemma ChangelogSplits(branch: string, commits: seq<Commit>)
    requires '\n' !in branch
    requires forall c :: c in commits ==> WellFormed(c)
    ensures Split(GenerateChangelog(branch, commits), '\n') == ChangelogLines(branch, commits) + [""]
  {
    var ls := ChangelogLines(branch, commits);
    ChangelogLinesSingle(branch, commits);
    TerminatedJoin(ls);
    SplitJoin(ls + [""], '\n');
  }

  /** The commit of the documented example: two added files. */
  function SampleCommit(): Commit {
    Commit(SampleShort() + "890abcdef1234567890abcdef12345678", "Test User", "2023-01-01", "Initial commit",
           [Change("A", "file1.txt"), Change("A", "file2.txt")])
  }

  lemma SamplePaths()
    ensures PathsOf(SampleCommit().changes, Added) == ["file1.txt", "file2.txt"]
    ensures PathsOf(SampleCommit().changes, Modified) == []
    ensures PathsOf(SampleCommit().changes, Deleted) == []
  {
    var chs := SampleCommit().changes;
    assert chs[..1] == [Change("A", "file1.txt")];
    assert chs[..1][..0] == [];
  }

  /** The first seven characters of the sample hash. */
  function SampleShort(): string {
    "1234567"
  }

  lemma SampleHash()
    ensures Prefix(SampleCommit().hash, 7) == SampleShort()
  {
    var h := SampleCommit().hash;
    assert |SampleShort()| == 7;
    assert h[..7] == SampleShort();
  }

  lemma SampleHeadLine()
    ensures var c := SampleCommit();
      "- " + c.message + " (" + c.author + ", " + Prefix(c.hash, 7) + ")" == "- Initial commit (Test User, 1234567)"
  {
    SampleHash();
  }

  lemma AddedTitle()
    ensures "  - " + "Added" + ": " == "  - Added: "
  {
  }

  /** Two added paths share one detail line, comma-separated. */
  lemma TwoAdded(p1: string, p2: string)
    ensures Detail("Added", [p1, p2]) == ["  - Added: " + p1 + ", " + p2]
  {
    assert Join([p2], ", ") == p2;
    assert [p1, p2][1..] == [p2];
    assert Join([p1, p2], ", ") == p1 + ", " + p2;
    AddedTitle();
    assert "  - " + "Added" + ": " + (p1 + ", " + p2) == ("  - " + "Added" + ": ") + p1 + ", " + p2;
  }

  lemma SampleCommitLines()
    ensures CommitLines(SampleCommit()) ==
      ["- Initial commit (Test User, 1234567)", "  - Added: " + "file1.txt" + ", " + "file2.txt", ""]
  {
    SamplePaths();
    SampleHeadLine();
    TwoAdded("file1.txt", "file2.txt");
    assert Detail("Modified", []) == [] && Detail("Deleted", []) == [];
  }

  lemma SingleDate(c: Commit)
    ensures ChangelogDates([c]) == [c.date]
  {
    var cs := [c];
    assert cs[..0] == [];
    assert Dates(cs) == [c.date];
    assert [c.date][1..] == [];
  }

  lemma SingleEntries(c: Commit)
    ensures EntriesLines(OnDate([c], c.date)) == CommitLines(c)
  {
    var cs := [c];
    assert cs[..0] == [];
    assert OnDate(cs, c.date) == cs;
    assert cs[1..] == [];
    assert EntriesLines(cs) == CommitLines(c) + EntriesLines([]);
  }

  /** A one-commit history: the title, one date section and the commit's
      own lines. */
  lemma SingleCommitChangelog(branch: string, c: Commit)
    ensures ChangelogLines(branch, [c]) ==
      ["# Changelog for " + branch, "", DateHeader(c.date), ""] + CommitLines(c) + [""]
  {
    SingleDate(c);
    OneDateSection([c], c.date);
    SingleEntries(c);
    TitleThenSection("# Changelog for " + branch, DateHeader(c.date), CommitLines(c));
  }

  lemma TitleThenSection(title: string, header: string, body: seq<string>)
    ensures [title, ""] + ([header, ""] + body + [""]) == [title, "", header, ""] + body + [""]
  {
  }

  lemma OneDateSection(cs: seq<Commit>, d: string)
    ensures SectionsLines(cs, [d]) == DateLines(cs, d)
  {
    assert [d][1..] == [];
  }
}
