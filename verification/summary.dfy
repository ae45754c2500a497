/** `summarize_changes` and `generate_summary` of `src/git_summarizer.py`:
    per-category counts of how many change entries name each path, and
    the plain-text branch summary built from them. */
module ChangeSummary {
  import opened Wrappers
  import opened Strings
  import opened Sorting
  import opened GitLog

  datatype Category = Added | Modified | Deleted

  /** The category of a git status: `A`, then `M` or `R`, then `D`; any
      other status (`C`, `T`, `R100`, ...) is skipped. */
  function Categorize(status: string): (r: Option<Category>)
    ensures r == Some(Added) <==> status == "A"
    ensures r == Some(Modified) <==> status == "M" || status == "R"
    ensures r == Some(Deleted) <==> status == "D"
  {
    if status == "A" then Some(Added)
    else if status == "M" || status == "R" then Some(Modified)
    else if status == "D" then Some(Deleted)
    else None
  }

  /** One key of a per-category dict and its count. */
  datatype Entry = Entry(path: string, count: nat)

  /** A dict's items in insertion order: no path twice. */
  predicate DistinctPaths(es: seq<Entry>) {
    forall i, j :: 0 <= i < j < |es| ==> es[i].path != es[j].path
  }

  /** `d[path]`, or 0 when `path` is not a key. */
  function Lookup(es: seq<Entry>, path: string): nat {
    if es == [] then 0
    else if es[0].path == path then es[0].count
    else Lookup(es[1..], path)
  }

  /** `if path not in d: d[path] = 0`, then `d[path] += 1`: a new key goes
      last. */
  function Bump(es: seq<Entry>, path: string): (r: seq<Entry>)
    ensures |r| == |es| || |r| == |es| + 1
    ensures forall e :: e in r ==> e in es || e.path == path
  {
    if es == [] then [Entry(path, 1)]
    else if es[0].path == path then [Entry(path, es[0].count + 1)] + es[1..]
    else
      assert forall e :: e in es[1..] ==> e in es;
      [es[0]] + Bump(es[1..], path)
  }

  /** Bumping adds one to the key's count and leaves every other key alone. */
  lemma {:induction false} BumpLookup(es: seq<Entry>, path: string, q: string)
    ensures Lookup(Bump(es, path), q) == Lookup(es, q) + (if q == path then 1 else 0)
  {
    if es != [] && es[0].path != path {
      BumpLookup(es[1..], path, q);
    }
  }

  lemma {:induction false} BumpDistinct(es: seq<Entry>, path: string)
    requires DistinctPaths(es)
    ensures DistinctPaths(Bump(es, path))
  {
    if es != [] && es[0].path != path {
      BumpDistinct(es[1..], path);
      var rest := Bump(es[1..], path);
      forall k | 0 <= k < |rest|
        ensures rest[k].path != es[0].path
      {
        assert rest[k] in rest;
        if rest[k] in es[1..] {
          var j :| 0 <= j < |es[1..]| && es[1..][j] == rest[k];
          assert es[j + 1] == rest[k];
        }
      }
    }
  }

  lemma {:induction false} BumpPositive(es: seq<Entry>, path: string)
    requires forall e :: e in es ==> e.count > 0
    ensures forall e :: e in Bump(es, path) ==> e.count > 0
  {
    if es != [] && es[0].path != path {
      assert forall e :: e in es[1..] ==> e in es;
      BumpPositive(es[1..], path);
    }
  }

  datatype Summary = Summary(added: seq<Entry>, modified: seq<Entry>, deleted: seq<Entry>)

  function Get(s: Summary, cat: Category): seq<Entry> {
    match cat
    case Added => s.added
    case Modified => s.modified
    case Deleted => s.deleted
  }

  /** One iteration of the inner loop: count the change under its
      category, or skip it. */
  function Record(s: Summary, ch: Change): Summary {
    match Categorize(ch.status)
    case None => s
    case Some(Added) => s.(added := Bump(s.added, ch.path))
    case Some(Modified) => s.(modified := Bump(s.modified, ch.path))
    case Some(Deleted) => s.(deleted := Bump(s.deleted, ch.path))
  }

  /** Every change of every commit, in order. */
  function AllChanges(commits: seq<Commit>): seq<Change> {
    if commits == [] then [] else commits[0].changes + AllChanges(commits[1..])
  }

  function SummarizeAll(chs: seq<Change>): Summary {
    if chs == [] then Summary([], [], [])
    else Record(SummarizeAll(chs[..|chs| - 1]), chs[|chs| - 1])
  }

  /** `summarize_changes`. */
  function SummarizeChanges(commits: seq<Commit>): (r: Summary)
    ensures forall cat, q :: Lookup(Get(r, cat), q) == Tally(AllChanges(commits), cat, q)
    ensures forall cat :: DistinctPaths(Get(r, cat))
  {
    SummarizeAllCounts(AllChanges(commits));
    SummarizeAll(AllChanges(commits))
  }

  lemma RecordGet(s: Summary, ch: Change, cat: Category)
    ensures Get(Record(s, ch), cat)
         == if Categorize(ch.status) == Some(cat) then Bump(Get(s, cat), ch.path) else Get(s, cat)
  {
  }

  /** Reference count: the changes of category `cat` that name `path`. */
  function Tally(chs: seq<Change>, cat: Category, path: string): nat {
    if chs == [] then 0
    else Tally(chs[..|chs| - 1], cat, path)
         + (if Categorize(chs[|chs| - 1].status) == Some(cat) && chs[|chs| - 1].path == path then 1 else 0)
  }

  /** The counts of a dict, summed. */
  function CountTotal(es: seq<Entry>): nat {
    if es == [] then 0 else es[0].count + CountTotal(es[1..])
  }

  /** Reference count: the changes of category `cat`, whatever their path. */
  function CategoryCount(chs: seq<Change>, cat: Category): nat {
    if chs == [] then 0
    else CategoryCount(chs[..|chs| - 1], cat) + (if Categorize(chs[|chs| - 1].status) == Some(cat) then 1 else 0)
  }

  lemma {:induction false} BumpTotal(es: seq<Entry>, path: string)
    ensures CountTotal(Bump(es, path)) == CountTotal(es) + 1
  {
    if es != [] {
      if es[0].path == path {
        assert ([Entry(path, es[0].count + 1)] + es[1..])[1..] == es[1..];
      } else {
        BumpTotal(es[1..], path);
        assert ([es[0]] + Bump(es[1..], path))[1..] == Bump(es[1..], path);
      }
    }
  }

  lemma {:induction false} SummarizeAllTotal(chs: seq<Change>, cat: Category)
    ensures CountTotal(Get(SummarizeAll(chs), cat)) == CategoryCount(chs, cat)
  {
    if chs != [] {
      var init, last := chs[..|chs| - 1], chs[|chs| - 1];
      SummarizeAllTotal(init, cat);
      RecordGet(SummarizeAll(init), last, cat);
      BumpTotal(Get(SummarizeAll(init), cat), last.path);
    }
  }

  /** The counts in a category add up to the number of changes, over all
      commits, that fall in that category. */
  lemma SummarizeChangesTotal(commits: seq<Commit>, cat: Category)
    ensures CountTotal(Get(SummarizeChanges(commits), cat)) == CategoryCount(AllChanges(commits), cat)
  {
    SummarizeAllTotal(AllChanges(commits), cat);
  }

  /** Each dict maps a path to the number of changes of its category that
      name it, has no key twice and no zero count. */
  lemma {:induction false} SummarizeAllCounts(chs: seq<Change>)
    ensures forall cat, q :: Lookup(Get(SummarizeAll(chs), cat), q) == Tally(chs, cat, q)
    ensures forall cat :: DistinctPaths(Get(SummarizeAll(chs), cat))
    ensures forall cat, e :: e in Get(SummarizeAll(chs), cat) ==> e.count > 0
  {
    if chs != [] {
      var init := chs[..|chs| - 1];
      var ch := chs[|chs| - 1];
      SummarizeAllCounts(init);
      var s := SummarizeAll(init);
      assert SummarizeAll(chs) == Record(s, ch);
      forall cat
        ensures DistinctPaths(Get(SummarizeAll(chs), cat))
        ensures forall e :: e in Get(SummarizeAll(chs), cat) ==> e.count > 0
        ensures forall q :: Lookup(Get(SummarizeAll(chs), cat), q) == Tally(chs, cat, q)
      {
        RecordGet(s, ch, cat);
        if Categorize(ch.status) == Some(cat) {
          BumpDistinct(Get(s, cat), ch.path);
          BumpPositive(Get(s, cat), ch.path);
          forall q
            ensures Lookup(Get(SummarizeAll(chs), cat), q) == Tally(chs, cat, q)
          {
            BumpLookup(Get(s, cat), ch.path, q);
          }
        }
      }
    }
  }

  lemma {:induction false} LookupEntry(es: seq<Entry>, e: Entry)
    requires DistinctPaths(es) && e in es
    ensures Lookup(es, e.path) == e.count
  {
    if es[0] != e {
      assert e in es[1..];
      var j :| 1 <= j < |es| && es[j] == e;
      assert es[0].path != e.path;
      LookupEntry(es[1..], e);
    }
  }

  lemma {:induction false} LookupFound(es: seq<Entry>, q: string)
    requires Lookup(es, q) > 0
    ensures Entry(q, Lookup(es, q)) in es
  {
    if es[0].path != q {
      LookupFound(es[1..], q);
    }
  }

  /** The dict of a category holds `path: n` exactly when `n` changes of
      that category name `path` and `n` is not zero; no path is listed
      twice. */
  lemma SummarizeChangesCounts(commits: seq<Commit>, cat: Category)
    ensures var es := Get(SummarizeChanges(commits), cat);
            DistinctPaths(es)
            && forall p, n :: Entry(p, n) in es <==> n == Tally(AllChanges(commits), cat, p) && n > 0
  {
    var chs := AllChanges(commits);
    var es := Get(SummarizeAll(chs), cat);
    SummarizeAllCounts(chs);
    forall p, n
      ensures Entry(p, n) in es <==> n == Tally(chs, cat, p) && n > 0
    {
      if Entry(p, n) in es {
        LookupEntry(es, Entry(p, n));
      }
      if n == Tally(chs, cat, p) && n > 0 {
        LookupFound(es, p);
      }
    }
  }

  /** The unit test's two commits, for any four distinct paths in place
      of its file names: the dicts it expects, keys in the order the loop
      first meets them. */
  lemma SummarizeChangesExample(p1: string, p2: string, p3: string, p4: string)
    requires p1 != p2 && p1 != p3 && p1 != p4 && p2 != p3 && p2 != p4 && p3 != p4
    ensures SummarizeChanges(
              [Commit("abcdef", "Test Author", "2023-01-01", "Test commit",
                      [Change("A", p1), Change("M", p2), Change("D", p3)]),
               Commit("123456", "Another Author", "2023-01-02", "Another commit",
                      [Change("M", p1), Change("A", p4)])])
         == Summary([Entry(p1, 1), Entry(p4, 1)], [Entry(p2, 1), Entry(p1, 1)], [Entry(p3, 1)])
  {
    var c1 := [Change("A", p1), Change("M", p2), Change("D", p3)];
    var c2 := [Change("M", p1), Change("A", p4)];
    TwoCommits([Commit("abcdef", "Test Author", "2023-01-01", "Test commit", c1),
                Commit("123456", "Another Author", "2023-01-02", "Another commit", c2)]);
    var s3 := Summary([Entry(p1, 1)], [Entry(p2, 1)], [Entry(p3, 1)]);
    ThreeCategories(p1, p2, p3);
    SummarizeSnoc(c1, c2[0]);
    BumpOther(Entry(p2, 1), p1);
    var s4 := Summary([Entry(p1, 1)], [Entry(p2, 1), Entry(p1, 1)], [Entry(p3, 1)]);
    assert SummarizeAll(c1 + [c2[0]]) == s4;
    SummarizeSnoc(c1 + [c2[0]], c2[1]);
    BumpOther(Entry(p1, 1), p4);
    assert c1 + c2 == c1 + [c2[0]] + [c2[1]];
  }

  /** One change in each category, three distinct paths. */
  lemma ThreeCategories(p1: string, p2: string, p3: string)
    ensures SummarizeAll([Change("A", p1), Change("M", p2), Change("D", p3)])
         == Summary([Entry(p1, 1)], [Entry(p2, 1)], [Entry(p3, 1)])
  {
    var chs := [Change("A", p1), Change("M", p2), Change("D", p3)];
    SummarizeSnoc([], chs[0]);
    SummarizeSnoc([chs[0]], chs[1]);
    SummarizeSnoc([chs[0], chs[1]], chs[2]);
    assert [] + [chs[0]] == [chs[0]];
    assert [chs[0]] + [chs[1]] == [chs[0], chs[1]];
    assert [chs[0], chs[1]] + [chs[2]] == chs;
  }

  /** A path new to a one-key dict goes after that key. */
  lemma BumpOther(e: Entry, path: string)
    requires e.path != path
    ensures Bump([e], path) == [e, Entry(path, 1)]
  {
    assert [e][1..] == [];
  }

  /** Appending a change records it on top of the earlier summary. */
  lemma SummarizeSnoc(chs: seq<Change>, ch: Change)
    ensures SummarizeAll(chs + [ch]) == Record(SummarizeAll(chs), ch)
  {
    assert (chs + [ch])[..|chs|] == chs;
  }

  lemma TwoCommits(commits: seq<Commit>)
    requires |commits| == 2
    ensures AllChanges(commits) == commits[0].changes + commits[1].changes
  {
    assert commits[1..][1..] == [];
    assert AllChanges(commits[1..]) == commits[1].changes + [];
  }

  lemma {:induction false} TallyPositive(chs: seq<Change>, cat: Category, p: string)
    ensures Tally(chs, cat, p) > 0
        <==> exists i :: 0 <= i < |chs| && Categorize(chs[i].status) == Some(cat) && chs[i].path == p
  {
    if chs != [] {
      var init := chs[..|chs| - 1];
      TallyPositive(init, cat, p);
      if exists i :: 0 <= i < |init| && Categorize(init[i].status) == Some(cat) && init[i].path == p {
        var i :| 0 <= i < |init| && Categorize(init[i].status) == Some(cat) && init[i].path == p;
        assert chs[i] == init[i];
      }
      if exists i :: 0 <= i < |chs| && Categorize(chs[i].status) == Some(cat) && chs[i].path == p {
        var i :| 0 <= i < |chs| && Categorize(chs[i].status) == Some(cat) && chs[i].path == p;
        if i < |init| {
          assert init[i] == chs[i];
        }
      }
    }
  }

  /** A category's dict is empty exactly when no change falls in it. */
  lemma CategoryEmpty(commits: seq<Commit>, cat: Category)
    ensures var chs := AllChanges(commits);
            (Get(SummarizeChanges(commits), cat) == []
             <==> forall i :: 0 <= i < |chs| ==> Categorize(chs[i].status) != Some(cat))
  {
    var chs := AllChanges(commits);
    var es := Get(SummarizeChanges(commits), cat);
    SummarizeChangesCounts(commits, cat);
    if es != [] {
      var e := es[0];
      assert Entry(e.path, e.count) in es;
      assert e.count == Tally(chs, cat, e.path) && e.count > 0;
      TallyPositive(chs, cat, e.path);
      var i :| 0 <= i < |chs| && Categorize(chs[i].status) == Some(cat) && chs[i].path == e.path;
      assert !(forall i :: 0 <= i < |chs| ==> Categorize(chs[i].status) != Some(cat));
      assert Get(SummarizeChanges(commits), cat) != [];
      assert chs == AllChanges(commits);
    } else {
      forall i | 0 <= i < |chs|
        ensures Categorize(chs[i].status) != Some(cat)
      {
        var p := chs[i].path;
        TallyPositive(chs, cat, p);
        assert Entry(p, Tally(chs, cat, p)) !in es;
      }
    }
  }

  /** `sorted(d.items())`: keys are distinct, so the pairs sort by path. */
  function ByPath(a: Entry, b: Entry): bool {
    LexLe(a.path, b.path)
  }

  lemma ByPathOrder()
    ensures Total(ByPath) && Transitive(ByPath)
  {
    forall a: Entry, b: Entry
      ensures ByPath(a, b) || ByPath(b, a)
    {
      LexLeTotal(a.path, b.path);
    }
    forall a: Entry, b: Entry, c: Entry | ByPath(a, b) && ByPath(b, c)
      ensures ByPath(a, c)
    {
      LexLeTransitive(a.path, b.path, c.path);
    }
  }

  function PathOf(e: Entry): string {
    e.path
  }

  lemma SortDistinctPaths(s: seq<Entry>)
    requires DistinctPaths(s)
    ensures DistinctPaths(Sort(s, ByPath))
  {
    assert DistinctBy(s, PathOf);
    SortDistinct(s, ByPath, PathOf);
    var r := Sort(s, ByPath);
    assert forall i, j :: 0 <= i < j < |r| ==> PathOf(r[i]) != PathOf(r[j]);
  }

  function EntryLine(e: Entry): string {
    "  - " + e.path + " (in " + NatToString(e.count) + " commits)"
  }

  function EntryLines(es: seq<Entry>): (r: seq<string>)
    ensures |r| == |es| && forall i :: 0 <= i < |es| ==> r[i] == EntryLine(es[i])
  {
    if es == [] then [] else [EntryLine(es[0])] + EntryLines(es[1..])
  }

  /** One category's part of the summary: nothing for an empty dict,
      otherwise its title and one line per path, by path. */
  function Section(title: string, es: seq<Entry>): seq<string> {
    if es == [] then [] else ["\n" + title + " files:"] + EntryLines(Sort(es, ByPath))
  }

  /** A category's entries are listed in strictly increasing path order,
      each entry of the dict once. */
  lemma SectionOrder(es: seq<Entry>)
    requires DistinctPaths(es)
    ensures var shown := Sort(es, ByPath);
            multiset(shown) == multiset(es)
            && forall i, j :: 0 <= i < j < |shown| ==> LexLe(shown[i].path, shown[j].path) && shown[i].path != shown[j].path
  {
    ByPathOrder();
    SortSorted(es, ByPath);
    SortDistinctPaths(es);
  }

  function SummaryHeader(branch: string, n: nat): string {
    "Branch '" + branch + "': " + NatToString(n) + " commits"
  }

  function SummaryLines(branch: string, commits: seq<Commit>): (r: seq<string>)
    ensures |r| >= 1 && r[0] == SummaryHeader(branch, |commits|)
  {
    var s := SummarizeChanges(commits);
    [SummaryHeader(branch, |commits|)]
      + Section("Added", s.added) + Section("Modified", s.modified) + Section("Deleted", s.deleted)
  }

  /** `generate_summary`: a fixed sentence for a branch without commits,
      otherwise the header with the commit count and the three sections,
      joined by newlines. The join clause only ties the text to
      `SummaryLines`; what those lines say is stated by `SummaryTitles`,
      `SectionShown` and `SectionOrder`. */
  function GenerateSummary(branch: string, commits: seq<Commit>): (r: string)
    ensures commits == [] ==> r == "Branch '" + branch + "': No commits found."
    ensures commits != [] ==> StartsWith(r, SummaryHeader(branch, |commits|))
    ensures commits != [] ==> r == Join(SummaryLines(branch, commits), "\n")
  {
    if commits == [] then "Branch '" + branch + "': No commits found."
    else
      JoinFirst(SummaryLines(branch, commits), "\n");
      Join(SummaryLines(branch, commits), "\n")
  }

  /** Some change of some commit falls in the category. */
  predicate FallsIn(commits: seq<Commit>, cat: Category) {
    var chs := AllChanges(commits);
    exists i :: 0 <= i < |chs| && Categorize(chs[i].status) == Some(cat)
  }

  /** A section is printed exactly when some change falls in its category. */
  lemma SectionShown(commits: seq<Commit>, cat: Category)
    ensures Section(CategoryTitle(cat), Get(SummarizeChanges(commits), cat)) != [] <==> FallsIn(commits, cat)
  {
    CategoryEmpty(commits, cat);
  }

  /** The title line of a category when some change falls in it. */
  function TitleIfAny(commits: seq<Commit>, cat: Category): seq<string> {
    if FallsIn(commits, cat) then ["\n" + CategoryTitle(cat) + " files:"] else []
  }

  /** The section titles of the summary are those of the categories some
      change falls in, always in the order Added, Modified, Deleted. */
  lemma SummaryTitles(branch: string, commits: seq<Commit>)
    ensures LinesStartingWith(SummaryLines(branch, commits), "\n")
         == TitleIfAny(commits, Added) + TitleIfAny(commits, Modified) + TitleIfAny(commits, Deleted)
  {
    var s := SummarizeChanges(commits);
    var h := SummaryHeader(branch, |commits|);
    var a := Section(CategoryTitle(Added), Get(s, Added));
    var m := Section(CategoryTitle(Modified), Get(s, Modified));
    var d := Section(CategoryTitle(Deleted), Get(s, Deleted));
    SectionTitleOnly(Added, commits);
    SectionTitleOnly(Modified, commits);
    SectionTitleOnly(Deleted, commits);
    HeaderNotTitle(branch, |commits|);
    SummaryLinesParts(branch, commits);
    HeaderThenParts(h, a, m, d, "\n");
  }

  lemma SummaryLinesParts(branch: string, commits: seq<Commit>)
    ensures var s := SummarizeChanges(commits);
            SummaryLines(branch, commits)
            == [SummaryHeader(branch, |commits|)]
               + Section(CategoryTitle(Added), Get(s, Added))
               + Section(CategoryTitle(Modified), Get(s, Modified))
               + Section(CategoryTitle(Deleted), Get(s, Deleted))
  {
  }

  lemma HeaderThenParts(h: string, a: seq<string>, m: seq<string>, d: seq<string>, p: string)
    requires LinesStartingWith([h], p) == []
    ensures LinesStartingWith([h] + a + m + d, p)
         == LinesStartingWith(a, p) + LinesStartingWith(m, p) + LinesStartingWith(d, p)
  {
    LinesStartingWithAppend([h] + a + m, d, p);
    LinesStartingWithAppend([h] + a, m, p);
    LinesStartingWithAppend([h], a, p);
  }

  lemma HeaderNotTitle(branch: string, n: nat)
    ensures LinesStartingWith([SummaryHeader(branch, n)], "\n") == []
  {
    var h := SummaryHeader(branch, n);
    assert h[0] == 'B';
    DiffersAt(h, "\n", 0);
    NoneStartWith([h], "\n");
  }

  /** A category's section contributes its title line exactly when some
      change falls in the category. */
  lemma SectionTitleOnly(cat: Category, commits: seq<Commit>)
    ensures LinesStartingWith(Section(CategoryTitle(cat), Get(SummarizeChanges(commits), cat)), "\n")
         == TitleIfAny(commits, cat)
  {
    var es := Get(SummarizeChanges(commits), cat);
    SectionShown(commits, cat);
    if es != [] {
      var title := "\n" + CategoryTitle(cat) + " files:";
      var lines := EntryLines(Sort(es, ByPath));
      EntryLinesNotTitles(Sort(es, ByPath));
      assert title[..1] == "\n";
      HeaderThenNone(title, lines, "\n");
      assert Section(CategoryTitle(cat), es) == [title] + lines;
    } else {
      assert Section(CategoryTitle(cat), es) == [];
      assert LinesStartingWith([], "\n") == [];
    }
  }

  lemma EntryLinesNotTitles(es: seq<Entry>)
    ensures LinesStartingWith(EntryLines(es), "\n") == []
  {
    var lines := EntryLines(es);
    forall i | 0 <= i < |lines|
      ensures !StartsWith(lines[i], "\n")
    {
      EntryLineIndent(es[i]);
      DiffersAt(lines[i], "\n", 0);
    }
    NoneStartWith(lines, "\n");
  }

  lemma EntryLineIndent(e: Entry)
    ensures |EntryLine(e)| > 0 && EntryLine(e)[0] == ' '
  {
  }

  lemma HeaderThenNone(h: string, rest: seq<string>, p: string)
    requires StartsWith(h, p) && LinesStartingWith(rest, p) == []
    ensures LinesStartingWith([h] + rest, p) == [h]
  {
    LinesStartingWithCons(h, rest, p);
  }

  function CategoryTitle(cat: Category): string {
    match cat
    case Added => "Added"
    case Modified => "Modified"
    case Deleted => "Deleted"
  }

  /** The doctests' commits, for any paths in place of their file names. */
  function ExampleCommits(q1: string, q2: string, q3: string): seq<Commit> {
    [Commit("", "", "", "", [Change("A", q1), Change("M", q2)]),
     Commit("", "", "", "", [Change("M", q2), Change("D", q3)])]
  }

  /** The `summarize_changes` doctest: a path modified twice counts 2. */
  lemma ExampleSummary(q1: string, q2: string, q3: string)
    ensures SummarizeChanges(ExampleCommits(q1, q2, q3))
         == Summary([Entry(q1, 1)], [Entry(q2, 2)], [Entry(q3, 1)])
  {
    var commits := ExampleCommits(q1, q2, q3);
    var c1 := commits[0].changes;
    var c2 := commits[1].changes;
    TwoCommits(commits);
    SummarizeSnoc([], c1[0]);
    SummarizeSnoc([c1[0]], c1[1]);
    assert [] + [c1[0]] == [c1[0]];
    assert [c1[0]] + [c1[1]] == c1;
    SummarizeSnoc(c1, c2[0]);
    BumpSame(q2, 1);
    SummarizeSnoc(c1 + [c2[0]], c2[1]);
    assert c1 + c2 == c1 + [c2[0]] + [c2[1]];
  }

  /** Counting a dict's only key again. */
  lemma BumpSame(path: string, n: nat)
    ensures Bump([Entry(path, n)], path) == [Entry(path, n + 1)]
  {
    assert [Entry(path, n)][1..] == [];
  }

  lemma OneSection(title: string, e: Entry)
    ensures Section(title, [e]) == ["\n" + title + " files:", EntryLine(e)]
  {
    assert Sort([e], ByPath) == [e];
  }

  lemma CountLine(q: string, n: nat)
    requires 1 <= n <= 2
    ensures EntryLine(Entry(q, n)) == "  - " + q + (if n == 1 then " (in 1 commits)" else " (in 2 commits)")
  {
    var d := if n == 1 then "1" else "2";
    assert NatToString(n) == d;
    assert EntryLine(Entry(q, n)) == ("  - " + q) + (" (in " + d + " commits)");
  }

  lemma TwoCommitsHeader(branch: string)
    ensures SummaryHeader(branch, 2) == "Branch '" + branch + "': 2 commits"
  {
    assert NatToString(2) == "2";
    assert SummaryHeader(branch, 2) == ("Branch '" + branch) + ("': " + "2" + " commits");
  }

  /** The `generate_summary` doctest, for any branch and paths: the header
      with the commit count, then one section per category, each with its
      single entry and count. */
  lemma GenerateSummaryExample(branch: string, q1: string, q2: string, q3: string)
    ensures SummaryLines(branch, ExampleCommits(q1, q2, q3))
         == ["Branch '" + branch + "': 2 commits",
             "\nAdded files:", "  - " + q1 + " (in 1 commits)",
             "\nModified files:", "  - " + q2 + " (in 2 commits)",
             "\nDeleted files:", "  - " + q3 + " (in 1 commits)"]
  {
    var commits := ExampleCommits(q1, q2, q3);
    ExampleSummary(q1, q2, q3);
    SingleEntrySections(branch, commits, Entry(q1, 1), Entry(q2, 2), Entry(q3, 1));
    CountLine(q1, 1);
    CountLine(q2, 2);
    CountLine(q3, 1);
    TwoCommitsHeader(branch);
    SectionTitles();
  }

  /** Commits that leave one path in each category. */
  lemma SingleEntrySections(branch: string, commits: seq<Commit>, e1: Entry, e2: Entry, e3: Entry)
    requires SummarizeChanges(commits) == Summary([e1], [e2], [e3])
    ensures SummaryLines(branch, commits)
         == [SummaryHeader(branch, |commits|),
             "\n" + "Added" + " files:", EntryLine(e1),
             "\n" + "Modified" + " files:", EntryLine(e2),
             "\n" + "Deleted" + " files:", EntryLine(e3)]
  {
    OneSection("Added", e1);
    OneSection("Modified", e2);
    OneSection("Deleted", e3);
  }

  lemma SectionTitles()
    ensures "\n" + "Added" + " files:" == "\nAdded files:"
    ensures "\n" + "Modified" + " files:" == "\nModified files:"
    ensures "\n" + "Deleted" + " files:" == "\nDeleted files:"
  {
  }
}
