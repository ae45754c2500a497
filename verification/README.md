# git.ai core in Dafny

A model of the two computational parts of the `git.ai` tool, with proofs of
what they promise.

- **Code quality** (`src/code_quality.py`). Three metrics are computed over a
  function's syntax tree:
  - cyclomatic complexity
  - method length
  - working memory, the number of distinct names the function binds

  Each metric becomes a 0–10 score against a fixed maximum (10, 50 and 8).
  The three scores combine into a weighted, rounded overall score. A file's
  score is the rounded mean of its functions' scores, and the Markdown
  quality report lists files and functions worst first.
- **Git summarizer** (`src/git_summarizer.py`):
  - the branch-list filter
  - the parser that turns `git log --pretty=format:%H|%an|%ad|%s| --name-status`
    output into commit records
  - per-category change counts (added / modified / deleted)
  - the plain-text branch summary
  - the Markdown changelog grouped by date, newest first

Modules, in dependency order:

| module | file | contents |
|---|---|---|
| `Wrappers` | wrappers.dfy | `Option` |
| `Strings` | strings.dfy | Python `split`, `join`, `strip`-blankness, `<=` on strings, `s[:n]`, `str(n)` |
| `Sorting` | sorting.dfy | Python's stable `sorted` as insertion sort, with sortedness, permutation and stability lemmas |
| `Syntax` | syntax.dfy | syntax tree nodes and `ast.walk` |
| `Metrics` | metrics.dfy | the three metrics |
| `MetricExamples` | metric_examples.dfy | the three metrics' docstring examples as hand-written trees |
| `Scoring` | scoring.dfy | `round(x, 1)`, component, function and file scores |
| `Evaluation` | evaluation.dfy | `evaluate_function`, `evaluate_file` |
| `QualityReport` | report.dfy | `format_quality_report` |
| `GitLog` | gitlog.dfy | `get_branches`, `get_commit_history` |
| `ChangeSummary` | summary.dfy | `summarize_changes`, `generate_summary` |
| `Changelog` | changelog.dfy | the text `generate_changelog` writes |

Modelling choices that matter when reading the contracts:

- **Syntax tree.** A node has a kind, a line number and children. A function
  definition keeps its `body` statements inside its kind, so `body[-1]` is
  available. Kinds without a `lineno` in Python's `ast` are `Unlocated`.
  `Walk` visits the nodes in preorder, while `ast.walk` goes breadth-first.
  None of the three metrics depends on the visiting order:
  - complexity is a sum, and `WeightSumPermutation` proves a sum does not
    depend on order;
  - working memory is the size of a set, and `Variables` states that set
    through membership in the walk, so order does not enter;
  - the end line is a maximum, and `EndLine` and `MethodLength` state it
    through membership in the walk in the same way.
- **Numbers and rounding.** Scores are exact reals. `round(x, 1)` is rounding
  to the nearest tenth with ties to even. When a component is clamped,
  `max(0, …)` returns the integer `0`, so the report prints `0`, not `0.0`.
- **Commit parser.** It is modelled with its state made explicit.
  `get_commit_history` appends the current commit dictionary to the result
  when a `|` line arrives, and again at the end, always the same object. A
  `|` line with fewer than four fields therefore makes the same commit
  appear once more in the result, and every copy carries the changes that
  follow. The parser state counts these pending repeats (`ParseState.pending`).
  `GitLog.ShortPipeLineRepeats` states the effect.
- **Change counts.** `summarize_changes` keeps dictionaries in insertion
  order. They are modelled as sequences of `(path, count)` entries with
  distinct paths, in first-occurrence order.

Two points of the scoring code decide how the contracts are stated:

- The overall score of a function comes from the unrounded component scores
  (`src/code_quality.py:244-250`). Only the components shown in the record
  are rounded.
- The comment at `src/code_quality.py:311` and the `evaluate_file` docstring
  call the file score the average of the function scores. The code takes
  that average over the scores as stored in the records, which are already
  rounded to one decimal (`src/code_quality.py:311-320`).
  `Evaluation.EvaluateFile` states it that way.

## Model

| member | source | states |
|---|---|---|
| Sorting.Sort | src/code_quality.py:420 | `sorted` returns a permutation of its input, of the same length |
| Sorting.SortSorted | src/code_quality.py:420 | for a total, transitive order the result is sorted |
| Sorting.SortStable | src/code_quality.py:435 | elements that compare equal keep their input order, as Python's sort is stable |
| Syntax.Walk | src/code_quality.py:111 | the walk of a node starts with the node itself, as each `ast.walk` loop visits the node it starts from |
| Syntax.WalkContains | src/code_quality.py:152 | in the model's preorder walk, the walk of any node inside a tree is a contiguous piece of the tree's walk, so the nodes the end-line loop visits from `body[-1]` are all nodes of the function |
| Syntax.WalkTransitive | src/code_quality.py:193 | a node inside a node inside a tree is inside the tree, so every node the working-memory loop reaches belongs to the function |
| Metrics.WeightPositive | src/code_quality.py:102-115 | a node adds to the complexity exactly when it is a decision node or a boolean operation |
| Metrics.Complexity | src/code_quality.py:96-117 | 0 without a parsed tree; otherwise at least 1, and exactly 1 iff no node in the function's subtree is a decision point |
| Metrics.ComplexityByTree | src/code_quality.py:99-117 | the walked sum equals the structural recursive count, so the result does not depend on the traversal order |
| Metrics.WeightSumPermutation | src/code_quality.py:110-115 | the complexity sum is the same for any ordering of the same nodes, which covers breadth-first `ast.walk` |
| Metrics.NestedComplexity | src/code_quality.py:110-115 | a nested function's complexity never exceeds that of a function enclosing it, because decision points of nested functions count for the outer one |
| Metrics.EndLine | src/code_quality.py:150-154 | the end line is the largest line among located nodes, and never before the start line |
| Metrics.MethodLength | src/code_quality.py:144-156 | 0 for an empty body; otherwise one more than the distance from the `def` line to the last line reached from the last statement |
| Metrics.MethodLengthLastOnly | src/code_quality.py:147-154 | statements before the last one do not affect the length |
| Metrics.BoundIn | src/code_quality.py:193-207 | a name is bound in a node sequence iff some node assigns it to a plain name, augmented-assigns it, or uses it as a `for` target |
| Metrics.Variables | src/code_quality.py:190-210 | the variable set is exactly the names bound anywhere in the subtree together with the positional parameters |
| Metrics.WorkingMemory | src/code_quality.py:187-212 | 0 for an empty body, else the number of distinct variable names |
| Metrics.WorkingMemoryDisjoint | src/code_quality.py:190-212 | with distinct parameters that are never rebound, the count is parameters plus bound names |
| Metrics.WorkingMemoryBounds | src/code_quality.py:190-212 | the count lies between the number of distinct parameters and that number plus the bound names |
| Metrics.NestedBindingsCounted | src/code_quality.py:193-207 | names bound inside a nested function count for every enclosing function |
| MetricExamples.ComplexityDoctest | src/code_quality.py:76-117 | the docstring's `complex_func`, with an `if` holding a nested `if` and an `elif` branch, has complexity 4 wherever its `def` line is |
| MetricExamples.MethodLengthDoctest | src/code_quality.py:129-156 | the docstring's `multi_line_func`, three assignments and a `return` on the lines after its `def`, has length 5 |
| MetricExamples.WorkingMemoryDoctest | src/code_quality.py:171-212 | the docstring's `memory_heavy_func`, which takes no parameters and assigns four distinct names, has working memory 4 |
| Scoring.Round1 | src/code_quality.py:256 | the result is a multiple of 0.1 within 0.05 of the input, and on a tie it is the even neighbour |
| Scoring.Round1Tenths | src/code_quality.py:256 | rounding leaves a value that already has one decimal unchanged |
| Scoring.Round1Monotone | src/code_quality.py:256 | rounding preserves order |
| Scoring.ComponentScore | src/code_quality.py:245-247 | the score lies in 0..10, is 10 iff the raw value is 0, and is 0 iff the raw value reaches the maximum |
| Scoring.ComponentScoreAntitone | src/code_quality.py:245-247 | a larger raw value never gives a better score |
| Scoring.FunctionScore | src/code_quality.py:245-250 | the overall is within 0.05 of `0.4c + 0.3l + 0.3m` on the unrounded component scores, lies in 0..10, has one decimal, and is 10.0 for an all-zero function |
| Scoring.FunctionScoreAntitone | src/code_quality.py:245-250 | a function that is worse on every metric never scores higher overall |
| Scoring.MeanBounds | src/code_quality.py:312-313 | the mean of scores that lie within bounds stays within those bounds |
| Scoring.FileScore | src/code_quality.py:311-320 | 10.0 for no functions; otherwise within 0.05 of the mean; always one decimal and within 0..10 |
| Evaluation.BaseName | src/code_quality.py:301 | the result is the suffix of the path after its last `/`, and holds no `/` |
| Evaluation.MetricScore | src/code_quality.py:245-267 | the rounded component score lies in 0..10, is 10.0 iff the raw value is 0, and is 0.0 iff the raw value reaches the maximum |
| Evaluation.EvaluateFunction | src/code_quality.py:241-270 | the record carries the name, each raw value next to its maximum and its rounded score, and the overall score from the unrounded components |
| Evaluation.FunctionDefs | src/code_quality.py:306-309 | exactly the function definitions of the walk, each as often as it occurs |
| Evaluation.FunctionDefsAppend | src/code_quality.py:307-309 | the filter keeps the walk's order: the definitions of a concatenation are those of the first part, then those of the second |
| Evaluation.EvaluateFile | src/code_quality.py:299-320 | unparsed gives no functions and 0.0; parsed gives one record per definition in walk order, 10.0 when there are none, otherwise a one-decimal value within 0.05 of the mean of the stored function scores |
| Evaluation.NestedFunctionsEvaluated | src/code_quality.py:306-309 | every function definition anywhere in the tree, nested ones included, gets a record |
| QualityReport.EvaluationValid | src/code_quality.py:252-270 | every score of an evaluated file is non-negative with one decimal, which makes it printable |
| QualityReport.Decimal | src/code_quality.py:427 | a score prints as digits, a point and one digit |
| QualityReport.ScoreText | src/code_quality.py:442-448 | a component score prints as `0` exactly when it is zero, and otherwise as its decimal |
| QualityReport.DecimalReadBack | src/code_quality.py:427 | the printed decimal reads back to the score it prints |
| QualityReport.DecimalInjective | src/code_quality.py:427 | different scores print differently |
| QualityReport.ScoreTextClamped | src/code_quality.py:245-267 | a component prints as `0` exactly when its raw value reaches the maximum |
| QualityReport.FileLines | src/code_quality.py:427-452 | the first line is the file header and the last is blank; a file without functions takes three lines with `No functions found in this file.` second; otherwise the header is followed by the header line of the lowest-scoring function, five lines per function, and a blank line |
| QualityReport.FormatQualityReport | src/code_quality.py:414-454 | no evaluations gives exactly the "No Python files found" message; otherwise the text starts with the title and a blank line |
| QualityReport.ReportFileOrder | src/code_quality.py:420-427 | the `## ` lines are the file headers of a permutation of the input that is sorted by score, with ties kept in input order |
| QualityReport.FileFunctionOrder | src/code_quality.py:435-438 | within a file the `### ` lines are the function headers of a permutation sorted by score, with ties kept in input order |
| QualityReport.ReportSplitsIntoLines | src/code_quality.py:417-454 | when names hold no newline, splitting the report at newlines gives back exactly the report lines |
| Strings.Split | src/git_summarizer.py:64 | `split` gives one piece more than there are separators, no piece holds the separator, and joining the pieces gives back the text |
| GitLog.NonEmpty | src/git_summarizer.py:64 | a line is kept iff it is one of the input lines and not empty |
| GitLog.NonEmptyAppend | src/git_summarizer.py:64 | the filter keeps the input order: filtering a concatenation filters each part in turn |
| GitLog.NonEmptyCount | src/git_summarizer.py:64 | every non-empty line is kept as often as it occurs, and no empty line is kept |
| GitLog.GetBranches | src/git_summarizer.py:64 | the branches are exactly the non-empty pieces of the output, and none contains a newline |
| GitLog.GetBranchesAppend | src/git_summarizer.py:64 | the branches of two listings joined by a newline are those of the first listing followed by those of the second, in order |
| GitLog.GetBranchesCount | src/git_summarizer.py:64 | a branch name is listed as often as it is a line of the output |
| GitLog.GetBranchesJoin | src/git_summarizer.py:64 | joining non-empty branch names with newlines and reading them back gives the same list |
| GitLog.ParseHeader | src/git_summarizer.py:116-124 | a pipe-delimited line yields a commit iff it has at least three pipes, that is at least four fields, and the new commit has no changes |
| GitLog.ParseChange | src/git_summarizer.py:127-133 | a line yields a change iff it contains a tab; the change's type is the text before the first tab and its path the text up to the next tab or the end |
| GitLog.ChangeFields | src/git_summarizer.py:127-133 | a status, a tab, a path and nothing or a tab-led rest parse to that status and path, so a rename line `R100<tab>old<tab>new` gives type `R100` and path `old` |
| GitLog.Step | src/git_summarizer.py:107-133 | a blank line changes nothing; a line without a pipe keeps the closed commits, appends exactly the parsed change to the current commit when it has a tab and there is a current commit, and otherwise changes nothing; a line with four or more fields closes the current commit and starts a new one from its fields |
| GitLog.StepChangeLine | src/git_summarizer.py:125-133 | a change line under a current commit appends exactly one change made of its first two tab fields, so a rename `R100<tab>old<tab>new` adds type `R100` with path `old` |
| GitLog.RunAppend | src/git_summarizer.py:107-133 | the parser reads lines one at a time: two chunks read in turn give the same result as their concatenation |
| GitLog.BlankLinesIgnored | src/git_summarizer.py:108-109 | dropping blank or whitespace-only lines does not change the parse |
| GitLog.ShortPipeLineRepeats | src/git_summarizer.py:112-124 | a pipe-delimited line with fewer than four fields appends the current commit again, and the same commit stays current |
| GitLog.ParseHistory | src/git_summarizer.py:104-139 | every parsed field is free of newlines, the header fields are free of pipes, and change fields are free of tabs; output with no pipe at all gives no commits, since change lines before the first header are dropped |
| GitLog.HeaderFields | src/git_summarizer.py:116-124 | the first four pipe-separated fields become hash, author, date and message, whatever follows them |
| GitLog.HeaderFieldsExact | src/git_summarizer.py:116-124 | a line of exactly four pipe-separated fields becomes a commit with those fields |
| GitLog.HistoryCount | src/git_summarizer.py:107-137 | when every line holding a `|` has at least four fields, the log yields exactly one commit per such line, whatever change, blank or leading lines surround them |
| GitLog.ParseRender | src/git_summarizer.py:67-139 | printing well-formed commits in the log format and parsing the text gives back exactly those commits |
| ChangeSummary.BumpLookup | src/git_summarizer.py:199-202 | counting a path raises its count by one and leaves every other count alone |
| ChangeSummary.BumpDistinct | src/git_summarizer.py:199-202 | counting keeps the paths distinct, one dictionary key each |
| ChangeSummary.Categorize | src/git_summarizer.py:189-197 | status `A` is added, `M` or `R` modified, `D` deleted, each iff the status is exactly that |
| ChangeSummary.SummarizeChanges | src/git_summarizer.py:142-204 | for each category, the count of a path is the number of changes over all commits whose status maps to that category, and the paths are distinct |
| ChangeSummary.SummarizeAllCounts | src/git_summarizer.py:183-202 | for each category, the count of a path is the number of its changes whose status maps to that category |
| ChangeSummary.SummarizeChangesCounts | src/git_summarizer.py:142-204 | each category holds distinct paths, and an entry is present iff its count equals that reference count and is positive |
| ChangeSummary.BumpTotal | src/git_summarizer.py:199-202 | counting a path raises the sum of a category's counts by exactly one, whether or not the path was already a key |
| ChangeSummary.SummarizeChangesTotal | src/git_summarizer.py:183-204 | in each category the counts add up to the number of changes, over all commits, whose status falls in that category |
| ChangeSummary.SummarizeChangesExample | tests/test_git_summarizer.py:17-53 | the unit test's two commits give, for any four distinct paths in place of its file names, added `{p1: 1, p4: 1}`, modified `{p2: 1, p1: 1}` and deleted `{p3: 1}` |
| ChangeSummary.ExampleSummary | src/git_summarizer.py:159-175 | the docstring's commits give `{q1: 1}`, `{q2: 2}` and `{q3: 1}` for any paths: a path modified in both commits counts 2 |
| ChangeSummary.CategoryEmpty | src/git_summarizer.py:189-197 | a category is empty iff no change has a status mapping to it (`A`; `M` or `R`; `D`), so other statuses are skipped |
| ChangeSummary.SortDistinctPaths | src/git_summarizer.py:256 | sorting the items keeps the paths distinct |
| ChangeSummary.SectionOrder | src/git_summarizer.py:256-269 | a section lists the same entries as the dictionary, sorted by path |
| ChangeSummary.GenerateSummary | src/git_summarizer.py:246-271 | no commits gives exactly the "No commits found" line; otherwise the text is the summary lines joined by newlines, the first being the branch and the commit count |
| ChangeSummary.SummaryTitles | src/git_summarizer.py:251-271 | the section titles of the summary are the Added, Modified and Deleted titles in that order, each present exactly when some change falls in its category |
| ChangeSummary.SectionTitleOnly | src/git_summarizer.py:254-257 | a category's section holds its title line, and no other title-like line, exactly when some change falls in the category |
| ChangeSummary.SectionShown | src/git_summarizer.py:254-269 | a category's section appears iff some change falls into it |
| ChangeSummary.GenerateSummaryExample | src/git_summarizer.py:207-271 | for any branch and paths, the docstring's commits give the line `Branch '<branch>': 2 commits`, then the Added, Modified and Deleted titles, each followed by its one path with counts 1, 2 and 1 |
| Changelog.Dates | src/git_summarizer.py:327-329 | the grouping keys are exactly the dates that occur, each once |
| Changelog.ChangelogDatesOrder | src/git_summarizer.py:332 | the dates appear newest first (reverse string order), each once, and every date that occurs is shown |
| Changelog.OnDate | src/git_summarizer.py:329 | a date's group holds only commits of that date |
| Changelog.OnDateCount | src/git_summarizer.py:326-329 | a date's group holds every commit of that date exactly as often as the input does, and no commit of another date |
| Changelog.OnDateAppend | src/git_summarizer.py:326-329 | groups keep input order: the group of a concatenation is the group of the first part followed by that of the second |
| Changelog.EachCommitOnce | src/git_summarizer.py:326-335 | taken together, the date groups hold every commit exactly once; with `Changelog.ChangelogSubjects` this means the written text has one subject line per commit |
| Changelog.ChangelogSubjects | src/git_summarizer.py:332-340 | the `- ` lines of the changelog are exactly the subject lines (message, author, short hash) of the commits grouped by date, newest date first, in input order within a date |
| Changelog.PathsOfTally | src/git_summarizer.py:342-353 | a commit's detail line lists a path as often as the summary counts it for that category |
| Changelog.GenerateChangelog | src/git_summarizer.py:323-364 | the text starts with `# Changelog for <branch>` followed by a blank line, whatever the commits |
| Changelog.CommitLines | src/git_summarizer.py:337-362 | a commit's entry opens with its message, author and short hash, has one detail line per category it touches, and ends with a blank line |
| Changelog.DateHeadersInOrder | src/git_summarizer.py:324-333 | the `## ` lines of the changelog are exactly one header per date, newest first |
| Changelog.ChangelogSplits | src/git_summarizer.py:324-364 | every written line ends in a newline, and splitting the text gives back the lines |
| Changelog.SingleCommitChangelog | src/git_summarizer.py:324-364 | a one-commit history is the title, one date section and that commit's lines |
| Changelog.SampleCommitLines | src/git_summarizer.py:292-321 | the documented sample commit prints its message, author and 7-character hash, then the added files |
| Changelog.TwoAdded | src/git_summarizer.py:355-356 | two added paths share one `  - Added:` line, separated by a comma and a space |

## Left out

- Running git (`run_git_command`), command-line parsing (`main`), reading and
  parsing Python files (`_read_file`, `_parse_ast`, `evaluate_python_file`),
  directory scans (`evaluate_directory`) and file writes. These are I/O. The
  git output, the parsed tree and the list of evaluations are inputs of the
  model. `generate_changelog`'s file content is modelled as a string.
- `run_git_command` strips the output before the parser sees it. That step is
  part of the I/O boundary, and the parser is modelled on whatever text it
  receives.
- Floating point. Scores are exact reals with round-half-to-even at one
  decimal, and Python's binary-float rounding of values such as 2.675 is not
  modelled.
- `ast.walk` visits breadth-first and `Syntax.Walk` in preorder. The metrics
  are proved independent of the order, and `EvaluateFile` lists functions in
  preorder rather than breadth-first order.
- `async def` functions are ordinary nodes, as in the source, which only
  matches `ast.FunctionDef`.
- QualityReport.FormatQualityReport: requires every score to be a
  non-negative multiple of 0.1, which is what evaluations produce
  (`QualityReport.EvaluationValid`). Python's `repr` of arbitrary floats is
  not modelled.
- QualityReport.ReportSplitsIntoLines: requires file and function names
  without newlines. A name containing a newline would split differently.
- Changelog.SampleCommitLines: covers the commit line of the documented
  example. The whole file of that example is covered by
  `Changelog.SingleCommitChangelog` for any single commit, not as one literal.
- The 32-bit and other integer widths do not arise: counts and line numbers
  are unbounded, as in Python.
- `setup.py` is packaging and is not part of this model. The two unit tests
  have no members of their own beyond these: `test_summarize_changes` is
  `ChangeSummary.SummarizeChangesExample`, and `test_generate_summary_empty`
  is the no-commits case of `ChangeSummary.GenerateSummary`'s contract.
