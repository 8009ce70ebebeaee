# Fnloc metrics engine in Dafny

Fnloc reports, for every function of a Rust code base, how many of its lines
are code, comments or blank, its cyclomatic complexity and its maximum
nesting depth. This project models the metrics engine behind those numbers
and proves properties of it:

- `CyclomaticComplexity` models the complexity walker over a function's
  syntax tree (`src/analyzer/cyclomatic_complexity.rs`). The baseline is 1,
  and every construct the walker visits adds its own weight.
- `DecisionPoints` gives an independent reading of that walker: it lists the
  nodes the walker visits and counts the decision points among them. It
  proves that this count equals the complexity, so every construct weighs 0
  or 1.
- `NestingDepth` models the depth walker, which carries an explicit current
  depth and returns the deepest level reached
  (`src/analyzer/nesting_depth.rs`).
- `ComplexityAnalyzer` models the older single-file revision of both walkers
  (`src/complexity_analyzer.rs`). It mirrors the file's accumulator loops
  as accumulator-passing functions and is proved equal to the two split
  modules on every function.
- `MetricFixtures` writes out the functions from the in-file tests as
  syntax trees and proves the values those tests expect.
- `LineFixtures` proves the class of each line that the line-count tests
  single out (block-comment tails, inline comments, whitespace-only lines).
- `FunctionExtractor` models how a function's lines are found in the text:
  `str::lines`, the brace-counting scan `find_function_bounds`, and
  `extract_function_spans` (`src/analyzer/function_extractor.rs`).
- `FunctionAnalyzer` models the three-way line classifier, the metric lookup
  by name with its `(1, 0)` default, and the flattening of per-file results
  under a `path::` prefix (`src/function_analyzer.rs`).
- `Syntax` and `Common` hold the data model: the `syn` tree as a closed
  datatype, and `Option`.

The syntax tree is a given value. `Expr` has one constructor for each
expression kind the walkers match, plus an `Other` leaf for literals, paths,
macros in expression position and every kind they leave alone. `Stmt` is an
expression statement, a `let` with an optional initializer, a nested item,
or a macro statement.

Where the source's comments and its code part ways, the model follows the
code:

- The doc comment of `calculate_cyclomatic_complexity`
  (`src/analyzer/cyclomatic_complexity.rs:9-18`) and the comment at line 120
  exclude the final return. The code at lines 121-127 adds 1 for every
  `return`, the last one included, and so does the model.
- A nested `fn` statement goes through `analyze_item`
  (`src/analyzer/cyclomatic_complexity.rs:50`, `257-262`). That adds the
  nested function's full complexity to the enclosing one, its own baseline
  of 1 included; any other nested item adds 0. The depth walker returns the
  current depth for every nested item (`src/analyzer/nesting_depth.rs:41-44`),
  so a nested `fn` never deepens its parent.
- The tests for a match arm holding an `if` and for a closure holding an `if`
  (`src/analyzer/nesting_depth.rs:327`, `359`) say in their comments that the
  natural count is 2, yet they assert 3. The code opens one level for the
  match or closure, one for the arm's or closure's block, and one for the
  `if`, which gives 3. The model gives 3 as well.

Match guards are walked one level deeper, like the arm bodies. The
conditions of `if`, `while` and `for` are walked at the current depth.

## Model

| member | source | states |
|---|---|---|
| CyclomaticComplexity.Complexity | src/analyzer/cyclomatic_complexity.rs:19-26 | every function's complexity is at least 1 |
| CyclomaticComplexity.BlockComplexity | src/analyzer/cyclomatic_complexity.rs:29-37 | meaning in `DecisionPoints.StmtsCount`: a block weighs the decision points among the nodes visited in its statements |
| CyclomaticComplexity.StmtComplexity | src/analyzer/cyclomatic_complexity.rs:40-53 | meaning in `DecisionPoints.StmtsCount`: an expression statement or a `let` initializer weighs its expression, a nested `fn` its full complexity, any other item and a macro 0 |
| CyclomaticComplexity.ExprComplexity | src/analyzer/cyclomatic_complexity.rs:56-238 | meaning in `DecisionPoints.ExprCount`: an expression weighs the decision points among the nodes visited in it |
| CyclomaticComplexity.ArmComplexity | src/analyzer/cyclomatic_complexity.rs:242-254 | meaning in `DecisionPoints.ArmsCount` and `CyclomaticComplexity.ArmsAtLeastCount`: 1 for the arm, plus its guard and body |
| CyclomaticComplexity.ItemComplexity | src/analyzer/cyclomatic_complexity.rs:257-262 | meaning in `DecisionPoints.FnCount` and `CyclomaticComplexity.NestedFnIsAdded`: a nested `fn` adds its complexity, other items 0 |
| CyclomaticComplexity.StmtsAppend | src/analyzer/cyclomatic_complexity.rs:29-37 | a block's complexity is additive over its statements: the score of `a + b` is the score of `a` plus the score of `b` |
| CyclomaticComplexity.AppendStatement | src/analyzer/cyclomatic_complexity.rs:19-37 | appending one statement to a function's body raises its complexity by exactly that statement's weight |
| CyclomaticComplexity.MacroOnlyStmts | src/analyzer/cyclomatic_complexity.rs:40-53 | statements that are all macros weigh 0 |
| CyclomaticComplexity.MacroOnlyBody | src/analyzer/cyclomatic_complexity.rs:269-278 | a function whose body is empty or only macro statements has complexity exactly 1 |
| CyclomaticComplexity.NestedFnIsAdded | src/analyzer/cyclomatic_complexity.rs:257-262 | a nested `fn` statement adds its own full complexity to the parent's, so the parent grows by at least 1 |
| CyclomaticComplexity.ArmsAtLeastCount | src/analyzer/cyclomatic_complexity.rs:242-254 | every match arm adds at least 1, guarded or not |
| CyclomaticComplexity.TrivialArms | src/analyzer/cyclomatic_complexity.rs:242-254 | arms whose guard and body weigh nothing add exactly 1 each |
| CyclomaticComplexity.MatchOfTrivialArms | src/analyzer/cyclomatic_complexity.rs:72-81 | a match with N such arms over a trivial scrutinee weighs N + 1, with or without guards |
| DecisionPoints.DecisionCount | src/analyzer/cyclomatic_complexity.rs:3-18 | counts the decision points of the doc list (if, match and each of its arms, while, for, loop, return, break, continue, `&&`, `\|\|`, `?`) plus each function's baseline; a node is one point or none, so the count never exceeds the nodes; `ExprCount` and `FnCount` tie it to the walker |
| DecisionPoints.CountAppend | src/analyzer/cyclomatic_complexity.rs:29-37 | the decision-point count of a concatenation is the sum of the counts of its parts |
| DecisionPoints.ExprCount | src/analyzer/cyclomatic_complexity.rs:56-238 | an expression's complexity is the number of decision points among the nodes the walker visits in it (if, match, each arm, while, for, loop, `&&`, `\|\|`, `?`, return, break, continue, each nested fn); every other construct weighs 0 |
| DecisionPoints.StmtsCount | src/analyzer/cyclomatic_complexity.rs:29-53 | the same count for a list of statements; macro statements and non-fn items visit nothing |
| DecisionPoints.ArmsCount | src/analyzer/cyclomatic_complexity.rs:242-254 | the same count for match arms: each arm is a decision point, then its guard and body |
| DecisionPoints.FnCount | src/analyzer/cyclomatic_complexity.rs:19-26 | a function's complexity is the number of decision points among its own baseline node and every node the walker visits in its body |
| DecisionPoints.ComplexityBounds | src/analyzer/cyclomatic_complexity.rs:19-26 | complexity is exactly 1 plus the decision points of the body, so at most 1 plus the number of body nodes visited |
| NestingDepth.Depth | src/analyzer/nesting_depth.rs:14-16 | meaning in `NestingDepth.FlatBody`: the body walked from 0, so 0 exactly when nothing opens a scope |
| NestingDepth.BlockDepth | src/analyzer/nesting_depth.rs:19-28 | a block's depth is never below the depth it is walked at |
| NestingDepth.StmtDepth | src/analyzer/nesting_depth.rs:31-47 | a statement's depth is never below the depth it is walked at; nested items and macros stay at it (`NestingDepth.NestedItemIgnored`) |
| NestingDepth.ArmDepth | src/analyzer/nesting_depth.rs:80-88 | an arm's depth, guard and body alike, is never below the incremented depth it is walked at |
| NestingDepth.ExprDepth | src/analyzer/nesting_depth.rs:50-241 | an expression's depth is never below the depth it is walked at |
| NestingDepth.ScopeIsDeeper | src/analyzer/nesting_depth.rs:53-139 | if, match, while, for, loop, bare, unsafe and async blocks, and closures reach at least one level deeper than where they stand |
| NestingDepth.ExprShift | src/analyzer/nesting_depth.rs:50-241 | walking an expression at depth d + k gives k more than walking it at depth d |
| NestingDepth.BlockShift | src/analyzer/nesting_depth.rs:19-28 | the same shift for a block |
| NestingDepth.ExprRelative | src/analyzer/nesting_depth.rs:50-241 | an expression's depth at d is d plus its depth at 0 |
| NestingDepth.BlockRelative | src/analyzer/nesting_depth.rs:19-28 | a block's depth at d is d plus its depth at 0 |
| NestingDepth.BlockMonotone | src/analyzer/nesting_depth.rs:19-28 | starting deeper never gives a shallower result |
| NestingDepth.StmtsAppend | src/analyzer/nesting_depth.rs:19-28 | the depth of `a + b` is the larger of the depths of `a` and `b`: the statement fold is a maximum |
| NestingDepth.AppendStatementMonotone | src/analyzer/nesting_depth.rs:19-28 | appending a statement gives the larger of the old depth and that statement's, so never less |
| NestingDepth.NestedItemIgnored | src/analyzer/nesting_depth.rs:41-44 | appending a nested item, a `fn` included, leaves the enclosing function's depth unchanged |
| NestingDepth.ExprFlat | src/analyzer/nesting_depth.rs:142-240 | an expression walked at d returns exactly d if and only if it holds no scope-opening construct |
| NestingDepth.StmtsFlat | src/analyzer/nesting_depth.rs:31-47 | the same for a list of statements; nested items and macros are not looked into |
| NestingDepth.FlatBody | src/analyzer/nesting_depth.rs:14-16 | a function's depth is 0 if and only if its body holds no scope-opening construct |
| ComplexityAnalyzer.SameComplexity | src/complexity_analyzer.rs:19-262 | the combined file's complexity equals the split module's on every function |
| ComplexityAnalyzer.CalculateCyclomaticComplexity | src/complexity_analyzer.rs:19-26 | meaning in `ComplexityAnalyzer.SameComplexity`: equal to `CyclomaticComplexity.Complexity` |
| ComplexityAnalyzer.AnalyzeBlock | src/complexity_analyzer.rs:29-37 | meaning in `ComplexityAnalyzer.BlockSame` |
| ComplexityAnalyzer.BlockSame | src/complexity_analyzer.rs:29-37 | the accumulator loop over a block gives `CyclomaticComplexity.BlockComplexity` |
| ComplexityAnalyzer.AnalyzeStatement | src/complexity_analyzer.rs:40-53 | meaning in `ComplexityAnalyzer.StmtSame` |
| ComplexityAnalyzer.StmtSame | src/complexity_analyzer.rs:40-53 | a statement weighs what `CyclomaticComplexity.StmtComplexity` gives |
| ComplexityAnalyzer.AnalyzeExpression | src/complexity_analyzer.rs:56-239 | meaning in `ComplexityAnalyzer.ExprSame` |
| ComplexityAnalyzer.ExprSame | src/complexity_analyzer.rs:56-239 | an expression weighs what `CyclomaticComplexity.ExprComplexity` gives, kind by kind |
| ComplexityAnalyzer.AnalyzeMatchArm | src/complexity_analyzer.rs:242-254 | meaning in `ComplexityAnalyzer.ArmSame` |
| ComplexityAnalyzer.ArmSame | src/complexity_analyzer.rs:242-254 | an arm weighs what `CyclomaticComplexity.ArmComplexity` gives |
| ComplexityAnalyzer.AnalyzeItem | src/complexity_analyzer.rs:257-262 | meaning in `ComplexityAnalyzer.StmtSame`: reached only from an item statement, where it matches `CyclomaticComplexity.ItemComplexity` |
| ComplexityAnalyzer.SameNestingDepth | src/complexity_analyzer.rs:275-503 | the combined file's nesting depth equals the split module's on every function |
| ComplexityAnalyzer.CalculateNestingDepth | src/complexity_analyzer.rs:275-277 | meaning in `ComplexityAnalyzer.SameNestingDepth`: equal to `NestingDepth.Depth` |
| ComplexityAnalyzer.AnalyzeBlockNesting | src/complexity_analyzer.rs:280-289 | meaning in `ComplexityAnalyzer.BlockNestingSame` |
| ComplexityAnalyzer.BlockNestingSame | src/complexity_analyzer.rs:280-289 | the running maximum over a block, started at the current depth, gives `NestingDepth.BlockDepth` |
| ComplexityAnalyzer.AnalyzeStatementNesting | src/complexity_analyzer.rs:292-308 | meaning in `ComplexityAnalyzer.StmtNestingSame` |
| ComplexityAnalyzer.StmtNestingSame | src/complexity_analyzer.rs:292-308 | a statement's depth is what `NestingDepth.StmtDepth` gives |
| ComplexityAnalyzer.AnalyzeExpressionNesting | src/complexity_analyzer.rs:311-503 | meaning in `ComplexityAnalyzer.ExprNestingSame` |
| ComplexityAnalyzer.ExprNestingSame | src/complexity_analyzer.rs:311-503 | an expression's depth is what `NestingDepth.ExprDepth` gives, kind by kind |
| MetricFixtures.ComplexityFixtures | src/analyzer/cyclomatic_complexity.rs:269-422 | the ten test functions have the complexities 1, 2, 2, 4, 5, 4, 2, 3, 3 and 6 that the tests expect |
| MetricFixtures.LogicalOpsComplexity | src/analyzer/cyclomatic_complexity.rs:346-357 | `if a && b \|\| c` with a print in its block gives 4 |
| MetricFixtures.ComplexMatchComplexity | src/analyzer/cyclomatic_complexity.rs:408-422 | a match with four arms, two of them guarded by comparisons, gives 6 |
| MetricFixtures.NestingFixtures | src/analyzer/nesting_depth.rs:249-377 | the eight test functions have the depths 0, 1, 2, 6, 3, 3, 3 and 3 that the tests expect |
| MetricFixtures.DeeplyNestedDepth | src/analyzer/nesting_depth.rs:288-310 | if, for, while, match, if, if nested in one another give 6 |
| MetricFixtures.MatchWithIfDepth | src/analyzer/nesting_depth.rs:312-328 | a match arm whose block holds an `if` gives 3 |
| MetricFixtures.ClosureDepth | src/analyzer/nesting_depth.rs:347-360 | a closure whose block holds an `if` gives 3 |
| MetricFixtures.BlocksDepth | src/analyzer/nesting_depth.rs:362-377 | three nested bare blocks give 3 |
| FunctionExtractor.NewlineFrom | src/analyzer/function_extractor.rs:12 | finds the first `'\n'` at or after a position, or the end of the text |
| FunctionExtractor.Lines | src/analyzer/function_extractor.rs:12 | `str::lines` yields pieces that hold no `'\n'` |
| FunctionExtractor.LinesOfTerminated | src/analyzer/function_extractor.rs:12 | splitting lines that were each followed by `'\n'` gives those lines back |
| FunctionExtractor.FirstContainingSpec | src/analyzer/function_extractor.rs:44-46 | the start search fails exactly when no line has the pattern, and otherwise returns the first line that has it |
| FunctionExtractor.FirstClosingSpec | src/analyzer/function_extractor.rs:48-61 | the end search fails exactly when no line closes, and otherwise returns the first line that does |
| FunctionExtractor.Bounds | src/analyzer/function_extractor.rs:38-66 | found bounds satisfy start <= end < number of lines |
| FunctionExtractor.StartFound | src/analyzer/function_extractor.rs:41-46 | the start is found at `s` exactly when `s` is the first line containing `fn <name>` |
| FunctionExtractor.CloseFound | src/analyzer/function_extractor.rs:48-61 | the end is found at `e` exactly when line `e` is the first, from the start on, where a `}` brings the count to 0 |
| FunctionExtractor.BoundsFound | src/analyzer/function_extractor.rs:38-61 | the bounds are `(s, e)` exactly when `s` is the first line with the pattern and `e` the first line from `s` on where a `}` brings the count to 0 |
| FunctionExtractor.BoundsMissing | src/analyzer/function_extractor.rs:65 | there are no bounds exactly when no line has the pattern or the count never returns to 0 from the start line |
| FunctionExtractor.SubstringStarts | src/analyzer/function_extractor.rs:41-44 | matching is by substring: a first line `fn foobar...` starts the span of `foo` |
| FunctionExtractor.ScanLine | src/analyzer/function_extractor.rs:50-60 | the character loop over one line returns early exactly when a `}` on that line brings the count to 0, and otherwise leaves the count after the line |
| FunctionExtractor.FindFunctionBounds | src/analyzer/function_extractor.rs:38-66 | the scan with its signed counter and early return gives exactly `Bounds` |
| FunctionExtractor.SpanFor | src/analyzer/function_extractor.rs:21-32 | meaning in `FunctionExtractor.SpanForShape` and `FunctionExtractor.BoundsFound`: one span for a `fn` item whose bounds are found, none otherwise |
| FunctionExtractor.SpansOf | src/analyzer/function_extractor.rs:21-32 | meaning in `FunctionExtractor.SpansAppend`, `FunctionExtractor.SpansShape` and `FunctionExtractor.ExtractFunctionSpans` |
| FunctionExtractor.ItemSpan | src/analyzer/function_extractor.rs:22-31 | a `fn` item whose bounds are found yields its inclusive slice of lines; any other item yields nothing |
| FunctionExtractor.ExtractFunctionSpans | src/analyzer/function_extractor.rs:11-35 | a parse failure gives `Err`; otherwise the spans are those of the top-level items, in item order |
| FunctionExtractor.SpansStep | src/analyzer/function_extractor.rs:21-32 | one more item appends exactly its own piece to the spans |
| FunctionExtractor.ConcatAppend | src/analyzer/function_extractor.rs:21-32 | joining two lists of pieces gives the join of each, in order |
| FunctionExtractor.SpansAppend | src/analyzer/function_extractor.rs:21-32 | the spans of `a + b` are the spans of `a` followed by the spans of `b` |
| FunctionExtractor.SpanForShape | src/analyzer/function_extractor.rs:26-29 | an item yields at most one span; it is non-empty, its first line contains `fn <name>`, its last line holds a `}`, and it carries the item's name |
| FunctionExtractor.SpansShape | src/analyzer/function_extractor.rs:21-32 | there are never more spans than items, and every span is well formed and named after a top-level `fn` item |
| FunctionAnalyzer.Trim | src/function_analyzer.rs:25 | meaning in `FunctionAnalyzer.TrimStart` and `FunctionAnalyzer.TrimEnd`: both ends' whitespace dropped |
| FunctionAnalyzer.TrimStart | src/function_analyzer.rs:25 | trimming the start leaves a suffix; everything dropped is whitespace and what is left starts with a non-blank |
| FunctionAnalyzer.TrimEnd | src/function_analyzer.rs:25 | trimming the end leaves a prefix; everything dropped is whitespace and what is left ends with a non-blank |
| FunctionAnalyzer.TrimStartBlank | src/function_analyzer.rs:25-27 | nothing is left after trimming the start exactly when the line is blank |
| FunctionAnalyzer.TrimEndFront | src/function_analyzer.rs:28 | trimming the end of a line that starts with a non-blank keeps its opening `//` or `/*` |
| FunctionAnalyzer.CommentAtLead | src/function_analyzer.rs:28 | a comment opener follows the leading whitespace exactly when the trimmed line starts with one |
| FunctionAnalyzer.Classify | src/function_analyzer.rs:25-33 | meaning in `FunctionAnalyzer.ClassifySpec` |
| FunctionAnalyzer.ClassifySpec | src/function_analyzer.rs:24-33 | a line is empty if and only if it is blank, and a comment if and only if its first non-blank characters are `//` or `/*` |
| FunctionAnalyzer.CommentAfterBlank | src/function_analyzer.rs:327-359 | whitespace then `//` or `/*`, followed by anything, is a comment line |
| FunctionAnalyzer.BlankIsEmpty | src/function_analyzer.rs:327-359 | spaces and tabs only, or nothing, is an empty line |
| FunctionAnalyzer.CodeLine | src/function_analyzer.rs:327-359 | whitespace then a non-blank other than `/` is code, so `code(); // inline` and `continues here */` are code |
| FunctionAnalyzer.CountsPartition | src/function_analyzer.rs:24-33 | every line lands in exactly one class, so the three counts add up to the number of lines |
| FunctionAnalyzer.CountAppend | src/function_analyzer.rs:24-33 | counting a class distributes over concatenation of line lists |
| FunctionAnalyzer.CountsOfClasses | src/function_analyzer.rs:24-33 | given the class of every line, each count is how often that class occurs among them |
| LineFixtures.IndentedLineComment | src/function_analyzer.rs:330 | `    // Comment with leading spaces` is a comment line |
| LineFixtures.TabbedBlockComment | src/function_analyzer.rs:331 | a tab then `/* Comment with tab */` is a comment line |
| LineFixtures.SpacesOnly | src/function_analyzer.rs:332 | a line of two spaces is empty |
| LineFixtures.TabsOnly | src/function_analyzer.rs:333 | a line of two tabs is empty |
| LineFixtures.TrailingComment | src/function_analyzer.rs:334 | `code_line();  // Inline comment` is code |
| LineFixtures.BareBlockOpener | src/function_analyzer.rs:335 | a line holding only `/*` is a comment line |
| LineFixtures.BlockCommentHead | src/function_analyzer.rs:158 | `/* Multi-line comment` is a comment line |
| LineFixtures.BlockCommentTail | src/function_analyzer.rs:159-175 | `   continues here */` is code, as the test's code count of 1 expects |
| LineFixtures.IndentedBlockCommentTail | src/function_analyzer.rs:215-233 | `       using complex logic */` is code, one of the six code lines the test expects |
| FunctionAnalyzer.AnalyzeFunctionLines | src/function_analyzer.rs:19-47 | the result has the span's name and line count, counts each class by the classifier, has code + comment + empty == total, and carries the looked-up metrics |
| FunctionAnalyzer.FindFn | src/function_analyzer.rs:53-62 | the lookup finds nothing exactly when no top-level `fn` has the name, and otherwise returns a `fn` item of the list with that name |
| FunctionAnalyzer.FindFnFirst | src/function_analyzer.rs:53-62 | the lookup returns the first `fn` item with the name |
| FunctionAnalyzer.CalculateFunctionMetrics | src/function_analyzer.rs:50-67 | the complexity is at least 1, and the result is `(1, 0)` when parsing failed or no top-level `fn` has the name |
| FunctionAnalyzer.MetricsOfFirstMatch | src/function_analyzer.rs:50-67 | when the name is found, the metrics are the complexity and depth of the first `fn` item with it |
| FunctionAnalyzer.WithPath | src/function_analyzer.rs:89 | meaning in `FunctionAnalyzer.Prefixed` and `FunctionAnalyzer.AllFilesAt`: the name becomes `path::name`, every other field is kept |
| FunctionAnalyzer.Prefixed | src/function_analyzer.rs:86-89 | renaming keeps the number and order of results and rewrites each name to `path::name` |
| FunctionAnalyzer.AnalyzeAllFiles | src/function_analyzer.rs:81-95 | the in-place renaming and `extend` loop builds exactly the concatenation of the prefixed per-file results |
| FunctionAnalyzer.AllFiles | src/function_analyzer.rs:81-95 | meaning in `FunctionAnalyzer.AllFilesContents`, `FunctionAnalyzer.AllFilesAt` and `FunctionAnalyzer.AnalyzeAllFiles` |
| FunctionAnalyzer.AllFilesLength | src/function_analyzer.rs:81-95 | the output has as many results as all the files together |
| FunctionAnalyzer.AllFilesAt | src/function_analyzer.rs:81-95 | the `j`-th result of file `f` sits right after the results of the earlier files, renamed to `path::name`, with every other field kept |
| FunctionAnalyzer.AllFilesContents | src/function_analyzer.rs:81-95 | the output is the files' results in file order, each file's slice being its results with the path prefix |
| FunctionAnalyzer.AllFilesEmpty | src/function_analyzer.rs:256-262 | the output is empty if and only if no file has a function, so an empty path list gives no results |
| FunctionAnalyzer.AllFilesAppend | src/function_analyzer.rs:81-95 | analysing two path lists one after the other gives the two outputs, concatenated |

## Left out

- Parsing with `syn` (`parse_file`, `parse_quote!`) is a foreign library. The
  parsed tree is an input, and the outcome of parsing is an
  `Option<seq<Item>>`: `None` when the parser rejects the text. Whether the
  text and the tree agree is not modelled.
- The `syn` tree is reduced to what the walkers look at. Patterns, types,
  literals and identifiers other than function names are not represented.
  `fn` items carry only their name and body.
- `analyze_file_functions` (src/function_analyzer.rs:70-78) reads a file, so
  `AnalyzeAllFiles` takes each file's results as an input sequence. As
  written, that function maps over the `Result` that
  `extract_function_spans` returns instead of over its spans, so the code
  does not settle what it yields on a parse failure; that case is not
  modelled.
- `read_rust_file`, `src/file_scanner.rs` (directory walking), `src/main.rs`
  and `run_analysis` in `src/lib.rs` (orchestration and printing),
  `src/output_formatter.rs` (printing and a sort by code lines for display),
  `src/cli.rs` and `src/client.rs` (argument definitions) and
  `src/errors.rs` (the error enum) are not part of this model.
- The line-count tests' totals over whole spans (`src/function_analyzer.rs:103-237`,
  `327-358`) are not restated lemma by lemma: summing a span of literal lines
  is beyond what the verifier settles within its resource limit. Those totals
  follow from `CountsOfClasses` once every line's class is known, and each
  line the tests single out has its own lemma in `LineFixtures`.
- The parse error's message text is not modelled: `ExtractFunctionSpans`
  returns `Err` with a fixed message.
- The counters are `usize` in the source and unbounded naturals here.
  Overflow would need more lines or a deeper tree than a machine holds.
- `find_function_bounds` keeps a signed brace count; the model keeps it as
  an unbounded `int`.
- `IsWhitespace` lists the characters with the Unicode White_Space
  property, which is what `str::trim` removes. Nothing else about Unicode is
  modelled.
- The record struct in `src/analyzer/mod.rs:9-18` has the same fields as
  `FunctionAnalysisResult` in `src/function_analyzer.rs:8-16`; it is modelled
  once, as the datatype `FunctionAnalyzer.FunctionAnalysisResult`.
