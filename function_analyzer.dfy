/**
 * Per-function line counts and metric lookup (src/function_analyzer.rs).
 *
 * Each line of a span is trimmed, then counted once: as empty when nothing
 * is left, as a comment when what is left starts with a line-comment or block-comment opener, and as
 * code otherwise. The complexity and the nesting depth come from the first
 * top-level `fn` of the parsed source with the span's name. When parsing
 * fails or no such `fn` exists, they default to (1, 0). Results of several
 * files are concatenated in file order, each name prefixed with its path.
 */
module FunctionAnalyzer {
  import opened Common
  import opened Syntax
  import CC = CyclomaticComplexity
  import ND = NestingDepth
  import opened FunctionExtractor

  /** What a function's line counts, complexity and nesting depth came to. */
  datatype FunctionAnalysisResult = FunctionAnalysisResult(
    name: string,
    total: nat,
    code: nat,
    comment: nat,
    empty: nat,
    cyclomaticComplexity: nat,
    nestingDepth: nat)

  datatype LineKind = Code | Comment | Empty

  // ---------------------------------------------------------------------
  // Classifying one line
  // ---------------------------------------------------------------------

  /** `char::is_whitespace`: the characters with the Unicode White_Space property. */
  predicate IsWhitespace(ch: char)
  {
    ('\U{0009}' <= ch <= '\U{000D}') || ch == '\U{0020}' || ch == '\U{0085}' || ch == '\U{00A0}'
    || ch == '\U{1680}' || ('\U{2000}' <= ch <= '\U{200A}') || ch == '\U{2028}' || ch == '\U{2029}'
    || ch == '\U{202F}' || ch == '\U{205F}' || ch == '\U{3000}'
  }

  /** Drops the leading whitespace: what is left is a suffix that starts with a non-blank. */
  function TrimStart(s: string): (r: string)
    ensures |r| <= |s| && r == s[|s| - |r|..]
    ensures forall k :: 0 <= k < |s| - |r| ==> IsWhitespace(s[k])
    ensures |r| > 0 ==> !IsWhitespace(r[0])
  {
    if |s| > 0 && IsWhitespace(s[0]) then TrimStart(s[1..]) else s
  }

  /** Drops the trailing whitespace: what is left is a prefix that ends with a non-blank. */
  function TrimEnd(s: string): (r: string)
    ensures |r| <= |s| && r == s[..|r|]
    ensures forall k :: |r| <= k < |s| ==> IsWhitespace(s[k])
    ensures |r| > 0 ==> !IsWhitespace(r[|r| - 1])
  {
    if |s| > 0 && IsWhitespace(s[|s| - 1]) then TrimEnd(s[..|s| - 1]) else s
  }

  /** `str::trim` */
  function Trim(s: string): string
  {
    TrimEnd(TrimStart(s))
  }

  /** The three-way test applied to every line of a span. */
  function Classify(line: string): LineKind
  {
    var t := Trim(line);
    if |t| == 0 then Empty
    else if StartsWith(t, "//") || StartsWith(t, "/*") then Comment
    else Code
  }

  /** Nothing but whitespace. */
  predicate Blank(line: string)
  {
    forall k :: 0 <= k < |line| ==> IsWhitespace(line[k])
  }

  // After leading whitespace, the line begins with a comment opener: '/' then '/' or '*'.
  predicate CommentAt(line: string, k: nat)
  {
    k + 2 <= |line| && line[k] == '/' && (line[k + 1] == '/' || line[k + 1] == '*')
    && forall j :: 0 <= j < k ==> IsWhitespace(line[j])
  }

  /** Begins with '/' then '/' or '*'. */
  predicate OpensComment(s: string)
  {
    |s| >= 2 && s[0] == '/' && (s[1] == '/' || s[1] == '*')
  }

  /** Leading whitespace is all there is exactly when the line is blank. */
  lemma TrimStartBlank(line: string)
    ensures |TrimStart(line)| == 0 <==> Blank(line)
  {
    var u := TrimStart(line);
    if |u| > 0 {
      assert u[0] == line[|line| - |u|];
    }
  }

  /** Trimming the end of a line that starts with a non-blank keeps its first two characters. */
  lemma TrimEndFront(u: string)
    requires |u| > 0 ==> !IsWhitespace(u[0])
    ensures |TrimEnd(u)| == 0 <==> |u| == 0
    ensures StartsWith(TrimEnd(u), "//") || StartsWith(TrimEnd(u), "/*") <==> OpensComment(u)
  {
    var t := TrimEnd(u);
    if |u| > 0 {
      assert |t| > 0 by {
        assert !IsWhitespace(u[0]);
      }
    }
    if OpensComment(u) {
      assert |t| >= 2 by {
        assert !IsWhitespace(u[1]);
      }
    }
    if |t| >= 2 {
      assert t[0] == u[0] && t[1] == u[1];
    }
  }

  /** A comment opener after leading whitespace can only sit where the whitespace ends. */
  lemma CommentLead(line: string, k: nat)
    requires CommentAt(line, k)
    ensures k == |line| - |TrimStart(line)|
  {
  }

  lemma CommentAtLead(line: string)
    ensures (exists k: nat :: CommentAt(line, k)) <==> OpensComment(TrimStart(line))
  {
    var u := TrimStart(line);
    var lead := |line| - |u|;
    if exists k: nat :: CommentAt(line, k) {
      var k: nat :| CommentAt(line, k);
      CommentLead(line, k);
      assert u[0] == line[lead] && u[1] == line[lead + 1];
    } else if OpensComment(u) {
      assert u[0] == line[lead] && u[1] == line[lead + 1];
      assert CommentAt(line, lead);
    }
  }

  /**
   * The classification in terms of the line itself: empty exactly when the
   * line is blank, a comment exactly when its first non-blank characters
   * open a comment, code otherwise. Trailing text never matters.
   */
  lemma ClassifySpec(line: string)
    ensures Classify(line) == Empty <==> Blank(line)
    ensures Classify(line) == Comment <==> exists k: nat :: CommentAt(line, k)
  {
    TrimStartBlank(line);
    TrimEndFront(TrimStart(line));
    CommentAtLead(line);
  }

  /** Whitespace then a comment opener, followed by anything, is a comment line. */
  lemma CommentAfterBlank(pad: string, rest: string)
    requires Blank(pad)
    ensures Classify(pad + "//" + rest) == Comment
    ensures Classify(pad + "/*" + rest) == Comment
  {
    var a := pad + "//" + rest;
    assert CommentAt(a, |pad|);
    ClassifySpec(a);
    var b := pad + "/*" + rest;
    assert CommentAt(b, |pad|);
    ClassifySpec(b);
  }

  /** Only whitespace (spaces, tabs, or nothing) is an empty line. */
  lemma BlankIsEmpty(pad: string)
    requires Blank(pad)
    ensures Classify(pad) == Empty
  {
    ClassifySpec(pad);
  }

  /**
   * Whitespace then a character other than '/' is code, whatever follows:
   * a comment after code does not count, and neither does a block
   * comment's closing `*` + `/`.
   */
  lemma CodeLine(pad: string, c: char, rest: string)
    requires Blank(pad) && !IsWhitespace(c) && c != '/'
    ensures Classify(pad + [c] + rest) == Code
  {
    var line := pad + [c] + rest;
    assert line[|pad|] == c;
    forall k: nat | k < |pad|
      ensures line[k] == pad[k]
    {
    }
    ClassifySpec(line);
  }

  // ---------------------------------------------------------------------
  // Counting a span's lines
  // ---------------------------------------------------------------------

  /** How many of the lines fall in class `kind`. */
  function CountKind(lines: seq<string>, kind: LineKind): nat
  {
    if |lines| == 0 then 0
    else CountKind(lines[..|lines| - 1], kind) + (if Classify(lines[|lines| - 1]) == kind then 1 else 0)
  }

  lemma CountStep(lines: seq<string>, i: nat, kind: LineKind)
    requires i < |lines|
    ensures CountKind(lines[..i + 1], kind)
         == CountKind(lines[..i], kind) + (if Classify(lines[i]) == kind then 1 else 0)
  {
    assert lines[..i + 1][..i] == lines[..i];
  }

  /** Every line lands in exactly one class. */
  lemma {:induction false} CountsPartition(lines: seq<string>)
    ensures CountKind(lines, Code) + CountKind(lines, Comment) + CountKind(lines, Empty) == |lines|
  {
    if |lines| > 0 {
      CountsPartition(lines[..|lines| - 1]);
    }
  }

  /** Counting distributes over concatenation of line lists. */
  lemma {:induction false} CountAppend(a: seq<string>, b: seq<string>, kind: LineKind)
    ensures CountKind(a + b, kind) == CountKind(a, kind) + CountKind(b, kind)
    decreases |b|
  {
    if |b| == 0 {
      assert a + b == a;
    } else {
      assert (a + b)[..|a + b| - 1] == a + b[..|b| - 1];
      CountAppend(a, b[..|b| - 1], kind);
    }
  }

  /** Dropping the last class from a list of classes removes one occurrence of it. */
  lemma TallySnoc(kinds: seq<LineKind>, kind: LineKind)
    requires |kinds| > 0
    ensures multiset(kinds)[kind]
         == multiset(kinds[..|kinds| - 1])[kind] + (if kinds[|kinds| - 1] == kind then 1 else 0)
  {
    assert kinds == kinds[..|kinds| - 1] + [kinds[|kinds| - 1]];
  }

  /**
   * Given the class of every line, each count is how often its class
   * occurs among them: the counts depend on nothing but the per-line test.
   */
  lemma {:induction false} CountsOfClasses(lines: seq<string>, kinds: seq<LineKind>, kind: LineKind)
    requires |kinds| == |lines|
    requires forall i {:trigger kinds[i]} :: 0 <= i < |lines| ==> Classify(lines[i]) == kinds[i]
    ensures CountKind(lines, kind) == multiset(kinds)[kind]
  {
    if |lines| > 0 {
      var n := |lines| - 1;
      CountsOfClasses(lines[..n], kinds[..n], kind);
      TallySnoc(kinds, kind);
    }
  }

  // ---------------------------------------------------------------------
  // calculate_function_metrics
  // ---------------------------------------------------------------------

  /** A top-level `fn` item with this name. */
  predicate NamedFn(item: Item, name: string)
  {
    item.Fn? && item.fn.name == name
  }

  /** The first top-level `fn` item with this name. */
  function FindFn(items: seq<Item>, name: string): (r: Option<ItemFn>)
    ensures r.None? <==> forall j :: 0 <= j < |items| ==> !NamedFn(items[j], name)
    ensures r.Some? ==> r.value.name == name && Fn(r.value) in items
  {
    if |items| == 0 then None
    else if NamedFn(items[0], name) then Some(items[0].fn)
    else FindFn(items[1..], name)
  }

  /** `FindFn` returns the item at the first index with the name. */
  lemma {:induction false} FindFnFirst(items: seq<Item>, name: string, i: nat)
    requires i < |items| && NamedFn(items[i], name)
    requires forall j :: 0 <= j < i ==> !NamedFn(items[j], name)
    ensures FindFn(items, name) == Some(items[i].fn)
  {
    if i > 0 {
      assert !NamedFn(items[0], name);
      assert forall j :: 0 <= j < i - 1 ==> items[1..][j] == items[j + 1];
      FindFnFirst(items[1..], name, i - 1);
    }
  }

  /**
   * calculate_function_metrics: the complexity and depth of the first
   * top-level `fn` with this name, or (1, 0) when parsing failed or there
   * is no such `fn`.
   */
  function CalculateFunctionMetrics(parsed: Option<seq<Item>>, name: string): (r: (nat, nat))
    ensures r.0 >= 1
    ensures parsed.None? ==> r == (1, 0)
    ensures parsed.Some? && (forall j :: 0 <= j < |parsed.value| ==> !NamedFn(parsed.value[j], name))
      ==> r == (1, 0)
  {
    if parsed.None? then (1, 0)
    else
      match FindFn(parsed.value, name)
      case None => (1, 0)
      case Some(f) => (CC.Complexity(f), ND.Depth(f))
  }

  /** When the name is found, the metrics are those of its first `fn`, as both calculators give them. */
  lemma MetricsOfFirstMatch(items: seq<Item>, name: string, i: nat)
    requires i < |items| && NamedFn(items[i], name)
    requires forall j :: 0 <= j < i ==> !NamedFn(items[j], name)
    ensures CalculateFunctionMetrics(Some(items), name)
         == (CC.Complexity(items[i].fn), ND.Depth(items[i].fn))
  {
    FindFnFirst(items, name, i);
  }

  // ---------------------------------------------------------------------
  // analyze_function_lines
  // ---------------------------------------------------------------------

  /**
   * analyze_function_lines: one pass over the span's lines with three
   * counters, then the metric lookup. `parsed` stands for the outcome of
   * parsing the whole source.
   */
  method AnalyzeFunctionLines(span: FunctionSpan, parsed: Option<seq<Item>>)
    returns (r: FunctionAnalysisResult)
    ensures r.name == span.name && r.total == |span.lines|
    ensures r.code == CountKind(span.lines, Code)
    ensures r.comment == CountKind(span.lines, Comment)
    ensures r.empty == CountKind(span.lines, Empty)
    ensures r.code + r.comment + r.empty == r.total
    ensures (r.cyclomaticComplexity, r.nestingDepth) == CalculateFunctionMetrics(parsed, span.name)
  {
    var code := 0;
    var comment := 0;
    var empty := 0;
    for i := 0 to |span.lines|
      invariant code == CountKind(span.lines[..i], Code)
      invariant comment == CountKind(span.lines[..i], Comment)
      invariant empty == CountKind(span.lines[..i], Empty)
    {
      var line := span.lines[i];
      CountStep(span.lines, i, Code);
      CountStep(span.lines, i, Comment);
      CountStep(span.lines, i, Empty);
      var trimmed := Trim(line);
      if |trimmed| == 0 {
        empty := empty + 1;
      } else if StartsWith(trimmed, "//") || StartsWith(trimmed, "/*") {
        comment := comment + 1;
      } else {
        code := code + 1;
      }
    }
    assert span.lines[..|span.lines|] == span.lines;
    CountsPartition(span.lines);
    var (complexity, nesting) := CalculateFunctionMetrics(parsed, span.name);
    r := FunctionAnalysisResult(span.name, |span.lines|, code, comment, empty, complexity, nesting);
  }

  // ---------------------------------------------------------------------
  // analyze_all_files
  // ---------------------------------------------------------------------

  /** One result with its name rewritten to `path::name`. */
  function WithPath(path: string, r: FunctionAnalysisResult): FunctionAnalysisResult
  {
    r.(name := path + "::" + r.name)
  }

  function Prefixed(path: string, rs: seq<FunctionAnalysisResult>): (out: seq<FunctionAnalysisResult>)
    ensures |out| == |rs|
    ensures forall j :: 0 <= j < |rs| ==> out[j] == WithPath(path, rs[j])
  {
    if |rs| == 0 then [] else [WithPath(path, rs[0])] + Prefixed(path, rs[1..])
  }

  /** All files' results, each prefixed with its path, concatenated in file order. */
  function AllFiles(paths: seq<string>, perFile: seq<seq<FunctionAnalysisResult>>): seq<FunctionAnalysisResult>
    requires |perFile| == |paths|
  {
    if |paths| == 0 then []
    else AllFiles(paths[..|paths| - 1], perFile[..|perFile| - 1])
         + Prefixed(paths[|paths| - 1], perFile[|perFile| - 1])
  }

  /** The number of results of the first `f` files. */
  function Offset(perFile: seq<seq<FunctionAnalysisResult>>, f: nat): nat
    requires f <= |perFile|
  {
    if f == 0 then 0 else Offset(perFile, f - 1) + |perFile[f - 1]|
  }

  /**
   * analyze_all_files. `perFile[f]` stands for what analyze_file_functions
   * reads and returns for `paths[f]`; each file's results are renamed in
   * place and appended.
   */
  method AnalyzeAllFiles(paths: seq<string>, perFile: seq<seq<FunctionAnalysisResult>>)
    returns (all: seq<FunctionAnalysisResult>)
    requires |perFile| == |paths|
    ensures all == AllFiles(paths, perFile)
  {
    all := [];
    for f := 0 to |paths|
      invariant all == AllFiles(paths[..f], perFile[..f])
    {
      var fileResults := perFile[f];
      for j := 0 to |fileResults|
        invariant |fileResults| == |perFile[f]|
        invariant forall m :: 0 <= m < j ==> fileResults[m] == WithPath(paths[f], perFile[f][m])
        invariant forall m :: j <= m < |fileResults| ==> fileResults[m] == perFile[f][m]
      {
        fileResults := fileResults[j := WithPath(paths[f], fileResults[j])];
      }
      assert fileResults == Prefixed(paths[f], perFile[f]);
      assert paths[..f + 1][..f] == paths[..f];
      assert perFile[..f + 1][..f] == perFile[..f];
      all := all + fileResults;
    }
    assert paths[..|paths|] == paths;
    assert perFile[..|perFile|] == perFile;
  }

  /** As many results as all the files have together. */
  lemma {:induction false} AllFilesLength(paths: seq<string>, perFile: seq<seq<FunctionAnalysisResult>>)
    requires |perFile| == |paths|
    ensures |AllFiles(paths, perFile)| == Offset(perFile, |perFile|)
  {
    if |paths| > 0 {
      var n := |paths| - 1;
      AllFilesLength(paths[..n], perFile[..n]);
      OffsetPrefix(perFile, n);
    }
  }

  /**
   * The result of file `f`'s `j`-th function sits at `Offset(f) + j`, with
   * every field kept and the name prefixed by the file's path.
   */
  lemma {:induction false} AllFilesAt(paths: seq<string>, perFile: seq<seq<FunctionAnalysisResult>>, f: nat, j: nat)
    requires |perFile| == |paths|
    requires f < |paths| && j < |perFile[f]|
    ensures Offset(perFile, f) + j < |AllFiles(paths, perFile)|
    ensures AllFiles(paths, perFile)[Offset(perFile, f) + j] == WithPath(paths[f], perFile[f][j])
  {
    var n := |paths| - 1;
    var ps := paths[..n];
    var fs := perFile[..n];
    var before := AllFiles(ps, fs);
    var out := AllFiles(paths, perFile);
    assert out == before + Prefixed(paths[n], perFile[n]);
    AllFilesLength(ps, fs);
    OffsetPrefix(perFile, n);
    if f < n {
      AllFilesAt(ps, fs, f, j);
      OffsetPrefixOf(perFile, n, f);
      assert fs[f] == perFile[f] && ps[f] == paths[f];
      assert out[Offset(perFile, f) + j] == before[Offset(fs, f) + j];
    }
  }

  /**
   * The output is exactly the files' results in file order: the slice that
   * starts at `Offset(f)` is file `f`'s results, each renamed to
   * `path::name` with every other field kept.
   */
  lemma AllFilesContents(paths: seq<string>, perFile: seq<seq<FunctionAnalysisResult>>)
    requires |perFile| == |paths|
    ensures |AllFiles(paths, perFile)| == Offset(perFile, |perFile|)
    ensures forall f :: 0 <= f < |paths| ==>
      Offset(perFile, f) + |perFile[f]| <= |AllFiles(paths, perFile)|
      && AllFiles(paths, perFile)[Offset(perFile, f)..Offset(perFile, f) + |perFile[f]|]
         == Prefixed(paths[f], perFile[f])
  {
    AllFilesLength(paths, perFile);
    forall f | 0 <= f < |paths|
      ensures Offset(perFile, f) + |perFile[f]| <= |AllFiles(paths, perFile)|
      ensures AllFiles(paths, perFile)[Offset(perFile, f)..Offset(perFile, f) + |perFile[f]|]
              == Prefixed(paths[f], perFile[f])
    {
      AllFilesSlice(paths, perFile, f);
    }
  }

  /** One file's slice of the aggregate, as `AllFilesContents` states it for every file. */
  lemma AllFilesSlice(paths: seq<string>, perFile: seq<seq<FunctionAnalysisResult>>, f: nat)
    requires |perFile| == |paths| && f < |paths|
    ensures Offset(perFile, f) + |perFile[f]| <= |AllFiles(paths, perFile)|
    ensures AllFiles(paths, perFile)[Offset(perFile, f)..Offset(perFile, f) + |perFile[f]|]
            == Prefixed(paths[f], perFile[f])
  {
    AllFilesLength(paths, perFile);
    OffsetWithin(perFile, f);
    var out := AllFiles(paths, perFile);
    var o := Offset(perFile, f);
    var piece := out[o..o + |perFile[f]|];
    var want := Prefixed(paths[f], perFile[f]);
    forall j | 0 <= j < |perFile[f]|
      ensures piece[j] == want[j]
    {
      AllFilesAt(paths, perFile, f, j);
    }
    assert piece == want;
  }

  lemma {:induction false} OffsetWithin(perFile: seq<seq<FunctionAnalysisResult>>, f: nat)
    requires f < |perFile|
    ensures Offset(perFile, f) + |perFile[f]| <= Offset(perFile, |perFile|)
    decreases |perFile| - f
  {
    if f + 1 < |perFile| {
      OffsetWithin(perFile, f + 1);
    }
  }

  /** Offsets only look at the files before them. */
  lemma {:induction false} OffsetPrefixOf(perFile: seq<seq<FunctionAnalysisResult>>, n: nat, f: nat)
    requires f <= n <= |perFile|
    ensures Offset(perFile[..n], f) == Offset(perFile, f)
  {
    if f > 0 {
      OffsetPrefixOf(perFile, n, f - 1);
    }
  }

  lemma OffsetPrefix(perFile: seq<seq<FunctionAnalysisResult>>, n: nat)
    requires n <= |perFile|
    ensures Offset(perFile[..n], n) == Offset(perFile, n)
  {
    OffsetPrefixOf(perFile, n, n);
  }

  /** No results at all exactly when no file has a function; an empty path list is one such case. */
  lemma {:induction false} AllFilesEmpty(paths: seq<string>, perFile: seq<seq<FunctionAnalysisResult>>)
    requires |perFile| == |paths|
    ensures AllFiles(paths, perFile) == [] <==> forall f :: 0 <= f < |perFile| ==> perFile[f] == []
  {
    if |paths| > 0 {
      var n := |paths| - 1;
      AllFilesEmpty(paths[..n], perFile[..n]);
      if AllFiles(paths, perFile) == [] {
        assert |Prefixed(paths[n], perFile[n])| == 0;
        forall f | 0 <= f < |perFile|
          ensures perFile[f] == []
        {
          if f < n {
            assert perFile[..n][f] == perFile[f];
          }
        }
      } else if AllFiles(paths[..n], perFile[..n]) != [] {
        var f :| 0 <= f < n && perFile[..n][f] != [];
        assert perFile[f] != [];
      } else {
        assert perFile[n] != [];
      }
    }
  }

  lemma AppendAssoc<T>(a: seq<T>, b: seq<T>, c: seq<T>)
    ensures a + b + c == a + (b + c)
  {
  }

  /** One more file appends its prefixed results. */
  lemma AllFilesSnoc(paths: seq<string>, perFile: seq<seq<FunctionAnalysisResult>>,
                     path: string, rs: seq<FunctionAnalysisResult>)
    requires |perFile| == |paths|
    ensures AllFiles(paths + [path], perFile + [rs]) == AllFiles(paths, perFile) + Prefixed(path, rs)
  {
    assert (paths + [path])[..|paths|] == paths;
    assert (perFile + [rs])[..|perFile|] == perFile;
  }

  /** Analysing two path lists one after the other gives the two aggregates, concatenated. */
  lemma {:induction false} AllFilesAppend(p: seq<string>, fp: seq<seq<FunctionAnalysisResult>>,
                                          q: seq<string>, fq: seq<seq<FunctionAnalysisResult>>)
    requires |fp| == |p| && |fq| == |q|
    ensures AllFiles(p + q, fp + fq) == AllFiles(p, fp) + AllFiles(q, fq)
    decreases |q|
  {
    if |q| == 0 {
      assert p + q == p && fp + fq == fp;
    } else {
      var n := |q| - 1;
      var q0, fq0 := q[..n], fq[..n];
      assert q == q0 + [q[n]] && fq == fq0 + [fq[n]];
      assert p + q == (p + q0) + [q[n]];
      assert fp + fq == (fp + fq0) + [fq[n]];
      AllFilesSnoc(p + q0, fp + fq0, q[n], fq[n]);
      AllFilesSnoc(q0, fq0, q[n], fq[n]);
      AllFilesAppend(p, fp, q0, fq0);
      AppendAssoc(AllFiles(p, fp), AllFiles(q0, fq0), Prefixed(q[n], fq[n]));
    }
  }
}
