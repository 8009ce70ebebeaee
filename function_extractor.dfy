/**
 * Function-span extraction (src/analyzer/function_extractor.rs).
 *
 * The parser only yields the top-level items, so a function's lines are
 * found in the text. The first line that contains `fn <name>` starts the
 * span. From the first character of that line a signed brace count goes up
 * at every `{` and down at every `}`. The span ends on the line where a `}`
 * brings the count back to exactly 0.
 *
 * `Bounds` states which lines those are, with no counter. It is a search
 * over the predicates `Contains` and `LineCloses`. `FindFunctionBounds` is
 * the scan with its running counter and early return, proved equal to
 * `Bounds`.
 */
module FunctionExtractor {
  import opened Common
  import opened Syntax

  /** A function's name and the source lines it spans. */
  datatype FunctionSpan = FunctionSpan(name: string, lines: seq<string>)

  /** The outcome of extraction: the spans, or the parse error's message. */
  datatype Result<T> = Ok(value: T) | Err(message: string)

  // ---------------------------------------------------------------------
  // str::lines
  // ---------------------------------------------------------------------

  /** The index of the first '\n' at or after `i`, or |s| when there is none. */
  function NewlineFrom(s: string, i: nat): (r: nat)
    requires i <= |s|
    ensures i <= r <= |s|
    ensures r < |s| ==> s[r] == '\n'
    ensures forall k :: i <= k < r ==> s[k] != '\n'
    decreases |s| - i
  {
    if i == |s| || s[i] == '\n' then i else NewlineFrom(s, i + 1)
  }

  /** Drops one '\r' at the end of a line that was followed by '\n'. */
  function StripCarriageReturn(l: string): string
  {
    if |l| > 0 && l[|l| - 1] == '\r' then l[..|l| - 1] else l
  }

  /**
   * `source.lines()`: the text split at each '\n', where a '\r' just
   * before the '\n' is dropped too. A final '\n' does not start another line.
   */
  function Lines(s: string): (r: seq<string>)
    ensures forall k :: 0 <= k < |r| ==> '\n' !in r[k]
    decreases |s|
  {
    if |s| == 0 then []
    else
      var n := NewlineFrom(s, 0);
      if n == |s| then [s]
      else [StripCarriageReturn(s[..n])] + Lines(s[n + 1..])
  }

  /** Each line followed by its '\n'. */
  function Terminated(ls: seq<string>): string
  {
    if |ls| == 0 then [] else ls[0] + "\n" + Terminated(ls[1..])
  }

  /** A line `Lines` can give back unchanged: no '\n' inside and no '\r' at the end. */
  predicate PlainLine(l: string)
  {
    '\n' !in l && (|l| == 0 || l[|l| - 1] != '\r')
  }

  lemma {:induction false} NewlineAt(s: string, i: nat, n: nat)
    requires i <= n < |s| && s[n] == '\n'
    requires forall k :: i <= k < n ==> s[k] != '\n'
    ensures NewlineFrom(s, i) == n
    decreases n - i
  {
    if i < n {
      NewlineAt(s, i + 1, n);
    }
  }

  /** One step of `Lines`: the text up to its first '\n', then the rest. */
  lemma LinesStep(s: string, n: nat)
    requires n < |s| && s[n] == '\n'
    requires forall k :: 0 <= k < n ==> s[k] != '\n'
    ensures Lines(s) == [StripCarriageReturn(s[..n])] + Lines(s[n + 1..])
  {
    NewlineAt(s, 0, n);
  }

  /** A plain line followed by '\n' and more text splits off as that line. */
  lemma SplitFirst(l: string, rest: string)
    requires PlainLine(l)
    ensures Lines(l + "\n" + rest) == [l] + Lines(rest)
  {
    var s := l + "\n" + rest;
    assert s[..|l|] == l;
    assert s[|l| + 1..] == rest;
    assert forall k :: 0 <= k < |l| ==> s[k] == l[k];
    LinesStep(s, |l|);
  }

  /** Splitting the '\n'-terminated lines gives the lines back. */
  lemma {:induction false} LinesOfTerminated(ls: seq<string>)
    requires forall k :: 0 <= k < |ls| ==> PlainLine(ls[k])
    ensures Lines(Terminated(ls)) == ls
  {
    if |ls| > 0 {
      SplitFirst(ls[0], Terminated(ls[1..]));
      LinesOfTerminated(ls[1..]);
    }
  }

  // ---------------------------------------------------------------------
  // The two tests the scan makes
  // ---------------------------------------------------------------------

  predicate StartsWith(s: string, p: string)
  {
    |p| <= |s| && s[..|p|] == p
  }

  /** `str::contains`: `p` occurs somewhere in `s`. */
  predicate Contains(s: string, p: string)
  {
    exists i :: 0 <= i <= |s| - |p| && StartsWith(s[i..], p)
  }

  /** The text searched for: `fn ` followed by the name. */
  function Pattern(name: string): string
  {
    "fn " + name
  }

  function BraceDelta(ch: char): int
  {
    if ch == '{' then 1 else if ch == '}' then -1 else 0
  }

  /** The net brace count of a piece of text: opening minus closing. */
  function Net(l: string): int
  {
    if |l| == 0 then 0 else Net(l[..|l| - 1]) + BraceDelta(l[|l| - 1])
  }

  function NetLines(ls: seq<string>): int
  {
    if |ls| == 0 then 0 else NetLines(ls[..|ls| - 1]) + Net(ls[|ls| - 1])
  }

  /** The brace count just after character `c` of line `i`, counted from the start of line `s`. */
  function CountThrough(lines: seq<string>, s: nat, i: nat, c: nat): int
    requires s <= i < |lines| && c < |lines[i]|
  {
    NetLines(lines[s..i]) + Net(lines[i][..c + 1])
  }

  /** Character `c` of line `i` is a `}` that brings the count back to 0. */
  predicate ClosesAt(lines: seq<string>, s: nat, i: nat, c: nat)
  {
    s <= i < |lines| && c < |lines[i]| && lines[i][c] == '}' && CountThrough(lines, s, i, c) == 0
  }

  /** Some character of line `i` closes the function started on line `s`. */
  predicate LineCloses(lines: seq<string>, s: nat, i: nat)
  {
    s <= i < |lines| && exists c :: 0 <= c < |lines[i]| && ClosesAt(lines, s, i, c)
  }

  // ---------------------------------------------------------------------
  // find_function_bounds, specified
  // ---------------------------------------------------------------------

  /** The first line at or after `j` that contains `pat`. */
  function FirstContaining(lines: seq<string>, pat: string, j: nat): Option<nat>
    requires j <= |lines|
    decreases |lines| - j
  {
    if j == |lines| then None
    else if Contains(lines[j], pat) then Some(j)
    else FirstContaining(lines, pat, j + 1)
  }

  /** The search finds nothing exactly when no line from `j` on has the pattern, else the first that has it. */
  lemma {:induction false} FirstContainingSpec(lines: seq<string>, pat: string, j: nat)
    requires j <= |lines|
    ensures FirstContaining(lines, pat, j).None? <==> forall k :: j <= k < |lines| ==> !Contains(lines[k], pat)
    ensures FirstContaining(lines, pat, j).Some? ==>
      var r := FirstContaining(lines, pat, j).value;
      j <= r < |lines| && Contains(lines[r], pat)
      && forall k :: j <= k < r ==> !Contains(lines[k], pat)
    decreases |lines| - j
  {
    if j < |lines| && !Contains(lines[j], pat) {
      FirstContainingSpec(lines, pat, j + 1);
    }
  }

  /** The first line at or after `j` on which the function started on line `s` closes. */
  function FirstClosing(lines: seq<string>, s: nat, j: nat): Option<nat>
    requires s <= j <= |lines|
    decreases |lines| - j
  {
    if j == |lines| then None
    else if LineCloses(lines, s, j) then Some(j)
    else FirstClosing(lines, s, j + 1)
  }

  /** The search finds nothing exactly when no line from `j` on closes, else the first that does. */
  lemma {:induction false} FirstClosingSpec(lines: seq<string>, s: nat, j: nat)
    requires s <= j <= |lines|
    ensures FirstClosing(lines, s, j).None? <==> forall i :: j <= i < |lines| ==> !LineCloses(lines, s, i)
    ensures FirstClosing(lines, s, j).Some? ==>
      var r := FirstClosing(lines, s, j).value;
      j <= r < |lines| && LineCloses(lines, s, r)
      && forall i :: j <= i < r ==> !LineCloses(lines, s, i)
    decreases |lines| - j
  {
    if j < |lines| && !LineCloses(lines, s, j) {
      FirstClosingSpec(lines, s, j + 1);
    }
  }

  /** The first line containing the pattern, and the first line after it where the count returns to 0. */
  function Bounds(lines: seq<string>, name: string): (r: Option<(nat, nat)>)
    ensures r.Some? ==> r.value.0 <= r.value.1 < |lines|
  {
    FirstContainingSpec(lines, Pattern(name), 0);
    match FirstContaining(lines, Pattern(name), 0)
    case None => None
    case Some(s) =>
      FirstClosingSpec(lines, s, s);
      match FirstClosing(lines, s, s)
      case None => None
      case Some(e) => Some((s, e))
  }

  /** Line `s` is the first line that contains the pattern. */
  predicate IsStart(lines: seq<string>, name: string, s: nat)
  {
    s < |lines| && Contains(lines[s], Pattern(name))
    && forall k :: 0 <= k < s ==> !Contains(lines[k], Pattern(name))
  }

  /** The search for the start finds `s` exactly when `s` is the first line with the pattern. */
  lemma StartFound(lines: seq<string>, name: string, s: nat)
    ensures FirstContaining(lines, Pattern(name), 0) == Some(s) <==> IsStart(lines, name, s)
  {
    FirstContainingSpec(lines, Pattern(name), 0);
  }

  /** The search for the end finds `e` exactly when `e` is the first line that closes. */
  lemma CloseFound(lines: seq<string>, s: nat, e: nat)
    requires s <= |lines|
    ensures FirstClosing(lines, s, s) == Some(e) <==>
      LineCloses(lines, s, e) && forall i :: s <= i < e ==> !LineCloses(lines, s, i)
  {
    FirstClosingSpec(lines, s, s);
  }

  /**
   * The bounds found are exactly the first line containing the pattern and
   * the first line from there on where the count returns to 0.
   */
  lemma BoundsFound(lines: seq<string>, name: string, s: nat, e: nat)
    ensures Bounds(lines, name) == Some((s, e)) <==>
      IsStart(lines, name, s) && LineCloses(lines, s, e)
      && forall i :: s <= i < e ==> !LineCloses(lines, s, i)
  {
    StartFound(lines, name, s);
    if s <= |lines| {
      CloseFound(lines, s, e);
    }
  }

  /**
   * There are no bounds exactly when no line contains the pattern, or when
   * the count never returns to 0 from the first line that does.
   */
  lemma BoundsMissing(lines: seq<string>, name: string)
    ensures Bounds(lines, name).None? <==>
      (forall k :: 0 <= k < |lines| ==> !Contains(lines[k], Pattern(name)))
      || exists s: nat :: IsStart(lines, name, s) && forall i :: s <= i < |lines| ==> !LineCloses(lines, s, i)
  {
    var first := FirstContaining(lines, Pattern(name), 0);
    FirstContainingSpec(lines, Pattern(name), 0);
    if first.Some? {
      FirstClosingSpec(lines, first.value, first.value);
      StartFound(lines, name, first.value);
      forall s | IsStart(lines, name, s)
        ensures s == first.value
      {
        StartFound(lines, name, s);
      }
    }
  }

  /**
   * The search is by substring: a line holding `fn <name><more>` starts the
   * span of `<name>`, so `fn foobar` is taken as the start of `foo`.
   */
  lemma SubstringStarts(lines: seq<string>, name: string, more: string)
    requires |lines| > 0 && lines[0] == Pattern(name) + more
    ensures FirstContaining(lines, Pattern(name), 0) == Some(0)
  {
    assert StartsWith(lines[0][0..], Pattern(name));
  }

  // ---------------------------------------------------------------------
  // find_function_bounds, the scan
  // ---------------------------------------------------------------------

  lemma NetStep(l: string, c: nat)
    requires c < |l|
    ensures Net(l[..c + 1]) == Net(l[..c]) + BraceDelta(l[c])
  {
    assert l[..c + 1][..c] == l[..c];
  }

  lemma NetLinesStep(lines: seq<string>, s: nat, i: nat)
    requires s <= i < |lines|
    ensures NetLines(lines[s..i + 1]) == NetLines(lines[s..i]) + Net(lines[i])
  {
    assert lines[s..i + 1][..i - s] == lines[s..i];
    assert lines[i][..|lines[i]|] == lines[i];
  }

  /**
   * The character loop of find_function_bounds over line `i`, entered with
   * the count of the lines from `s` up to `i`: it stops at the first `}`
   * that brings the count to 0, and otherwise leaves the count after line `i`.
   */
  method ScanLine(lines: seq<string>, s: nat, i: nat, before: int) returns (closes: bool, after: int)
    requires s <= i < |lines| && before == NetLines(lines[s..i])
    ensures closes <==> LineCloses(lines, s, i)
    ensures !closes ==> after == NetLines(lines[s..i + 1])
  {
    var line := lines[i];
    after := before;
    var c := 0;
    while c < |line|
      invariant 0 <= c <= |line|
      invariant after == before + Net(line[..c])
      invariant forall c' :: 0 <= c' < c ==> !ClosesAt(lines, s, i, c')
    {
      NetStep(line, c);
      var ch := line[c];
      if ch == '{' {
        after := after + 1;
      } else if ch == '}' {
        after := after - 1;
        if after == 0 {
          assert ClosesAt(lines, s, i, c);
          return true, after;
        }
      }
      c := c + 1;
    }
    assert line[..c] == line;
    NetLinesStep(lines, s, i);
    closes := false;
  }

  /**
   * find_function_bounds: one pass over the lines and, from the start line
   * on, over their characters, with a signed brace count and an early
   * return at the first `}` that brings the count to 0.
   */
  method FindFunctionBounds(lines: seq<string>, name: string) returns (r: Option<(nat, nat)>)
    ensures r == Bounds(lines, name)
  {
    var start: Option<nat> := None;
    var braceCount: int := 0;
    var pat := Pattern(name);
    FirstContainingSpec(lines, pat, 0);
    var i := 0;
    while i < |lines|
      invariant 0 <= i <= |lines|
      invariant start.None? ==> braceCount == 0
      invariant start.None? ==> forall k :: 0 <= k < i ==> !Contains(lines[k], pat)
      invariant start.Some? ==> start.value < i && FirstContaining(lines, pat, 0) == start
      invariant start.Some? ==> braceCount == NetLines(lines[start.value..i])
      invariant start.Some? ==> forall k :: start.value <= k < i ==> !LineCloses(lines, start.value, k)
    {
      var line := lines[i];
      if start.None? && Contains(line, pat) {
        start := Some(i);
        assert lines[i..i] == [];
      }
      if start.Some? {
        var s := start.value;
        var closes;
        closes, braceCount := ScanLine(lines, s, i, braceCount);
        if closes {
          CloseFound(lines, s, i);
          return Some((s, i));
        }
      }
      i := i + 1;
    }
    if start.Some? {
      FirstClosingSpec(lines, start.value, start.value);
    }
    return None;
  }

  // ---------------------------------------------------------------------
  // extract_function_spans
  // ---------------------------------------------------------------------

  /** The span a top-level item contributes: its inclusive line slice, if its bounds are found. */
  function SpanFor(lines: seq<string>, item: Item): seq<FunctionSpan>
  {
    match item
    case OtherItem => []
    case Fn(f) =>
      match Bounds(lines, f.name)
      case None => []
      case Some((s, e)) => [FunctionSpan(f.name, lines[s..e + 1])]
  }

  /** Pieces joined in order. */
  function Concat(pieces: seq<seq<FunctionSpan>>): seq<FunctionSpan>
  {
    if |pieces| == 0 then [] else Concat(pieces[..|pieces| - 1]) + pieces[|pieces| - 1]
  }

  /** Each top-level item's piece, in item order. */
  function Pieces(lines: seq<string>, items: seq<Item>): (r: seq<seq<FunctionSpan>>)
    ensures |r| == |items|
  {
    seq(|items|, i requires 0 <= i < |items| => SpanFor(lines, items[i]))
  }

  /** The spans of a list of top-level items: their pieces, in item order. */
  function SpansOf(lines: seq<string>, items: seq<Item>): seq<FunctionSpan>
  {
    Concat(Pieces(lines, items))
  }

  lemma SpansStep(lines: seq<string>, items: seq<Item>, k: nat)
    requires k < |items|
    ensures SpansOf(lines, items[..k + 1]) == SpansOf(lines, items[..k]) + SpanFor(lines, items[k])
  {
    var p := Pieces(lines, items[..k + 1]);
    assert p[..k] == Pieces(lines, items[..k]);
    assert p[k] == SpanFor(lines, items[k]);
  }

  /** One turn of the extraction loop: a `fn` item whose bounds are found yields its slice. */
  method ItemSpan(lines: seq<string>, item: Item) returns (piece: seq<FunctionSpan>)
    ensures piece == SpanFor(lines, item)
  {
    piece := [];
    if item.Fn? {
      var name := item.fn.name;
      var b := FindFunctionBounds(lines, name);
      if b.Some? {
        var (s, e) := b.value;
        piece := [FunctionSpan(name, lines[s..e + 1])];
      }
    }
  }

  /**
   * extract_function_spans. `parsed` stands for the outcome of parsing
   * `source`: None when the parser rejects it, else its top-level items.
   */
  method ExtractFunctionSpans(source: string, parsed: Option<seq<Item>>)
    returns (r: Result<seq<FunctionSpan>>)
    ensures parsed.None? <==> r.Err?
    ensures parsed.Some? ==> r == Ok(SpansOf(Lines(source), parsed.value))
  {
    var lines := Lines(source);
    if parsed.None? {
      return Err("Failed to parse Rust source");
    }
    var items := parsed.value;
    var spans: seq<FunctionSpan> := [];
    for k := 0 to |items|
      invariant spans == SpansOf(lines, items[..k])
    {
      var piece := ItemSpan(lines, items[k]);
      SpansStep(lines, items, k);
      spans := spans + piece;
    }
    assert items[..|items|] == items;
    return Ok(spans);
  }

  lemma {:induction false} ConcatAppend(p: seq<seq<FunctionSpan>>, q: seq<seq<FunctionSpan>>)
    ensures Concat(p + q) == Concat(p) + Concat(q)
    decreases |q|
  {
    if |q| == 0 {
      assert p + q == p;
    } else {
      var pq := p + q;
      assert pq[..|pq| - 1] == p + q[..|q| - 1];
      assert pq[|pq| - 1] == q[|q| - 1];
      ConcatAppend(p, q[..|q| - 1]);
    }
  }

  /** Spans keep the order of the items: extraction distributes over concatenation. */
  lemma SpansAppend(lines: seq<string>, a: seq<Item>, b: seq<Item>)
    ensures SpansOf(lines, a + b) == SpansOf(lines, a) + SpansOf(lines, b)
  {
    assert Pieces(lines, a + b) == Pieces(lines, a) + Pieces(lines, b);
    ConcatAppend(Pieces(lines, a), Pieces(lines, b));
  }

  /** A span: at least one line, the first containing `fn <name>`, the last holding a `}`. */
  predicate WellFormed(sp: FunctionSpan)
  {
    |sp.lines| >= 1 && Contains(sp.lines[0], Pattern(sp.name)) && '}' in sp.lines[|sp.lines| - 1]
  }

  /** Some top-level `fn` item carries this name. */
  predicate NamesFnItem(items: seq<Item>, name: string)
  {
    exists j :: 0 <= j < |items| && items[j].Fn? && items[j].fn.name == name
  }

  lemma SpanForShape(lines: seq<string>, item: Item)
    ensures |SpanFor(lines, item)| <= 1
    ensures forall k :: 0 <= k < |SpanFor(lines, item)| ==>
      WellFormed(SpanFor(lines, item)[k]) && item.Fn? && item.fn.name == SpanFor(lines, item)[k].name
  {
    if item.Fn? && Bounds(lines, item.fn.name).Some? {
      var name := item.fn.name;
      var (s, e) := Bounds(lines, name).value;
      BoundsFound(lines, name, s, e);
      var c :| 0 <= c < |lines[e]| && ClosesAt(lines, s, e, c);
      var slice := lines[s..e + 1];
      assert slice[0] == lines[s];
      assert slice[|slice| - 1] == lines[e];
      assert lines[e][c] == '}';
    }
  }

  /**
   * Every span is non-empty, starts on a line containing `fn <name>`, ends
   * on a line holding the `}` that brings the count to 0, and belongs to a
   * top-level `fn` item of that name. There are never more spans than items.
   */
  lemma {:induction false} SpansShape(lines: seq<string>, items: seq<Item>)
    ensures |SpansOf(lines, items)| <= |items|
    ensures forall k :: 0 <= k < |SpansOf(lines, items)| ==>
      WellFormed(SpansOf(lines, items)[k]) && NamesFnItem(items, SpansOf(lines, items)[k].name)
  {
    if |items| > 0 {
      var init := items[..|items| - 1];
      var last := items[|items| - 1];
      SpansShape(lines, init);
      SpanForShape(lines, last);
      var before := SpansOf(lines, init);
      var spans := SpansOf(lines, items);
      SpansStep(lines, items, |items| - 1);
      assert items[..|items|] == items;
      assert spans == before + SpanFor(lines, last);
      forall k | 0 <= k < |spans|
        ensures WellFormed(spans[k]) && NamesFnItem(items, spans[k].name)
      {
        if k < |before| {
          assert spans[k] == before[k];
          var j :| 0 <= j < |init| && init[j].Fn? && init[j].fn.name == before[k].name;
          assert items[j] == init[j];
        } else {
          assert spans[k] == SpanFor(lines, last)[k - |before|];
          assert items[|items| - 1] == last;
        }
      }
    }
  }
}
