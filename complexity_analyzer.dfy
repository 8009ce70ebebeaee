/**
 * The older, single-file revision of both calculators
 * (src/complexity_analyzer.rs:19-503). Its logic is the same as that of
 * src/analyzer/cyclomatic_complexity.rs and src/analyzer/nesting_depth.rs.
 *
 * This module follows the file's loops literally. Each
 * `let mut acc = seed; for x in xs { acc = step(acc, x) }` becomes a function
 * over (sequence, index, accumulator), started from the same seed as in the
 * source: `1 + scrutinee` for a match, the callee's score for a call,
 * `current_depth` for a block. The split modules instead use structural
 * sums and maxima. `SameComplexity` and `SameNestingDepth` prove that the
 * two revisions agree on every function.
 */
module ComplexityAnalyzer {
  import opened Common
  import opened Syntax
  import CC = CyclomaticComplexity
  import ND = NestingDepth

  // ---------------------------------------------------------------------
  // Cyclomatic complexity, accumulator form
  // ---------------------------------------------------------------------

  /** calculate_cyclomatic_complexity */
  function CalculateCyclomaticComplexity(f: ItemFn): nat
  {
    1 + AnalyzeBlock(f.block)
  }

  function AnalyzeBlock(b: Block): nat
  {
    StmtsLoop(b.stmts, 0, 0)
  }

  /** `for stmt in &block.stmts { complexity += analyze_statement(stmt) }` from index i. */
  function StmtsLoop(ss: seq<Stmt>, i: nat, acc: nat): nat
    requires i <= |ss|
    decreases ss, |ss| - i
  {
    if i == |ss| then acc else StmtsLoop(ss, i + 1, acc + AnalyzeStatement(ss[i]))
  }

  function AnalyzeStatement(s: Stmt): nat
  {
    match s
    case ExprStmt(e) => AnalyzeExpression(e)
    case Local(init) => if init.Some? then AnalyzeExpression(init.value) else 0
    case ItemStmt(item) => AnalyzeItem(item)
    case MacroStmt => 0
  }

  function AnalyzeItem(item: Item): nat
  {
    match item
    case Fn(f) => CalculateCyclomaticComplexity(f)
    case OtherItem => 0
  }

  /** `if let Some(x) = o { complexity += analyze_expression(x) }` */
  function AddOptional(o: Option<Expr>, acc: nat): nat
  {
    match o
    case None => acc
    case Some(e) => acc + AnalyzeExpression(e)
  }

  /** `for arg in args { complexity += analyze_expression(arg) }` from index i. */
  function ExprsLoop(es: seq<Expr>, i: nat, acc: nat): nat
    requires i <= |es|
    decreases es, |es| - i
  {
    if i == |es| then acc else ExprsLoop(es, i + 1, acc + AnalyzeExpression(es[i]))
  }

  function AnalyzeMatchArm(a: Arm): nat
  {
    AddOptional(a.guard, 1) + AnalyzeExpression(a.body)
  }

  /** `for arm in &expr_match.arms { complexity += analyze_match_arm(arm) }` from index i. */
  function ArmsLoop(arms: seq<Arm>, i: nat, acc: nat): nat
    requires i <= |arms|
    decreases arms, |arms| - i
  {
    if i == |arms| then acc else ArmsLoop(arms, i + 1, acc + AnalyzeMatchArm(arms[i]))
  }

  function AnalyzeExpression(e: Expr): nat
  {
    match e
    case If(cond, thenBranch, elseBranch) =>
      AddOptional(elseBranch, 1 + AnalyzeExpression(cond) + AnalyzeBlock(thenBranch))
    case Match(scrutinee, arms) => ArmsLoop(arms, 0, 1 + AnalyzeExpression(scrutinee))
    case While(cond, body) => 1 + AnalyzeExpression(cond) + AnalyzeBlock(body)
    case ForLoop(iterable, body) => 1 + AnalyzeExpression(iterable) + AnalyzeBlock(body)
    case Loop(body) => 1 + AnalyzeBlock(body)
    case Binary(op, left, right) =>
      (if op == And || op == Or then 1 else 0) + AnalyzeExpression(left) + AnalyzeExpression(right)
    case Try(inner) => 1 + AnalyzeExpression(inner)
    case Return(value) => AddOptional(value, 1)
    case Break(value) => AddOptional(value, 1)
    case Continue => 1
    case BlockExpr(block) => AnalyzeBlock(block)
    case Unsafe(block) => AnalyzeBlock(block)
    case Async(block) => AnalyzeBlock(block)
    case Closure(body) => AnalyzeExpression(body)
    case Call(callee, args) => ExprsLoop(args, 0, AnalyzeExpression(callee))
    case MethodCall(receiver, args) => ExprsLoop(args, 0, AnalyzeExpression(receiver))
    case Array(elems) => ExprsLoop(elems, 0, 0)
    case Tuple(elems) => ExprsLoop(elems, 0, 0)
    case Field(base) => AnalyzeExpression(base)
    case Index(base, index) => AnalyzeExpression(base) + AnalyzeExpression(index)
    case Assign(left, right) => AnalyzeExpression(left) + AnalyzeExpression(right)
    case Reference(inner) => AnalyzeExpression(inner)
    case Unary(inner) => AnalyzeExpression(inner)
    case Cast(inner) => AnalyzeExpression(inner)
    case Range(start, end) => AddOptional(end, AddOptional(start, 0))
    case Struct(fields, rest) => AddOptional(rest, ExprsLoop(fields, 0, 0))
    case Paren(inner) => AnalyzeExpression(inner)
    case Group(inner) => AnalyzeExpression(inner)
    case Other => 0
  }

  // ---------------------------------------------------------------------
  // Nesting depth, accumulator form
  // ---------------------------------------------------------------------

  /** calculate_nesting_depth */
  function CalculateNestingDepth(f: ItemFn): nat
  {
    AnalyzeBlockNesting(f.block, 0)
  }

  function AnalyzeBlockNesting(b: Block, d: nat): nat
  {
    StmtsMaxLoop(b.stmts, d, 0, d)
  }

  /** `for stmt in &block.stmts { max_depth = max_depth.max(...) }` from index i. */
  function StmtsMaxLoop(ss: seq<Stmt>, d: nat, i: nat, acc: nat): nat
    requires i <= |ss|
    decreases ss, |ss| - i
  {
    if i == |ss| then acc
    else StmtsMaxLoop(ss, d, i + 1, Max(acc, AnalyzeStatementNesting(ss[i], d)))
  }

  function AnalyzeStatementNesting(s: Stmt, d: nat): nat
  {
    match s
    case ExprStmt(e) => AnalyzeExpressionNesting(e, d)
    case Local(init) => if init.Some? then AnalyzeExpressionNesting(init.value, d) else d
    case ItemStmt(_) => d
    case MacroStmt => d
  }

  /** `if let Some(x) = o { max_depth = max_depth.max(analyze_expression_nesting(x, d)) }` */
  function MaxOptional(o: Option<Expr>, acc: nat, d: nat): nat
  {
    match o
    case None => acc
    case Some(e) => Max(acc, AnalyzeExpressionNesting(e, d))
  }

  /** `for elem in elems { max_depth = max_depth.max(...) }` from index i. */
  function ExprsMaxLoop(es: seq<Expr>, d: nat, i: nat, acc: nat): nat
    requires i <= |es|
    decreases es, |es| - i
  {
    if i == |es| then acc
    else ExprsMaxLoop(es, d, i + 1, Max(acc, AnalyzeExpressionNesting(es[i], d)))
  }

  /** The arm loop of a match: guard, then body, both at the incremented depth `nd`. */
  function ArmsMaxLoop(arms: seq<Arm>, nd: nat, i: nat, acc: nat): nat
    requires i <= |arms|
    decreases arms, |arms| - i
  {
    if i == |arms| then acc else ArmsMaxLoop(arms, nd, i + 1, ArmNesting(arms[i], acc, nd))
  }

  /** One turn of the arm loop: guard, then body, both at `nd`. */
  function ArmNesting(a: Arm, acc: nat, nd: nat): nat
  {
    Max(MaxOptional(a.guard, acc, nd), AnalyzeExpressionNesting(a.body, nd))
  }

  function AnalyzeExpressionNesting(e: Expr, d: nat): nat
  {
    match e
    case If(cond, thenBranch, elseBranch) =>
      var acc := Max(d + 1, AnalyzeExpressionNesting(cond, d));
      MaxOptional(elseBranch, Max(acc, AnalyzeBlockNesting(thenBranch, d + 1)), d + 1)
    case Match(scrutinee, arms) =>
      ArmsMaxLoop(arms, d + 1, 0, Max(d + 1, AnalyzeExpressionNesting(scrutinee, d)))
    case While(cond, body) =>
      Max(Max(d + 1, AnalyzeExpressionNesting(cond, d)), AnalyzeBlockNesting(body, d + 1))
    case ForLoop(iterable, body) =>
      Max(Max(d + 1, AnalyzeExpressionNesting(iterable, d)), AnalyzeBlockNesting(body, d + 1))
    case Loop(body) => AnalyzeBlockNesting(body, d + 1)
    case BlockExpr(block) => AnalyzeBlockNesting(block, d + 1)
    case Unsafe(block) => AnalyzeBlockNesting(block, d + 1)
    case Async(block) => AnalyzeBlockNesting(block, d + 1)
    case Closure(body) => AnalyzeExpressionNesting(body, d + 1)
    case Binary(_, left, right) =>
      Max(AnalyzeExpressionNesting(left, d), AnalyzeExpressionNesting(right, d))
    case Try(inner) => AnalyzeExpressionNesting(inner, d)
    case Return(value) => if value.Some? then AnalyzeExpressionNesting(value.value, d) else d
    case Break(value) => if value.Some? then AnalyzeExpressionNesting(value.value, d) else d
    case Call(callee, args) => ExprsMaxLoop(args, d, 0, AnalyzeExpressionNesting(callee, d))
    case MethodCall(receiver, args) =>
      ExprsMaxLoop(args, d, 0, AnalyzeExpressionNesting(receiver, d))
    case Array(elems) => ExprsMaxLoop(elems, d, 0, d)
    case Tuple(elems) => ExprsMaxLoop(elems, d, 0, d)
    case Field(base) => AnalyzeExpressionNesting(base, d)
    case Index(base, index) =>
      Max(AnalyzeExpressionNesting(base, d), AnalyzeExpressionNesting(index, d))
    case Assign(left, right) =>
      Max(AnalyzeExpressionNesting(left, d), AnalyzeExpressionNesting(right, d))
    case Reference(inner) => AnalyzeExpressionNesting(inner, d)
    case Unary(inner) => AnalyzeExpressionNesting(inner, d)
    case Cast(inner) => AnalyzeExpressionNesting(inner, d)
    case Range(start, end) => MaxOptional(end, MaxOptional(start, d, d), d)
    case Struct(fields, rest) => MaxOptional(rest, ExprsMaxLoop(fields, d, 0, d), d)
    case Paren(inner) => AnalyzeExpressionNesting(inner, d)
    case Group(inner) => AnalyzeExpressionNesting(inner, d)
    case Continue => d
    case Other => d
  }

  // ---------------------------------------------------------------------
  // The two revisions agree: complexity
  // ---------------------------------------------------------------------

  /** The combined file's complexity equals the split module's on every function. */
  lemma {:induction false} SameComplexity(f: ItemFn)
    ensures CalculateCyclomaticComplexity(f) == CC.Complexity(f)
  {
    BlockSame(f.block);
  }

  lemma {:induction false} BlockSame(b: Block)
    ensures AnalyzeBlock(b) == CC.BlockComplexity(b)
  {
    StmtsLoopSame(b.stmts, 0, 0);
    assert b.stmts[0..] == b.stmts;
  }

  lemma {:induction false} StmtsLoopSame(ss: seq<Stmt>, i: nat, acc: nat)
    requires i <= |ss|
    ensures StmtsLoop(ss, i, acc) == acc + CC.StmtsComplexity(ss[i..])
    decreases ss, |ss| - i
  {
    if i < |ss| {
      StmtSame(ss[i]);
      StmtsLoopSame(ss, i + 1, acc + AnalyzeStatement(ss[i]));
      assert ss[i..][0] == ss[i];
      assert ss[i..][1..] == ss[i + 1..];
    }
  }

  lemma {:induction false} StmtSame(s: Stmt)
    ensures AnalyzeStatement(s) == CC.StmtComplexity(s)
  {
    match s
    case ExprStmt(e) => ExprSame(e);
    case Local(init) => OptSame(init, 0);
    case ItemStmt(Fn(f)) => SameComplexity(f);
    case ItemStmt(OtherItem) =>
    case MacroStmt =>
  }

  lemma {:induction false} OptSame(o: Option<Expr>, acc: nat)
    ensures AddOptional(o, acc) == acc + CC.OptComplexity(o)
  {
    match o
    case None =>
    case Some(e) => ExprSame(e);
  }

  lemma {:induction false} ExprsLoopSame(es: seq<Expr>, i: nat, acc: nat)
    requires i <= |es|
    ensures ExprsLoop(es, i, acc) == acc + CC.ExprsComplexity(es[i..])
    decreases es, |es| - i
  {
    if i < |es| {
      ExprSame(es[i]);
      ExprsLoopSame(es, i + 1, acc + AnalyzeExpression(es[i]));
      assert es[i..][0] == es[i];
      assert es[i..][1..] == es[i + 1..];
    }
  }

  lemma {:induction false} ArmSame(a: Arm)
    ensures AnalyzeMatchArm(a) == CC.ArmComplexity(a)
  {
    OptSame(a.guard, 1);
    ExprSame(a.body);
  }

  lemma {:induction false} ArmsLoopSame(arms: seq<Arm>, i: nat, acc: nat)
    requires i <= |arms|
    ensures ArmsLoop(arms, i, acc) == acc + CC.ArmsComplexity(arms[i..])
    decreases arms, |arms| - i
  {
    if i < |arms| {
      ArmSame(arms[i]);
      ArmsLoopSame(arms, i + 1, acc + AnalyzeMatchArm(arms[i]));
      assert arms[i..][0] == arms[i];
      assert arms[i..][1..] == arms[i + 1..];
    }
  }

  lemma {:induction false} ExprSame(e: Expr)
    ensures AnalyzeExpression(e) == CC.ExprComplexity(e)
    decreases e, 1
  {
    match e
    case If(_, _, _) => IfSame(e);
    case Match(_, _) => MatchSame(e);
    case While(_, _) => WhileSame(e);
    case ForLoop(_, _) => ForLoopSame(e);
    case Loop(_) => LoopSame(e);
    case Binary(_, _, _) => BinarySame(e);
    case Try(_) => TrySame(e);
    case Return(_) => ReturnSame(e);
    case Break(_) => BreakSame(e);
    case Continue => ContinueSame(e);
    case BlockExpr(_) => BlockExprSame(e);
    case Unsafe(_) => UnsafeSame(e);
    case Async(_) => AsyncSame(e);
    case Closure(_) => ClosureSame(e);
    case Call(_, _) => CallSame(e);
    case MethodCall(_, _) => MethodCallSame(e);
    case Array(_) => ArraySame(e);
    case Tuple(_) => TupleSame(e);
    case Field(_) => FieldSame(e);
    case Index(_, _) => IndexSame(e);
    case Assign(_, _) => AssignSame(e);
    case Reference(_) => ReferenceSame(e);
    case Unary(_) => UnarySame(e);
    case Cast(_) => CastSame(e);
    case Range(_, _) => RangeSame(e);
    case Struct(_, _) => StructSame(e);
    case Paren(_) => ParenSame(e);
    case Group(_) => GroupSame(e);
    case Other => OtherSame(e);
  }

  // One lemma per kind of expression.

  lemma {:induction false} IfSame(e: Expr)
    requires e.If?
    ensures AnalyzeExpression(e) == CC.ExprComplexity(e)
    decreases e, 0
  {
    ExprSame(e.cond);
    BlockSame(e.thenBranch);
    OptSame(e.elseBranch, 1 + AnalyzeExpression(e.cond) + AnalyzeBlock(e.thenBranch));
  }

  lemma {:induction false} MatchSame(e: Expr)
    requires e.Match?
    ensures AnalyzeExpression(e) == CC.ExprComplexity(e)
    decreases e, 0
  {
    ExprSame(e.scrutinee);
    ArmsLoopSame(e.arms, 0, 1 + AnalyzeExpression(e.scrutinee));
    assert e.arms[0..] == e.arms;
  }

  lemma {:induction false} WhileSame(e: Expr)
    requires e.While?
    ensures AnalyzeExpression(e) == CC.ExprComplexity(e)
    decreases e, 0
  {
    ExprSame(e.cond);
    BlockSame(e.body);
  }

  lemma {:induction false} ForLoopSame(e: Expr)
    requires e.ForLoop?
    ensures AnalyzeExpression(e) == CC.ExprComplexity(e)
    decreases e, 0
  {
    ExprSame(e.iterable);
    BlockSame(e.body);
  }

  lemma {:induction false} LoopSame(e: Expr)
    requires e.Loop?
    ensures AnalyzeExpression(e) == CC.ExprComplexity(e)
    decreases e, 0
  {
    BlockSame(e.body);
  }

  lemma {:induction false} BinarySame(e: Expr)
    requires e.Binary?
    ensures AnalyzeExpression(e) == CC.ExprComplexity(e)
    decreases e, 0
  {
    ExprSame(e.left);
    ExprSame(e.right);
  }

  lemma {:induction false} TrySame(e: Expr)
    requires e.Try?
    ensures AnalyzeExpression(e) == CC.ExprComplexity(e)
    decreases e, 0
  {
    ExprSame(e.inner);
  }

  lemma {:induction false} ReturnSame(e: Expr)
    requires e.Return?
    ensures AnalyzeExpression(e) == CC.ExprComplexity(e)
    decreases e, 0
  {
    OptSame(e.value, 1);
  }

  lemma {:induction false} BreakSame(e: Expr)
    requires e.Break?
    ensures AnalyzeExpression(e) == CC.ExprComplexity(e)
    decreases e, 0
  {
    OptSame(e.value, 1);
  }

  lemma {:induction false} ContinueSame(e: Expr)
    requires e.Continue?
    ensures AnalyzeExpression(e) == CC.ExprComplexity(e)
    decreases e, 0
  {
  }

  lemma {:induction false} BlockExprSame(e: Expr)
    requires e.BlockExpr?
    ensures AnalyzeExpression(e) == CC.ExprComplexity(e)
    decreases e, 0
  {
    BlockSame(e.block);
  }

  lemma {:induction false} UnsafeSame(e: Expr)
    requires e.Unsafe?
    ensures AnalyzeExpression(e) == CC.ExprComplexity(e)
    decreases e, 0
  {
    BlockSame(e.block);
  }

  lemma {:induction false} AsyncSame(e: Expr)
    requires e.Async?
    ensures AnalyzeExpression(e) == CC.ExprComplexity(e)
    decreases e, 0
  {
    BlockSame(e.block);
  }

  lemma {:induction false} ClosureSame(e: Expr)
    requires e.Closure?
    ensures AnalyzeExpression(e) == CC.ExprComplexity(e)
    decreases e, 0
  {
    ExprSame(e.closureBody);
  }

  lemma {:induction false} CallSame(e: Expr)
    requires e.Call?
    ensures AnalyzeExpression(e) == CC.ExprComplexity(e)
    decreases e, 0
  {
    ExprSame(e.callee);
    ExprsLoopSame(e.args, 0, AnalyzeExpression(e.callee));
    assert e.args[0..] == e.args;
  }

  lemma {:induction false} MethodCallSame(e: Expr)
    requires e.MethodCall?
    ensures AnalyzeExpression(e) == CC.ExprComplexity(e)
    decreases e, 0
  {
    ExprSame(e.receiver);
    ExprsLoopSame(e.args, 0, AnalyzeExpression(e.receiver));
    assert e.args[0..] == e.args;
  }

  lemma {:induction false} ArraySame(e: Expr)
    requires e.Array?
    ensures AnalyzeExpression(e) == CC.ExprComplexity(e)
    decreases e, 0
  {
    ExprsLoopSame(e.elems, 0, 0);
    assert e.elems[0..] == e.elems;
  }

  lemma {:induction false} TupleSame(e: Expr)
    requires e.Tuple?
    ensures AnalyzeExpression(e) == CC.ExprComplexity(e)
    decreases e, 0
  {
    ExprsLoopSame(e.elems, 0, 0);
    assert e.elems[0..] == e.elems;
  }

  lemma {:induction false} FieldSame(e: Expr)
    requires e.Field?
    ensures AnalyzeExpression(e) == CC.ExprComplexity(e)
    decreases e, 0
  {
    ExprSame(e.base);
  }

  lemma {:induction false} IndexSame(e: Expr)
    requires e.Index?
    ensures AnalyzeExpression(e) == CC.ExprComplexity(e)
    decreases e, 0
  {
    ExprSame(e.base);
    ExprSame(e.index);
  }

  lemma {:induction false} AssignSame(e: Expr)
    requires e.Assign?
    ensures AnalyzeExpression(e) == CC.ExprComplexity(e)
    decreases e, 0
  {
    ExprSame(e.left);
    ExprSame(e.right);
  }

  lemma {:induction false} ReferenceSame(e: Expr)
    requires e.Reference?
    ensures AnalyzeExpression(e) == CC.ExprComplexity(e)
    decreases e, 0
  {
    ExprSame(e.inner);
  }

  lemma {:induction false} UnarySame(e: Expr)
    requires e.Unary?
    ensures AnalyzeExpression(e) == CC.ExprComplexity(e)
    decreases e, 0
  {
    ExprSame(e.inner);
  }

  lemma {:induction false} CastSame(e: Expr)
    requires e.Cast?
    ensures AnalyzeExpression(e) == CC.ExprComplexity(e)
    decreases e, 0
  {
    ExprSame(e.inner);
  }

  lemma {:induction false} RangeSame(e: Expr)
    requires e.Range?
    ensures AnalyzeExpression(e) == CC.ExprComplexity(e)
    decreases e, 0
  {
    OptSame(e.start, 0);
    OptSame(e.end, AddOptional(e.start, 0));
  }

  lemma {:induction false} StructSame(e: Expr)
    requires e.Struct?
    ensures AnalyzeExpression(e) == CC.ExprComplexity(e)
    decreases e, 0
  {
    ExprsLoopSame(e.fields, 0, 0);
    assert e.fields[0..] == e.fields;
    OptSame(e.rest, ExprsLoop(e.fields, 0, 0));
  }

  lemma {:induction false} ParenSame(e: Expr)
    requires e.Paren?
    ensures AnalyzeExpression(e) == CC.ExprComplexity(e)
    decreases e, 0
  {
    ExprSame(e.inner);
  }

  lemma {:induction false} GroupSame(e: Expr)
    requires e.Group?
    ensures AnalyzeExpression(e) == CC.ExprComplexity(e)
    decreases e, 0
  {
    ExprSame(e.inner);
  }

  lemma {:induction false} OtherSame(e: Expr)
    requires e.Other?
    ensures AnalyzeExpression(e) == CC.ExprComplexity(e)
    decreases e, 0
  {
  }

  // ---------------------------------------------------------------------
  // The two revisions agree: nesting depth
  // ---------------------------------------------------------------------

  /** The combined file's nesting depth equals the split module's on every function. */
  lemma SameNestingDepth(f: ItemFn)
    ensures CalculateNestingDepth(f) == ND.Depth(f)
  {
    BlockNestingSame(f.block, 0);
  }

  lemma {:induction false} BlockNestingSame(b: Block, d: nat)
    ensures AnalyzeBlockNesting(b, d) == ND.BlockDepth(b, d)
  {
    StmtsMaxLoopSame(b.stmts, d, 0, d);
    assert b.stmts[0..] == b.stmts;
  }

  lemma {:induction false} StmtsMaxLoopSame(ss: seq<Stmt>, d: nat, i: nat, acc: nat)
    requires i <= |ss| && acc >= d
    ensures StmtsMaxLoop(ss, d, i, acc) == Max(acc, ND.StmtsDepth(ss[i..], d))
    decreases ss, |ss| - i
  {
    if i < |ss| {
      StmtNestingSame(ss[i], d);
      StmtsMaxLoopSame(ss, d, i + 1, Max(acc, AnalyzeStatementNesting(ss[i], d)));
      assert ss[i..][0] == ss[i];
      assert ss[i..][1..] == ss[i + 1..];
    }
  }

  lemma {:induction false} StmtNestingSame(s: Stmt, d: nat)
    ensures AnalyzeStatementNesting(s, d) == ND.StmtDepth(s, d)
  {
    match s
    case ExprStmt(e) => ExprNestingSame(e, d);
    case Local(init) => if init.Some? { ExprNestingSame(init.value, d); }
    case ItemStmt(_) =>
    case MacroStmt =>
  }

  lemma {:induction false} OptNestingSame(o: Option<Expr>, acc: nat, d: nat)
    requires acc >= d
    ensures MaxOptional(o, acc, d) == Max(acc, ND.OptDepth(o, d))
  {
    match o
    case None =>
    case Some(e) => ExprNestingSame(e, d);
  }

  lemma {:induction false} ExprsMaxLoopSame(es: seq<Expr>, d: nat, i: nat, acc: nat)
    requires i <= |es| && acc >= d
    ensures ExprsMaxLoop(es, d, i, acc) == Max(acc, ND.ExprsDepth(es[i..], d))
    decreases es, |es| - i
  {
    if i < |es| {
      ExprNestingSame(es[i], d);
      ExprsMaxLoopSame(es, d, i + 1, Max(acc, AnalyzeExpressionNesting(es[i], d)));
      assert es[i..][0] == es[i];
      assert es[i..][1..] == es[i + 1..];
    }
  }

  lemma {:induction false} ArmNestingSame(a: Arm, acc: nat, nd: nat)
    requires acc >= nd
    ensures ArmNesting(a, acc, nd) == Max(acc, ND.ArmDepth(a, nd))
  {
    OptNestingSame(a.guard, acc, nd);
    ExprNestingSame(a.body, nd);
  }

  lemma {:induction false} ArmsMaxLoopSame(arms: seq<Arm>, nd: nat, i: nat, acc: nat)
    requires i <= |arms| && acc >= nd
    ensures ArmsMaxLoop(arms, nd, i, acc) == Max(acc, ND.ArmsDepth(arms[i..], nd))
    decreases arms, |arms| - i
  {
    if i < |arms| {
      ArmNestingSame(arms[i], acc, nd);
      ArmsMaxLoopSame(arms, nd, i + 1, ArmNesting(arms[i], acc, nd));
      assert arms[i..][0] == arms[i];
      assert arms[i..][1..] == arms[i + 1..];
    }
  }

  lemma {:induction false} ExprNestingSame(e: Expr, d: nat)
    ensures AnalyzeExpressionNesting(e, d) == ND.ExprDepth(e, d)
    decreases e, 1
  {
    match e
    case If(_, _, _) => IfNestingSame(e, d);
    case Match(_, _) => MatchNestingSame(e, d);
    case While(_, _) => WhileNestingSame(e, d);
    case ForLoop(_, _) => ForLoopNestingSame(e, d);
    case Loop(_) => LoopNestingSame(e, d);
    case Binary(_, _, _) => BinaryNestingSame(e, d);
    case Try(_) => TryNestingSame(e, d);
    case Return(_) => ReturnNestingSame(e, d);
    case Break(_) => BreakNestingSame(e, d);
    case Continue => ContinueNestingSame(e, d);
    case BlockExpr(_) => BlockExprNestingSame(e, d);
    case Unsafe(_) => UnsafeNestingSame(e, d);
    case Async(_) => AsyncNestingSame(e, d);
    case Closure(_) => ClosureNestingSame(e, d);
    case Call(_, _) => CallNestingSame(e, d);
    case MethodCall(_, _) => MethodCallNestingSame(e, d);
    case Array(_) => ArrayNestingSame(e, d);
    case Tuple(_) => TupleNestingSame(e, d);
    case Field(_) => FieldNestingSame(e, d);
    case Index(_, _) => IndexNestingSame(e, d);
    case Assign(_, _) => AssignNestingSame(e, d);
    case Reference(_) => ReferenceNestingSame(e, d);
    case Unary(_) => UnaryNestingSame(e, d);
    case Cast(_) => CastNestingSame(e, d);
    case Range(_, _) => RangeNestingSame(e, d);
    case Struct(_, _) => StructNestingSame(e, d);
    case Paren(_) => ParenNestingSame(e, d);
    case Group(_) => GroupNestingSame(e, d);
    case Other => OtherNestingSame(e, d);
  }

  // One lemma per kind of expression.

  lemma {:induction false} IfNestingSame(e: Expr, d: nat)
    requires e.If?
    ensures AnalyzeExpressionNesting(e, d) == ND.ExprDepth(e, d)
    decreases e, 0
  {
    ExprNestingSame(e.cond, d);
    BlockNestingSame(e.thenBranch, d + 1);
    var acc := Max(d + 1, AnalyzeExpressionNesting(e.cond, d));
    OptNestingSame(e.elseBranch, Max(acc, AnalyzeBlockNesting(e.thenBranch, d + 1)), d + 1);
  }

  lemma {:induction false} MatchNestingSame(e: Expr, d: nat)
    requires e.Match?
    ensures AnalyzeExpressionNesting(e, d) == ND.ExprDepth(e, d)
    decreases e, 0
  {
    ExprNestingSame(e.scrutinee, d);
    ArmsMaxLoopSame(e.arms, d + 1, 0, Max(d + 1, AnalyzeExpressionNesting(e.scrutinee, d)));
    assert e.arms[0..] == e.arms;
  }

  lemma {:induction false} WhileNestingSame(e: Expr, d: nat)
    requires e.While?
    ensures AnalyzeExpressionNesting(e, d) == ND.ExprDepth(e, d)
    decreases e, 0
  {
    ExprNestingSame(e.cond, d);
    BlockNestingSame(e.body, d + 1);
  }

  lemma {:induction false} ForLoopNestingSame(e: Expr, d: nat)
    requires e.ForLoop?
    ensures AnalyzeExpressionNesting(e, d) == ND.ExprDepth(e, d)
    decreases e, 0
  {
    ExprNestingSame(e.iterable, d);
    BlockNestingSame(e.body, d + 1);
  }

  lemma {:induction false} LoopNestingSame(e: Expr, d: nat)
    requires e.Loop?
    ensures AnalyzeExpressionNesting(e, d) == ND.ExprDepth(e, d)
    decreases e, 0
  {
    BlockNestingSame(e.body, d + 1);
  }

  lemma {:induction false} BinaryNestingSame(e: Expr, d: nat)
    requires e.Binary?
    ensures AnalyzeExpressionNesting(e, d) == ND.ExprDepth(e, d)
    decreases e, 0
  {
    ExprNestingSame(e.left, d);
    ExprNestingSame(e.right, d);
  }

  lemma {:induction false} TryNestingSame(e: Expr, d: nat)
    requires e.Try?
    ensures AnalyzeExpressionNesting(e, d) == ND.ExprDepth(e, d)
    decreases e, 0
  {
    ExprNestingSame(e.inner, d);
  }

  lemma {:induction false} ReturnNestingSame(e: Expr, d: nat)
    requires e.Return?
    ensures AnalyzeExpressionNesting(e, d) == ND.ExprDepth(e, d)
    decreases e, 0
  {
    if e.value.Some? { ExprNestingSame(e.value.value, d); }
  }

  lemma {:induction false} BreakNestingSame(e: Expr, d: nat)
    requires e.Break?
    ensures AnalyzeExpressionNesting(e, d) == ND.ExprDepth(e, d)
    decreases e, 0
  {
    if e.value.Some? { ExprNestingSame(e.value.value, d); }
  }

  lemma {:induction false} ContinueNestingSame(e: Expr, d: nat)
    requires e.Continue?
    ensures AnalyzeExpressionNesting(e, d) == ND.ExprDepth(e, d)
    decreases e, 0
  {
  }

  lemma {:induction false} BlockExprNestingSame(e: Expr, d: nat)
    requires e.BlockExpr?
    ensures AnalyzeExpressionNesting(e, d) == ND.ExprDepth(e, d)
    decreases e, 0
  {
    BlockNestingSame(e.block, d + 1);
  }

  lemma {:induction false} UnsafeNestingSame(e: Expr, d: nat)
    requires e.Unsafe?
    ensures AnalyzeExpressionNesting(e, d) == ND.ExprDepth(e, d)
    decreases e, 0
  {
    BlockNestingSame(e.block, d + 1);
  }

  lemma {:induction false} AsyncNestingSame(e: Expr, d: nat)
    requires e.Async?
    ensures AnalyzeExpressionNesting(e, d) == ND.ExprDepth(e, d)
    decreases e, 0
  {
    BlockNestingSame(e.block, d + 1);
  }

  lemma {:induction false} ClosureNestingSame(e: Expr, d: nat)
    requires e.Closure?
    ensures AnalyzeExpressionNesting(e, d) == ND.ExprDepth(e, d)
    decreases e, 0
  {
    ExprNestingSame(e.closureBody, d + 1);
  }

  lemma {:induction false} CallNestingSame(e: Expr, d: nat)
    requires e.Call?
    ensures AnalyzeExpressionNesting(e, d) == ND.ExprDepth(e, d)
    decreases e, 0
  {
    ExprNestingSame(e.callee, d);
    ExprsMaxLoopSame(e.args, d, 0, AnalyzeExpressionNesting(e.callee, d));
    assert e.args[0..] == e.args;
  }

  lemma {:induction false} MethodCallNestingSame(e: Expr, d: nat)
    requires e.MethodCall?
    ensures AnalyzeExpressionNesting(e, d) == ND.ExprDepth(e, d)
    decreases e, 0
  {
    ExprNestingSame(e.receiver, d);
    ExprsMaxLoopSame(e.args, d, 0, AnalyzeExpressionNesting(e.receiver, d));
    assert e.args[0..] == e.args;
  }

  lemma {:induction false} ArrayNestingSame(e: Expr, d: nat)
    requires e.Array?
    ensures AnalyzeExpressionNesting(e, d) == ND.ExprDepth(e, d)
    decreases e, 0
  {
    ExprsMaxLoopSame(e.elems, d, 0, d);
    assert e.elems[0..] == e.elems;
  }

  lemma {:induction false} TupleNestingSame(e: Expr, d: nat)
    requires e.Tuple?
    ensures AnalyzeExpressionNesting(e, d) == ND.ExprDepth(e, d)
    decreases e, 0
  {
    ExprsMaxLoopSame(e.elems, d, 0, d);
    assert e.elems[0..] == e.elems;
  }

  lemma {:induction false} FieldNestingSame(e: Expr, d: nat)
    requires e.Field?
    ensures AnalyzeExpressionNesting(e, d) == ND.ExprDepth(e, d)
    decreases e, 0
  {
    ExprNestingSame(e.base, d);
  }

  lemma {:induction false} IndexNestingSame(e: Expr, d: nat)
    requires e.Index?
    ensures AnalyzeExpressionNesting(e, d) == ND.ExprDepth(e, d)
    decreases e, 0
  {
    ExprNestingSame(e.base, d);
    ExprNestingSame(e.index, d);
  }

  lemma {:induction false} AssignNestingSame(e: Expr, d: nat)
    requires e.Assign?
    ensures AnalyzeExpressionNesting(e, d) == ND.ExprDepth(e, d)
    decreases e, 0
  {
    ExprNestingSame(e.left, d);
    ExprNestingSame(e.right, d);
  }

  lemma {:induction false} ReferenceNestingSame(e: Expr, d: nat)
    requires e.Reference?
    ensures AnalyzeExpressionNesting(e, d) == ND.ExprDepth(e, d)
    decreases e, 0
  {
    ExprNestingSame(e.inner, d);
  }

  lemma {:induction false} UnaryNestingSame(e: Expr, d: nat)
    requires e.Unary?
    ensures AnalyzeExpressionNesting(e, d) == ND.ExprDepth(e, d)
    decreases e, 0
  {
    ExprNestingSame(e.inner, d);
  }

  lemma {:induction false} CastNestingSame(e: Expr, d: nat)
    requires e.Cast?
    ensures AnalyzeExpressionNesting(e, d) == ND.ExprDepth(e, d)
    decreases e, 0
  {
    ExprNestingSame(e.inner, d);
  }

  lemma {:induction false} RangeNestingSame(e: Expr, d: nat)
    requires e.Range?
    ensures AnalyzeExpressionNesting(e, d) == ND.ExprDepth(e, d)
    decreases e, 0
  {
    OptNestingSame(e.start, d, d);
    OptNestingSame(e.end, MaxOptional(e.start, d, d), d);
  }

  lemma {:induction false} StructNestingSame(e: Expr, d: nat)
    requires e.Struct?
    ensures AnalyzeExpressionNesting(e, d) == ND.ExprDepth(e, d)
    decreases e, 0
  {
    ExprsMaxLoopSame(e.fields, d, 0, d);
    assert e.fields[0..] == e.fields;
    OptNestingSame(e.rest, ExprsMaxLoop(e.fields, d, 0, d), d);
  }

  lemma {:induction false} ParenNestingSame(e: Expr, d: nat)
    requires e.Paren?
    ensures AnalyzeExpressionNesting(e, d) == ND.ExprDepth(e, d)
    decreases e, 0
  {
    ExprNestingSame(e.inner, d);
  }

  lemma {:induction false} GroupNestingSame(e: Expr, d: nat)
    requires e.Group?
    ensures AnalyzeExpressionNesting(e, d) == ND.ExprDepth(e, d)
    decreases e, 0
  {
    ExprNestingSame(e.inner, d);
  }

  lemma {:induction false} OtherNestingSame(e: Expr, d: nat)
    requires e.Other?
    ensures AnalyzeExpressionNesting(e, d) == ND.ExprDepth(e, d)
    decreases e, 0
  {
  }
}
