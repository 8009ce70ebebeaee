/**
 * Maximum nesting depth of a function (src/analyzer/nesting_depth.rs).
 *
 * The walker threads an explicit `d` (the Rust `current_depth`) and returns
 * the deepest level reached. A scope-opening construct (`if`, `match`,
 * `while`, `for`, `loop`, a bare/unsafe/async block, a closure) walks its
 * body one level deeper, and it is itself at least one level deep. Its
 * condition, scrutinee or iterable stays at `d`. Match guards are walked at
 * `d + 1`, like the arm bodies. Everything else takes the maximum of its
 * operands at `d`. Nested items and macro statements are not entered.
 * The Rust `max_depth` loops are max-folds whose seed is `d`. They are
 * written here as recursive functions over the sequences.
 */
module NestingDepth {
  import opened Common
  import opened Syntax

  /** The constructs that walk their body at `d + 1`. */
  predicate OpensScope(e: Expr)
  {
    e.If? || e.Match? || e.While? || e.ForLoop? || e.Loop?
    || e.BlockExpr? || e.Unsafe? || e.Async? || e.Closure?
  }

  /** calculate_nesting_depth: the body walked from depth 0. */
  function Depth(f: ItemFn): nat
  {
    BlockDepth(f.block, 0)
  }

  /** analyze_block_nesting */
  function BlockDepth(b: Block, d: nat): (r: nat)
    ensures r >= d
  {
    StmtsDepth(b.stmts, d)
  }

  function StmtsDepth(ss: seq<Stmt>, d: nat): (r: nat)
    ensures r >= d
  {
    if |ss| == 0 then d else Max(StmtDepth(ss[0], d), StmtsDepth(ss[1..], d))
  }

  /** analyze_statement_nesting: nested items and macros stay at `d`. */
  function StmtDepth(s: Stmt, d: nat): (r: nat)
    ensures r >= d
  {
    match s
    case ExprStmt(e) => ExprDepth(e, d)
    case Local(init) => OptDepth(init, d)
    case ItemStmt(_) => d
    case MacroStmt => d
  }

  function OptDepth(o: Option<Expr>, d: nat): (r: nat)
    ensures r >= d
  {
    match o
    case None => d
    case Some(e) => ExprDepth(e, d)
  }

  function ExprsDepth(es: seq<Expr>, d: nat): (r: nat)
    ensures r >= d
  {
    if |es| == 0 then d else Max(ExprDepth(es[0], d), ExprsDepth(es[1..], d))
  }

  /** One arm of a match, walked at the match's incremented depth: guard and body alike. */
  function ArmDepth(a: Arm, d: nat): (r: nat)
    ensures r >= d
  {
    Max(OptDepth(a.guard, d), ExprDepth(a.body, d))
  }

  function ArmsDepth(arms: seq<Arm>, d: nat): (r: nat)
    ensures r >= d
  {
    if |arms| == 0 then d else Max(ArmDepth(arms[0], d), ArmsDepth(arms[1..], d))
  }

  /** analyze_expression_nesting */
  function ExprDepth(e: Expr, d: nat): (r: nat)
    ensures r >= d
  {
    match e
    case If(cond, thenBranch, elseBranch) =>
      Max(Max(Max(d + 1, ExprDepth(cond, d)), BlockDepth(thenBranch, d + 1)),
          OptDepth(elseBranch, d + 1))
    case Match(scrutinee, arms) =>
      Max(Max(d + 1, ExprDepth(scrutinee, d)), ArmsDepth(arms, d + 1))
    case While(cond, body) =>
      Max(Max(d + 1, ExprDepth(cond, d)), BlockDepth(body, d + 1))
    case ForLoop(iterable, body) =>
      Max(Max(d + 1, ExprDepth(iterable, d)), BlockDepth(body, d + 1))
    case Loop(body) => BlockDepth(body, d + 1)
    case BlockExpr(block) => BlockDepth(block, d + 1)
    case Unsafe(block) => BlockDepth(block, d + 1)
    case Async(block) => BlockDepth(block, d + 1)
    case Closure(body) => ExprDepth(body, d + 1)
    case Binary(_, left, right) => Max(ExprDepth(left, d), ExprDepth(right, d))
    case Try(inner) => ExprDepth(inner, d)
    case Return(value) => OptDepth(value, d)
    case Break(value) => OptDepth(value, d)
    // The Rust fold starts from the callee's (receiver's) depth, itself >= d.
    case Call(callee, args) => Max(ExprDepth(callee, d), ExprsDepth(args, d))
    case MethodCall(receiver, args) => Max(ExprDepth(receiver, d), ExprsDepth(args, d))
    case Array(elems) => ExprsDepth(elems, d)
    case Tuple(elems) => ExprsDepth(elems, d)
    case Field(base) => ExprDepth(base, d)
    case Index(base, index) => Max(ExprDepth(base, d), ExprDepth(index, d))
    case Assign(left, right) => Max(ExprDepth(left, d), ExprDepth(right, d))
    case Reference(inner) => ExprDepth(inner, d)
    case Unary(inner) => ExprDepth(inner, d)
    case Cast(inner) => ExprDepth(inner, d)
    case Range(start, end) => Max(Max(d, OptDepth(start, d)), OptDepth(end, d))
    case Struct(fields, rest) => Max(ExprsDepth(fields, d), OptDepth(rest, d))
    case Paren(inner) => ExprDepth(inner, d)
    case Group(inner) => ExprDepth(inner, d)
    case Continue => d
    case Other => d
  }

  /** A scope-opening construct is itself one level deeper than where it stands. */
  lemma ScopeIsDeeper(e: Expr, d: nat)
    requires OpensScope(e)
    ensures ExprDepth(e, d) >= d + 1
  {
  }

  // ---------------------------------------------------------------------
  // Depth is relative: walking at d + k is walking at d, shifted by k
  // ---------------------------------------------------------------------

  lemma {:induction false} BlockShift(b: Block, d: nat, k: nat)
    ensures BlockDepth(b, d + k) == BlockDepth(b, d) + k
  {
    StmtsShift(b.stmts, d, k);
  }

  lemma {:induction false} StmtsShift(ss: seq<Stmt>, d: nat, k: nat)
    ensures StmtsDepth(ss, d + k) == StmtsDepth(ss, d) + k
  {
    if |ss| > 0 {
      StmtShift(ss[0], d, k);
      StmtsShift(ss[1..], d, k);
    }
  }

  lemma {:induction false} StmtShift(s: Stmt, d: nat, k: nat)
    ensures StmtDepth(s, d + k) == StmtDepth(s, d) + k
  {
    match s
    case ExprStmt(e) => ExprShift(e, d, k);
    case Local(init) => OptShift(init, d, k);
    case ItemStmt(_) =>
    case MacroStmt =>
  }

  lemma {:induction false} OptShift(o: Option<Expr>, d: nat, k: nat)
    ensures OptDepth(o, d + k) == OptDepth(o, d) + k
  {
    match o
    case None =>
    case Some(e) => ExprShift(e, d, k);
  }

  lemma {:induction false} ExprsShift(es: seq<Expr>, d: nat, k: nat)
    ensures ExprsDepth(es, d + k) == ExprsDepth(es, d) + k
  {
    if |es| > 0 {
      ExprShift(es[0], d, k);
      ExprsShift(es[1..], d, k);
    }
  }

  lemma {:induction false} ArmShift(a: Arm, d: nat, k: nat)
    ensures ArmDepth(a, d + k) == ArmDepth(a, d) + k
  {
    OptShift(a.guard, d, k);
    ExprShift(a.body, d, k);
  }

  lemma {:induction false} ArmsShift(arms: seq<Arm>, d: nat, k: nat)
    ensures ArmsDepth(arms, d + k) == ArmsDepth(arms, d) + k
  {
    if |arms| > 0 {
      ArmShift(arms[0], d, k);
      ArmsShift(arms[1..], d, k);
    }
  }

  lemma {:induction false} ExprShift(e: Expr, d: nat, k: nat)
    ensures ExprDepth(e, d + k) == ExprDepth(e, d) + k
    decreases e, 1
  {
    match e
    case If(_, _, _) => IfShift(e, d, k);
    case Match(_, _) => MatchShift(e, d, k);
    case While(_, _) => WhileShift(e, d, k);
    case ForLoop(_, _) => ForLoopShift(e, d, k);
    case Loop(_) => LoopShift(e, d, k);
    case Binary(_, _, _) => BinaryShift(e, d, k);
    case Try(_) => TryShift(e, d, k);
    case Return(_) => ReturnShift(e, d, k);
    case Break(_) => BreakShift(e, d, k);
    case Continue => ContinueShift(e, d, k);
    case BlockExpr(_) => BlockExprShift(e, d, k);
    case Unsafe(_) => UnsafeShift(e, d, k);
    case Async(_) => AsyncShift(e, d, k);
    case Closure(_) => ClosureShift(e, d, k);
    case Call(_, _) => CallShift(e, d, k);
    case MethodCall(_, _) => MethodCallShift(e, d, k);
    case Array(_) => ArrayShift(e, d, k);
    case Tuple(_) => TupleShift(e, d, k);
    case Field(_) => FieldShift(e, d, k);
    case Index(_, _) => IndexShift(e, d, k);
    case Assign(_, _) => AssignShift(e, d, k);
    case Reference(_) => ReferenceShift(e, d, k);
    case Unary(_) => UnaryShift(e, d, k);
    case Cast(_) => CastShift(e, d, k);
    case Range(_, _) => RangeShift(e, d, k);
    case Struct(_, _) => StructShift(e, d, k);
    case Paren(_) => ParenShift(e, d, k);
    case Group(_) => GroupShift(e, d, k);
    case Other => OtherShift(e, d, k);
  }

  // One lemma per kind of expression. Scope-opening kinds walk their body
  // at d + 1, and that shifts by k like everything else.

  lemma {:induction false} IfShift(e: Expr, d: nat, k: nat)
    requires e.If?
    ensures ExprDepth(e, d + k) == ExprDepth(e, d) + k
    decreases e, 0
  {
    ExprShift(e.cond, d, k);
    BlockShift(e.thenBranch, d + 1, k);
    OptShift(e.elseBranch, d + 1, k);
  }

  lemma {:induction false} MatchShift(e: Expr, d: nat, k: nat)
    requires e.Match?
    ensures ExprDepth(e, d + k) == ExprDepth(e, d) + k
    decreases e, 0
  {
    ExprShift(e.scrutinee, d, k);
    ArmsShift(e.arms, d + 1, k);
  }

  lemma {:induction false} WhileShift(e: Expr, d: nat, k: nat)
    requires e.While?
    ensures ExprDepth(e, d + k) == ExprDepth(e, d) + k
    decreases e, 0
  {
    ExprShift(e.cond, d, k);
    BlockShift(e.body, d + 1, k);
  }

  lemma {:induction false} ForLoopShift(e: Expr, d: nat, k: nat)
    requires e.ForLoop?
    ensures ExprDepth(e, d + k) == ExprDepth(e, d) + k
    decreases e, 0
  {
    ExprShift(e.iterable, d, k);
    BlockShift(e.body, d + 1, k);
  }

  lemma {:induction false} LoopShift(e: Expr, d: nat, k: nat)
    requires e.Loop?
    ensures ExprDepth(e, d + k) == ExprDepth(e, d) + k
    decreases e, 0
  {
    BlockShift(e.body, d + 1, k);
  }

  lemma {:induction false} BinaryShift(e: Expr, d: nat, k: nat)
    requires e.Binary?
    ensures ExprDepth(e, d + k) == ExprDepth(e, d) + k
    decreases e, 0
  {
    ExprShift(e.left, d, k);
    ExprShift(e.right, d, k);
  }

  lemma {:induction false} TryShift(e: Expr, d: nat, k: nat)
    requires e.Try?
    ensures ExprDepth(e, d + k) == ExprDepth(e, d) + k
    decreases e, 0
  {
    ExprShift(e.inner, d, k);
  }

  lemma {:induction false} ReturnShift(e: Expr, d: nat, k: nat)
    requires e.Return?
    ensures ExprDepth(e, d + k) == ExprDepth(e, d) + k
    decreases e, 0
  {
    OptShift(e.value, d, k);
  }

  lemma {:induction false} BreakShift(e: Expr, d: nat, k: nat)
    requires e.Break?
    ensures ExprDepth(e, d + k) == ExprDepth(e, d) + k
    decreases e, 0
  {
    OptShift(e.value, d, k);
  }

  lemma {:induction false} ContinueShift(e: Expr, d: nat, k: nat)
    requires e.Continue?
    ensures ExprDepth(e, d + k) == ExprDepth(e, d) + k
    decreases e, 0
  {
  }

  lemma {:induction false} BlockExprShift(e: Expr, d: nat, k: nat)
    requires e.BlockExpr?
    ensures ExprDepth(e, d + k) == ExprDepth(e, d) + k
    decreases e, 0
  {
    BlockShift(e.block, d + 1, k);
  }

  lemma {:induction false} UnsafeShift(e: Expr, d: nat, k: nat)
    requires e.Unsafe?
    ensures ExprDepth(e, d + k) == ExprDepth(e, d) + k
    decreases e, 0
  {
    BlockShift(e.block, d + 1, k);
  }

  lemma {:induction false} AsyncShift(e: Expr, d: nat, k: nat)
    requires e.Async?
    ensures ExprDepth(e, d + k) == ExprDepth(e, d) + k
    decreases e, 0
  {
    BlockShift(e.block, d + 1, k);
  }

  lemma {:induction false} ClosureShift(e: Expr, d: nat, k: nat)
    requires e.Closure?
    ensures ExprDepth(e, d + k) == ExprDepth(e, d) + k
    decreases e, 0
  {
    ExprShift(e.closureBody, d + 1, k);
  }

  lemma {:induction false} CallShift(e: Expr, d: nat, k: nat)
    requires e.Call?
    ensures ExprDepth(e, d + k) == ExprDepth(e, d) + k
    decreases e, 0
  {
    ExprShift(e.callee, d, k);
    ExprsShift(e.args, d, k);
  }

  lemma {:induction false} MethodCallShift(e: Expr, d: nat, k: nat)
    requires e.MethodCall?
    ensures ExprDepth(e, d + k) == ExprDepth(e, d) + k
    decreases e, 0
  {
    ExprShift(e.receiver, d, k);
    ExprsShift(e.args, d, k);
  }

  lemma {:induction false} ArrayShift(e: Expr, d: nat, k: nat)
    requires e.Array?
    ensures ExprDepth(e, d + k) == ExprDepth(e, d) + k
    decreases e, 0
  {
    ExprsShift(e.elems, d, k);
  }

  lemma {:induction false} TupleShift(e: Expr, d: nat, k: nat)
    requires e.Tuple?
    ensures ExprDepth(e, d + k) == ExprDepth(e, d) + k
    decreases e, 0
  {
    ExprsShift(e.elems, d, k);
  }

  lemma {:induction false} FieldShift(e: Expr, d: nat, k: nat)
    requires e.Field?
    ensures ExprDepth(e, d + k) == ExprDepth(e, d) + k
    decreases e, 0
  {
    ExprShift(e.base, d, k);
  }

  lemma {:induction false} IndexShift(e: Expr, d: nat, k: nat)
    requires e.Index?
    ensures ExprDepth(e, d + k) == ExprDepth(e, d) + k
    decreases e, 0
  {
    ExprShift(e.base, d, k);
    ExprShift(e.index, d, k);
  }

  lemma {:induction false} AssignShift(e: Expr, d: nat, k: nat)
    requires e.Assign?
    ensures ExprDepth(e, d + k) == ExprDepth(e, d) + k
    decreases e, 0
  {
    ExprShift(e.left, d, k);
    ExprShift(e.right, d, k);
  }

  lemma {:induction false} ReferenceShift(e: Expr, d: nat, k: nat)
    requires e.Reference?
    ensures ExprDepth(e, d + k) == ExprDepth(e, d) + k
    decreases e, 0
  {
    ExprShift(e.inner, d, k);
  }

  lemma {:induction false} UnaryShift(e: Expr, d: nat, k: nat)
    requires e.Unary?
    ensures ExprDepth(e, d + k) == ExprDepth(e, d) + k
    decreases e, 0
  {
    ExprShift(e.inner, d, k);
  }

  lemma {:induction false} CastShift(e: Expr, d: nat, k: nat)
    requires e.Cast?
    ensures ExprDepth(e, d + k) == ExprDepth(e, d) + k
    decreases e, 0
  {
    ExprShift(e.inner, d, k);
  }

  lemma {:induction false} RangeShift(e: Expr, d: nat, k: nat)
    requires e.Range?
    ensures ExprDepth(e, d + k) == ExprDepth(e, d) + k
    decreases e, 0
  {
    OptShift(e.start, d, k);
    OptShift(e.end, d, k);
  }

  lemma {:induction false} StructShift(e: Expr, d: nat, k: nat)
    requires e.Struct?
    ensures ExprDepth(e, d + k) == ExprDepth(e, d) + k
    decreases e, 0
  {
    ExprsShift(e.fields, d, k);
    OptShift(e.rest, d, k);
  }

  lemma {:induction false} ParenShift(e: Expr, d: nat, k: nat)
    requires e.Paren?
    ensures ExprDepth(e, d + k) == ExprDepth(e, d) + k
    decreases e, 0
  {
    ExprShift(e.inner, d, k);
  }

  lemma {:induction false} GroupShift(e: Expr, d: nat, k: nat)
    requires e.Group?
    ensures ExprDepth(e, d + k) == ExprDepth(e, d) + k
    decreases e, 0
  {
    ExprShift(e.inner, d, k);
  }

  lemma {:induction false} OtherShift(e: Expr, d: nat, k: nat)
    requires e.Other?
    ensures ExprDepth(e, d + k) == ExprDepth(e, d) + k
    decreases e, 0
  {
  }
  /** Walking at depth d is d plus walking at depth 0. */
  lemma ExprRelative(e: Expr, d: nat)
    ensures ExprDepth(e, d) == d + ExprDepth(e, 0)
  {
    ExprShift(e, 0, d);
  }

  lemma BlockRelative(b: Block, d: nat)
    ensures BlockDepth(b, d) == d + BlockDepth(b, 0)
  {
    BlockShift(b, 0, d);
  }

  /** Deeper starting points never give shallower results. */
  lemma BlockMonotone(b: Block, d: nat, d': nat)
    requires d <= d'
    ensures BlockDepth(b, d) <= BlockDepth(b, d')
  {
    BlockShift(b, d, d' - d);
  }

  // ---------------------------------------------------------------------
  // The statement fold is a maximum
  // ---------------------------------------------------------------------

  lemma {:induction false} StmtsAppend(a: seq<Stmt>, b: seq<Stmt>, d: nat)
    ensures StmtsDepth(a + b, d) == Max(StmtsDepth(a, d), StmtsDepth(b, d))
  {
    if |a| == 0 {
      assert a + b == b;
    } else {
      assert (a + b)[0] == a[0];
      assert (a + b)[1..] == a[1..] + b;
      StmtsAppend(a[1..], b, d);
    }
  }

  /** Adding a statement to a body never lowers its depth. */
  lemma AppendStatementMonotone(ss: seq<Stmt>, s: Stmt, d: nat)
    ensures BlockDepth(Block(ss + [s]), d) == Max(BlockDepth(Block(ss), d), StmtDepth(s, d))
    ensures BlockDepth(Block(ss + [s]), d) >= BlockDepth(Block(ss), d)
  {
    StmtsAppend(ss, [s], d);
  }

  /** A nested item (a `fn` included) leaves the enclosing function's depth unchanged. */
  lemma NestedItemIgnored(name: string, ss: seq<Stmt>, item: Item)
    ensures Depth(ItemFn(name, Block(ss + [ItemStmt(item)]))) == Depth(ItemFn(name, Block(ss)))
  {
    StmtsAppend(ss, [ItemStmt(item)], 0);
  }

  // ---------------------------------------------------------------------
  // Depth 0 exactly when nothing opens a scope
  // ---------------------------------------------------------------------

  /** No scope-opening construct anywhere the walker looks (nested items are not looked into). */
  predicate ExprScopeFree(e: Expr)
  {
    match e
    case Binary(_, left, right) => ExprScopeFree(left) && ExprScopeFree(right)
    case Try(inner) => ExprScopeFree(inner)
    case Return(value) => OptScopeFree(value)
    case Break(value) => OptScopeFree(value)
    case Call(callee, args) => ExprScopeFree(callee) && ExprsScopeFree(args)
    case MethodCall(receiver, args) => ExprScopeFree(receiver) && ExprsScopeFree(args)
    case Array(elems) => ExprsScopeFree(elems)
    case Tuple(elems) => ExprsScopeFree(elems)
    case Field(base) => ExprScopeFree(base)
    case Index(base, index) => ExprScopeFree(base) && ExprScopeFree(index)
    case Assign(left, right) => ExprScopeFree(left) && ExprScopeFree(right)
    case Reference(inner) => ExprScopeFree(inner)
    case Unary(inner) => ExprScopeFree(inner)
    case Cast(inner) => ExprScopeFree(inner)
    case Range(start, end) => OptScopeFree(start) && OptScopeFree(end)
    case Struct(fields, rest) => ExprsScopeFree(fields) && OptScopeFree(rest)
    case Paren(inner) => ExprScopeFree(inner)
    case Group(inner) => ExprScopeFree(inner)
    case Continue => true
    case Other => true
    case _ => false
  }

  predicate OptScopeFree(o: Option<Expr>)
  {
    match o
    case None => true
    case Some(e) => ExprScopeFree(e)
  }

  predicate ExprsScopeFree(es: seq<Expr>)
  {
    if |es| == 0 then true else ExprScopeFree(es[0]) && ExprsScopeFree(es[1..])
  }

  predicate StmtScopeFree(s: Stmt)
  {
    match s
    case ExprStmt(e) => ExprScopeFree(e)
    case Local(init) => OptScopeFree(init)
    case ItemStmt(_) => true
    case MacroStmt => true
  }

  predicate StmtsScopeFree(ss: seq<Stmt>)
  {
    if |ss| == 0 then true else StmtScopeFree(ss[0]) && StmtsScopeFree(ss[1..])
  }

  lemma {:induction false} ExprFlat(e: Expr, d: nat)
    ensures ExprDepth(e, d) == d <==> ExprScopeFree(e)
    decreases e, 1
  {
    match e
    case Binary(_, _, _) => BinaryFlat(e, d);
    case Try(_) => TryFlat(e, d);
    case Return(_) => ReturnFlat(e, d);
    case Break(_) => BreakFlat(e, d);
    case Continue => ContinueFlat(e, d);
    case Call(_, _) => CallFlat(e, d);
    case MethodCall(_, _) => MethodCallFlat(e, d);
    case Array(_) => ArrayFlat(e, d);
    case Tuple(_) => TupleFlat(e, d);
    case Field(_) => FieldFlat(e, d);
    case Index(_, _) => IndexFlat(e, d);
    case Assign(_, _) => AssignFlat(e, d);
    case Reference(_) => ReferenceFlat(e, d);
    case Unary(_) => UnaryFlat(e, d);
    case Cast(_) => CastFlat(e, d);
    case Range(_, _) => RangeFlat(e, d);
    case Struct(_, _) => StructFlat(e, d);
    case Paren(_) => ParenFlat(e, d);
    case Group(_) => GroupFlat(e, d);
    case Other => OtherFlat(e, d);
    case _ => ScopeIsDeeper(e, d);
  }

  // One lemma per kind of expression that opens no scope; a kind that
  // opens one is deeper than d and not scope-free.

  lemma {:induction false} BinaryFlat(e: Expr, d: nat)
    requires e.Binary?
    ensures ExprDepth(e, d) == d <==> ExprScopeFree(e)
    decreases e, 0
  {
    ExprFlat(e.left, d);
    ExprFlat(e.right, d);
  }

  lemma {:induction false} TryFlat(e: Expr, d: nat)
    requires e.Try?
    ensures ExprDepth(e, d) == d <==> ExprScopeFree(e)
    decreases e, 0
  {
    ExprFlat(e.inner, d);
  }

  lemma {:induction false} ReturnFlat(e: Expr, d: nat)
    requires e.Return?
    ensures ExprDepth(e, d) == d <==> ExprScopeFree(e)
    decreases e, 0
  {
    OptFlat(e.value, d);
  }

  lemma {:induction false} BreakFlat(e: Expr, d: nat)
    requires e.Break?
    ensures ExprDepth(e, d) == d <==> ExprScopeFree(e)
    decreases e, 0
  {
    OptFlat(e.value, d);
  }

  lemma {:induction false} ContinueFlat(e: Expr, d: nat)
    requires e.Continue?
    ensures ExprDepth(e, d) == d <==> ExprScopeFree(e)
    decreases e, 0
  {
  }

  lemma {:induction false} CallFlat(e: Expr, d: nat)
    requires e.Call?
    ensures ExprDepth(e, d) == d <==> ExprScopeFree(e)
    decreases e, 0
  {
    ExprFlat(e.callee, d);
    ExprsFlat(e.args, d);
  }

  lemma {:induction false} MethodCallFlat(e: Expr, d: nat)
    requires e.MethodCall?
    ensures ExprDepth(e, d) == d <==> ExprScopeFree(e)
    decreases e, 0
  {
    ExprFlat(e.receiver, d);
    ExprsFlat(e.args, d);
  }

  lemma {:induction false} ArrayFlat(e: Expr, d: nat)
    requires e.Array?
    ensures ExprDepth(e, d) == d <==> ExprScopeFree(e)
    decreases e, 0
  {
    ExprsFlat(e.elems, d);
  }

  lemma {:induction false} TupleFlat(e: Expr, d: nat)
    requires e.Tuple?
    ensures ExprDepth(e, d) == d <==> ExprScopeFree(e)
    decreases e, 0
  {
    ExprsFlat(e.elems, d);
  }

  lemma {:induction false} FieldFlat(e: Expr, d: nat)
    requires e.Field?
    ensures ExprDepth(e, d) == d <==> ExprScopeFree(e)
    decreases e, 0
  {
    ExprFlat(e.base, d);
  }

  lemma {:induction false} IndexFlat(e: Expr, d: nat)
    requires e.Index?
    ensures ExprDepth(e, d) == d <==> ExprScopeFree(e)
    decreases e, 0
  {
    ExprFlat(e.base, d);
    ExprFlat(e.index, d);
  }

  lemma {:induction false} AssignFlat(e: Expr, d: nat)
    requires e.Assign?
    ensures ExprDepth(e, d) == d <==> ExprScopeFree(e)
    decreases e, 0
  {
    ExprFlat(e.left, d);
    ExprFlat(e.right, d);
  }

  lemma {:induction false} ReferenceFlat(e: Expr, d: nat)
    requires e.Reference?
    ensures ExprDepth(e, d) == d <==> ExprScopeFree(e)
    decreases e, 0
  {
    ExprFlat(e.inner, d);
  }

  lemma {:induction false} UnaryFlat(e: Expr, d: nat)
    requires e.Unary?
    ensures ExprDepth(e, d) == d <==> ExprScopeFree(e)
    decreases e, 0
  {
    ExprFlat(e.inner, d);
  }

  lemma {:induction false} CastFlat(e: Expr, d: nat)
    requires e.Cast?
    ensures ExprDepth(e, d) == d <==> ExprScopeFree(e)
    decreases e, 0
  {
    ExprFlat(e.inner, d);
  }

  lemma {:induction false} RangeFlat(e: Expr, d: nat)
    requires e.Range?
    ensures ExprDepth(e, d) == d <==> ExprScopeFree(e)
    decreases e, 0
  {
    OptFlat(e.start, d);
    OptFlat(e.end, d);
  }

  lemma {:induction false} StructFlat(e: Expr, d: nat)
    requires e.Struct?
    ensures ExprDepth(e, d) == d <==> ExprScopeFree(e)
    decreases e, 0
  {
    ExprsFlat(e.fields, d);
    OptFlat(e.rest, d);
  }

  lemma {:induction false} ParenFlat(e: Expr, d: nat)
    requires e.Paren?
    ensures ExprDepth(e, d) == d <==> ExprScopeFree(e)
    decreases e, 0
  {
    ExprFlat(e.inner, d);
  }

  lemma {:induction false} GroupFlat(e: Expr, d: nat)
    requires e.Group?
    ensures ExprDepth(e, d) == d <==> ExprScopeFree(e)
    decreases e, 0
  {
    ExprFlat(e.inner, d);
  }

  lemma {:induction false} OtherFlat(e: Expr, d: nat)
    requires e.Other?
    ensures ExprDepth(e, d) == d <==> ExprScopeFree(e)
    decreases e, 0
  {
  }
  lemma {:induction false} OptFlat(o: Option<Expr>, d: nat)
    ensures OptDepth(o, d) == d <==> OptScopeFree(o)
  {
    match o
    case None =>
    case Some(e) => ExprFlat(e, d);
  }

  lemma {:induction false} ExprsFlat(es: seq<Expr>, d: nat)
    ensures ExprsDepth(es, d) == d <==> ExprsScopeFree(es)
  {
    if |es| > 0 {
      ExprFlat(es[0], d);
      ExprsFlat(es[1..], d);
    }
  }

  lemma {:induction false} StmtsFlat(ss: seq<Stmt>, d: nat)
    ensures StmtsDepth(ss, d) == d <==> StmtsScopeFree(ss)
  {
    if |ss| > 0 {
      StmtsFlat(ss[1..], d);
      match ss[0]
      case ExprStmt(e) => ExprFlat(e, d);
      case Local(init) => OptFlat(init, d);
      case ItemStmt(_) =>
      case MacroStmt =>
    }
  }

  /**
   * A function's nesting depth is 0 exactly when its body (outside nested
   * items) holds no scope-opening construct.
   */
  lemma FlatBody(f: ItemFn)
    ensures Depth(f) == 0 <==> StmtsScopeFree(f.block.stmts)
  {
    StmtsFlat(f.block.stmts, 0);
  }
}
