/**
 * An independent reading of the complexity walker
 * (src/analyzer/cyclomatic_complexity.rs:56-262): the score is the number
 * of decision points among the nodes the walker visits.
 *
 * The walk is split in two: `*Nodes` lists every node the walker reaches,
 * in visiting order, and `IsDecisionPoint` says which of them open a new
 * path. `Complexity(f) == DecisionCount(FnNodes(f))` then says that no
 * construct carries a weight other than 0 or 1. It also says that the
 * weight depends only on the node's kind. The baseline path of the
 * analysed function, and that of every nested `fn` the walker enters,
 * count as one decision point each.
 */
module DecisionPoints {
  import opened Common
  import opened Syntax
  import opened CyclomaticComplexity

  /** A node reached by the walker. */
  datatype Node = ExprNode(e: Expr) | ArmNode(a: Arm) | FnNode(f: ItemFn)

  /**
   * Conditionals, matches, each match arm, loops, short-circuit operators,
   * `?`, early exits, and the baseline path of each function.
   */
  predicate IsDecisionPoint(n: Node)
  {
    match n
    case FnNode(_) => true
    case ArmNode(_) => true
    case ExprNode(e) =>
      || e.If? || e.Match? || e.While? || e.ForLoop? || e.Loop?
      || (e.Binary? && (e.op == And || e.op == Or))
      || e.Try? || e.Return? || e.Break? || e.Continue?
  }

  /** The number of decision points in a list of nodes. */
  function DecisionCount(ns: seq<Node>): (r: nat)
    ensures r <= |ns|
  {
    if |ns| == 0 then 0
    else (if IsDecisionPoint(ns[0]) then 1 else 0) + DecisionCount(ns[1..])
  }

  function FnNodes(f: ItemFn): seq<Node>
  {
    [FnNode(f)] + BlockNodes(f.block)
  }

  function BlockNodes(b: Block): seq<Node>
  {
    StmtsNodes(b.stmts)
  }

  function StmtsNodes(ss: seq<Stmt>): seq<Node>
  {
    if |ss| == 0 then [] else StmtNodes(ss[0]) + StmtsNodes(ss[1..])
  }

  function StmtNodes(s: Stmt): seq<Node>
  {
    match s
    case ExprStmt(e) => ExprNodes(e)
    case Local(init) => OptNodes(init)
    case ItemStmt(Fn(f)) => FnNodes(f)
    case ItemStmt(OtherItem) => []
    case MacroStmt => []
  }

  function OptNodes(o: Option<Expr>): seq<Node>
  {
    match o
    case None => []
    case Some(e) => ExprNodes(e)
  }

  function ExprsNodes(es: seq<Expr>): seq<Node>
  {
    if |es| == 0 then [] else ExprNodes(es[0]) + ExprsNodes(es[1..])
  }

  function ArmNodes(a: Arm): seq<Node>
  {
    [ArmNode(a)] + OptNodes(a.guard) + ExprNodes(a.body)
  }

  function ArmsNodes(arms: seq<Arm>): seq<Node>
  {
    if |arms| == 0 then [] else ArmNodes(arms[0]) + ArmsNodes(arms[1..])
  }

  function ExprNodes(e: Expr): seq<Node>
    decreases e, 1
  {
    [ExprNode(e)] + ChildNodes(e)
  }

  /** The nodes below `e` that the walker descends into. */
  function ChildNodes(e: Expr): seq<Node>
    decreases e, 0
  {
    match e
    case If(cond, thenBranch, elseBranch) =>
      ExprNodes(cond) + BlockNodes(thenBranch) + OptNodes(elseBranch)
    case Match(scrutinee, arms) => ExprNodes(scrutinee) + ArmsNodes(arms)
    case While(cond, body) => ExprNodes(cond) + BlockNodes(body)
    case ForLoop(iterable, body) => ExprNodes(iterable) + BlockNodes(body)
    case Loop(body) => BlockNodes(body)
    case Binary(_, left, right) => ExprNodes(left) + ExprNodes(right)
    case Try(inner) => ExprNodes(inner)
    case Return(value) => OptNodes(value)
    case Break(value) => OptNodes(value)
    case Continue => []
    case BlockExpr(block) => BlockNodes(block)
    case Unsafe(block) => BlockNodes(block)
    case Async(block) => BlockNodes(block)
    case Closure(body) => ExprNodes(body)
    case Call(callee, args) => ExprNodes(callee) + ExprsNodes(args)
    case MethodCall(receiver, args) => ExprNodes(receiver) + ExprsNodes(args)
    case Array(elems) => ExprsNodes(elems)
    case Tuple(elems) => ExprsNodes(elems)
    case Field(base) => ExprNodes(base)
    case Index(base, index) => ExprNodes(base) + ExprNodes(index)
    case Assign(left, right) => ExprNodes(left) + ExprNodes(right)
    case Reference(inner) => ExprNodes(inner)
    case Unary(inner) => ExprNodes(inner)
    case Cast(inner) => ExprNodes(inner)
    case Range(start, end) => OptNodes(start) + OptNodes(end)
    case Struct(fields, rest) => ExprsNodes(fields) + OptNodes(rest)
    case Paren(inner) => ExprNodes(inner)
    case Group(inner) => ExprNodes(inner)
    case Other => []
  }

  lemma {:induction false} CountAppend(a: seq<Node>, b: seq<Node>)
    ensures DecisionCount(a + b) == DecisionCount(a) + DecisionCount(b)
  {
    if |a| == 0 {
      assert a + b == b;
    } else {
      assert (a + b)[0] == a[0];
      assert (a + b)[1..] == a[1..] + b;
      CountAppend(a[1..], b);
    }
  }

  lemma CountAppend3(a: seq<Node>, b: seq<Node>, c: seq<Node>)
    ensures DecisionCount(a + b + c) == DecisionCount(a) + DecisionCount(b) + DecisionCount(c)
  {
    CountAppend(a + b, c);
    CountAppend(a, b);
  }

  // ---------------------------------------------------------------------
  // The walker's score is the decision-point count of what it visits
  // ---------------------------------------------------------------------

  /** calculate_cyclomatic_complexity counts decision points, baselines included. */
  lemma {:induction false} FnCount(f: ItemFn)
    ensures Complexity(f) == DecisionCount(FnNodes(f))
  {
    CountAppend([FnNode(f)], BlockNodes(f.block));
    BlockCount(f.block);
  }

  lemma {:induction false} BlockCount(b: Block)
    ensures BlockComplexity(b) == DecisionCount(BlockNodes(b))
  {
    StmtsCount(b.stmts);
  }

  lemma {:induction false} StmtsCount(ss: seq<Stmt>)
    ensures StmtsComplexity(ss) == DecisionCount(StmtsNodes(ss))
  {
    if |ss| > 0 {
      CountAppend(StmtNodes(ss[0]), StmtsNodes(ss[1..]));
      StmtCount(ss[0]);
      StmtsCount(ss[1..]);
    }
  }

  lemma {:induction false} StmtCount(s: Stmt)
    ensures StmtComplexity(s) == DecisionCount(StmtNodes(s))
  {
    match s
    case ExprStmt(e) => ExprCount(e);
    case Local(init) => OptCount(init);
    case ItemStmt(Fn(f)) => FnCount(f);
    case ItemStmt(OtherItem) =>
    case MacroStmt =>
  }

  lemma {:induction false} OptCount(o: Option<Expr>)
    ensures OptComplexity(o) == DecisionCount(OptNodes(o))
  {
    match o
    case None =>
    case Some(e) => ExprCount(e);
  }

  lemma {:induction false} ExprsCount(es: seq<Expr>)
    ensures ExprsComplexity(es) == DecisionCount(ExprsNodes(es))
  {
    if |es| > 0 {
      CountAppend(ExprNodes(es[0]), ExprsNodes(es[1..]));
      ExprCount(es[0]);
      ExprsCount(es[1..]);
    }
  }

  lemma {:induction false} ArmCount(a: Arm)
    ensures ArmComplexity(a) == DecisionCount(ArmNodes(a))
  {
    CountAppend3([ArmNode(a)], OptNodes(a.guard), ExprNodes(a.body));
    OptCount(a.guard);
    ExprCount(a.body);
  }

  lemma {:induction false} ArmsCount(arms: seq<Arm>)
    ensures ArmsComplexity(arms) == DecisionCount(ArmsNodes(arms))
  {
    if |arms| > 0 {
      CountAppend(ArmNodes(arms[0]), ArmsNodes(arms[1..]));
      ArmCount(arms[0]);
      ArmsCount(arms[1..]);
    }
  }

  lemma {:induction false} ExprCount(e: Expr)
    ensures ExprComplexity(e) == DecisionCount(ExprNodes(e))
    decreases e, 1
  {
    CountAppend([ExprNode(e)], ChildNodes(e));
    match e
    case If(_, _, _) => IfCount(e);
    case Match(_, _) => MatchCount(e);
    case While(_, _) => WhileCount(e);
    case ForLoop(_, _) => ForLoopCount(e);
    case Loop(_) => LoopCount(e);
    case Binary(_, _, _) => BinaryCount(e);
    case Try(_) => TryCount(e);
    case Return(_) => ReturnCount(e);
    case Break(_) => BreakCount(e);
    case Continue => ContinueCount(e);
    case BlockExpr(_) => BlockExprCount(e);
    case Unsafe(_) => UnsafeCount(e);
    case Async(_) => AsyncCount(e);
    case Closure(_) => ClosureCount(e);
    case Call(_, _) => CallCount(e);
    case MethodCall(_, _) => MethodCallCount(e);
    case Array(_) => ArrayCount(e);
    case Tuple(_) => TupleCount(e);
    case Field(_) => FieldCount(e);
    case Index(_, _) => IndexCount(e);
    case Assign(_, _) => AssignCount(e);
    case Reference(_) => ReferenceCount(e);
    case Unary(_) => UnaryCount(e);
    case Cast(_) => CastCount(e);
    case Range(_, _) => RangeCount(e);
    case Struct(_, _) => StructCount(e);
    case Paren(_) => ParenCount(e);
    case Group(_) => GroupCount(e);
    case Other => OtherCount(e);
  }

  /** The weight of `e` itself: 1 at a decision point, 0 elsewhere. */
  function Own(e: Expr): nat
  {
    if IsDecisionPoint(ExprNode(e)) then 1 else 0
  }

  // One lemma per kind of expression: its score is its own weight plus
  // the decision points below it.

  lemma {:induction false} IfCount(e: Expr)
    requires e.If?
    ensures ExprComplexity(e) == Own(e) + DecisionCount(ChildNodes(e))
    decreases e, 0
  {
    assert ChildNodes(e) == ExprNodes(e.cond) + BlockNodes(e.thenBranch) + OptNodes(e.elseBranch);
    CountAppend3(ExprNodes(e.cond), BlockNodes(e.thenBranch), OptNodes(e.elseBranch));
    ExprCount(e.cond);
    BlockCount(e.thenBranch);
    OptCount(e.elseBranch);
  }

  lemma {:induction false} MatchCount(e: Expr)
    requires e.Match?
    ensures ExprComplexity(e) == Own(e) + DecisionCount(ChildNodes(e))
    decreases e, 0
  {
    assert ChildNodes(e) == ExprNodes(e.scrutinee) + ArmsNodes(e.arms);
    CountAppend(ExprNodes(e.scrutinee), ArmsNodes(e.arms));
    ExprCount(e.scrutinee);
    ArmsCount(e.arms);
  }

  lemma {:induction false} WhileCount(e: Expr)
    requires e.While?
    ensures ExprComplexity(e) == Own(e) + DecisionCount(ChildNodes(e))
    decreases e, 0
  {
    assert ChildNodes(e) == ExprNodes(e.cond) + BlockNodes(e.body);
    CountAppend(ExprNodes(e.cond), BlockNodes(e.body));
    ExprCount(e.cond);
    BlockCount(e.body);
  }

  lemma {:induction false} ForLoopCount(e: Expr)
    requires e.ForLoop?
    ensures ExprComplexity(e) == Own(e) + DecisionCount(ChildNodes(e))
    decreases e, 0
  {
    assert ChildNodes(e) == ExprNodes(e.iterable) + BlockNodes(e.body);
    CountAppend(ExprNodes(e.iterable), BlockNodes(e.body));
    ExprCount(e.iterable);
    BlockCount(e.body);
  }

  lemma {:induction false} LoopCount(e: Expr)
    requires e.Loop?
    ensures ExprComplexity(e) == Own(e) + DecisionCount(ChildNodes(e))
    decreases e, 0
  {
    assert ChildNodes(e) == BlockNodes(e.body);
    BlockCount(e.body);
  }

  lemma {:induction false} BinaryCount(e: Expr)
    requires e.Binary?
    ensures ExprComplexity(e) == Own(e) + DecisionCount(ChildNodes(e))
    decreases e, 0
  {
    assert ChildNodes(e) == ExprNodes(e.left) + ExprNodes(e.right);
    CountAppend(ExprNodes(e.left), ExprNodes(e.right));
    ExprCount(e.left);
    ExprCount(e.right);
  }

  lemma {:induction false} TryCount(e: Expr)
    requires e.Try?
    ensures ExprComplexity(e) == Own(e) + DecisionCount(ChildNodes(e))
    decreases e, 0
  {
    assert ChildNodes(e) == ExprNodes(e.inner);
    ExprCount(e.inner);
  }

  lemma {:induction false} ReturnCount(e: Expr)
    requires e.Return?
    ensures ExprComplexity(e) == Own(e) + DecisionCount(ChildNodes(e))
    decreases e, 0
  {
    assert ChildNodes(e) == OptNodes(e.value);
    OptCount(e.value);
  }

  lemma {:induction false} BreakCount(e: Expr)
    requires e.Break?
    ensures ExprComplexity(e) == Own(e) + DecisionCount(ChildNodes(e))
    decreases e, 0
  {
    assert ChildNodes(e) == OptNodes(e.value);
    OptCount(e.value);
  }

  lemma {:induction false} ContinueCount(e: Expr)
    requires e.Continue?
    ensures ExprComplexity(e) == Own(e) + DecisionCount(ChildNodes(e))
    decreases e, 0
  {
    assert ChildNodes(e) == [];
  }

  lemma {:induction false} BlockExprCount(e: Expr)
    requires e.BlockExpr?
    ensures ExprComplexity(e) == Own(e) + DecisionCount(ChildNodes(e))
    decreases e, 0
  {
    assert ChildNodes(e) == BlockNodes(e.block);
    BlockCount(e.block);
  }

  lemma {:induction false} UnsafeCount(e: Expr)
    requires e.Unsafe?
    ensures ExprComplexity(e) == Own(e) + DecisionCount(ChildNodes(e))
    decreases e, 0
  {
    assert ChildNodes(e) == BlockNodes(e.block);
    BlockCount(e.block);
  }

  lemma {:induction false} AsyncCount(e: Expr)
    requires e.Async?
    ensures ExprComplexity(e) == Own(e) + DecisionCount(ChildNodes(e))
    decreases e, 0
  {
    assert ChildNodes(e) == BlockNodes(e.block);
    BlockCount(e.block);
  }

  lemma {:induction false} ClosureCount(e: Expr)
    requires e.Closure?
    ensures ExprComplexity(e) == Own(e) + DecisionCount(ChildNodes(e))
    decreases e, 0
  {
    assert ChildNodes(e) == ExprNodes(e.closureBody);
    ExprCount(e.closureBody);
  }

  lemma {:induction false} CallCount(e: Expr)
    requires e.Call?
    ensures ExprComplexity(e) == Own(e) + DecisionCount(ChildNodes(e))
    decreases e, 0
  {
    assert ChildNodes(e) == ExprNodes(e.callee) + ExprsNodes(e.args);
    CountAppend(ExprNodes(e.callee), ExprsNodes(e.args));
    ExprCount(e.callee);
    ExprsCount(e.args);
  }

  lemma {:induction false} MethodCallCount(e: Expr)
    requires e.MethodCall?
    ensures ExprComplexity(e) == Own(e) + DecisionCount(ChildNodes(e))
    decreases e, 0
  {
    assert ChildNodes(e) == ExprNodes(e.receiver) + ExprsNodes(e.args);
    CountAppend(ExprNodes(e.receiver), ExprsNodes(e.args));
    ExprCount(e.receiver);
    ExprsCount(e.args);
  }

  lemma {:induction false} ArrayCount(e: Expr)
    requires e.Array?
    ensures ExprComplexity(e) == Own(e) + DecisionCount(ChildNodes(e))
    decreases e, 0
  {
    assert ChildNodes(e) == ExprsNodes(e.elems);
    ExprsCount(e.elems);
  }

  lemma {:induction false} TupleCount(e: Expr)
    requires e.Tuple?
    ensures ExprComplexity(e) == Own(e) + DecisionCount(ChildNodes(e))
    decreases e, 0
  {
    assert ChildNodes(e) == ExprsNodes(e.elems);
    ExprsCount(e.elems);
  }

  lemma {:induction false} FieldCount(e: Expr)
    requires e.Field?
    ensures ExprComplexity(e) == Own(e) + DecisionCount(ChildNodes(e))
    decreases e, 0
  {
    assert ChildNodes(e) == ExprNodes(e.base);
    ExprCount(e.base);
  }

  lemma {:induction false} IndexCount(e: Expr)
    requires e.Index?
    ensures ExprComplexity(e) == Own(e) + DecisionCount(ChildNodes(e))
    decreases e, 0
  {
    assert ChildNodes(e) == ExprNodes(e.base) + ExprNodes(e.index);
    CountAppend(ExprNodes(e.base), ExprNodes(e.index));
    ExprCount(e.base);
    ExprCount(e.index);
  }

  lemma {:induction false} AssignCount(e: Expr)
    requires e.Assign?
    ensures ExprComplexity(e) == Own(e) + DecisionCount(ChildNodes(e))
    decreases e, 0
  {
    assert ChildNodes(e) == ExprNodes(e.left) + ExprNodes(e.right);
    CountAppend(ExprNodes(e.left), ExprNodes(e.right));
    ExprCount(e.left);
    ExprCount(e.right);
  }

  lemma {:induction false} ReferenceCount(e: Expr)
    requires e.Reference?
    ensures ExprComplexity(e) == Own(e) + DecisionCount(ChildNodes(e))
    decreases e, 0
  {
    assert ChildNodes(e) == ExprNodes(e.inner);
    ExprCount(e.inner);
  }

  lemma {:induction false} UnaryCount(e: Expr)
    requires e.Unary?
    ensures ExprComplexity(e) == Own(e) + DecisionCount(ChildNodes(e))
    decreases e, 0
  {
    assert ChildNodes(e) == ExprNodes(e.inner);
    ExprCount(e.inner);
  }

  lemma {:induction false} CastCount(e: Expr)
    requires e.Cast?
    ensures ExprComplexity(e) == Own(e) + DecisionCount(ChildNodes(e))
    decreases e, 0
  {
    assert ChildNodes(e) == ExprNodes(e.inner);
    ExprCount(e.inner);
  }

  lemma {:induction false} RangeCount(e: Expr)
    requires e.Range?
    ensures ExprComplexity(e) == Own(e) + DecisionCount(ChildNodes(e))
    decreases e, 0
  {
    assert ChildNodes(e) == OptNodes(e.start) + OptNodes(e.end);
    CountAppend(OptNodes(e.start), OptNodes(e.end));
    OptCount(e.start);
    OptCount(e.end);
  }

  lemma {:induction false} StructCount(e: Expr)
    requires e.Struct?
    ensures ExprComplexity(e) == Own(e) + DecisionCount(ChildNodes(e))
    decreases e, 0
  {
    assert ChildNodes(e) == ExprsNodes(e.fields) + OptNodes(e.rest);
    CountAppend(ExprsNodes(e.fields), OptNodes(e.rest));
    ExprsCount(e.fields);
    OptCount(e.rest);
  }

  lemma {:induction false} ParenCount(e: Expr)
    requires e.Paren?
    ensures ExprComplexity(e) == Own(e) + DecisionCount(ChildNodes(e))
    decreases e, 0
  {
    assert ChildNodes(e) == ExprNodes(e.inner);
    ExprCount(e.inner);
  }

  lemma {:induction false} GroupCount(e: Expr)
    requires e.Group?
    ensures ExprComplexity(e) == Own(e) + DecisionCount(ChildNodes(e))
    decreases e, 0
  {
    assert ChildNodes(e) == ExprNodes(e.inner);
    ExprCount(e.inner);
  }

  lemma {:induction false} OtherCount(e: Expr)
    requires e.Other?
    ensures ExprComplexity(e) == Own(e) + DecisionCount(ChildNodes(e))
    decreases e, 0
  {
    assert ChildNodes(e) == [];
  }
  /**
   * Consequence: a function's complexity never exceeds the number of nodes
   * the walker visits, and is exactly 1 plus the decision points of its body.
   */
  lemma ComplexityBounds(f: ItemFn)
    ensures Complexity(f) == 1 + DecisionCount(BlockNodes(f.block))
    ensures Complexity(f) <= 1 + |BlockNodes(f.block)|
  {
    FnCount(f);
    CountAppend([FnNode(f)], BlockNodes(f.block));
  }
}
