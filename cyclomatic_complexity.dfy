/**
 * Cyclomatic complexity of a function (src/analyzer/cyclomatic_complexity.rs).
 *
 * A function starts at 1 (its baseline path); every statement and every
 * sub-expression that the walker visits adds its own weight. The Rust
 * walker accumulates with `let mut complexity` loops over statements,
 * arms and arguments; those loops are plain sums, written here as
 * recursive functions over the sequences.
 */
module CyclomaticComplexity {
  import opened Common
  import opened Syntax

  /** calculate_cyclomatic_complexity: baseline 1 plus the body. */
  function Complexity(f: ItemFn): (r: nat)
    ensures r >= 1
  {
    1 + BlockComplexity(f.block)
  }

  /** analyze_block: the sum over the block's statements. */
  function BlockComplexity(b: Block): nat
  {
    StmtsComplexity(b.stmts)
  }

  function StmtsComplexity(ss: seq<Stmt>): nat
  {
    if |ss| == 0 then 0 else StmtComplexity(ss[0]) + StmtsComplexity(ss[1..])
  }

  /** analyze_statement: macros count 0, nested items go through ItemComplexity. */
  function StmtComplexity(s: Stmt): nat
  {
    match s
    case ExprStmt(e) => ExprComplexity(e)
    case Local(init) => OptComplexity(init)
    case ItemStmt(item) => ItemComplexity(item)
    case MacroStmt => 0
  }

  /** analyze_item: a nested `fn` brings its whole complexity, baseline included. */
  function ItemComplexity(item: Item): nat
  {
    match item
    case Fn(f) => Complexity(f)
    case OtherItem => 0
  }

  /** An optional sub-expression (`else`, `let` initializer, guard, return value, ...). */
  function OptComplexity(o: Option<Expr>): nat
  {
    match o
    case None => 0
    case Some(e) => ExprComplexity(e)
  }

  function ExprsComplexity(es: seq<Expr>): nat
  {
    if |es| == 0 then 0 else ExprComplexity(es[0]) + ExprsComplexity(es[1..])
  }

  /** analyze_match_arm: 1 per arm, plus its guard and its body. */
  function ArmComplexity(a: Arm): nat
  {
    1 + OptComplexity(a.guard) + ExprComplexity(a.body)
  }

  function ArmsComplexity(arms: seq<Arm>): nat
  {
    if |arms| == 0 then 0 else ArmComplexity(arms[0]) + ArmsComplexity(arms[1..])
  }

  /** The weight of a short-circuit operator: 1 for `&&` and `||`, 0 otherwise. */
  function OpWeight(op: BinOp): nat
  {
    match op
    case And => 1
    case Or => 1
    case OtherOp => 0
  }

  /** analyze_expression */
  function ExprComplexity(e: Expr): nat
  {
    match e
    case If(cond, thenBranch, elseBranch) =>
      1 + ExprComplexity(cond) + BlockComplexity(thenBranch) + OptComplexity(elseBranch)
    case Match(scrutinee, arms) => 1 + ExprComplexity(scrutinee) + ArmsComplexity(arms)
    case While(cond, body) => 1 + ExprComplexity(cond) + BlockComplexity(body)
    case ForLoop(iterable, body) => 1 + ExprComplexity(iterable) + BlockComplexity(body)
    case Loop(body) => 1 + BlockComplexity(body)
    case Binary(op, left, right) => OpWeight(op) + ExprComplexity(left) + ExprComplexity(right)
    case Try(inner) => 1 + ExprComplexity(inner)
    case Return(value) => 1 + OptComplexity(value)
    case Break(value) => 1 + OptComplexity(value)
    case Continue => 1
    case BlockExpr(block) => BlockComplexity(block)
    case Unsafe(block) => BlockComplexity(block)
    case Async(block) => BlockComplexity(block)
    case Closure(body) => ExprComplexity(body)
    case Call(callee, args) => ExprComplexity(callee) + ExprsComplexity(args)
    case MethodCall(receiver, args) => ExprComplexity(receiver) + ExprsComplexity(args)
    case Array(elems) => ExprsComplexity(elems)
    case Tuple(elems) => ExprsComplexity(elems)
    case Field(base) => ExprComplexity(base)
    case Index(base, index) => ExprComplexity(base) + ExprComplexity(index)
    case Assign(left, right) => ExprComplexity(left) + ExprComplexity(right)
    case Reference(inner) => ExprComplexity(inner)
    case Unary(inner) => ExprComplexity(inner)
    case Cast(inner) => ExprComplexity(inner)
    case Range(start, end) => OptComplexity(start) + OptComplexity(end)
    case Struct(fields, rest) => ExprsComplexity(fields) + OptComplexity(rest)
    case Paren(inner) => ExprComplexity(inner)
    case Group(inner) => ExprComplexity(inner)
    case Other => 0
  }

  // ---------------------------------------------------------------------
  // Properties
  // ---------------------------------------------------------------------

  /** The block sum distributes over concatenation of statement lists. */
  lemma {:induction false} StmtsAppend(a: seq<Stmt>, b: seq<Stmt>)
    ensures StmtsComplexity(a + b) == StmtsComplexity(a) + StmtsComplexity(b)
  {
    if |a| == 0 {
      assert a + b == b;
    } else {
      assert (a + b)[0] == a[0];
      assert (a + b)[1..] == a[1..] + b;
      StmtsAppend(a[1..], b);
    }
  }

  /** Appending one statement to a body adds exactly that statement's weight. */
  lemma AppendStatement(name: string, ss: seq<Stmt>, s: Stmt)
    ensures Complexity(ItemFn(name, Block(ss + [s])))
         == Complexity(ItemFn(name, Block(ss))) + StmtComplexity(s)
  {
    StmtsAppend(ss, [s]);
  }

  /** A body made only of macro statements (or an empty body) has complexity exactly 1. */
  lemma {:induction false} MacroOnlyStmts(ss: seq<Stmt>)
    requires forall i :: 0 <= i < |ss| ==> ss[i].MacroStmt?
    ensures StmtsComplexity(ss) == 0
  {
    if |ss| > 0 {
      MacroOnlyStmts(ss[1..]);
    }
  }

  lemma MacroOnlyBody(f: ItemFn)
    requires forall i :: 0 <= i < |f.block.stmts| ==> f.block.stmts[i].MacroStmt?
    ensures Complexity(f) == 1
  {
    MacroOnlyStmts(f.block.stmts);
  }

  /**
   * A nested `fn` statement is folded into the enclosing function's score
   * with its own baseline: the parent grows by the child's full complexity,
   * which is at least 1.
   */
  lemma NestedFnIsAdded(name: string, ss: seq<Stmt>, g: ItemFn)
    ensures Complexity(ItemFn(name, Block(ss + [ItemStmt(Fn(g))])))
         == Complexity(ItemFn(name, Block(ss))) + Complexity(g)
    ensures Complexity(ItemFn(name, Block(ss + [ItemStmt(Fn(g))])))
         >= Complexity(ItemFn(name, Block(ss))) + 1
  {
    AppendStatement(name, ss, ItemStmt(Fn(g)));
  }

  /** Every arm adds at least 1, guarded or not. */
  lemma {:induction false} ArmsAtLeastCount(arms: seq<Arm>)
    ensures ArmsComplexity(arms) >= |arms|
  {
    if |arms| > 0 {
      ArmsAtLeastCount(arms[1..]);
    }
  }

  /** Arms whose guards and bodies contribute nothing add exactly one each. */
  lemma {:induction false} TrivialArms(arms: seq<Arm>)
    requires forall i :: 0 <= i < |arms| ==>
      OptComplexity(arms[i].guard) == 0 && ExprComplexity(arms[i].body) == 0
    ensures ArmsComplexity(arms) == |arms|
  {
    if |arms| > 0 {
      TrivialArms(arms[1..]);
    }
  }

  /** A match with N trivial arms over a trivial scrutinee weighs N + 1, with or without guards. */
  lemma MatchOfTrivialArms(scrutinee: Expr, arms: seq<Arm>)
    requires ExprComplexity(scrutinee) == 0
    requires forall i :: 0 <= i < |arms| ==>
      OptComplexity(arms[i].guard) == 0 && ExprComplexity(arms[i].body) == 0
    ensures ExprComplexity(Match(scrutinee, arms)) == |arms| + 1
  {
    TrivialArms(arms);
  }
}
