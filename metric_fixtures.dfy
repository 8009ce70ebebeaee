/**
 * The functions used by the in-file tests of both calculators, written out
 * as syntax trees, with the values those tests expect
 * (src/analyzer/cyclomatic_complexity.rs:269-422,
 * src/analyzer/nesting_depth.rs:249-377, and the same tests in
 * src/complexity_analyzer.rs:510-793).
 *
 * How the trees are read: `println!(...);` in a block is a macro
 * statement; a macro in expression position (an arm body such as
 * `println!("none")`), a literal, a path and a call's callee are `Other`;
 * `x > 0` is a binary expression whose operator is not short-circuit; an
 * `else { ... }` branch is a block expression.
 */
module MetricFixtures {
  import opened Common
  import opened Syntax
  import CC = CyclomaticComplexity
  import ND = NestingDepth

  /** `x > 0`, `val < 0`, `i < 5`: a comparison. */
  const Compare: Expr := Binary(OtherOp, Other, Other)

  /** `{ println!(...); }` */
  const PrintBlock: Block := Block([MacroStmt])

  /** `0..10` */
  const ZeroToTen: Expr := Range(Some(Other), Some(Other))

  function Body(ss: seq<Stmt>): ItemFn
  {
    ItemFn("f", Block(ss))
  }

  // fn simple() { println!("Hello, world!"); }
  const Simple: ItemFn := Body([MacroStmt])

  // fn with_if(x: i32) { if x > 0 { println!("positive"); } }
  const WithIf: ItemFn := Body([ExprStmt(If(Compare, PrintBlock, None))])

  // fn with_if_else(x: i32) { if x > 0 { println!(..); } else { println!(..); } }
  const WithIfElse: ItemFn :=
    Body([ExprStmt(If(Compare, PrintBlock, Some(BlockExpr(PrintBlock))))])

  // fn with_match(x: Option<i32>) { match x { Some(val) => println!(..), None => println!(..), } }
  const WithMatch: ItemFn :=
    Body([ExprStmt(Match(Other, [Arm(None, Other), Arm(None, Other)]))])

  // while true { println!("loop"); }  for i in 0..10 { println!(..); }  loop { break; }
  const WithLoops: ItemFn :=
    Body([ExprStmt(While(Other, PrintBlock)),
          ExprStmt(ForLoop(ZeroToTen, PrintBlock)),
          ExprStmt(Loop(Block([ExprStmt(Break(None))])))])

  // if a && b || c { println!("complex condition"); }
  const WithLogicalOps: ItemFn :=
    Body([ExprStmt(If(Binary(Or, Binary(And, Other, Other), Other), PrintBlock, None))])

  // let result = some_function()?;  Ok(result)
  const WithTry: ItemFn :=
    Body([Local(Some(Try(Call(Other, [])))), ExprStmt(Call(Other, [Other]))])

  // if x < 0 { return 0; }  x * 2
  const WithEarlyReturn: ItemFn :=
    Body([ExprStmt(If(Compare, Block([ExprStmt(Return(Some(Other)))]), None)),
          ExprStmt(Compare)])

  // if x > 0 { if y > 0 { .. } else { .. } } else { .. }
  const NestedConditions: ItemFn :=
    Body([ExprStmt(If(Compare,
                      Block([ExprStmt(If(Compare, PrintBlock, Some(BlockExpr(PrintBlock))))]),
                      Some(BlockExpr(PrintBlock))))])

  // match x { Some(val) if val > 0 => .., Some(val) if val < 0 => .., Some(0) => .., None => .. }
  const ComplexMatch: ItemFn :=
    Body([ExprStmt(Match(Other, [Arm(Some(Compare), Other), Arm(Some(Compare), Other),
                                 Arm(None, Other), Arm(None, Other)]))])

  // if x > 0 { if y > 0 { println!(..); } }
  const NestedIfs: ItemFn :=
    Body([ExprStmt(If(Compare, Block([ExprStmt(If(Compare, PrintBlock, None))]), None))])

  // if true { for i in 0..10 { while true { match i { 0 => { if true { break; } } _ => {} } } } }
  const DeepIf: Expr := If(Other, Block([ExprStmt(Break(None))]), None)
  const DeepMatch: Expr :=
    Match(Other, [Arm(None, BlockExpr(Block([ExprStmt(DeepIf)]))), Arm(None, BlockExpr(Block([])))])
  const DeepWhile: Expr := While(Other, Block([ExprStmt(DeepMatch)]))
  const DeepFor: Expr := ForLoop(ZeroToTen, Block([ExprStmt(DeepWhile)]))
  const DeeplyNested: ItemFn := Body([ExprStmt(If(Other, Block([ExprStmt(DeepFor)]), None))])

  // match x { Some(val) => { if val > 0 { println!(..); } } None => println!("none"), }
  const MatchWithIf: ItemFn :=
    Body([ExprStmt(Match(Other, [Arm(None, BlockExpr(Block([ExprStmt(If(Compare, PrintBlock, None))]))),
                                 Arm(None, Other)]))])

  // for i in 0..10 { while i < 5 { loop { break; } } }
  const InnerLoop: Expr := Loop(Block([ExprStmt(Break(None))]))
  const MiddleWhile: Expr := While(Compare, Block([ExprStmt(InnerLoop)]))
  const NestedLoops: ItemFn := Body([ExprStmt(ForLoop(ZeroToTen, Block([ExprStmt(MiddleWhile)])))])

  // let closure = || { if true { println!(..); } };
  const WithClosure: ItemFn :=
    Body([Local(Some(Closure(BlockExpr(Block([ExprStmt(If(Other, PrintBlock, None))])))))])

  // { { { println!("deep block"); } } }
  const WithBlocks: ItemFn :=
    Body([ExprStmt(BlockExpr(Block([ExprStmt(BlockExpr(Block([ExprStmt(BlockExpr(PrintBlock))])))])))])

  // ---------------------------------------------------------------------
  // One level of the tree at a time
  // ---------------------------------------------------------------------

  /** A comparison weighs nothing and opens no scope. */
  lemma CompareWeights(d: nat)
    ensures CC.ExprComplexity(Compare) == 0
    ensures ND.ExprDepth(Compare, d) == d
  {
  }

  /** So does a range of literals. */
  lemma ZeroToTenWeights(d: nat)
    ensures CC.ExprComplexity(ZeroToTen) == 0
    ensures ND.ExprDepth(ZeroToTen, d) == d
  {
    assert CC.OptComplexity(Some(Other)) == 0;
    assert ND.OptDepth(Some(Other), d) == d;
  }

  /** A block of one statement weighs what that statement weighs, at any depth. */
  lemma OneStatement(s: Stmt, d: nat)
    ensures CC.BlockComplexity(Block([s])) == CC.StmtComplexity(s)
    ensures ND.BlockDepth(Block([s]), d) == ND.StmtDepth(s, d)
  {
    var ss := [s];
    assert ss[0] == s && ss[1..] == [];
    assert CC.StmtsComplexity(ss[1..]) == 0;
    assert ND.StmtsDepth(ss[1..], d) == d;
  }

  /** A function whose body is one statement. */
  lemma OneStatementBody(s: Stmt)
    ensures CC.Complexity(Body([s])) == 1 + CC.StmtComplexity(s)
    ensures ND.Depth(Body([s])) == ND.StmtDepth(s, 0)
  {
    OneStatement(s, 0);
  }

  /** A function's complexity is that of its statement list, plus its baseline. */
  lemma BodyWeights(ss: seq<Stmt>)
    ensures CC.Complexity(Body(ss)) == 1 + CC.StmtsComplexity(ss)
  {
  }

  /** A body of two statements. */
  lemma TwoStatements(a: Stmt, b: Stmt)
    ensures CC.StmtsComplexity([a, b]) == CC.StmtComplexity(a) + CC.StmtComplexity(b)
  {
    CC.StmtsAppend([a], [b]);
    OneStatement(a, 0);
    OneStatement(b, 0);
    assert [a] + [b] == [a, b];
  }

  /** A body of three statements. */
  lemma ThreeStatements(a: Stmt, b: Stmt, c: Stmt)
    ensures CC.StmtsComplexity([a, b, c])
         == CC.StmtComplexity(a) + CC.StmtComplexity(b) + CC.StmtComplexity(c)
  {
    CC.StmtsAppend([a], [b, c]);
    TwoStatements(b, c);
    OneStatement(a, 0);
    assert [a] + [b, c] == [a, b, c];
  }

  /** A match of two arms. */
  lemma TwoArms(a: Arm, b: Arm, d: nat)
    ensures ND.ArmsDepth([a, b], d) == Max(ND.ArmDepth(a, d), ND.ArmDepth(b, d))
  {
    var arms := [a, b];
    assert arms[0] == a && arms[1..] == [b];
    assert [b][0] == b && [b][1..] == [];
    assert ND.ArmsDepth([b], d) == Max(ND.ArmDepth(b, d), ND.ArmsDepth([], d));
  }

  /** `loop { e }` and `{ e }` reach what `e` reaches one level down. */
  lemma ScopeOverOne(e: Expr, d: nat)
    ensures ND.ExprDepth(Loop(Block([ExprStmt(e)])), d) == ND.ExprDepth(e, d + 1)
    ensures ND.ExprDepth(BlockExpr(Block([ExprStmt(e)])), d) == ND.ExprDepth(e, d + 1)
  {
    OneStatement(ExprStmt(e), d + 1);
  }

  /** `if c { e }` reaches what `e` reaches one level down, when `c` opens no scope. */
  lemma IfOverOne(c: Expr, e: Expr, d: nat)
    requires ND.ExprDepth(c, d) == d
    ensures ND.ExprDepth(If(c, Block([ExprStmt(e)]), None), d) == ND.ExprDepth(e, d + 1)
  {
    OneStatement(ExprStmt(e), d + 1);
  }

  /** `while c { e }` likewise. */
  lemma WhileOverOne(c: Expr, e: Expr, d: nat)
    requires ND.ExprDepth(c, d) == d
    ensures ND.ExprDepth(While(c, Block([ExprStmt(e)])), d) == ND.ExprDepth(e, d + 1)
  {
    OneStatement(ExprStmt(e), d + 1);
  }

  /** `for _ in c { e }` likewise. */
  lemma ForOverOne(c: Expr, e: Expr, d: nat)
    requires ND.ExprDepth(c, d) == d
    ensures ND.ExprDepth(ForLoop(c, Block([ExprStmt(e)])), d) == ND.ExprDepth(e, d + 1)
  {
    OneStatement(ExprStmt(e), d + 1);
  }

  /** `{ println!(..); }` weighs nothing and stays where it is. */
  lemma PrintBlockWeights(d: nat)
    ensures CC.BlockComplexity(PrintBlock) == 0
    ensures ND.BlockDepth(PrintBlock, d) == d
  {
    OneStatement(MacroStmt, d);
  }

  /** `if c { println!(..); }`, with or without `else { println!(..); }`. */
  lemma PrintIf(c: Expr, d: nat)
    requires CC.ExprComplexity(c) == 0 && ND.ExprDepth(c, d) == d
    ensures CC.ExprComplexity(If(c, PrintBlock, None)) == 1
    ensures CC.ExprComplexity(If(c, PrintBlock, Some(BlockExpr(PrintBlock)))) == 1
    ensures ND.ExprDepth(If(c, PrintBlock, None), d) == d + 1
  {
    PrintBlockWeights(d + 1);
  }

  /** `loop { break; }` */
  lemma BreakLoop(d: nat)
    ensures CC.ExprComplexity(Loop(Block([ExprStmt(Break(None))]))) == 2
    ensures ND.ExprDepth(Loop(Block([ExprStmt(Break(None))])), d) == d + 1
  {
    OneStatement(ExprStmt(Break(None)), d + 1);
    ScopeOverOne(Break(None), d);
  }

  // ---------------------------------------------------------------------
  // Cyclomatic complexity
  // ---------------------------------------------------------------------

  lemma WithIfComplexity()
    ensures CC.Complexity(WithIf) == 2
  {
    CompareWeights(0);
    PrintIf(Compare, 0);
    OneStatementBody(ExprStmt(If(Compare, PrintBlock, None)));
  }

  lemma WithIfElseComplexity()
    ensures CC.Complexity(WithIfElse) == 2
  {
    CompareWeights(0);
    PrintIf(Compare, 0);
    OneStatementBody(ExprStmt(If(Compare, PrintBlock, Some(BlockExpr(PrintBlock)))));
  }

  /** The outer `if` of `NestedConditions`: its own path plus the inner `if`. */
  lemma OuterConditionWeighs()
    ensures CC.ExprComplexity(If(Compare,
                                 Block([ExprStmt(If(Compare, PrintBlock, Some(BlockExpr(PrintBlock))))]),
                                 Some(BlockExpr(PrintBlock)))) == 2
  {
    CompareWeights(0);
    PrintIf(Compare, 0);
    PrintBlockWeights(0);
    OneStatement(ExprStmt(If(Compare, PrintBlock, Some(BlockExpr(PrintBlock)))), 0);
  }

  lemma NestedConditionsComplexity()
    ensures CC.Complexity(NestedConditions) == 3
  {
    OuterConditionWeighs();
    OneStatementBody(ExprStmt(If(Compare,
                                 Block([ExprStmt(If(Compare, PrintBlock, Some(BlockExpr(PrintBlock))))]),
                                 Some(BlockExpr(PrintBlock)))));
  }

  lemma WithMatchComplexity()
    ensures CC.Complexity(WithMatch) == 4
  {
    var plain := [Arm(None, Other), Arm(None, Other)];
    CC.MatchOfTrivialArms(Other, plain);
    OneStatementBody(ExprStmt(Match(Other, plain)));
  }

  lemma ComplexMatchComplexity()
    ensures CC.Complexity(ComplexMatch) == 6
  {
    var guarded := [Arm(Some(Compare), Other), Arm(Some(Compare), Other),
                    Arm(None, Other), Arm(None, Other)];
    CompareWeights(0);
    CC.MatchOfTrivialArms(Other, guarded);
    OneStatementBody(ExprStmt(Match(Other, guarded)));
  }

  /** `while true { println!(..); }` and `for i in 0..10 { println!(..); }` weigh 1 each. */
  lemma PrintLoopsWeigh()
    ensures CC.StmtComplexity(ExprStmt(While(Other, PrintBlock))) == 1
    ensures CC.StmtComplexity(ExprStmt(ForLoop(ZeroToTen, PrintBlock))) == 1
  {
    PrintBlockWeights(0);
    ZeroToTenWeights(0);
  }

  lemma LoopsComplexity()
    ensures CC.Complexity(WithLoops) == 5
  {
    PrintLoopsWeigh();
    BreakLoop(0);
    BodyWeights(WithLoops.block.stmts);
    ThreeStatements(ExprStmt(While(Other, PrintBlock)),
                    ExprStmt(ForLoop(ZeroToTen, PrintBlock)),
                    ExprStmt(Loop(Block([ExprStmt(Break(None))]))));
  }

  lemma LogicalOpsComplexity()
    ensures CC.Complexity(WithLogicalOps) == 4
  {
    var cond := Binary(Or, Binary(And, Other, Other), Other);
    assert CC.ExprComplexity(cond) == 2;
    PrintBlockWeights(0);
    OneStatementBody(ExprStmt(If(cond, PrintBlock, None)));
  }

  /** `let result = some_function()?;` weighs 1. */
  lemma TryStatementWeighs()
    ensures CC.StmtComplexity(Local(Some(Try(Call(Other, []))))) == 1
  {
    assert CC.ExprComplexity(Call(Other, [])) == 0;
  }

  /** `Ok(result)` weighs nothing. */
  lemma OkStatementWeighs()
    ensures CC.StmtComplexity(ExprStmt(Call(Other, [Other]))) == 0
  {
    assert [Other][1..] == [];
    assert CC.ExprsComplexity([Other]) == 0;
  }

  lemma TryComplexity()
    ensures CC.Complexity(WithTry) == 2
  {
    TryStatementWeighs();
    OkStatementWeighs();
    BodyWeights(WithTry.block.stmts);
    TwoStatements(Local(Some(Try(Call(Other, [])))), ExprStmt(Call(Other, [Other])));
  }

  /** `if x < 0 { return 0; }`: the `if` and the `return`. */
  lemma GuardedReturnWeighs()
    ensures CC.StmtComplexity(ExprStmt(If(Compare, Block([ExprStmt(Return(Some(Other)))]), None))) == 2
  {
    CompareWeights(0);
    OneStatement(ExprStmt(Return(Some(Other))), 0);
  }

  lemma EarlyReturnComplexity()
    ensures CC.Complexity(WithEarlyReturn) == 3
  {
    GuardedReturnWeighs();
    CompareWeights(0);
    BodyWeights(WithEarlyReturn.block.stmts);
    TwoStatements(ExprStmt(If(Compare, Block([ExprStmt(Return(Some(Other)))]), None)),
                  ExprStmt(Compare));
  }

  /** The expected complexities of the cyclomatic-complexity tests. */
  lemma ComplexityFixtures()
    ensures CC.Complexity(Simple) == 1
    ensures CC.Complexity(WithIf) == 2
    ensures CC.Complexity(WithIfElse) == 2
    ensures CC.Complexity(WithMatch) == 4
    ensures CC.Complexity(WithLoops) == 5
    ensures CC.Complexity(WithLogicalOps) == 4
    ensures CC.Complexity(WithTry) == 2
    ensures CC.Complexity(WithEarlyReturn) == 3
    ensures CC.Complexity(NestedConditions) == 3
    ensures CC.Complexity(ComplexMatch) == 6
  {
    OneStatementBody(MacroStmt);
    WithIfComplexity();
    WithIfElseComplexity();
    WithMatchComplexity();
    LoopsComplexity();
    LogicalOpsComplexity();
    TryComplexity();
    EarlyReturnComplexity();
    NestedConditionsComplexity();
    ComplexMatchComplexity();
  }

  // ---------------------------------------------------------------------
  // Nesting depth
  // ---------------------------------------------------------------------

  lemma WithIfDepth()
    ensures ND.Depth(WithIf) == 1
  {
    CompareWeights(0);
    PrintIf(Compare, 0);
    OneStatementBody(ExprStmt(If(Compare, PrintBlock, None)));
  }

  /** `if c { if c { println!(..); } }` reaches two levels below `d`. */
  lemma IfOverPrintIf(c: Expr, d: nat)
    requires CC.ExprComplexity(c) == 0
    requires ND.ExprDepth(c, d) == d && ND.ExprDepth(c, d + 1) == d + 1
    ensures ND.ExprDepth(If(c, Block([ExprStmt(If(c, PrintBlock, None))]), None), d) == d + 2
  {
    PrintIf(c, d + 1);
    IfOverOne(c, If(c, PrintBlock, None), d);
  }

  /** The outer `if` of `NestedIfs`, one level above the inner one. */
  lemma OuterIfDepth()
    ensures ND.ExprDepth(If(Compare, Block([ExprStmt(If(Compare, PrintBlock, None))]), None), 0) == 2
  {
    CompareWeights(0);
    CompareWeights(1);
    IfOverPrintIf(Compare, 0);
  }

  lemma NestedIfsDepth()
    ensures ND.Depth(NestedIfs) == 2
  {
    OuterIfDepth();
    OneStatementBody(ExprStmt(If(Compare, Block([ExprStmt(If(Compare, PrintBlock, None))]), None)));
  }

  /** `if true { break; }`, reached at depth 5. */
  lemma DeepIfDepth()
    ensures ND.ExprDepth(DeepIf, 5) == 6
  {
    IfOverOne(Other, Break(None), 5);
  }

  /** The arm `0 => { if true { break; } }` at depth 4. */
  lemma FirstDeepArmDepth()
    ensures ND.ArmDepth(Arm(None, BlockExpr(Block([ExprStmt(DeepIf)]))), 4) == 6
  {
    DeepIfDepth();
    ScopeOverOne(DeepIf, 4);
  }

  /** The arm `_ => {}` at depth 4. */
  lemma SecondDeepArmDepth()
    ensures ND.ArmDepth(Arm(None, BlockExpr(Block([]))), 4) == 5
  {
  }

  lemma DeepMatchDepth()
    ensures ND.ExprDepth(DeepMatch, 3) == 6
  {
    FirstDeepArmDepth();
    SecondDeepArmDepth();
    TwoArms(Arm(None, BlockExpr(Block([ExprStmt(DeepIf)]))), Arm(None, BlockExpr(Block([]))), 4);
  }

  lemma DeepWhileDepth()
    ensures ND.ExprDepth(DeepWhile, 2) == 6
  {
    DeepMatchDepth();
    WhileOverOne(Other, DeepMatch, 2);
  }

  lemma DeepForDepth()
    ensures ND.ExprDepth(DeepFor, 1) == 6
  {
    DeepWhileDepth();
    ZeroToTenWeights(1);
    ForOverOne(ZeroToTen, DeepWhile, 1);
  }

  lemma DeeplyNestedDepth()
    ensures ND.Depth(DeeplyNested) == 6
  {
    DeepForDepth();
    IfOverOne(Other, DeepFor, 0);
    OneStatementBody(ExprStmt(If(Other, Block([ExprStmt(DeepFor)]), None)));
  }

  /** The arm `Some(val) => { if val > 0 { println!(..); } }` at depth 1. */
  lemma IfArmDepth()
    ensures ND.ArmDepth(Arm(None, BlockExpr(Block([ExprStmt(If(Compare, PrintBlock, None))]))), 1) == 3
  {
    CompareWeights(2);
    PrintIf(Compare, 2);
    ScopeOverOne(If(Compare, PrintBlock, None), 1);
  }

  lemma MatchWithIfArms()
    ensures ND.ExprDepth(Match(Other, [Arm(None, BlockExpr(Block([ExprStmt(If(Compare, PrintBlock, None))]))),
                                      Arm(None, Other)]), 0) == 3
  {
    IfArmDepth();
    TwoArms(Arm(None, BlockExpr(Block([ExprStmt(If(Compare, PrintBlock, None))]))), Arm(None, Other), 1);
  }

  lemma MatchWithIfDepth()
    ensures ND.Depth(MatchWithIf) == 3
  {
    MatchWithIfArms();
    OneStatementBody(ExprStmt(Match(Other, [Arm(None, BlockExpr(Block([ExprStmt(If(Compare, PrintBlock, None))]))),
                                            Arm(None, Other)])));
  }

  lemma MiddleWhileDepth()
    ensures ND.ExprDepth(MiddleWhile, 1) == 3
  {
    BreakLoop(2);
    CompareWeights(1);
    WhileOverOne(Compare, InnerLoop, 1);
  }

  lemma NestedLoopsDepth()
    ensures ND.Depth(NestedLoops) == 3
  {
    MiddleWhileDepth();
    ZeroToTenWeights(0);
    ForOverOne(ZeroToTen, MiddleWhile, 0);
    OneStatementBody(ExprStmt(ForLoop(ZeroToTen, Block([ExprStmt(MiddleWhile)]))));
  }

  /** `{ if true { .. } }` at depth 1. */
  lemma BlockedIfDepth()
    ensures ND.ExprDepth(BlockExpr(Block([ExprStmt(If(Other, PrintBlock, None))])), 1) == 3
  {
    PrintIf(Other, 2);
    ScopeOverOne(If(Other, PrintBlock, None), 1);
  }

  /** The closure's body `{ if true { .. } }`, one level down from the `let`. */
  lemma ClosureBodyDepth()
    ensures ND.ExprDepth(Closure(BlockExpr(Block([ExprStmt(If(Other, PrintBlock, None))]))), 0) == 3
  {
    BlockedIfDepth();
  }

  lemma ClosureDepth()
    ensures ND.Depth(WithClosure) == 3
  {
    ClosureBodyDepth();
    OneStatementBody(Local(Some(Closure(BlockExpr(Block([ExprStmt(If(Other, PrintBlock, None))]))))));
  }

  lemma BlocksDepth()
    ensures ND.Depth(WithBlocks) == 3
  {
    PrintBlockWeights(3);
    var b1 := BlockExpr(PrintBlock);
    ScopeOverOne(b1, 1);
    var b2 := BlockExpr(Block([ExprStmt(b1)]));
    ScopeOverOne(b2, 0);
    OneStatementBody(ExprStmt(BlockExpr(Block([ExprStmt(b2)]))));
  }

  /** The expected depths of the nesting-depth tests. */
  lemma NestingFixtures()
    ensures ND.Depth(Simple) == 0
    ensures ND.Depth(WithIf) == 1
    ensures ND.Depth(NestedIfs) == 2
    ensures ND.Depth(DeeplyNested) == 6
    ensures ND.Depth(MatchWithIf) == 3
    ensures ND.Depth(NestedLoops) == 3
    ensures ND.Depth(WithClosure) == 3
    ensures ND.Depth(WithBlocks) == 3
  {
    OneStatementBody(MacroStmt);
    WithIfDepth();
    NestedIfsDepth();
    DeeplyNestedDepth();
    MatchWithIfDepth();
    NestedLoopsDepth();
    ClosureDepth();
    BlocksDepth();
  }
}
