/** Small value wrappers shared by every module of the model. */
module Common {

  datatype Option<+T> = None | Some(value: T)

  function Max(a: int, b: int): int
  {
    if a < b then b else a
  }
}

/**
 * The part of a Rust syntax tree that the metrics engine looks at.
 *
 * The parser itself is outside the model: a function body arrives as a
 * value of these types. Every expression kind that a calculator matches
 * explicitly has its own constructor; everything else (literals, paths,
 * macro calls in expression position, `let` patterns, ...) is `Other`,
 * which both calculators treat through their catch-all case.
 */
module Syntax {
  import opened Common

  /** Binary operators, as far as the calculators distinguish them. */
  datatype BinOp = And | Or | OtherOp

  datatype Expr =
    | If(cond: Expr, thenBranch: Block, elseBranch: Option<Expr>)
    | Match(scrutinee: Expr, arms: seq<Arm>)
    | While(cond: Expr, body: Block)
    | ForLoop(iterable: Expr, body: Block)
    | Loop(body: Block)
    | Binary(op: BinOp, left: Expr, right: Expr)
    | Try(inner: Expr)
    | Return(value: Option<Expr>)
    | Break(value: Option<Expr>)
    | Continue
    | BlockExpr(block: Block)
    | Unsafe(block: Block)
    | Async(block: Block)
    | Closure(closureBody: Expr)
    | Call(callee: Expr, args: seq<Expr>)
    | MethodCall(receiver: Expr, args: seq<Expr>)
    | Array(elems: seq<Expr>)
    | Tuple(elems: seq<Expr>)
    | Field(base: Expr)
    | Index(base: Expr, index: Expr)
    | Assign(left: Expr, right: Expr)
    | Reference(inner: Expr)
    | Unary(inner: Expr)
    | Cast(inner: Expr)
    | Range(start: Option<Expr>, end: Option<Expr>)
    | Struct(fields: seq<Expr>, rest: Option<Expr>)
    | Paren(inner: Expr)
    | Group(inner: Expr)
    | Other

  /** A match arm: the pattern is irrelevant to both metrics and is dropped. */
  datatype Arm = Arm(guard: Option<Expr>, body: Expr)

  datatype Block = Block(stmts: seq<Stmt>)

  datatype Stmt =
    | ExprStmt(expr: Expr)
    | Local(init: Option<Expr>)
    | ItemStmt(item: Item)
    | MacroStmt

  /** Items: only functions matter; every other item kind is `OtherItem`. */
  datatype Item = Fn(fn: ItemFn) | OtherItem

  /** A function item: its identifier and its body. */
  datatype ItemFn = ItemFn(name: string, block: Block)
}
