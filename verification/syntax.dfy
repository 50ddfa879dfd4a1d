/**
 * The abstract syntax of UIRE expressions and the runtime values the
 * interpreter produces. Rust's `i64` is the bounded subset `I64` of `int`;
 * the floating-point variants are not part of this model.
 */
module Syntax {

  const MinI64: int := -0x8000_0000_0000_0000
  const MaxI64: int := 0x7FFF_FFFF_FFFF_FFFF

  /** A signed 64-bit integer, as Rust's `i64`. */
  type I64 = x: int | MinI64 <= x <= MaxI64

  /** An expression tree; children are owned by their parent node. */
  datatype Expr =
    | Bool(b: bool)
    | Num(n: I64)
    | Binop(op: string, l: Expr, r: Expr)
    | If(c: Expr, t: Expr, f: Expr)
    | Varref(name: string)
    | App(fun: Expr, args: seq<Expr>)
    | Fundef(params: seq<string>, body: Expr)

  /** The result of interpreting an expression. */
  datatype Value =
    | Bool(b: bool)
    | Num(n: I64)

  /** Literal nodes are the only ones the interpreter evaluates for real. */
  predicate IsLiteral(e: Expr) {
    e.Bool? || e.Num?
  }

}
