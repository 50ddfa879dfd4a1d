/** The interpreter: literals pass through, every compound node is a placeholder. */
module Interp {
  import opened Syntax

  /**
   * Interprets an expression. It is total: a literal becomes the value of
   * the same kind and payload, and every compound node yields `Num(-1)`
   * whatever its children are.
   */
  function Interp(e: Expr): (v: Value)
    ensures IsLiteral(e) ==> Quote(v) == e
    ensures !IsLiteral(e) ==> v == Value.Num(-1)
    ensures v.Bool? <==> e.Bool?
  {
    match e
    case Num(n) => Value.Num(n)
    case Bool(b) => Value.Bool(b)
    case _ => Value.Num(-1)
  }

  /** The literal expression that denotes a value: the inverse of `Interp` on literals. */
  function Quote(v: Value): (e: Expr)
    ensures IsLiteral(e)
    ensures e.Bool? <==> v.Bool?
  {
    match v
    case Num(n) => Expr.Num(n)
    case Bool(b) => Expr.Bool(b)
  }

  /** Every value is produced by interpreting its own literal. */
  lemma InterpQuote(v: Value)
    ensures Interp(Quote(v)) == v
  {
  }

  /** Quoting the result recovers the expression exactly when it was a literal. */
  lemma QuoteInterp(e: Expr)
    ensures Quote(Interp(e)) == e <==> IsLiteral(e)
  {
  }

  /** Integer literals pass through unchanged. */
  lemma InterpNum(n: I64)
    ensures Interp(Expr.Num(n)) == Value.Num(n)
  {
  }

  /** Boolean literals pass through unchanged. */
  lemma InterpBool(b: bool)
    ensures Interp(Expr.Bool(b)) == Value.Bool(b)
  {
  }

  /** Two compound nodes interpret alike, whatever their kinds and children. */
  lemma CompoundsAgree(e1: Expr, e2: Expr)
    requires !IsLiteral(e1) && !IsLiteral(e2)
    ensures Interp(e1) == Interp(e2) == Value.Num(-1)
  {
  }

  /**
   * The sample program `{{lam {x} {if {<= x 5} true <else>}} 4}`. Its else
   * branch is the floating-point literal `1.0` in the Rust test
   * (src/main.rs:42); floats are not modelled, so it is a parameter here.
   */
  function SampleAst(elseBranch: Expr): (e: Expr)
    ensures e.App? && |e.args| == 1
    ensures e.fun.Fundef? && e.fun.params == ["x"]
  {
    Expr.App(
      Expr.Fundef(["x"],
        Expr.If(Expr.Binop("<=", Expr.Varref("x"), Expr.Num(5)),
                Expr.Bool(true),
                elseBranch)),
      [Expr.Num(4)])
  }

  /** The sample program hits the placeholder arm, for any else branch. */
  lemma SampleAstIsPlaceholder(elseBranch: Expr)
    ensures Interp(SampleAst(elseBranch)) == Value.Num(-1)
  {
  }

}
