/** The program's entry point: interpret an expression and print its value. */
module Entry {
  import opened Syntax
  import Interp
  import Serialize
  import Decimal

  /** The text the program prints for an expression (the printing itself is left out). */
  function Run(e: Expr): (s: string)
    ensures e.Num? ==> s == Decimal.Show(e.n)
    ensures e.Bool? ==> s == (if e.b then "true" else "false")
    ensures !IsLiteral(e) ==> s == "-1"
  {
    assert Decimal.ShowNat(1) == ['1'];
    Serialize.Serialize(Interp.Interp(e))
  }

  /** The entry point prints `5`. */
  lemma MainOutput()
    ensures Run(Expr.Num(5)) == "5"
  {
    assert Decimal.ShowNat(5) == ['5'];
  }

  /** The printed text determines the integer or boolean literal it came from. */
  lemma RunLiteralInjective(e1: Expr, e2: Expr)
    requires IsLiteral(e1) && IsLiteral(e2)
    ensures Run(e1) == Run(e2) ==> e1 == e2
  {
    Serialize.SerializeInjective(Interp.Interp(e1), Interp.Interp(e2));
  }

}
