/**
 * Rendering of values as text: integers in decimal, booleans as `true` or
 * `false`. `Deserialize` is its inverse on the texts it produces.
 */
module Serialize {
  import opened Wrappers
  import opened Syntax
  import Decimal

  /** Renders a value as its printed text. */
  function Serialize(v: Value): (s: string)
    ensures v.Bool? ==> s == (if v.b then "true" else "false")
    ensures v.Num? ==> Decimal.IsCanonical(s) && (s[0] == '-' <==> v.n < 0)
    ensures v.Num? ==> Decimal.Parse(s) == Some(v.n as int)
    ensures 0 < |s| <= 20
  {
    match v
    case Num(n) =>
      Decimal.ParseShow(n);
      I64TextLength(n);
      Decimal.Show(n)
    case Bool(b) => if b then "true" else "false"
  }

  /** The text of an `i64` has at most 19 digits and a sign. */
  lemma I64TextLength(n: I64)
    ensures |Decimal.Show(n)| <= 20
  {
    assert Decimal.Pow10(1) == 10;
    assert Decimal.Pow10(2) == 100;
    assert Decimal.Pow10(3) == 1000;
    assert Decimal.Pow10(4) == 10000;
    assert Decimal.Pow10(5) == 100000;
    assert Decimal.Pow10(6) == 1000000;
    assert Decimal.Pow10(7) == 10000000;
    assert Decimal.Pow10(8) == 100000000;
    assert Decimal.Pow10(9) == 1000000000;
    assert Decimal.Pow10(10) == 10000000000;
    assert Decimal.Pow10(11) == 100000000000;
    assert Decimal.Pow10(12) == 1000000000000;
    assert Decimal.Pow10(13) == 10000000000000;
    assert Decimal.Pow10(14) == 100000000000000;
    assert Decimal.Pow10(15) == 1000000000000000;
    assert Decimal.Pow10(16) == 10000000000000000;
    assert Decimal.Pow10(17) == 100000000000000000;
    assert Decimal.Pow10(18) == 1000000000000000000;
    assert Decimal.Pow10(19) == 10000000000000000000;
    if n < 0 {
      Decimal.ShowNatLength(-(n as int), 19);
    } else {
      Decimal.ShowNatLength(n, 19);
    }
  }

  /**
   * Reads back a value from its printed text. Only the exact texts
   * `Serialize` produces are accepted: `true`, `false`, and canonical
   * decimal numbers in the `i64` range.
   */
  function Deserialize(s: string): (r: Option<Value>)
    ensures r.Some? && r.value.Num? ==> Decimal.IsCanonical(s)
    ensures r.Some? && r.value.Bool? ==> s == "true" || s == "false"
  {
    if s == "true" then Some(Value.Bool(true))
    else if s == "false" then Some(Value.Bool(false))
    else if Decimal.IsCanonical(s) then
      match Decimal.Parse(s)
      case Some(n) => if MinI64 <= n <= MaxI64 then Some(Value.Num(n)) else None
      case None => None
    else None
  }

  /** Round trip: every value is read back from its text. */
  lemma DeserializeSerialize(v: Value)
    ensures Deserialize(Serialize(v)) == Some(v)
  {
    if v.Num? {
      NumTextIsNotBoolText(v.n);
    }
  }

  /** Every text that is read back is the text of the value read. */
  lemma SerializeDeserialize(s: string)
    ensures Deserialize(s).Some? ==> Serialize(Deserialize(s).value) == s
  {
    if Deserialize(s).Some? && Deserialize(s).value.Num? {
      Decimal.ShowParse(s);
    }
  }

  /** Different values print differently. */
  lemma SerializeInjective(v1: Value, v2: Value)
    ensures Serialize(v1) == Serialize(v2) ==> v1 == v2
  {
    DeserializeSerialize(v1);
    DeserializeSerialize(v2);
  }

  /** No integer prints as `true` or `false`. */
  lemma NumTextIsNotBoolText(n: I64)
    ensures Serialize(Value.Num(n)) != "true" && Serialize(Value.Num(n)) != "false"
  {
    var s := Serialize(Value.Num(n));
    assert s[0] == '-' || Decimal.IsDigit(s[0]);
  }

  /** The printed booleans, as the source's tests expect them. */
  lemma SerializeBools()
    ensures Serialize(Value.Bool(true)) == "true"
    ensures Serialize(Value.Bool(false)) == "false"
  {
  }

  /** The printed `-7`, as the source's test expects it. */
  lemma SerializeMinusSeven()
    ensures Serialize(Value.Num(-7)) == "-7"
  {
    assert Decimal.ShowNat(7) == ['7'];
  }

}
