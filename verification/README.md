# UIRE interpreter core, modelled in Dafny

UIRE is a small Scheme-like expression language. This snapshot of its Rust
implementation (`src/main.rs`) holds the expression tree (`Expr`), the runtime
values (`Value`), an interpreter `interp` and a printer `serialize`, composed
by `main` as `serialize(interp(Num(5)))`.

The interpreter is still a stub: integer and boolean literals pass straight
through, and every compound node (`Binop`, `If`, `Varref`, `App`, `Fundef`)
falls into a placeholder arm that returns `Num(-1)`. The printer renders an
integer as its decimal text and a boolean as `true` or `false`.

The model:

- `syntax.dfy` (`Syntax`): `Expr` and `Value` as datatypes, with Rust's `i64`
  as the subset type `I64` of `int`.
- `interp.dfy` (`Interp`): `Interp`, its inverse `Quote` on literals, and the
  sample program of the source's `sample_ast` test.
- `decimal.dfy` (`Decimal`): the decimal text of integers (`Show`), a small
  parser (`Parse`) that is a left inverse of `Show` (it also accepts leading
  zeros and `-0`; `ShowParse` shows the canonical texts are exactly `Show`'s image), and a digit-by-digit renderer
  (`RenderNat`, `Render`) proved equal to `Show`.
- `serialize.dfy` (`Serialize`): `Serialize` and the partial inverse
  `Deserialize`, with round trips in both directions.
- `entry.dfy` (`Entry`): the composition `main` prints.
- `wrappers.dfy` (`Wrappers`): the `Option` type.

Every compound node falls into the placeholder arm at `src/main.rs:56-57`,
marked `// TODO`, and returns `Num(-1)`; the model follows this.

## Model

| member | source | states |
|---|---|---|
| Interp.Interp | src/main.rs:51-58 | interpretation is total; a literal yields the value of the same kind and payload, every compound node yields `Num(-1)`, and the result is a boolean exactly when the expression is a boolean literal |
| Interp.Quote | src/main.rs:53-54 | every value has a literal expression of the same kind (that it denotes the value is `Interp.InterpQuote`) |
| Interp.SampleAst | src/main.rs:30-46 | the sample program: an application of a one-parameter lambda to one argument, else branch abstracted |
| Interp.InterpQuote | src/main.rs:53-54 | interpreting the literal of a value gives that value back |
| Interp.QuoteInterp | src/main.rs:51-58 | quoting the result recovers the expression exactly when the expression is a literal |
| Interp.InterpNum | src/main.rs:53 | every `i64` literal interprets to the same integer |
| Interp.InterpBool | src/main.rs:54 | both boolean literals interpret to the same boolean |
| Interp.CompoundsAgree | src/main.rs:56-57 | any two compound nodes, whatever their kinds and children, interpret to `Num(-1)` |
| Interp.SampleAstIsPlaceholder | src/main.rs:30-46 | the sample program (a lambda applied to `4`) interprets to `Num(-1)`, for any else branch |
| Decimal.ShowNat | src/main.rs:71 | the digits of a natural number are non-empty, all decimal digits, with no leading zero, and are `0` only for zero |
| Decimal.Show | src/main.rs:71 | the decimal text of an integer is canonical and starts with `-` exactly when the integer is negative |
| Decimal.DigitsValueOfShowNat | src/main.rs:71 | reading back the digits of a natural number gives the number |
| Decimal.ShowNatOfDigitsValue | src/main.rs:71 | printing the value of any canonical digit string gives the string back |
| Decimal.ParseShow | src/main.rs:71 | parsing the text of any integer gives the integer back |
| Decimal.ShowParse | src/main.rs:71 | every canonical text parses, and is the text of the number it parses to |
| Decimal.ShowInjective | src/main.rs:71 | different integers have different texts |
| Decimal.ShowNatLength | src/main.rs:71 | a number below `10^k` has at most `k` digits |
| Decimal.RenderNat | src/main.rs:71 | filling digits from the least significant end yields the digits of the number |
| Decimal.Render | src/main.rs:71 | the digit-filling renderer with a sign in front yields the decimal text of the integer |
| Serialize.Serialize | src/main.rs:69-75 | a boolean prints as `true` or `false`; an integer prints as canonical decimal text, signed exactly when negative, that parses back to it; every text is non-empty and at most 20 characters |
| Serialize.I64TextLength | src/main.rs:71 | the text of an `i64` is at most 20 characters long |
| Serialize.Deserialize | src/main.rs:69-75 | only canonical decimal texts read back as integers and only `true`/`false` as booleans |
| Serialize.DeserializeSerialize | src/main.rs:69-75 | every integer and boolean value is read back from its printed text |
| Serialize.SerializeDeserialize | src/main.rs:69-75 | every text that reads back as a value is exactly that value's printed text |
| Serialize.SerializeInjective | src/main.rs:69-75 | distinct integer and boolean values print differently |
| Serialize.NumTextIsNotBoolText | src/main.rs:71-72 | no integer prints as `true` or `false` |
| Serialize.SerializeBools | src/main.rs:81-82 | `true` and `false` print as `true` and `false` |
| Serialize.SerializeMinusSeven | src/main.rs:79 | `-7` prints as `-7` |
| Entry.Run | src/main.rs:87 | the printed text of an integer literal is its decimal text, of a boolean literal `true`/`false`, and of any compound node `-1` |
| Entry.MainOutput | src/main.rs:87 | the entry point prints `5` |
| Entry.RunLiteralInjective | src/main.rs:87 | distinct integer and boolean literals print differently |

## Left out

- The `Float(f64)` variants of `Expr` and `Value`, their interpreter arm and their printing with Rust's float formatting: floating point is not modelled. The sample program's floating-point else branch is therefore a parameter of `Interp.SampleAst`.
- `Serialize.SerializeInjective`, `Serialize.DeserializeSerialize`, `Entry.RunLiteralInjective`: these hold for integer and boolean values only; in the program `Float(1.0)` prints as `1`, like `Num(1)`, and `Float(-1.0)` prints as `-1`, like every compound node.
- The `println!` in `main`: console output; `Entry.Run` is the text it would print.
- Environments, closures, arithmetic, conditionals and errors: the code does not implement them (the placeholder arm returns `Num(-1)`), so the model does not invent them.
- `Box` ownership and the derived `Debug`; the derived `PartialEq` is Dafny's structural equality on datatypes.
- Rust's integer formatting is library code, not part of this model; `Decimal.Show` and `Decimal.Render` state the decimal text it produces. `Decimal.Parse` and `Serialize.Deserialize` are not in the source: they exist to state the round trips.
