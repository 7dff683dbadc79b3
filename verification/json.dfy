/** The values Jackson produces when it reads tool arguments into a
    `Map<String, Object>`, and the text `String.valueOf` gives each of them. */
module Json {
  import opened JavaString
  import Decimal

  /** A JSON value as a Java object: `null`, `Boolean`, an integral
      `Number`, a `Double` (a number with a fraction or an exponent),
      `String`, `List`, or a nested object. The `Double.toString` text of a
      `Double` and the `toString` text of an object are carried as given. */
  datatype Value =
    | Null
    | Bool(b: bool)
    | Int(i: int)
    | Double(d: real, text: string)
    | Str(s: string)
    | List(items: seq<Value>)
    | Object(text: string)

  /** The argument object. A key that is absent and a key mapped to JSON
      `null` both read back as `null`. */
  type Args = map<string, Value>

  /** `Map.get`. */
  function Get(m: Args, k: string): (v: Value)
    ensures k !in m ==> v.Null?
    ensures k in m ==> v == m[k]
  {
    if k in m then m[k] else Null
  }

  /** `String.valueOf(v)`: a list prints as `[a, b]` with each element
      printed the same way. */
  function ValueOf(v: Value): string
    decreases v, 1
  {
    match v
    case Null => "null"
    case Bool(b) => if b then "true" else "false"
    case Int(i) => Decimal.IntToDecimal(i)
    case Double(_, text) => text
    case Str(s) => s
    case List(items) => "[" + Join(ValuesOf(items), ", ") + "]"
    case Object(text) => text
  }

  /** Every element printed, as `list.stream().map(String::valueOf)`. */
  function ValuesOf(items: seq<Value>): (r: seq<string>)
    ensures |r| == |items|
    ensures forall k :: 0 <= k < |items| ==> r[k] == ValueOf(items[k])
    decreases items, 0
  {
    if items == [] then [] else [ValueOf(items[0])] + ValuesOf(items[1..])
  }

  /** A list of JSON strings. */
  function Strings(xs: seq<string>): (r: seq<Value>)
    ensures |r| == |xs| && forall k :: 0 <= k < |xs| ==> r[k] == Str(xs[k])
  {
    if xs == [] then [] else [Str(xs[0])] + Strings(xs[1..])
  }

  /** Printing a list of JSON strings element by element gives the strings. */
  lemma {:induction false} ValuesOfStrings(xs: seq<string>)
    ensures ValuesOf(Strings(xs)) == xs
  {
  }
}
