/** The closed set of JavaScript values the builder's arguments can carry,
    with the two conversions the builder relies on: JavaScript truthiness
    (`value || null`) and string conversion (`'' + value`, `array.join`). */
module Values {
  import opened Text

  /** `Obj` is a plain (non-array) object, its own properties in enumeration
      order. Its string form never depends on them; only `protectIdentifiers`
      looks inside one, when a batch insert is given an object as its table. */
  datatype Value = Null | Bool(b: bool) | Num(n: int) | Str(s: string) | Obj(fields: seq<(string, Value)>) | List(items: seq<Value>)

  /** JavaScript truthiness. */
  predicate Truthy(v: Value) {
    match v
    case Null => false
    case Bool(b) => b
    case Num(n) => n != 0
    case Str(s) => s != ""
    case Obj(_) => true
    case List(_) => true
  }

  /** `v || null`, as the `where` entry points apply it. */
  function OrNull(v: Value): (r: Value)
    ensures Truthy(v) ==> r == v
    ensures !Truthy(v) ==> r == Null
  {
    if Truthy(v) then v else Null
  }

  /** `v || []`, as `_where_in` applies it to its values. */
  function OrEmptyList(v: Value): (r: Value)
    ensures Truthy(v) ==> r == v
    ensures !Truthy(v) ==> r == List([])
  {
    if Truthy(v) then v else List([])
  }

  /** True for a non-empty array, the shape that sends `where` to `_where_in`. */
  predicate IsNonEmptyList(v: Value) {
    v.List? && |v.items| > 0
  }

  /** `String(v)`: the text a value contributes when concatenated to a string.
      An array converts by joining its elements' texts with ','. */
  function ToText(v: Value): string
    decreases v, 0
  {
    match v
    case Null => "null"
    case Bool(b) => if b then "true" else "false"
    case Num(n) => IntToString(n)
    case Str(s) => s
    case Obj(_) => "[object Object]"
    case List(items) => Join(seq(|items|, i requires 0 <= i < |items| => ElemText(items[i])), ",")
  }

  /** An element's text inside `Array.prototype.join`: null becomes ''. */
  function ElemText(v: Value): string
    decreases v, 1
  {
    if v.Null? then "" else ToText(v)
  }

  /** `qb_escape` followed by string conversion: a string is quoted around the
      output of `quote` (the function the source reaches through `this.escape`
      with an unbound `this`: the global `escape`, `JsEscape`), a boolean becomes 0/1, null the keyword NULL, and
      anything else its plain string conversion. */
  function QbText(quote: string -> string, v: Value): (r: string)
    ensures v.Str? ==> |r| >= 2 && r[0] == '\'' && r[|r| - 1] == '\''
    ensures v.Str? ==> r[1..|r| - 1] == quote(v.s)
    ensures v.Bool? ==> r == (if v.b then "1" else "0")
    ensures v.Null? ==> r == "NULL"
    ensures v.Num? ==> r == IntToString(v.n)
    ensures (v.Null? || v.Bool? || v.Num? || v.Obj?) ==> |r| > 0 && r[0] != '\''
  {
    match v
    case Str(s) => "'" + quote(s) + "'"
    case Bool(b) => if b then "1" else "0"
    case Null => "NULL"
    case _ => ToText(v)
  }

  /** Under the global `escape` that `qb_escape` reaches, a string becomes
      `'` + its escaped form + `'`, and the escaped form holds no quote, so a
      value can never close the literal early. */
  lemma QbTextGlobalEscape(s: string)
    ensures QbText(JsEscape, Str(s)) == "'" + JsEscape(s) + "'"
    ensures '\'' !in JsEscape(s)
  {
    EscapeOutputHasNoQuote(JsEscape(s));
  }
}
