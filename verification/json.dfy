/** What `JSON.parse` makes of the JSON strings the board stores, reduced to
    the parts the routes and the panel script read, with JavaScript's
    truthiness and `String(x)` conversion on them. */
module Json {
  import opened Seqs
  import opened Text

  /** One property read off a parsed object (`obj.email`, `obj.date`,
      `obj.index`, `obj.id`). JSON numbers are taken to be integral. */
  datatype Field =
    | Absent                   // the property is not there: `undefined`
    | Null
    | Str(s: string)
    | Num(n: int)
    | Bool(b: bool)
    | Composite(shown: string) // an array or object, with its `String()` form

  /** What `JSON.parse(value)` yields for a column's stored `value`. */
  datatype ColumnJson =
    | NoValue                  // `value` is null or empty: never parsed
    | Unparseable              // `JSON.parse` throws
    | JString(s: string)
    | JObject(email: Field, date: Field, index: Field, id: Field)
    | JScalar(truthy: bool)    // null, a number, a boolean or an array: no property the code reads

  /** A JavaScript string that may be `null`, as `text` fields are. */
  predicate TruthyText(t: Option<string>) {
    t.Some? && t.value != ""
  }

  predicate TruthyField(f: Field) {
    match f
    case Absent => false
    case Null => false
    case Str(s) => s != ""
    case Num(n) => n != 0
    case Bool(b) => b
    case Composite(_) => true
  }

  /** `if (parsed)`: a parsed value is truthy unless it is falsy JSON or
      there was nothing to parse. */
  predicate TruthyJson(v: ColumnJson) {
    match v
    case NoValue => false
    case Unparseable => false
    case JString(s) => s != ""
    case JObject(_, _, _, _) => true
    case JScalar(t) => t
  }

  /** `String(f)`. */
  function FieldString(f: Field): string {
    match f
    case Absent => "undefined"
    case Null => "null"
    case Str(s) => s
    case Num(n) => IntToString(n)
    case Bool(b) => if b then "true" else "false"
    case Composite(shown) => shown
  }

  /** `f.toString()`: like `String(f)`, but it throws on `undefined` and `null`. */
  function FieldToString(f: Field): (r: Option<string>)
    ensures r.None? <==> f.Absent? || f.Null?
    ensures r.Some? ==> r.value == FieldString(f)
  {
    if f.Absent? || f.Null? then None else Some(FieldString(f))
  }
}
