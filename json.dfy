/** JSON values as `JSON.parse` produces them, and the two JavaScript operations
    the extension applies to them: truthiness and property access. */
module Json {
  import opened Wrappers

  /** A parsed JSON value. Numbers are reals, so the model has no NaN and no
      infinities: a literal too large for a double (such as `1e400`), which
      `JSON.parse` reads as `Infinity` and `JSON.stringify` writes back as
      `null`, is outside the model. Objects are maps, so key order is not part
      of the model. */
  datatype Json =
    | Null
    | Bool(b: bool)
    | Num(n: real)
    | Str(s: string)
    | Arr(items: seq<Json>)
    | Obj(fields: map<string, Json>)

  /** JavaScript truthiness of a parsed value: `null`, `false`, `0` and `""`
      are the falsy ones; arrays and objects (even empty) are truthy. */
  predicate Truthy(j: Json): (r: bool)
    // exactly four parsed values are falsy
    ensures !r <==> j in {Null, Bool(false), Num(0.0), Str("")}
  {
    match j
    case Null => false
    case Bool(b) => b
    case Num(n) => n != 0.0
    case Str(s) => s != ""
    case Arr(_) => true
    case Obj(_) => true
  }

  /** The property access `j.k`, with `None` for `undefined`. Only objects have
      the named properties this program reads (`servers`, `inputs`, `url`,
      the server key); none of them is `length` or an array index. */
  function Member(j: Json, k: string): Option<Json> {
    if j.Obj? && k in j.fields then Some(j.fields[k]) else None
  }
}
