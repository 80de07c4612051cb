/** JSON-like values as the server stores and exchanges them, with JavaScript truthiness. */
module Json {
  /** Numbers are integers here; fractions, NaN and infinities do not occur in the values modelled. */
  datatype Value =
    | Null
    | Bool(b: bool)
    | Num(n: int)
    | Str(s: string)
    | Arr(items: seq<Value>)
    | Obj(fields: map<string, Value>)

  /** JavaScript truthiness: null, false, 0 and the empty string are falsy; arrays and objects are truthy. */
  predicate Truthy(v: Value)
  {
    match v
    case Null => false
    case Bool(b) => b
    case Num(n) => n != 0
    case Str(s) => s != ""
    case Arr(_) => true
    case Obj(_) => true
  }

  /** The empty object `{}`. */
  const EmptyObject: Value := Obj(map[])
}
