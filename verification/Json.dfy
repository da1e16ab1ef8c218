/** Parsed JSON values, with the lookups the session code makes on them.
    Numbers are the whole numbers the code reads; a text is a sequence of
    Unicode scalar values. */
module Json {
  import opened Wrappers

  datatype Value =
    | Null
    | Bool(b: bool)
    | Num(n: int)
    | Str(s: string)
    | Arr(items: seq<Value>)
    | Obj(fields: map<string, Value>)

  function Get(v: Value, key: string): Option<Value> {
    if v.Obj? && key in v.fields then Some(v.fields[key]) else None
  }

  function GetStr(v: Value, key: string): Option<string> {
    match Get(v, key)
    case Some(Str(s)) => Some(s)
    case _ => None
  }

  /** The field is present and is the JSON literal `true`. */
  predicate IsTrue(v: Value, key: string) {
    Get(v, key) == Some(Bool(true))
  }

  function StrOrNull(s: Option<string>): Value {
    match s
    case None => Null
    case Some(t) => Str(t)
  }
}
