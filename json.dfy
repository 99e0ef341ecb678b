/** JSON values as the editor's documents hold them after `JSON.parse`.
    An object is a finite map from keys to values, so every key occurs once,
    as in a JavaScript object; the insertion order of its keys is not kept. */
module Json {

  datatype Option<T> = None | Some(value: T)

  datatype Value =
    | Null
    | Bool(b: bool)
    | Num(n: int)
    | Str(s: string)
    | Arr(elems: seq<Value>)
    | Obj(fields: map<string, Value>)

  /** JavaScript truthiness of a property read: `undefined`, `null`, `false`, `0` and `''` are falsy.
      (NaN does not arise: numbers are integers here.) */
  predicate Truthy(v: Option<Value>) {
    match v
    case None => false
    case Some(Null) => false
    case Some(Bool(b)) => b
    case Some(Num(n)) => n != 0
    case Some(Str(s)) => s != ""
    case Some(_) => true
  }

  /** `v[k]` on any value: only objects have fields; a missing field reads as `undefined`. */
  function Field(v: Value, k: string): Option<Value> {
    if v.Obj? && k in v.fields then Some(v.fields[k]) else None
  }

  /** `v[k] = x` on an object. */
  function SetField(v: Value, k: string, x: Value): Value
    requires v.Obj?
  {
    Obj(v.fields[k := x])
  }

  /** `delete v[k]`; deleting from anything but an object changes nothing. */
  function DeleteField(v: Value, k: string): Value {
    if v.Obj? then Obj(v.fields - {k}) else v
  }
}
