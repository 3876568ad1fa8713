/** The loosely typed JSON values of a Dialogflow parameter bag, with the
    JavaScript operators the webhook applies to them. */
module Json {

  /** A JSON value. `Null` also stands for a key that is absent (`undefined`):
      the webhook never tells the two apart. Numbers are integers here. */
  datatype Value = Null | Bool(b: bool) | Num(n: int) | Str(s: string) | Obj(fields: map<string, Value>)

  /** JavaScript truthiness. */
  predicate Truthy(v: Value) {
    match v
    case Null => false
    case Bool(b) => b
    case Num(n) => n != 0
    case Str(s) => s != ""
    case Obj(_) => true
  }

  /** `v || fallback` */
  function Or(v: Value, fallback: Value): Value {
    if Truthy(v) then v else fallback
  }

  /** `bag[key]` on a parameter bag; an absent key reads as undefined. */
  function Get(bag: map<string, Value>, key: string): Value {
    if key in bag then bag[key] else Null
  }

  /** `v.key` (or `v?.key`) on a value that is not undefined: only an object has the
      field; on a primitive the property is undefined. */
  function Member(v: Value, key: string): Value {
    if v.Obj? then Get(v.fields, key) else Null
  }
}
