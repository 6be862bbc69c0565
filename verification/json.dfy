/**
 * The JavaScript values the client layer handles: whatever `JSON.parse` can
 * produce, plus `undefined`, with JavaScript's truthiness and property access.
 */
module Json {
  import opened Wrappers

  /** A JavaScript value; numbers are modelled as integers. */
  datatype Value =
    | Undefined
    | Null
    | Bool(b: bool)
    | Number(n: int)
    | Str(s: string)
    | Arr(items: seq<Value>)
    | Obj(fields: map<string, Value>)

  /** The exceptions the client code can raise on its own. */
  datatype JsError = SyntaxError | TypeError

  /** JavaScript truthiness, `if (v)`: every value but the falsy ones is truthy. */
  function Truthy(v: Value): (t: bool)
    ensures t <==> v !in {Undefined, Null, Bool(false), Number(0), Str("")}
  {
    match v
    case Undefined => false
    case Null => false
    case Bool(b) => b
    case Number(n) => n != 0
    case Str(s) => s != ""
    case Arr(_) => true
    case Obj(_) => true
  }

  /**
   * Property access `v[key]` (also `const { key } = v`): a TypeError on
   * `null` and `undefined`, the own property of an object, `undefined` otherwise.
   */
  function Get(v: Value, key: string): (r: Result<Value, JsError>)
    ensures r.Failure? <==> v.Null? || v.Undefined?
    ensures r.Failure? ==> r.error == TypeError
    ensures r.Success? && r.value != Undefined ==> v.Obj? && key in v.fields && v.fields[key] == r.value
    ensures v.Obj? && key in v.fields ==> r == Success(v.fields[key])
  {
    match v
    case Undefined => Failure(TypeError)
    case Null => Failure(TypeError)
    case Obj(fields) => Success(if key in fields then fields[key] else Undefined)
    case _ => Success(Undefined)
  }
}
