/** Python values as the nodes see them after `json.loads` or `dict.get`,
    the exceptions the nodes can raise, and the outcome of the (uninterpreted)
    reply-extraction pipeline. */
module Values {

  /** A JSON value. Floats are not distinguished from integers. */
  datatype Value =
    | JNull
    | JBool(b: bool)
    | JNum(n: int)
    | JStr(s: string)
    | JArr(items: seq<Value>)
    | JObj(fields: map<string, Value>)

  /** The Python exceptions that the modelled code can raise. */
  datatype Error = ValueError | TypeError | AttributeError

  datatype Result<+T> = Ok(value: T) | Err(error: Error) {
    predicate IsFailure() { Err? }

    function PropagateFailure<U>(): Result<U>
      requires Err?
    {
      Err(error)
    }

    function Extract(): T
      requires Ok?
    {
      value
    }
  }

  datatype Option<+T> = None | Some(value: T)

  /** What `json.loads` (or the lenient extractor behind it) made of a text:
      a value, or a parse failure. */
  datatype Parsed = ParseOk(value: Value) | ParseFail

  /** Python truthiness: `bool(v)`. */
  predicate Truthy(v: Value) {
    match v
    case JNull => false
    case JBool(b) => b
    case JNum(n) => n != 0
    case JStr(s) => s != ""
    case JArr(items) => items != []
    case JObj(fields) => fields != map[]
  }

  /** `d.get(key, default)` on a dict. */
  function Get(fields: map<string, Value>, key: string, default: Value): Value
  {
    if key in fields then fields[key] else default
  }
}
