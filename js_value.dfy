/** The JavaScript values the client reads properties of: parsed JSON, the rejected
    payload of a request, and the files of a file input. */
module JsValues {
  import opened Wrappers

  datatype JsValue =
    | Undefined
    | Null
    | Bool(b: bool)
    | Num(n: int)
    | Str(s: string)
    | Obj(fields: map<string, JsValue>)

  /** A file the user picked; only its name reaches the server. */
  datatype File = File(name: string)

  /** `v[k]`: `None` is the `TypeError` thrown when `v` is `undefined` or `null`; a
      missing own property reads as `undefined`. */
  function Prop(v: JsValue, k: string): (r: Option<JsValue>)
    ensures r.None? <==> v.Undefined? || v.Null?
    ensures r.Some? && r.value != Undefined ==> v.Obj? && k in v.fields && r.value == v.fields[k]
    ensures v.Obj? && k in v.fields ==> r == Some(v.fields[k])
  {
    match v
    case Undefined => None
    case Null => None
    case Obj(fields) => Some(if k in fields then fields[k] else Undefined)
    case _ => Some(Undefined)
  }

  predicate IsNullish(v: JsValue)
  {
    v.Undefined? || v.Null?
  }

}
