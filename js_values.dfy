/**
 * JavaScript values as they cross an Electron IPC boundary (structured clone):
 * plain data only, no functions and no object identity.  The operators below
 * are the three the host and the preload scripts rely on: truthiness, `a || b`
 * and optional property access `v?.key`.
 */
module JsValues {

  datatype JsValue =
    | Undefined
    | Null
    | Bool(b: bool)
    | Num(n: int)
    | Str(s: string)
    | Array(items: seq<JsValue>)
    | Object(fields: map<string, JsValue>)

  /** JavaScript truthiness; every array and every object is truthy, even an empty one. */
  predicate Truthy(v: JsValue) {
    match v
    case Undefined => false
    case Null => false
    case Bool(b) => b
    case Num(n) => n != 0
    case Str(s) => s != ""
    case Array(_) => true
    case Object(_) => true
  }

  /** `a || b`: the first operand when it is truthy, the second otherwise. */
  function Or(a: JsValue, b: JsValue): JsValue {
    if Truthy(a) then a else b
  }

  /** `v?.key`: an own field of an object, `undefined` for everything else. */
  function Get(v: JsValue, key: string): JsValue {
    if v.Object? && key in v.fields then v.fields[key] else Undefined
  }

  /** One message on an IPC channel, with the arguments after the event object. */
  datatype IpcMessage = IpcMessage(channel: string, args: seq<JsValue>)

  /** The first argument a listener `(event, arg) => ...` receives. */
  function FirstArg(m: IpcMessage): JsValue {
    if |m.args| > 0 then m.args[0] else Undefined
  }
}
