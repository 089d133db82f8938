/** JavaScript values as the configuration readers and tree walkers see them. */
module JsValue {
  import opened JsString

  /**
   * A JavaScript value. Numbers are integers (floating point is not modelled);
   * an object keeps its properties in insertion order, which is the order
   * `for..in` visits them.
   */
  datatype Value =
    | Undefined
    | Null
    | Bool(b: bool)
    | Num(n: int)
    | Str(s: String)
    | Arr(items: seq<Value>)
    | Obj(fields: seq<(String, Value)>)

  /** JavaScript truthiness: `undefined`, `null`, `false`, `0` and `''` are falsy. */
  predicate Truthy(v: Value) {
    match v
    case Undefined => false
    case Null => false
    case Bool(b) => b
    case Num(n) => n != 0
    case Str(s) => s != []
    case Arr(_) => true
    case Obj(_) => true
  }

  /** `a || b` on values. */
  function Or(a: Value, b: Value): (r: Value)
    ensures Truthy(a) ==> r == a
    ensures !Truthy(a) ==> r == b
  {
    if Truthy(a) then a else b
  }

  /**
   * The properties every plain object inherits from `Object.prototype`; looking
   * one of them up in an object literal yields a function (or the prototype), which is truthy.
   */
  const ObjectPrototypeNames: set<String> := {
    "constructor", "hasOwnProperty", "isPrototypeOf", "propertyIsEnumerable",
    "toString", "toLocaleString", "valueOf", "__proto__",
    "__defineGetter__", "__defineSetter__", "__lookupGetter__", "__lookupSetter__"
  }

  /** `obj[name]` is truthy for an object literal whose own properties `own` all hold truthy values. */
  predicate LookupTruthy(own: set<String>, name: String) {
    name in own || name in ObjectPrototypeNames
  }

  /** The text a value gives in a template literal (`${v}`). */
  function Display(v: Value): String
    decreases v, 1
  {
    match v
    case Undefined => "undefined"
    case Null => "null"
    case Bool(b) => if b then "true" else "false"
    case Num(n) => IntToString(n)
    case Str(s) => s
    case Arr(items) => DisplayItems(items)
    case Obj(_) => "[object Object]"
  }

  /** `items.join(',')`, where `undefined` and `null` items give the empty text. */
  function DisplayItems(items: seq<Value>): String
    decreases items, 0
  {
    if |items| == 0 then []
    else
      var head := if items[0].Undefined? || items[0].Null? then [] else Display(items[0]);
      if |items| == 1 then head else head + "," + DisplayItems(items[1..])
  }
}
