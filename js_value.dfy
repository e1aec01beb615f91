/**
 * JavaScript values as they occur in match records, Firestore documents and
 * form fields, with the handful of language operations the application uses
 * on them: property reads, truthiness and conversion to a string.
 */
module JsValue {
  import JsNumber

  /**
   * A value. Numbers are integers; `Stamp(seconds)` is a Firestore Timestamp
   * as read back from the store (its nanoseconds are not modelled); arrays and
   * plain objects are compared structurally.
   */
  datatype Value =
    | Undefined
    | Null
    | Bool(b: bool)
    | Num(n: int)
    | Str(s: string)
    | Stamp(seconds: int)
    | Arr(items: seq<Value>)
    | Obj(fields: map<string, Value>)

  /** A plain object (a match record, a document's data): its own properties by name. */
  type Doc = map<string, Value>

  /** `d.name`: a property that is not there reads as undefined. */
  function Get(d: Doc, name: string): Value {
    if name in d then d[name] else Undefined
  }

  /**
   * `v?.name`: undefined for undefined and null, and for every property the
   * application reads on a primitive; a Timestamp exposes `seconds`.
   */
  function Prop(v: Value, name: string): Value {
    match v
    case Obj(f) => Get(f, name)
    case Stamp(s) => if name == "seconds" then Num(s) else Undefined
    case _ => Undefined
  }

  /** JavaScript truthiness: undefined, null, false, 0 and "" are falsy. */
  predicate Truthy(v: Value) {
    match v
    case Undefined => false
    case Null => false
    case Bool(b) => b
    case Num(n) => n != 0
    case Str(s) => s != ""
    case _ => true
  }

  /** `a || b` */
  function Or(a: Value, b: Value): Value {
    if Truthy(a) then a else b
  }

  /** `Array.prototype.join(",")` over already converted elements. */
  function Join(parts: seq<string>): string {
    if |parts| == 0 then ""
    else if |parts| == 1 then parts[0]
    else Join(parts[..|parts| - 1]) + "," + parts[|parts| - 1]
  }

  /** `String(v)`. */
  function ToJsString(v: Value): string
    decreases v
  {
    match v
    case Undefined => "undefined"
    case Null => "null"
    case Bool(b) => if b then "true" else "false"
    case Num(n) => JsNumber.IntToString(n)
    case Str(s) => s
    case Stamp(s) => "Timestamp(seconds=" + JsNumber.IntToString(s) + ", nanoseconds=0)"
    case Arr(items) =>
      Join(seq(|items|, i requires 0 <= i < |items| =>
        if items[i].Undefined? || items[i].Null? then "" else ToJsString(items[i])))
    case Obj(_) => "[object Object]"
  }

  /** Some top-level property of `d` holds undefined (Firestore refuses such a write). */
  predicate HasUndefinedField(d: Doc) {
    exists name :: name in d && d[name] == Undefined
  }
}
