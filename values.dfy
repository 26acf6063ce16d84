/** The Python values that flow through configuration dicts, schemas and JSON files:
    None, bool, int, float, str, list and dict (with string keys). */
module PyValues {

  import opened Wrappers
  import Dicts

  datatype Value =
    | VNone
    | VBool(b: bool)
    | VInt(i: int)
    | VFloat(r: real)
    | VStr(s: string)
    | VList(items: seq<Value>)
    | VDict(entries: seq<(string, Value)>)

  /** bool(v) */
  predicate Truthy(v: Value) {
    match v
    case VNone => false
    case VBool(b) => b
    case VInt(i) => i != 0
    case VFloat(r) => r != 0.0
    case VStr(s) => s != ""
    case VList(items) => items != []
    case VDict(entries) => entries != []
  }

  /** type(v).__name__ */
  function TypeName(v: Value): string {
    match v
    case VNone => "NoneType"
    case VBool(_) => "bool"
    case VInt(_) => "int"
    case VFloat(_) => "float"
    case VStr(_) => "str"
    case VList(_) => "list"
    case VDict(_) => "dict"
  }

  /** isinstance(v, int): a bool is an int in Python. */
  predicate IsInt(v: Value) {
    v.VInt? || v.VBool?
  }

  /** isinstance(v, (int, float)) */
  predicate IsNumber(v: Value) {
    v.VInt? || v.VBool? || v.VFloat?
  }

  /** The numeric value of a number (True is 1, False is 0). */
  function Num(v: Value): real
    requires IsNumber(v)
  {
    match v
    case VBool(b) => if b then 1.0 else 0.0
    case VInt(i) => i as real
    case VFloat(r) => r
  }

  /** Python's ==: numbers compare by value across bool, int and float; lists compare
      element by element; dicts compare key by key, whatever their order. */
  predicate PyEq(a: Value, b: Value) {
    if IsNumber(a) && IsNumber(b) then Num(a) == Num(b)
    else match a
      case VList(xs) =>
        b.VList? && |xs| == |b.items| && forall k :: 0 <= k < |xs| ==> PyEq(xs[k], b.items[k])
      case VDict(xs) =>
        b.VDict? && |xs| == |b.entries| &&
        forall k :: 0 <= k < |xs| ==>
          exists m :: 0 <= m < |b.entries| && b.entries[m].0 == xs[k].0 && PyEq(xs[k].1, b.entries[m].1)
      case _ => a == b
  }

  /** x in items, for a list */
  predicate InList(x: Value, items: seq<Value>) {
    exists k :: 0 <= k < |items| && PyEq(items[k], x)
  }

  /** d.get(k) on a dict value; anything else reads as missing. */
  function Field(v: Value, k: string): Option<Value> {
    if v.VDict? then Dicts.Get(v.entries, k) else None
  }
}
