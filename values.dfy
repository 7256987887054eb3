/**
 * The JavaScript values that flow through the store layer, and the
 * configuration object a store is built from.
 */
module Values {

  /**
   * A property value. `Func` stands for a function written by the
   * application author, identified opaquely; `EmitFn`, `AddListenerFn` and
   * `RemoveListenerFn` stand for the closures generated for one declared event;
   * `Token` is whatever the dispatcher's `register` returned.
   */
  datatype Value =
    | Undefined
    | Null
    | Bool(b: bool)
    | Num(n: int)
    | Str(s: string)
    | StrArray(items: seq<string>)
    | Func(id: nat)
    | EmitFn(event: string)
    | AddListenerFn(event: string)
    | RemoveListenerFn(event: string)
    | Token(token: nat)

  /** JavaScript truthiness (NaN is not modelled). */
  predicate Truthy(v: Value) {
    match v
    case Undefined => false
    case Null => false
    case Bool(b) => b
    case Num(n) => n != 0
    case Str(s) => s != ""
    case _ => true
  }

  /** The values that can be called. */
  predicate Callable(v: Value) {
    v.Func? || v.EmitFn? || v.AddListenerFn? || v.RemoveListenerFn?
  }

  /**
   * A plain configuration object: its own enumerable keys in `Object.keys`
   * order, and their values.
   */
  datatype Config = Config(keys: seq<string>, props: map<string, Value>) {
    ghost predicate Valid() {
      && (forall i, j :: 0 <= i < j < |keys| ==> keys[i] != keys[j])
      && (forall k :: k in keys <==> k in props)
    }
  }
}
