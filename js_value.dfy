/**
  The slice of JavaScript value semantics that the chat handler relies on:
  the values a JSON request or response body can hold, truthiness (what `||`
  and `!` test), property access with and without optional chaining, and the
  abrupt completion (a thrown TypeError) that a property read on `null` or
  `undefined` produces.
 */
module JsValues {

  datatype Option<+T> = None | Some(value: T)

  /** A JavaScript value as produced by parsing JSON, plus `undefined`. */
  datatype JsValue =
    | Undefined
    | Null
    | Bool(b: bool)
    | Num(x: real)
    | Str(s: string)
    | Arr(items: seq<JsValue>)
    | Obj(fields: map<string, JsValue>)

  /** The result of evaluating an expression: a value, or a thrown exception. */
  datatype Completion<+T> = Normal(value: T) | Throw

  /** The empty object literal `{}`. */
  const EmptyObject: JsValue := Obj(map[])

  /** `null` and `undefined`, the values on which a property read throws. */
  predicate Nullish(v: JsValue) {
    v.Undefined? || v.Null?
  }

  /** ToBoolean: the test made by `!v`, `v || w` and `if (v)`. */
  predicate Truthy(v: JsValue)
    ensures !Truthy(v) <==> v in {Undefined, Null, Bool(false), Num(0.0), Str("")}
  {
    match v
    case Undefined => false
    case Null => false
    case Bool(b) => b
    case Num(x) => x != 0.0
    case Str(s) => s != []
    case Arr(_) => true
    case Obj(_) => true
  }

  /** `a || b`: the first operand when it is truthy, otherwise the second. */
  function Or(a: JsValue, b: JsValue): (r: JsValue)
    ensures r == a || r == b
    ensures Truthy(r) <==> Truthy(a) || Truthy(b)
    ensures Truthy(a) ==> r == a
  {
    if Truthy(a) then a else b
  }

  /**
    `v.key` for a named data property on a value that is not nullish. Only an
    object has own named properties here; the names the handler reads
    (`userText`, `facts`, `history`, `role`, `content`, `choices`, `message`)
    are not inherited by any primitive or array, so everything else gives
    `undefined`.
   */
  function Member(v: JsValue, key: string): (r: JsValue)
    requires !Nullish(v)
    ensures r != Undefined ==> v.Obj? && key in v.fields && r == v.fields[key]
    ensures v.Obj? && key in v.fields ==> r == v.fields[key]
  {
    if v.Obj? && key in v.fields then v.fields[key] else Undefined
  }

  /** `v.key` in full: a TypeError on `null` and `undefined`. */
  function GetProperty(v: JsValue, key: string): (r: Completion<JsValue>)
    ensures r.Throw? <==> Nullish(v)
    ensures r.Normal? ==> r.value == Member(v, key)
  {
    if Nullish(v) then Throw else Normal(Member(v, key))
  }

  /** `v?.key`: short-circuits to `undefined` instead of throwing. */
  function OptMember(v: JsValue, key: string): (r: JsValue)
    ensures Nullish(v) ==> r == Undefined
    ensures !Nullish(v) ==> GetProperty(v, key) == Normal(r)
  {
    if Nullish(v) then Undefined else Member(v, key)
  }

  /**
    `v?.[0]`: the first element of an array, the first character of a string
    (as a one-character string), an object's property named "0", and
    `undefined` in every other case.
   */
  function OptIndex0(v: JsValue): (r: JsValue)
    ensures r != Undefined ==>
              || (v.Arr? && v.items != [])
              || (v.Str? && v.s != [])
              || (v.Obj? && "0" in v.fields)
    ensures v.Arr? && v.items != [] ==> r == v.items[0]
    ensures v.Str? && v.s != [] ==> r == Str([v.s[0]])
    ensures v.Obj? && "0" in v.fields ==> r == v.fields["0"]
  {
    match v
    case Arr(items) => if items != [] then items[0] else Undefined
    case Str(s) => if s != [] then Str([s[0]]) else Undefined
    case Obj(_) => Member(v, "0")
    case _ => Undefined
  }
}
