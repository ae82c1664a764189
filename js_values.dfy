/** The JavaScript values that flow through the pipeline (JSON data plus
    `undefined`) and the few language operations the core applies to them:
    truthiness, property reads and `String(v)`. */
module JsValues {
  import opened Wrappers
  import opened Strings

  /** Numbers are integers here; plain objects are maps from own keys to
      values (key order is not kept). */
  datatype Value =
    | Undefined
    | Null
    | Bool(b: bool)
    | Num(n: int)
    | Str(s: string)
    | Arr(items: seq<Value>)
    | Obj(fields: map<string, Value>)

  predicate Nullish(v: Value) {
    v.Undefined? || v.Null?
  }

  /** ECMAScript ToBoolean: what `if (v)`, `!v` and `a || b` test. */
  predicate Truthy(v: Value) {
    match v
    case Undefined => false
    case Null => false
    case Bool(b) => b
    case Num(n) => n != 0
    case Str(s) => s != []
    case Arr(_) => true
    case Obj(_) => true
  }

  /** `a || b`: `a` when it is truthy, otherwise `b`. */
  function Or(a: Value, b: Value): (r: Value)
    ensures Truthy(a) ==> r == a
    ensures !Truthy(a) ==> r == b
  {
    if Truthy(a) then a else b
  }

  /** `typeof v === 'object'` for a value that is not null. */
  predicate IsObjectLike(v: Value) {
    v.Arr? || v.Obj?
  }

  /** The property read `v[key]` on a value that is not null or undefined:
      the own keys of a plain object, the canonical index keys and `length`
      of arrays and strings; anything else reads as undefined. */
  function Get(v: Value, key: string): (r: Value)
    ensures v.Obj? ==> r == (if key in v.fields then v.fields[key] else Undefined)
    ensures v.Arr? && key == "length" ==> r == Num(|v.items|)
    ensures Nullish(v) || v.Bool? || v.Num? ==> r == Undefined
  {
    match v
    case Obj(fields) => if key in fields then fields[key] else Undefined
    case Arr(items) =>
      if key == "length" then Num(|items|)
      else (match CanonicalIndex(key)
            case Some(i) => if i < |items| then items[i] else Undefined
            case None => Undefined)
    case Str(s) =>
      if key == "length" then Num(|s|)
      else (match CanonicalIndex(key)
            case Some(i) => if i < |s| then Str([s[i]]) else Undefined
            case None => Undefined)
    case _ => Undefined
  }

  /** Reading index `i` of an array, with the key written the way
      JavaScript writes it, gives element `i`. */
  lemma GetArrayIndex(items: seq<Value>, i: nat)
    requires i < |items|
    ensures Get(Arr(items), NatToString(i)) == items[i]
  {
    CanonicalIndexOfNat(i);
    assert NatToString(i) != "length";
  }

  /** The message of the TypeError that reading a property of null or
      undefined raises. */
  function TypeErrorMessage(v: Value, key: string): string
    requires Nullish(v)
  {
    "Cannot read properties of " + (if v.Null? then "null" else "undefined") + " (reading '" + key + "')"
  }

  /** `v.key` as a statement that may throw: a TypeError exactly when `v`
      is null or undefined. */
  function Property(v: Value, key: string): (r: Result<Value>)
    ensures r.Err? <==> Nullish(v)
    ensures r.Ok? ==> r.value == Get(v, key)
  {
    if Nullish(v) then Err(TypeErrorMessage(v, key)) else Ok(Get(v, key))
  }

  /** `String(v)` (and template-literal interpolation). */
  function ToDisplayString(v: Value): string
  {
    match v
    case Undefined => "undefined"
    case Null => "null"
    case Bool(b) => if b then "true" else "false"
    case Num(n) => IntToString(n)
    case Str(s) => s
    case Arr(items) => JoinElements(items)
    case Obj(_) => "[object Object]"
  }

  /** `Array.prototype.join(',')`: null and undefined elements print as ''. */
  function JoinElements(items: seq<Value>): string
    decreases items
  {
    if items == [] then ""
    else
      var head := if Nullish(items[0]) then "" else ToDisplayString(items[0]);
      if |items| == 1 then head else head + "," + JoinElements(items[1..])
  }

  /** ECMAScript ToNumber where its result is an integer: null is 0,
      booleans are 0 and 1, a string as `Number(s)` reads it, an array
      through its joined text; `None` for NaN (undefined, objects, text
      that is no number) and for the non-integers the model does not hold. */
  function ToNumber(v: Value): (r: Option<int>)
  {
    match v
    case Undefined => None
    case Null => Some(0)
    case Bool(b) => Some(if b then 1 else 0)
    case Num(n) => Some(n)
    case Str(s) => StringToNumber(s)
    case Arr(items) => StringToNumber(JoinElements(items))
    case Obj(_) => None
  }

  /** The relational test `v > 0`: `v` is converted with ToNumber, and
      NaN is never greater. */
  predicate GreaterThanZero(v: Value) {
    ToNumber(v).Some? && ToNumber(v).value > 0
  }
}
