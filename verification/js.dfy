/**
 * The fragment of JavaScript's value semantics that the front-end state
 * logic relies on: primitive values, truthiness, `||`, string conversion
 * and object spread over plain records.
 *
 * Numbers are modelled as integers, so NaN and fractions do not exist here;
 * with that restriction strict equality `===` and `SameValueZero` (used by
 * `Array.prototype.includes`) both coincide with Dafny's `==`.
 */
module Js {
  import opened Wrappers

  datatype Value =
    | Undefined
    | Null
    | Bool(b: bool)
    | Num(n: int)
    | Str(s: string)

  /** A plain object: property names to primitive values. */
  type Record = map<string, Value>

  /** JavaScript truthiness (ToBoolean). */
  predicate Truthy(v: Value) {
    match v
    case Undefined => false
    case Null => false
    case Bool(b) => b
    case Num(n) => n != 0
    case Str(s) => s != ""
  }

  /** `a || b`: the first operand when it is truthy, otherwise the second. */
  function Or(a: Value, b: Value): (r: Value)
    ensures Truthy(a) ==> r == a
    ensures !Truthy(a) ==> r == b
  {
    if Truthy(a) then a else b
  }

  /** Property access `obj.key`: a missing property reads as `undefined`. */
  function Get(obj: Record, key: string): (r: Value)
    ensures key !in obj ==> r == Undefined
    ensures key in obj ==> r == obj[key]
  {
    if key in obj then obj[key] else Undefined
  }

  /** Optional property access `obj?.key`: a `null` object reads as `undefined`. */
  function GetOpt(obj: Option<Record>, key: string): (r: Value)
    ensures obj.None? ==> r == Undefined
  {
    match obj
    case None => Undefined
    case Some(o) => Get(o, key)
  }

  /** The own properties that `...obj` copies; spreading `null` copies nothing. */
  function Spread(obj: Option<Record>): (r: Record)
    ensures obj.None? ==> r == map[]
  {
    obj.GetOr(map[])
  }

  /**
   * `{ ...base, ...over }`: every property of either operand, and where both
   * have one, the value from `over`.
   */
  function Assign(base: Record, over: Record): (r: Record)
    ensures r.Keys == base.Keys + over.Keys
    ensures forall k :: k in over ==> r[k] == over[k]
    ensures forall k :: k in base && k !in over ==> r[k] == base[k]
  {
    base + over
  }

  /** The predicate `x => x !== v`. */
  function Differs(v: Value): (p: Value -> bool) {
    x => x != v
  }

  function DigitChar(d: nat): (c: char)
    requires d < 10
  {
    "0123456789"[d]
  }

  function NatToDecimal(n: nat): (r: string)
    ensures |r| >= 1
    decreases n
  {
    if n < 10 then [DigitChar(n)] else NatToDecimal(n / 10) + [DigitChar(n % 10)]
  }

  /** `String(v)`, as `localStorage.setItem` applies it to the stored value. */
  function ToStr(v: Value): (r: string)
    ensures v.Str? ==> r == v.s
    ensures !v.Str? ==> r != ""
  {
    match v
    case Undefined => "undefined"
    case Null => "null"
    case Bool(b) => if b then "true" else "false"
    case Num(n) => if n < 0 then "-" + NatToDecimal(-n) else NatToDecimal(n)
    case Str(s) => s
  }
}
