/** JavaScript values as the route handlers receive them (fields of the parsed
    JSON body, the `:id` path segment) and the two coercions the handlers rely
    on: truthiness and numeric conversion (`+x`, `Number(x)`). */
module Js {

  /** A JavaScript number, reduced to what the handlers can observe of it:
      NaN, a value with no fractional part (-0 is Integer(0)), or any other
      number (a fraction, Infinity or -Infinity). */
  datatype Number = NaN | Integer(value: int) | NonInteger

  datatype JsValue =
    | Undefined
    | Null
    | Bool(b: bool)
    | Num(n: Number)
    | Str(s: string)
      /** An object or an array; `text` is what its toString yields
          ("[object Object]" for a plain object, "" for [], "3" for [3]). */
    | Other(text: string)
      /** A value whose conversion to a primitive throws a TypeError: an
          object with an own "toString" key, such as {"toString": 1} (JSON
          cannot make that key callable, and the inherited valueOf yields the
          object itself), or an array that holds one at any depth (its
          toString joins the elements, converting each). */
    | Unconvertible

  /** StringToNumber of ECMAScript. Parsing decimal text into an IEEE-754
      double is not modelled: every conversion takes the parser as a
      parameter, and what is proved holds whatever it answers. */
  type NumberParser = string -> Number

  /** `+v` and `Number(v)` answer (rather than throw) for every value but
      an unconvertible object. */
  predicate Converts(v: JsValue) {
    !v.Unconvertible?
  }

  /** `+v` and `Number(v)`: an object or array is converted through the
      string its toString yields. */
  function ToNumber(v: JsValue, parse: NumberParser): (n: Number)
    requires Converts(v)
    ensures v == Null ==> n == Integer(0)
    ensures v == Undefined ==> n == NaN
    ensures v.Bool? ==> n.Integer? && (n.value == 1 <==> v.b) && (n.value == 0 <==> !v.b)
    ensures v.Num? ==> n == v.n
    ensures v.Str? ==> n == parse(v.s)
    ensures v.Other? ==> n == parse(v.text)
  {
    match v
    case Undefined => NaN
    case Null => Integer(0)
    case Bool(b) => Integer(if b then 1 else 0)
    case Num(n) => n
    case Str(s) => parse(s)
    case Other(text) => parse(text)
  }

  /** The values an `if` takes as true (`!!v`). */
  predicate Truthy(v: JsValue) {
    match v
    case Undefined => false
    case Null => false
    case Bool(b) => b
    case Num(n) => n != NaN && n != Integer(0)
    case Str(s) => s != ""
    case Other(_) => true
    case Unconvertible => true
  }

  /** The `typeof` operator; `typeof null` is "object". */
  function TypeOf(v: JsValue): (t: string)
    ensures t == "string" <==> v.Str?
    ensures t == "object" <==> v.Null? || v.Other? || v.Unconvertible?
  {
    match v
    case Undefined => "undefined"
    case Null => "object"
    case Bool(_) => "boolean"
    case Num(_) => "number"
    case Str(_) => "string"
    case Other(_) => "object"
    case Unconvertible => "object"
  }

  /** A falsy value other than the empty string converts to NaN or zero,
      whatever the parser. */
  lemma FalsyConvertsToNaNOrZero(v: JsValue, parse: NumberParser)
    requires !Truthy(v) && v != Str("")
    ensures ToNumber(v, parse) == NaN || ToNumber(v, parse) == Integer(0)
  {
  }
}
