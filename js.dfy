/**
 * The JSON values a request body can carry, and JavaScript truthiness,
 * which is what the handlers' `if (!field)` checks test.
 */
module Js {
  /** A value read from `req.body` or `req.params`. Numbers are integers here;
      arrays and objects are lumped together as `Composite` (all truthy). */
  datatype JsValue =
    | Undefined
    | Null
    | Bool(b: bool)
    | Num(n: int)
    | Str(s: string)
    | Composite

  /** `!!v` in JavaScript: false exactly for undefined, null, false, 0 and "". */
  function Truthy(v: JsValue): (truthy: bool)
    ensures !truthy <==> v == Undefined || v == Null || v == Bool(false) || v == Num(0) || v == Str("")
  {
    match v
    case Undefined => false
    case Null => false
    case Bool(b) => b
    case Num(n) => n != 0
    case Str(s) => s != ""
    case Composite => true
  }
}
