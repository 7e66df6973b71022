/**
 Python-semantics building blocks shared by the whole model: optional values,
 the outcome of an expression that may raise, list indexing with Python's
 negative-index rule, and `int(x)` on a real (truncation toward zero).
 */
module Base {

  datatype Option<+T> = None | Some(value: T)

  /** The exceptions the modelled code can raise and does not catch. */
  datatype Exception = IndexError | ZeroDivisionError

  /** The outcome of evaluating a Python expression: a value or a raised exception. */
  datatype Py<+T> = Value(value: T) | Raised(error: Exception)

  /** `s[i]` in Python: negative indices count from the end; anything else raises. */
  function PyIndex<T>(s: seq<T>, i: int): (r: Option<T>)
    ensures 0 <= i < |s| ==> r == Some(s[i])
    ensures -|s| <= i < 0 ==> r == Some(s[|s| + i])
    ensures r.None? <==> (i >= |s| || i < -|s|)
  {
    if 0 <= i < |s| then Some(s[i])
    else if -|s| <= i < 0 then Some(s[|s| + i])
    else None
  }

  /** Python's `int(x)` for a float: rounds toward zero. */
  function Trunc(x: real): (r: int)
    ensures 0.0 <= x ==> 0 <= r && r as real <= x < r as real + 1.0
    ensures x < 0.0 ==> r <= 0 && r as real - 1.0 < x <= r as real
  {
    if x >= 0.0 then x.Floor else -((-x).Floor)
  }

  /** Python truthiness of an optional string: neither None nor empty. */
  predicate Truthy(o: Option<string>)
  {
    o.Some? && o.value != ""
  }
}
