/** Small value types shared by every module of the model. */
module Common {

  /** A value that may be absent (SQL NULL, JavaScript null/undefined, a missing map entry). */
  datatype Option<+T> = None | Some(value: T)

  /** The outcome of a request: a value, or the error the route answers with. */
  datatype Result<+T, +E> = Success(value: T) | Failure(error: E)

  /** A JavaScript number after `Number(...)` or `parseFloat(...)`: either a finite
      value or one of NaN, +Infinity, -Infinity, which every guard of the system
      treats alike (`Number.isFinite` is false). */
  datatype Num = NonFinite | Finite(value: real)

  /** `Number.isFinite(x) && x > 0` */
  predicate PositiveNum(n: Num) {
    n.Finite? && n.value > 0.0
  }

  /** JavaScript truthiness of a price returned by an oracle: null and 0 are falsy. */
  predicate Truthy(p: Option<real>) {
    p.Some? && p.value != 0.0
  }

  function Max(a: real, b: real): (r: real)
    ensures r >= a && r >= b && (r == a || r == b)
  {
    if a >= b then a else b
  }

  function Min(a: real, b: real): (r: real)
    ensures r <= a && r <= b && (r == a || r == b)
  {
    if a <= b then a else b
  }

  function Abs(a: real): (r: real)
    ensures r >= 0.0 && (r == a || r == -a)
  {
    if a >= 0.0 then a else -a
  }
}
