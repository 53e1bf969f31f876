/** Option and Result: the Go `(value, error)` return pairs, written as values. */
module Wrappers {

  datatype Option<+T> = None | Some(value: T)

  /** `Ok(v)` is a nil error with value `v`; `Err(e)` is a non-nil error `e` (the Go value is then nil). */
  datatype Result<+T, +E> = Ok(value: T) | Err(error: E)

  /** `xs` in front of the list a result carries; an error stays that error. */
  function Prepend<T, E>(xs: seq<T>, rest: Result<seq<T>, E>): Result<seq<T>, E> {
    match rest
    case Ok(ys) => Ok(xs + ys)
    case Err(e) => Err(e)
  }

  /** The first result's list followed by the second's; the first error wins. */
  function Then<T, E>(first: Result<seq<T>, E>, second: Result<seq<T>, E>): Result<seq<T>, E> {
    match first
    case Err(e) => Err(e)
    case Ok(xs) => Prepend(xs, second)
  }

  lemma PrependNothing<T, E>(r: Result<seq<T>, E>)
    ensures Prepend([], r) == r
  {
    if r.Ok? {
      assert [] + r.value == r.value;
    }
  }

  lemma PrependTwice<T, E>(a: seq<T>, b: seq<T>, r: Result<seq<T>, E>)
    ensures Prepend(a, Prepend(b, r)) == Prepend(a + b, r)
  {
    if r.Ok? {
      assert a + (b + r.value) == (a + b) + r.value;
    }
  }
}
