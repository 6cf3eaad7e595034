/** Option and Result, the shapes in which the modelled code reports absence and failure. */
module Wrappers {

  datatype Option<+T> = None | Some(value: T)

  datatype Result<+T, +E> = Ok(value: T) | Err(error: E)

  /** What a loop has read so far, in front of what is left to read. */
  ghost function Prepended<T, E>(out: seq<T>, rest: Result<seq<T>, E>): Result<seq<T>, E> {
    if rest.Ok? then Ok(out + rest.value) else rest
  }

  lemma PrependedNothing<T, E>(rest: Result<seq<T>, E>)
    ensures Prepended([], rest) == rest
  {
    if rest.Ok? {
      assert [] + rest.value == rest.value;
    }
  }

  lemma PrependedTwice<T, E>(out: seq<T>, item: T, rest: Result<seq<T>, E>)
    ensures Prepended(out, Prepended([item], rest)) == Prepended(out + [item], rest)
  {
    if rest.Ok? {
      assert out + ([item] + rest.value) == out + [item] + rest.value;
    }
  }

  function Min(a: nat, b: nat): nat { if a <= b then a else b }

  function Max(a: nat, b: nat): nat { if a >= b then a else b }
}
