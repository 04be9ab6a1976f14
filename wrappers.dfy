/** Option and Result datatypes, and the list lookup, shared by every module of the model. */
module Wrappers {

  datatype Option<+T> = None | Some(value: T)

  /** The outcome of an operation that can fail with an error of type E. */
  datatype Result<+T, +E> = Ok(value: T) | Err(error: E)

  /** Kotlin's `List.indexOf`: the first position holding a value equal to `x`, or -1 when there is none. */
  function IndexOf<T(==)>(s: seq<T>, x: T): (r: int)
    ensures -1 <= r < |s|
    ensures r == -1 <==> x !in s
    ensures r >= 0 ==> s[r] == x && forall j :: 0 <= j < r ==> s[j] != x
  {
    if s == [] then -1
    else if s[0] == x then 0
    else
      var rest := IndexOf(s[1..], x);
      assert x in s <==> x in s[1..];
      if rest == -1 then -1
      else
        assert forall j :: 1 <= j < rest + 1 ==> s[j] == s[1..][j - 1];
        rest + 1
  }
}
