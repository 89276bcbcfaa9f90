/** Failure-carrying datatypes and the few sequence facts that several modules share. */
module Basics {

  datatype Option<+T> = None | Some(value: T)

  datatype Result<+T, +E> = Success(value: T) | Failure(error: E)

  type Byte = b: int | 0 <= b < 256
  type Bytes = seq<Byte>

  function Last<T>(xs: seq<T>): T
    requires xs != []
  {
    xs[|xs| - 1]
  }

  function DropLast<T>(xs: seq<T>): seq<T>
    requires xs != []
  {
    xs[..|xs| - 1]
  }

  /** `sub` is what remains of `xs` when some of its elements are deleted. */
  ghost predicate IsSubsequence<T>(sub: seq<T>, xs: seq<T>)
  {
    if sub == [] then true
    else if xs == [] then false
    else if sub[0] == xs[0] && IsSubsequence(sub[1..], xs[1..]) then true
    else IsSubsequence(sub, xs[1..])
  }

  lemma Regroup<T>(a: seq<T>, b: seq<T>, c: seq<T>)
    ensures (a + b) + c == a + (b + c)
  {
  }

  // ---- Real numbers -------------------------------------------------------

  lemma FloorIsClose(r: real)
    ensures r.Floor as real <= r < r.Floor as real + 1.0
  {
  }

  lemma FloorIs(r: real, n: int)
    requires n as real <= r < n as real + 1.0
    ensures r.Floor == n
  {
  }

  lemma CastsAdd(m: int, n: int)
    ensures (m + n) as real == m as real + n as real
    ensures (m - n) as real == m as real - n as real
  {
  }
}
