/** Exact-real stand-ins for the numeric primitives that the billing and treasury engines share. */
module Numerics {

  function Max(a: real, b: real): real { if a >= b then a else b }

  function Min(a: real, b: real): real { if a <= b then a else b }

  function Abs(a: real): real { if a >= 0.0 then a else -a }

  /** Python's `int(x)`: drops the fraction, towards zero. */
  function Trunc(x: real): (n: int)
    ensures x >= 0.0 ==> n as real <= x < n as real + 1.0
    ensures x <= 0.0 ==> n as real - 1.0 < x <= n as real
  {
    if x >= 0.0 then x.Floor else -((-x).Floor)
  }

  /** Python's `round(x)`: nearest integer, an exact half goes to the even neighbour. */
  function RoundHalfEven(x: real): int {
    var low := x.Floor;
    var fraction := x - low as real;
    if fraction < 0.5 || (fraction == 0.5 && low % 2 == 0) then low else low + 1
  }

  lemma RoundHalfEvenIsNearest(x: real)
    ensures Abs(x - RoundHalfEven(x) as real) <= 0.5
    ensures Abs(x - RoundHalfEven(x) as real) == 0.5 ==> RoundHalfEven(x) % 2 == 0
  {
  }

  lemma RoundHalfEvenMonotone(x: real, y: real)
    requires x <= y
    ensures RoundHalfEven(x) <= RoundHalfEven(y)
  {
  }

  function Sum(xs: seq<real>): real {
    if xs == [] then 0.0 else Sum(xs[..|xs| - 1]) + xs[|xs| - 1]
  }

  function SumInt(xs: seq<int>): int {
    if xs == [] then 0 else SumInt(xs[..|xs| - 1]) + xs[|xs| - 1]
  }

  lemma SumAppend(xs: seq<real>, x: real)
    ensures Sum(xs + [x]) == Sum(xs) + x
  {
    assert (xs + [x])[..|xs|] == xs;
  }

  /** Extending a prefix by one element extends its sum by that element. */
  lemma SumIntPrefix(xs: seq<int>, k: nat)
    requires k < |xs|
    ensures SumInt(xs[..k + 1]) == SumInt(xs[..k]) + xs[k]
  {
    assert xs[..k + 1][..k] == xs[..k];
  }
}
