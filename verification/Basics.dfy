/** What several modules share. */
module Basics {
  datatype Option<+T> = None | Some(value: T)

  /** A product that proofs can hide. */
  function Product(x: real, y: real): real { x * y }

  function Abs(x: real): real { if x < 0.0 then -x else x }

  /** Python's round: to the nearest integer, halves to the even one. */
  function RoundHalfEven(x: real): (r: int)
    ensures x - 0.5 <= r as real <= x + 0.5
  {
    var f := x.Floor;
    var d := x - f as real;
    if d < 0.5 || (d == 0.5 && f % 2 == 0) then f else f + 1
  }

  lemma {:induction false} SubsetSize<T>(a: set<T>, b: set<T>)
    requires a <= b
    ensures |a| <= |b|
  {
    if a != {} {
      var y :| y in a;
      SubsetSize(a - {y}, b - {y});
    }
  }

  lemma SmallerSet<T>(a: set<T>, b: set<T>)
    requires a < b
    ensures |a| < |b|
  {
    var z :| z in b && z !in a;
    SubsetSize(a, b - {z});
  }
}
