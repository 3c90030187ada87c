/** Where the brackets of a concatenation stand makes no difference. */
module Sequences {

  lemma Regroup<T>(x: seq<T>, y: seq<T>, z: seq<T>)
    ensures (x + y) + z == x + (y + z)
  {
  }

  lemma Regroup4<T>(x: seq<T>, y: seq<T>, z: seq<T>, u: seq<T>)
    ensures ((x + y) + z) + u == x + ((y + z) + u)
  {
  }

  /** The first element of a concatenation, apart. */
  lemma FirstApart<T>(x: seq<T>, y: seq<T>)
    requires x != []
    ensures x == [x[0]] + x[1..] && x + y == [x[0]] + (x[1..] + y)
  {
  }

  /** The last element of a concatenation, apart. */
  lemma LastApart<T>(x: seq<T>, y: seq<T>)
    requires y != []
    ensures y == y[..|y| - 1] + [y[|y| - 1]] && x + y == (x + y[..|y| - 1]) + [y[|y| - 1]]
  {
  }
}
