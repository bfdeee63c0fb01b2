/** Facts about sequences that larger proofs are cheaper for being told. */
module Sequences {

  lemma ConcatAssociates<T>(a: seq<T>, b: seq<T>, c: seq<T>)
    ensures a + (b + c) == (a + b) + c
  {}

  lemma SplitAt<T>(a: seq<T>, n: nat)
    requires n <= |a|
    ensures a == a[..n] + a[n..]
  {}

  lemma LastApart<T>(a: seq<T>, b: seq<T>)
    requires b != []
    ensures a + b == a + b[..|b| - 1] + [b[|b| - 1]]
    ensures b == b[..|b| - 1] + [b[|b| - 1]]
  {}

  /** The sequence without the element at a position. */
  function DropAt<T>(a: seq<T>, i: nat): seq<T>
    requires i < |a|
  {
    a[..i] + a[i + 1..]
  }

  lemma DropLater<T>(x: T, a: seq<T>, i: nat)
    requires i < |a|
    ensures DropAt([x] + a, i + 1) == [x] + DropAt(a, i)
    ensures DropAt([x] + a, 0) == a
  {}

  lemma UpdateLater<T>(x: T, a: seq<T>, i: nat, y: T)
    requires i < |a|
    ensures ([x] + a)[i + 1 := y] == [x] + a[i := y]
  {}

  lemma HeadApart<T>(a: seq<T>)
    requires a != []
    ensures a == [a[0]] + a[1..]
  {}
}
