/** Facts about sequences and numbers that several modules use. */
module Sequences {

  lemma Associative<T>(a: seq<T>, b: seq<T>, c: seq<T>)
    ensures a + (b + c) == a + b + c
  {}

  function Min(a: nat, b: nat): nat { if a <= b then a else b }
}
