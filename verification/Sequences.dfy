/** Facts about sequences that the solver does not look for on its own. */
module Sequences {
  lemma Assoc<T>(a: seq<T>, b: seq<T>, c: seq<T>)
    ensures a + (b + c) == (a + b) + c
  {
  }

  lemma Regroup<T>(a: seq<T>, b: seq<T>, c: seq<T>, d: seq<T>)
    ensures a + (b + c) + d == a + b + (c + d)
  {
  }

  lemma PrefixConcat<T>(a: seq<T>, b: seq<T>, c: seq<T>)
    requires b <= c
    ensures a + b <= a + c
  {
  }

  lemma Peel<T>(a: seq<T>, s: seq<T>, j: nat)
    requires j < |s|
    ensures a + s[j..] == (a + [s[j]]) + s[j + 1..]
  {
  }
}
