/** Facts about sequences that the proofs over purchases, events and rows share. */
module Sequences {

  lemma AppendAssoc<T>(a: seq<T>, b: seq<T>, c: seq<T>)
    ensures a + (b + c) == (a + b) + c
  {
  }

  lemma ConsParts<T>(x: T, t: seq<T>)
    ensures ([x] + t)[0] == x && ([x] + t)[1..] == t
  {
  }

  lemma SplitLast<T>(s: seq<T>)
    requires s != []
    ensures s == s[..|s| - 1] + [s[|s| - 1]]
  {
  }
}
