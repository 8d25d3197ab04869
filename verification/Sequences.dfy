/** Facts about sequences that several proofs need on their own. */
module Sequences {

  lemma EndsInLast<T>(s: seq<T>)
    requires s != []
    ensures s == s[..|s| - 1] + [s[|s| - 1]]
  {
  }

  lemma Associate<T>(a: seq<T>, b: seq<T>, c: seq<T>)
    ensures (a + b) + c == a + (b + c)
  {
  }

  lemma NothingInFront<T>(s: seq<T>)
    ensures [] + s == s
  {
  }

  lemma Regroup<T>(front: seq<T>, s: seq<T>)
    requires s != []
    ensures front + s == (front + s[..|s| - 1]) + [s[|s| - 1]]
    ensures (front + s)[..|front + s| - 1] == front + s[..|s| - 1]
  {
  }
}
