/** Small facts about sequence concatenation and slicing, stated once so that the
    proofs about Post rows can cite them instead of re-deriving them inline. */
module Sequences {
  /** Dropping the head of a concatenation drops it from the left part. */
  lemma ConsAppend<T>(a: seq<T>, b: seq<T>)
    requires a != []
    ensures (a + b)[0] == a[0] && (a + b)[1..] == a[1..] + b
  {
  }

  /** A non-empty sequence is its head followed by its tail. */
  lemma HeadTail<T>(s: seq<T>)
    requires s != []
    ensures s == [s[0]] + s[1..]
  {
  }

  /** The empty sequence is a unit of concatenation. */
  lemma AppendEmpty<T>(s: seq<T>)
    ensures s + [] == s && [] + s == s
  {
  }

  /** Concatenation is associative. */
  lemma AppendAssoc<T>(x: seq<T>, y: seq<T>, z: seq<T>)
    ensures x + (y + z) == x + y + z
  {
  }

  /** A sequence is its prefix before `i` followed by the rest, which starts with `s[i]`. */
  lemma SplitAt<T>(s: seq<T>, i: nat)
    requires i < |s|
    ensures s == s[..i] + s[i..] && s[i..] != [] && s[i..][0] == s[i]
  {
  }
}
