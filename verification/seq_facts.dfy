/** Facts about sequence slices that the loops over lines and playlist items
    use at every step, stated once so that each step need not rediscover them
    among the facts about the elements. */
module SeqFacts {

  /** The prefix up to i + 1 is the prefix up to i and element i. */
  lemma PrefixSnoc<T>(s: seq<T>, i: nat)
    requires i < |s|
    ensures s[..i + 1] == s[..i] + [s[i]]
    ensures forall k :: 0 <= k < i ==> s[..i][k] == s[k]
  {
  }

  /** The prefix of the whole length is the sequence. */
  lemma PrefixAll<T>(s: seq<T>)
    ensures s[..|s|] == s
  {
  }

  /** Putting an element in front commutes with appending. */
  lemma ConsAppend<T>(x: T, s: seq<T>, t: seq<T>)
    ensures [x] + (s + t) == ([x] + s) + t
  {
  }

  /** Dropping the first two elements of a sequence built from them. */
  lemma DropTwo<T>(x: T, y: T, t: seq<T>)
    ensures ([x] + ([y] + t))[2..] == t
  {
  }

  /** Dropping the last element of a sequence built with it. */
  lemma DropLast<T>(t: seq<T>, x: T)
    ensures (t + [x])[..|t|] == t
  {
  }
}
