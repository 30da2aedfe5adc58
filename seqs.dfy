/** Generic facts about sequence concatenation and set union, proved once for every element type. */
module Seqs {
  /** The head and the tail of a concatenation whose left part is not empty. */
  lemma HeadTailAppend<T>(a: seq<T>, b: seq<T>)
    requires a != []
    ensures (a + b)[0] == a[0] && (a + b)[1..] == a[1..] + b
  {
  }

  lemma AppendAssoc<T>(a: seq<T>, b: seq<T>, c: seq<T>)
    ensures a + b + c == a + (b + c)
    ensures |b + c| == |b| + |c|
  {
  }

  /** Dropping one more element from a suffix. */
  lemma DropTail<T>(s: seq<T>, i: nat)
    requires i < |s|
    ensures s[i..][1..] == s[i + 1..]
  {
  }

  /** A non-empty sequence is its head followed by its tail. */
  lemma ConsSplit<T>(s: seq<T>)
    requires s != []
    ensures s == [s[0]] + s[1..]
  {
  }

  lemma UnionAssoc<T>(a: set<T>, b: set<T>, c: set<T>)
    ensures a + b + c == a + (b + c)
  {
  }
}
