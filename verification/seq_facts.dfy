/** Small facts about slicing and concatenating sequences that the scanning
    proofs share. */
module SeqFacts {

  /** Taking the first element off `s` shifts every slice by one. */
  lemma ShiftSlices<T>(acc: seq<T>, s: seq<T>, n: nat)
    requires 1 <= n <= |s|
    ensures (acc + [s[0]]) + s[1..][..n - 1] == acc + s[..n]
    ensures s[1..][n - 1..] == s[n..]
  {
    assert s[..n] == [s[0]] + s[1..][..n - 1];
  }

  /** Splitting a concatenation at the seam gives back its parts. */
  lemma SplitAtSeam<T>(a: seq<T>, b: seq<T>)
    ensures (a + b)[..|a|] == a && (a + b)[|a|..] == b
  {
  }

  /** A three-element sequence split after its second element. */
  lemma TwoThenOne<T>(a: T, b: T, c: T)
    ensures [a, b] + [c] == [a, b, c]
  {
  }

  /** A three-element sequence split around its middle element. */
  lemma OneOneOne<T>(a: T, b: T, c: T)
    ensures [a] + [b] + [c] == [a, b, c]
  {
  }

  /** A four-element sequence split around its two middle elements. */
  lemma OneTwoOne<T>(a: T, b: T, c: T, d: T)
    ensures [a] + [b, c] + [d] == [a, b, c, d]
  {
  }

  /** Two elements in the middle of a sequence, regrouped. */
  lemma RegroupPair<T>(w: seq<T>, a: T, b: T, s: seq<T>)
    ensures w + [a, b] + s == w + [a] + ([b] + s)
    ensures [a] + ([b] + s) == [a, b] + s
  {
    assert [a, b] == [a] + [b];
  }

  /** The head and tail of a sequence built by prepending one element. */
  lemma ConsTail<T>(c: T, s: seq<T>)
    ensures ([c] + s)[0] == c && ([c] + s)[1..] == s
  {
  }

  /** The head and tail of a sequence built by prepending two elements. */
  lemma PairTail<T>(a: T, b: T, s: seq<T>)
    ensures ([a, b] + s)[0] == a && ([a, b] + s)[1] == b && ([a, b] + s)[2..] == s
  {
  }

  /** One element in the middle of a sequence, regrouped. */
  lemma Regroup<T>(w: seq<T>, c: T, s: seq<T>)
    ensures w + [c] + s == w + ([c] + s)
  {
  }
}
