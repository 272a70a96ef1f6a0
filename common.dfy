/** Small helpers shared by the rest of the model. */
module Common {

  datatype Option<+T> = None | Some(value: T)

  /** `order` lists every element of `keys` exactly once: the order in which
      a Go `range` statement visits the keys of a map, which the language
      leaves unspecified. */
  ghost predicate IsEnumeration<T(!new)>(order: seq<T>, keys: set<T>)
  {
    (forall i, j :: 0 <= i < j < |order| ==> order[i] != order[j]) &&
    (forall k :: k in keys <==> k in order)
  }

  /** `idx` picks, in strictly increasing positions of `b`, the elements of `a`. */
  ghost predicate Embeds<T>(idx: seq<nat>, a: seq<T>, b: seq<T>)
  {
    |idx| == |a| &&
    (forall k :: 0 <= k < |idx| ==> idx[k] < |b| && a[k] == b[idx[k]]) &&
    (forall k, l :: 0 <= k < l < |idx| ==> idx[k] < idx[l])
  }

  /** `a` is `b` with some elements left out and none reordered. */
  ghost predicate IsSubsequence<T>(a: seq<T>, b: seq<T>)
  {
    exists idx :: Embeds(idx, a, b)
  }

  /** Growing the longer sequence keeps an embedding, and the new last
      element may be matched by a new last element of the shorter one. */
  lemma EmbedsExtend<T>(idx: seq<nat>, a: seq<T>, b: seq<T>, x: T)
    requires Embeds(idx, a, b)
    ensures Embeds(idx, a, b + [x])
    ensures Embeds(idx + [|b|], a + [x], b + [x])
  {
  }

  /** A prefix of a subsequence is a subsequence. */
  lemma PrefixSubsequence<T>(a: seq<T>, b: seq<T>, c: seq<T>)
    requires a <= b && IsSubsequence(b, c)
    ensures IsSubsequence(a, c)
  {
    var idx :| Embeds(idx, b, c);
    assert Embeds(idx[..|a|], a, c);
  }

  /** A subsequence of a subsequence is a subsequence. */
  lemma SubsequenceTransitive<T>(a: seq<T>, b: seq<T>, c: seq<T>)
    requires IsSubsequence(a, b) && IsSubsequence(b, c)
    ensures IsSubsequence(a, c)
  {
    var inB :| Embeds(inB, a, b);
    var inC :| Embeds(inC, b, c);
    var idx := seq(|a|, k requires 0 <= k < |a| => inC[inB[k]]);
    assert Embeds(idx, a, c);
  }
}
