/**
 * Order-preserving subsequences, described by the positions they keep.
 *
 * Every simplifier returns some of its input points in their original order.
 * The model describes such an output by an index map: a strictly increasing
 * sequence of positions into the input, from which `Select` reads the points.
 */
module Subsequences {

  /** `idx` lists positions below `n`, each strictly greater than the one before it. */
  predicate IsIndexMap(idx: seq<nat>, n: nat)
  {
    (forall k :: 0 <= k < |idx| ==> idx[k] < n) &&
    (forall j, k :: 0 <= j < k < |idx| ==> idx[j] < idx[k])
  }

  /** Every position of `idx` is a valid position of `s`. */
  predicate InRange<T>(s: seq<T>, idx: seq<nat>)
  {
    forall k :: 0 <= k < |idx| ==> idx[k] < |s|
  }

  /** The elements of `s` at the positions `idx`, in the order of `idx`. */
  function Select<T>(s: seq<T>, idx: seq<nat>): (r: seq<T>)
    requires InRange(s, idx)
    ensures |r| == |idx|
    ensures forall k :: 0 <= k < |idx| ==> r[k] == s[idx[k]]
  {
    seq(|idx|, k requires 0 <= k < |idx| => s[idx[k]])
  }

  /** The positions `lo, lo + 1, ..., hi - 1`. */
  function Range(lo: nat, hi: nat): (r: seq<nat>)
    ensures |r| == if lo <= hi then hi - lo else 0
    ensures forall k :: 0 <= k < |r| ==> r[k] == lo + k
    decreases hi - lo
  {
    if lo < hi then [lo] + Range(lo + 1, hi) else []
  }

  /** The positions of `outer` picked out by `inner`: selecting by it selects by `inner` from a selection by `outer`. */
  function Compose(outer: seq<nat>, inner: seq<nat>): (r: seq<nat>)
    requires forall k :: 0 <= k < |inner| ==> inner[k] < |outer|
    ensures |r| == |inner|
    ensures forall k :: 0 <= k < |inner| ==> r[k] == outer[inner[k]]
  {
    seq(|inner|, k requires 0 <= k < |inner| => outer[inner[k]])
  }

  // ---------------------------------------------------------------------------
  // Facts about index maps.

  /** The `k`-th position of an index map is at least `k` past the first one. */
  lemma {:induction false} IndexAtLeastPosition(idx: seq<nat>, n: nat, k: nat)
    requires IsIndexMap(idx, n) && k < |idx|
    ensures idx[k] >= idx[0] + k
  {
    if k > 0 {
      IndexAtLeastPosition(idx, n, k - 1);
    }
  }

  /** An index map into `n` positions keeps at most `n` of them. */
  lemma IndexMapLength(idx: seq<nat>, n: nat)
    requires IsIndexMap(idx, n)
    ensures |idx| <= n
  {
    if |idx| > 0 {
      IndexAtLeastPosition(idx, n, |idx| - 1);
    }
  }

  /** Selecting every position in order gives the sequence back unchanged. */
  lemma SelectAll<T>(s: seq<T>)
    ensures InRange(s, Range(0, |s|))
    ensures Select(s, Range(0, |s|)) == s
  {
  }

  /** The full range of positions is an index map. */
  lemma RangeIsIndexMap(lo: nat, hi: nat)
    ensures IsIndexMap(Range(lo, hi), hi)
  {
  }

  /** Selecting in two steps is selecting once by the composed positions. */
  lemma SelectCompose<T>(s: seq<T>, outer: seq<nat>, inner: seq<nat>)
    requires InRange(s, outer)
    requires forall k :: 0 <= k < |inner| ==> inner[k] < |outer|
    ensures InRange(s, Compose(outer, inner))
    ensures Select(Select(s, outer), inner) == Select(s, Compose(outer, inner))
  {
  }

  /** An index map into an index map is an index map into the original positions. */
  lemma ComposeIndexMap(outer: seq<nat>, inner: seq<nat>, n: nat)
    requires IsIndexMap(outer, n) && IsIndexMap(inner, |outer|)
    ensures IsIndexMap(Compose(outer, inner), n)
  {
  }

  /** Selecting by a concatenation of positions concatenates the selections. */
  lemma SelectConcat<T>(s: seq<T>, a: seq<nat>, b: seq<nat>)
    requires InRange(s, a) && InRange(s, b)
    ensures InRange(s, a + b)
    ensures Select(s, a + b) == Select(s, a) + Select(s, b)
  {
  }

  /** Two index maps, the first wholly below the second, concatenate to an index map. */
  lemma ConcatIndexMaps(a: seq<nat>, b: seq<nat>, n: nat)
    requires IsIndexMap(a, n) && IsIndexMap(b, n)
    requires forall j, k :: 0 <= j < |a| && 0 <= k < |b| ==> a[j] < b[k]
    ensures IsIndexMap(a + b, n)
  {
  }

  /**
   * Two index maps on either side of a position `mid`, with the first above
   * `lo`, join around `mid` into one index map whose positions lie above `lo`.
   */
  lemma JoinAround(left: seq<nat>, mid: nat, right: seq<nat>, lo: nat, hi: nat)
    requires lo < mid < hi
    requires IsIndexMap(left, mid) && forall k :: 0 <= k < |left| ==> lo < left[k]
    requires IsIndexMap(right, hi) && forall k :: 0 <= k < |right| ==> mid < right[k]
    ensures IsIndexMap(left + [mid] + right, hi)
    ensures forall k :: 0 <= k < |left + [mid] + right| ==> lo < (left + [mid] + right)[k]
  {
    ConcatIndexMaps(left, [mid], hi);
    ConcatIndexMaps(left + [mid], right, hi);
  }

  /** Appending the selections around `mid` one after another appends the selection of the joined positions. */
  lemma SelectAround<T>(s: seq<T>, out: seq<T>, left: seq<nat>, mid: nat, right: seq<nat>)
    requires InRange(s, left) && mid < |s| && InRange(s, right)
    ensures InRange(s, left + [mid] + right)
    ensures out + Select(s, left) + [s[mid]] + Select(s, right) == out + Select(s, left + [mid] + right)
  {
    assert [s[mid]] == Select(s, [mid]);
    SelectConcat(s, left, [mid]);
    SelectConcat(s, left + [mid], right);
    assert out + Select(s, left) + [s[mid]] + Select(s, right) == out + (Select(s, left) + [s[mid]] + Select(s, right));
  }
}
