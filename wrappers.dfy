/** The conventional Option datatype, and a few facts about sequences,
    shared by every module of the model. */
module Wrappers {

  datatype Option<+T> = None | Some(value: T) {

    /** The value held, or `default` when there is none (Python's `d.get(k, default)`). */
    function GetOr(default: T): T {
      match this
      case Some(v) => v
      case None => default
    }
  }

  /** A sequence is its prefix followed by the rest. Stated on its own so
      that proofs about functions of the prefix use it without unfolding
      those functions. */
  lemma SplitAt<T>(s: seq<T>, n: nat)
    requires n <= |s|
    ensures s[..n] + s[n..] == s
  {
  }

  /** Where an element in the middle of `[head] + p + [x] + r` sits. */
  lemma Middle<T>(head: T, p: seq<T>, x: T, r: seq<T>)
    ensures var s := [head] + (p + [x] + r);
      1 + |p| < |s| && s[0] == head && s[1 + |p|] == x && s[2 + |p|..] == r
  {
    var s := [head] + (p + [x] + r);
    assert s[2 + |p|..] == r;
  }

  /** Indexing `a + b`, and an index of `xs` inside or just after its
      prefix without the last element. */
  lemma AppendIndex<T, U>(a: seq<T>, b: seq<T>, xs: seq<U>, i: nat)
    requires i < |a| + |b| && |xs| == |a| + |b| && |b| == 1
    ensures i < |a| ==> (a + b)[i] == a[i] && xs[i] == xs[..|xs| - 1][i]
    ensures i == |a| ==> (a + b)[i] == b[0] && xs[i] == xs[|xs| - 1]
  {
  }

  lemma SuffixIndex<T>(xs: seq<T>, n: nat, j: nat)
    requires n + j < |xs|
    ensures xs[n..][j] == xs[n + j]
  {
  }

  /** An element of `b` sits somewhere after `a` in `a + b`. */
  lemma InTail<T>(a: seq<T>, b: seq<T>, x: T) returns (k: nat)
    requires x in b
    ensures |a| <= k < |a + b| && (a + b)[k] == x
  {
    var j :| 0 <= j < |b| && b[j] == x;
    k := |a| + j;
  }
}
