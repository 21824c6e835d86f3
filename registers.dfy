/**
 * Vector-register primitives shared by the layouts: block stores into a
 * buffer, index vectors (IndexesFromZero and `indexes += W`) and the gather
 * of a buffer at an index vector.
 */
module Registers {
  import opened MathFunctions

  /** s with the block [n, n + |v|) overwritten by the lanes of v: a W-lane store. */
  function Splice<E>(s: seq<E>, n: nat, v: seq<E>): (r: seq<E>)
    requires n + |v| <= |s|
    ensures |r| == |s|
    ensures forall i :: 0 <= i < |s| ==> r[i] == if n <= i < n + |v| then v[i - n] else s[i]
  {
    s[..n] + v + s[n + |v|..]
  }

  /** The index vector whose lane m holds base + m; Iota(0) is IndexesFromZero. */
  function Iota(base: int): (r: seq<int>)
    ensures |r| == W
    ensures forall m :: 0 <= m < W ==> r[m] == base + m
  {
    seq(W, m => base + m)
  }

  /** `indexes += k`: every lane of an index vector moved by k. */
  function Advance(indexes: seq<int>, k: int): (r: seq<int>)
    ensures |r| == |indexes|
    ensures forall m :: 0 <= m < |indexes| ==> r[m] - indexes[m] == k
  {
    seq(|indexes|, m requires 0 <= m < |indexes| => indexes[m] + k)
  }

  /** Advancing consecutive indexes from base by W gives consecutive indexes from base + W. */
  lemma AdvanceIota(base: int)
    ensures Advance(Iota(base), W) == Iota(base + W)
  {
    assert forall m :: 0 <= m < W ==> Advance(Iota(base), W)[m] == Iota(base + W)[m];
  }

  /** The index vector after `count` advances by W from `indexes`. */
  function AdvanceTimes(indexes: seq<int>, count: nat): seq<int>
  {
    if count == 0 then indexes else Advance(AdvanceTimes(indexes, count - 1), W)
  }

  /** Advancing IndexesFromZero k times by W yields lanes k*W + m. */
  lemma {:induction false} AdvanceTimesFromZero(count: nat)
    ensures AdvanceTimes(Iota(0), count) == Iota(count * W)
  {
    if count > 0 {
      AdvanceTimesFromZero(count - 1);
      assert (count - 1) * W + W == count * W;
      AdvanceIota((count - 1) * W);
    }
  }

  /** Every lane of the index vector addresses an element of a buffer of this length. */
  predicate InBounds(indexes: seq<int>, length: nat) {
    forall m :: 0 <= m < |indexes| ==> 0 <= indexes[m] < length
  }

  /** `buffer[indexes]`: the gather, lane m reading buffer[indexes[m]]. */
  function Gathered<E>(s: seq<E>, indexes: seq<int>): (r: seq<E>)
    requires InBounds(indexes, |s|)
    ensures |r| == |indexes|
    ensures forall m :: 0 <= m < |indexes| ==> r[m] == s[indexes[m]]
  {
    seq(|indexes|, m requires 0 <= m < |indexes| => s[indexes[m]])
  }

  /** A gather at consecutive indexes from base reads the block [base, base + W). */
  lemma GatherIotaIsBlock<E>(s: seq<E>, base: nat)
    requires base + W <= |s|
    ensures InBounds(Iota(base), |s|)
    ensures Gathered(s, Iota(base)) == s[base..base + W]
  {
    assert InBounds(Iota(base), |s|);
    var g := Gathered(s, Iota(base));
    assert forall m :: 0 <= m < W ==> g[m] == s[base..base + W][m];
  }
}
