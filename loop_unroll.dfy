/**
 * The loop-unrolling benchmark (loopunroll.cpp): add 1 to every element of
 * an input buffer and store the sums in an output buffer, once with one
 * aligned vector per step (Simple) and once with four registers in flight,
 * each stored one round after it was loaded (Unrolled).  Element values are
 * the integers 0 .. N - 1 and their successors, which float and double
 * represent exactly, so they are modelled as int.
 */
module LoopUnroll {
  import opened MathFunctions

  /** The two loop shapes of the test list. */
  datatype Unroll = Simple | Unrolled

  /** The register V(&input[at], Aligned) + 1: lane m is input[at + m] + 1. */
  function PlusOne(input: seq<int>, at: nat): (r: seq<int>)
    requires at + W <= |input|
    ensures |r| == W
    ensures forall m :: 0 <= m < W ==> r[m] == input[at + m] + 1
  {
    seq(W, m requires 0 <= m < W => input[at + m] + 1)
  }

  /** v.store(&output[at], Aligned): elements at .. at + W - 1 become the lanes of v, no other changes. */
  method StoreRegister(output: array<int>, at: nat, v: seq<int>)
    requires at + W <= output.Length && |v| == W
    modifies output
    ensures forall j :: 0 <= j < output.Length ==> output[j] == if at <= j < at + W then v[j - at] else old(output[j])
  {
    forall j | at <= j < at + W {
      output[j] := v[j - at];
    }
  }

  /** workLoop(Simple): one aligned load, add and store per W elements; N must be a multiple of W. */
  method WorkLoopSimple(input: seq<int>, output: array<int>, N: nat)
    requires N <= |input| && N <= output.Length && N % W == 0
    modifies output
    ensures forall j :: 0 <= j < N ==> output[j] == input[j] + 1
    ensures output[N..] == old(output[N..])
  {
    ghost var blocks := N / W;
    assert N == blocks * W;
    var i := 0;
    ghost var k := 0;
    while i < N
      invariant i == k * W && k <= blocks
      invariant forall j :: 0 <= j < i ==> output[j] == input[j] + 1
      invariant output[N..] == old(output[N..])
    {
      MultiplyCancel(k, blocks, W);
      MultiplyMonotone(k + 1, blocks, W);
      assert i + W == (k + 1) * W;
      StoreRegister(output, i, PlusOne(input, i));
      i, k := i + W, k + 1;
    }
    MultiplyMonotone(k, blocks, W);
  }

  /** The four registers in flight hold the incremented blocks at base, base + W, base + 2W and base + 3W. */
  predicate Pending(x: seq<seq<int>>, input: seq<int>, base: nat)
  {
    base + 4 * W <= |input| && |x| == 4
    && x[0] == PlusOne(input, base) && x[1] == PlusOne(input, base + W)
    && x[2] == PlusOne(input, base + 2 * W) && x[3] == PlusOne(input, base + 3 * W)
  }

  /** o with elements lo .. hi - 1 replaced by their input values plus one. */
  ghost function Incremented(o: seq<int>, input: seq<int>, lo: nat, hi: nat): seq<int>
    requires lo <= hi <= |o| && hi <= |input|
  {
    seq(|o|, j requires 0 <= j < |o| => if lo <= j < hi then input[j] + 1 else o[j])
  }

  /** Incrementing [lo, mid) and then [mid, hi) increments [lo, hi). */
  lemma IncrementedJoin(o: seq<int>, input: seq<int>, lo: nat, mid: nat, hi: nat)
    requires lo <= mid <= hi <= |o| && hi <= |input|
    ensures Incremented(Incremented(o, input, lo, mid), input, mid, hi) == Incremented(o, input, lo, hi)
  {
  }

  /** Storing the incremented block at `at` there increments that block of the output. */
  method StoreBlock(input: seq<int>, output: array<int>, at: nat, v: seq<int>)
    requires at + W <= output.Length && at + W <= |input| && v == PlusOne(input, at)
    modifies output
    ensures output[..] == Incremented(old(output[..]), input, at, at + W)
  {
    StoreRegister(output, at, v);
  }

  /**
   * One line pair of a round: register r, which holds the incremented
   * block at `at`, is stored there and then reloaded from the block at
   * `from`.
   */
  method StoreAndReload(input: seq<int>, output: array<int>, x: seq<seq<int>>, r: nat, at: nat, from: nat)
    returns (x': seq<seq<int>>)
    requires r < |x| && at + W <= output.Length && at + W <= |input|
    requires from + W <= |input| && x[r] == PlusOne(input, at)
    modifies output
    ensures x' == x[r := PlusOne(input, from)]
    ensures output[..] == Incremented(old(output[..]), input, at, at + W)
  {
    StoreBlock(input, output, at, x[r]);
    x' := x[r := PlusOne(input, from)];
  }

  /**
   * One round of the unrolled loop at i = base + 4W: each register is
   * stored to its block at base and reloaded from the matching block at i.
   */
  method UnrolledRound(input: seq<int>, output: array<int>, x: seq<seq<int>>, base: nat)
    returns (x': seq<seq<int>>)
    requires base + 8 * W <= |input| && base + 4 * W <= output.Length
    requires Pending(x, input, base)
    modifies output
    ensures Pending(x', input, base + 4 * W)
    ensures output[..] == Incremented(old(output[..]), input, base, base + 4 * W)
  {
    ghost var o := output[..];
    var i := base + 4 * W;
    x' := StoreAndReload(input, output, x, 0, i - 4 * W, i);
    x' := StoreAndReload(input, output, x', 1, i - 3 * W, i + W);
    IncrementedJoin(o, input, base, base + W, base + 2 * W);
    x' := StoreAndReload(input, output, x', 2, i - 2 * W, i + 2 * W);
    IncrementedJoin(o, input, base, base + 2 * W, base + 3 * W);
    x' := StoreAndReload(input, output, x', 3, i - 1 * W, i + 3 * W);
    IncrementedJoin(o, input, base, base + 3 * W, base + 4 * W);
  }

  /** The epilogue: the four registers of the last round go to the last 4W elements below N. */
  method StoreAll(input: seq<int>, output: array<int>, x: seq<seq<int>>, N: nat)
    requires 4 * W <= N <= |input| && N <= output.Length
    requires Pending(x, input, N - 4 * W)
    modifies output
    ensures output[..] == Incremented(old(output[..]), input, N - 4 * W, N)
  {
    ghost var o := output[..];
    StoreBlock(input, output, N - 4 * W, x[0]);
    StoreBlock(input, output, N - 3 * W, x[1]);
    IncrementedJoin(o, input, N - 4 * W, N - 3 * W, N - 2 * W);
    StoreBlock(input, output, N - 2 * W, x[2]);
    IncrementedJoin(o, input, N - 4 * W, N - 2 * W, N - W);
    StoreBlock(input, output, N - 1 * W, x[3]);
    IncrementedJoin(o, input, N - 4 * W, N - W, N);
  }

  /**
   * The rounds of the unrolled loop, for i = 4W, 8W, ... below N: when they
   * end, the registers hold the last four blocks below N and everything
   * before those blocks is stored.
   */
  method UnrolledRounds(input: seq<int>, output: array<int>, x: seq<seq<int>>, N: nat, ghost rounds: nat)
    returns (x': seq<seq<int>>)
    requires N <= |input| && N <= output.Length
    requires N == rounds * (4 * W) && 1 <= rounds
    requires Pending(x, input, 0)
    modifies output
    ensures 4 * W <= N && Pending(x', input, N - 4 * W)
    ensures output[..] == Incremented(old(output[..]), input, 0, N - 4 * W)
  {
    // base is i - 4W of the source's loop variable i.
    var base := 0;
    ghost var q := 0;
    x' := x;
    MultiplyMonotone(1, rounds, 4 * W);
    while base + 4 * W < N
      invariant base == q * (4 * W) && base + 4 * W <= N
      invariant Pending(x', input, base)
      invariant output[..] == Incremented(old(output[..]), input, 0, base)
    {
      NextRound(q, rounds, 4 * W);
      x' := UnrolledRound(input, output, x', base);
      IncrementedJoin(old(output[..]), input, 0, base, base + 4 * W);
      base, q := base + 4 * W, q + 1;
    }
  }

  /** A round starting below the last one leaves room for the next: multiples of u step by u. */
  lemma NextRound(q: nat, rounds: nat, u: nat)
    requires q * u + u < rounds * u
    ensures (q + 1) * u == q * u + u && q * u + 2 * u <= rounds * u
  {
    assert (q + 1) * u == q * u + u;
    MultiplyCancel(q + 1, rounds, u);
    MultiplyMonotone(q + 2, rounds, u);
    assert (q + 2) * u == q * u + 2 * u;
  }

  /**
   * workLoop(Unrolled): the prologue loads the first four blocks, each
   * round stores the previous four and loads the next four, and the
   * epilogue stores the last four.  It reads input[0 .. 4W) and
   * input[i .. i + 4W) for every round, so N must be a positive multiple
   * of 4W.
   */
  method WorkLoopUnrolled(input: seq<int>, output: array<int>, N: nat)
    requires N <= |input| && N <= output.Length
    requires 4 * W <= N && N % (4 * W) == 0
    modifies output
    ensures forall j :: 0 <= j < N ==> output[j] == input[j] + 1
    ensures output[N..] == old(output[N..])
  {
    var x := [PlusOne(input, 0), PlusOne(input, W), PlusOne(input, 2 * W), PlusOne(input, 3 * W)];
    ghost var rounds := N / (4 * W);
    assert N == rounds * (4 * W);
    MultiplyCancel(0, rounds, 4 * W);
    ghost var o := output[..];
    x := UnrolledRounds(input, output, x, N, rounds);
    StoreAll(input, output, x, N);
    IncrementedJoin(o, input, 0, N - 4 * W, N);
    assert output[..] == Incremented(o, input, 0, N);
  }

  /** N, the number of elements of the benchmark. */
  const Elements: nat := 16 * 1024

  /**
   * loop: input holds 0, 1, ..., N - 1 (std::iota); after any timed
   * iteration, with either loop shape, output element j holds j + 1.
   * The unrolled loop needs 4W to divide N.
   */
  method Loop(unroll: Unroll, iterations: nat, valueSize: nat)
    returns (input: array<int>, output: array<int>, items: nat, bytes: nat)
    requires Elements % (4 * W) == 0
    ensures input.Length == output.Length == Elements
    ensures forall j :: 0 <= j < Elements ==> input[j] == j
    ensures iterations > 0 ==> forall j :: 0 <= j < Elements ==> output[j] == j + 1
    ensures items == iterations * Elements && bytes == items * valueSize
  {
    input := new int[Elements](j => j);
    output := new int[Elements];
    ghost var rounds := Elements / (4 * W);
    assert Elements == rounds * (4 * W);
    MultiplyCancel(0, rounds, 4 * W);
    MultiplyMonotone(1, rounds, 4 * W);
    assert Elements == (rounds * 4) * W;
    MultipleOf(rounds * 4, W);
    var iteration := 0;
    while iteration < iterations
      invariant 0 <= iteration <= iterations
      invariant forall j :: 0 <= j < Elements ==> input[j] == j
      invariant iteration > 0 ==> forall j :: 0 <= j < Elements ==> output[j] == j + 1
      modifies output
    {
      if unroll == Simple {
        WorkLoopSimple(input[..], output, Elements);
      } else {
        WorkLoopUnrolled(input[..], output, Elements);
      }
      iteration := iteration + 1;
    }
    items := iterations * Elements;
    bytes := items * valueSize;
  }
}
