/**
 * The two ways a driver handles an input size that is not a multiple of the
 * vector width W: Padding rounds the container up to whole vectors and
 * transforms the padding slots too; RestScalar rounds it down and handles
 * the remainder one element at a time.  The drivers in
 * benchmarkmemorylayout.cpp, aos.h, SoA.h and AoS.h compute the same two
 * sizes, missingSize and containerSize.
 */
module TailPolicy {
  import opened MathFunctions

  /** The struct tags RestScalar and Padding, or a policy's useRestScalar flag. */
  datatype Tail = Padding | RestScalar

  /** A Padding container is computed with size_t arithmetic that must not wrap. */
  predicate SizesDefined(tail: Tail, inputSize: nat) {
    tail.Padding? ==> inputSize + W - 1 < SizeTModulus
  }

  /** missingSize: the elements left to the scalar loop. */
  function MissingSize(tail: Tail, inputSize: nat): nat {
    if tail.RestScalar? then inputSize % W else 0
  }

  /** containerSize: the elements handled by whole vectors. */
  function ContainerSize(tail: Tail, inputSize: nat): nat
    requires SizesDefined(tail, inputSize)
  {
    if tail.RestScalar? then inputSize - inputSize % W else NumberOfChunks(inputSize, W) * W
  }

  /** The number of elements every container is allocated with. */
  function Capacity(tail: Tail, inputSize: nat): nat
    requires SizesDefined(tail, inputSize)
  {
    ContainerSize(tail, inputSize) + MissingSize(tail, inputSize)
  }

  /**
   * Both policies give a container of whole vectors.  RestScalar splits the
   * input exactly into that container and a remainder shorter than W;
   * Padding leaves nothing over and rounds up to the least multiple of W
   * that holds the input.
   */
  lemma TailSizes(tail: Tail, inputSize: nat)
    requires SizesDefined(tail, inputSize)
    ensures ContainerSize(tail, inputSize) % W == 0
    ensures MissingSize(tail, inputSize) < W
    ensures tail.RestScalar? ==> ContainerSize(tail, inputSize) + MissingSize(tail, inputSize) == inputSize
    ensures tail.RestScalar? ==> MissingSize(tail, inputSize) == inputSize % W
    ensures tail.Padding? ==> MissingSize(tail, inputSize) == 0
    ensures tail.Padding? ==> inputSize <= ContainerSize(tail, inputSize) < inputSize + W
    ensures tail.Padding? ==> ContainerSize(tail, inputSize) < SizeTModulus
    ensures inputSize == 0 ==> ContainerSize(tail, inputSize) == 0
    ensures tail.Padding? && inputSize > 0 ==> W <= ContainerSize(tail, inputSize)
  {
    if tail.RestScalar? {
      assert inputSize == (inputSize / W) * W + inputSize % W;
      assert ContainerSize(tail, inputSize) == (inputSize / W) * W;
      MultipleOf(inputSize / W, W);
    } else {
      NumberOfChunksBounds(inputSize, W);
      NumberOfChunksExact(inputSize, W);
      MultipleOf(NumberOfChunks(inputSize, W), W);
      if inputSize > 0 {
        MultiplyMonotone(1, NumberOfChunks(inputSize, W), W);
      }
    }
  }

  /** The least-multiple property of a Padding container, as the ceiling of the input. */
  lemma PaddingIsLeastMultiple(inputSize: nat, k: nat)
    requires SizesDefined(Padding, inputSize)
    requires k * W >= inputSize
    ensures ContainerSize(Padding, inputSize) <= k * W
  {
    NumberOfChunksBounds(inputSize, W);
    var c := NumberOfChunks(inputSize, W);
    assert (k + 1) * W == k * W + W;
    MultiplyCancel(c, k + 1, W);
    MultiplyMonotone(c, k, W);
  }

  /** The consecutive indexes lo, lo + 1, ..., hi - 1. */
  function Range(lo: int, hi: int): (r: seq<int>)
    requires lo <= hi
    ensures |r| == hi - lo
    ensures forall i :: 0 <= i < |r| ==> r[i] == lo + i
  {
    seq(hi - lo, i => lo + i)
  }

  /** The values n takes in the vector loop `for (n = 0; n < c; n += W)` when c = k * W. */
  function VectorStarts(k: nat): (r: seq<nat>)
    ensures |r| == k
  {
    seq(k, j => j * W)
  }

  /** Every vector step of the loop over k vectors is aligned and inside k * W elements. */
  lemma VectorStartsInCapacity(k: nat)
    ensures forall j :: 0 <= j < k ==> VectorStarts(k)[j] % W == 0 && VectorStarts(k)[j] + W <= k * W
  {
    forall j | 0 <= j < k
      ensures VectorStarts(k)[j] % W == 0 && VectorStarts(k)[j] + W <= k * W
    {
      MultipleOf(j, W);
      assert (j + 1) * W == j * W + W;
      MultiplyMonotone(j + 1, k, W);
    }
  }

  /** The element indexes the first k vector steps touch, in order. */
  function LaneVisits(k: nat): seq<int>
  {
    if k == 0 then [] else LaneVisits(k - 1) + Range((k - 1) * W, (k - 1) * W + W)
  }

  /** k vector steps touch [0, k * W), each element once and in order. */
  lemma {:induction false} LaneVisitsCover(k: nat)
    ensures LaneVisits(k) == Range(0, k * W)
  {
    if k > 0 {
      LaneVisitsCover(k - 1);
      assert (k - 1) * W + W == k * W;
      assert Range(0, (k - 1) * W) + Range((k - 1) * W, k * W) == Range(0, k * W);
    }
  }

  /** The element indexes one timed iteration of a driver touches: vector steps, then scalar steps. */
  function DriverVisits(tail: Tail, inputSize: nat): seq<int>
    requires SizesDefined(tail, inputSize)
  {
    var c := ContainerSize(tail, inputSize);
    var start := inputSize - MissingSize(tail, inputSize);
    LaneVisits(c / W) + Range(start, inputSize)
  }

  /**
   * The vector prefix and the scalar remainder together touch every element
   * of the container exactly once, in order: [0, inputSize) under RestScalar,
   * the padded [0, containerSize) under Padding (whose scalar loop is empty).
   */
  lemma DriverVisitsExactlyOnce(tail: Tail, inputSize: nat)
    requires SizesDefined(tail, inputSize)
    ensures DriverVisits(tail, inputSize) == Range(0, Capacity(tail, inputSize))
    ensures tail.RestScalar? ==> DriverVisits(tail, inputSize) == Range(0, inputSize)
    ensures tail.Padding? ==> inputSize - MissingSize(tail, inputSize) == inputSize
  {
    TailSizes(tail, inputSize);
    var c := ContainerSize(tail, inputSize);
    assert c / W * W == c;
    LaneVisitsCover(c / W);
    if tail.RestScalar? {
      assert Range(0, c) + Range(c, inputSize) == Range(0, inputSize);
    } else {
      assert Range(inputSize, inputSize) == [];
      assert Range(0, c) + [] == Range(0, c);
    }
  }

  /**
   * One step of `for (n = 0; n < c; n += W)` over a container of whole
   * vectors: an aligned n below c leaves room for a whole vector, and the
   * next n is aligned again.
   */
  lemma VectorStep(n: nat, c: nat)
    requires n % W == 0 && c % W == 0 && n < c
    ensures n + W <= c
    ensures (n + W) % W == 0
  {
    var k, kc := n / W, c / W;
    assert n == k * W && c == kc * W;
    MultiplyCancel(k, kc, W);
    assert (k + 1) * W == n + W;
    MultiplyMonotone(k + 1, kc, W);
    MultipleOf(k + 1, W);
  }
}
