/**
 * The hand-written array-of-vectorised-structures benchmark (AovS.h):
 * numberOfChunks(inputSize, W) blocks, each a pair of W-lane registers, so
 * element e is lane e % W of block e / W.  Every lane of every block is
 * seeded, and then the lanes past the input in the last block are set to
 * 1.0f; each timed iteration transforms every block (Aovs.TransformBlocks).
 */
module LegacyAovs {
  import opened MathFunctions
  import BenchmarkHelper
  import VectorizationHelper
  import Aovs
  import AdditionalCalculations

  /** The block the generator fills for elements first .. first + W - 1: x, then y, lane by lane. */
  function BlockOfDraws<T>(draws: seq<T>, first: nat): (r: Coordinate<seq<T>>)
    requires 2 * (first + W) <= |draws|
    ensures Aovs.IsBlock(r)
    ensures forall m :: 0 <= m < W ==> r.x[m] == draws[2 * (first + m)] && r.y[m] == draws[2 * (first + m) + 1]
  {
    Coordinate(seq(W, m requires 0 <= m < W => draws[2 * (first + m)]),
               seq(W, m requires 0 <= m < W => draws[2 * (first + m) + 1]))
  }

  /** The inner loop of simulateInput: block b gets the draws of elements first .. first + W - 1. */
  method FillBlock<T>(input: array<Coordinate<seq<T>>>, b: nat, first: nat, draws: seq<T>)
    requires b < input.Length && Aovs.IsBlock(input[b]) && 2 * (first + W) <= |draws|
    modifies input
    ensures input[b] == BlockOfDraws(draws, first)
    ensures forall c :: 0 <= c < input.Length && c != b ==> input[c] == old(input[c])
  {
    var m := 0;
    while m < W
      invariant 0 <= m <= W && Aovs.IsBlock(input[b])
      invariant forall j :: 0 <= j < m ==> input[b].x[j] == draws[2 * (first + j)] && input[b].y[j] == draws[2 * (first + j) + 1]
      invariant forall c :: 0 <= c < input.Length && c != b ==> input[c] == old(input[c])
    {
      var block := input[b];
      input[b] := Coordinate(block.x[m := draws[2 * (first + m)]], block.y[m := draws[2 * (first + m) + 1]]);
      m := m + 1;
    }
    assert input[b].x == BlockOfDraws(draws, first).x && input[b].y == BlockOfDraws(draws, first).y;
  }

  /** simulateInput: every lane of the first `size` blocks, block by block, lane by lane. */
  method SimulateInput<T>(input: array<Coordinate<seq<T>>>, size: nat, draws: seq<T>)
    requires size <= input.Length && 2 * (size * W) <= |draws|
    requires forall b :: 0 <= b < input.Length ==> Aovs.IsBlock(input[b])
    modifies input
    ensures forall b :: 0 <= b < input.Length ==> Aovs.IsBlock(input[b])
    ensures forall b :: 0 <= b < size ==> b * W + W <= size * W && input[b] == BlockOfDraws(draws, b * W)
    ensures input[size..] == old(input[size..])
  {
    var current := 0;
    while current != size
      invariant 0 <= current <= size
      invariant forall b :: 0 <= b < input.Length ==> Aovs.IsBlock(input[b])
      invariant forall b :: 0 <= b < current ==> b * W + W <= size * W && input[b] == BlockOfDraws(draws, b * W)
      invariant input[size..] == old(input[size..])
    {
      MultiplyMonotone(current + 1, size, W);
      assert current * W + W == (current + 1) * W;
      FillBlock(input, current, current * W, draws);
      current := current + 1;
    }
  }

  /**
   * The padding loop: for n from `count` down to 1, lane W - n of block
   * `last` becomes `one` in x and in y; nothing else changes.
   */
  method SetPaddingLanes<T>(input: array<Coordinate<seq<T>>>, last: nat, count: nat, one: T)
    requires last < input.Length && Aovs.IsBlock(input[last]) && count <= W
    modifies input
    ensures Aovs.IsBlock(input[last])
    ensures forall m :: 0 <= m < W ==>
      input[last].x[m] == (if W - count <= m then one else old(input[last].x[m]))
      && input[last].y[m] == (if W - count <= m then one else old(input[last].y[m]))
    ensures forall c :: 0 <= c < input.Length && c != last ==> input[c] == old(input[c])
  {
    var n := count;
    while n > 0
      invariant 0 <= n <= count && Aovs.IsBlock(input[last])
      invariant forall m :: 0 <= m < W ==>
        input[last].x[m] == (if W - count <= m < W - n then one else old(input[last].x[m]))
        && input[last].y[m] == (if W - count <= m < W - n then one else old(input[last].y[m]))
      invariant forall c :: 0 <= c < input.Length && c != last ==> input[c] == old(input[c])
    {
      var block := input[last];
      input[last] := Coordinate(block.x[W - n := one], block.y[W - n := one]);
      n := n - 1;
    }
  }

  /**
   * Lane m of block b is a real element, b * W + m < inputSize, in every
   * block but the last, and in the last exactly below lane
   * W - (containerSize * W - inputSize).
   */
  lemma LaneIsElement(b: nat, m: nat, containerSize: nat, inputSize: nat)
    requires b < containerSize && m < W
    requires inputSize <= containerSize * W < inputSize + W
    ensures b < containerSize - 1 ==> b * W + m < inputSize
    ensures b == containerSize - 1 ==> (b * W + m < inputSize <==> m < W - (containerSize * W - inputSize))
  {
    assert (containerSize - 1) * W == containerSize * W - W;
    if b < containerSize - 1 {
      MultiplyMonotone(b + 1, containerSize - 1, W);
      assert (b + 1) * W == b * W + W;
    }
  }

  /** Lanes keep .. W - 1 of block are `one` and the others those of seeded. */
  ghost predicate PaddedBlock<T>(block: Coordinate<seq<T>>, seeded: Coordinate<seq<T>>, keep: int, one: T)
  {
    Aovs.IsBlock(block) && Aovs.IsBlock(seeded)
    && forall m :: 0 <= m < W ==>
      block.x[m] == (if keep <= m then one else seeded.x[m])
      && block.y[m] == (if keep <= m then one else seeded.y[m])
  }

  /**
   * After seeding and padding, lane m of block b holds the draws of element
   * b * W + m when that is below inputSize and `one` otherwise.
   */
  lemma PaddedLanes<T>(blocks: seq<Coordinate<seq<T>>>, seeded: seq<Coordinate<seq<T>>>, draws: seq<T>,
                       inputSize: nat, one: T)
    requires |blocks| == |seeded| && inputSize <= |blocks| * W < inputSize + W
    requires forall b :: 0 <= b < |seeded| ==>
      2 * (b * W + W) <= |draws| && seeded[b] == BlockOfDraws(draws, b * W)
    requires forall c :: 0 <= c < |blocks| - 1 ==> blocks[c] == seeded[c]
    requires |blocks| > 0 ==>
      PaddedBlock(blocks[|blocks| - 1], seeded[|blocks| - 1], W - (|blocks| * W - inputSize), one)
    ensures forall b, m :: 0 <= b < |blocks| && 0 <= m < W ==>
      Aovs.IsBlock(blocks[b])
      && 2 * (b * W + m) + 1 < |draws|
      && blocks[b].x[m] == (if b * W + m < inputSize then draws[2 * (b * W + m)] else one)
      && blocks[b].y[m] == (if b * W + m < inputSize then draws[2 * (b * W + m) + 1] else one)
  {
    forall b, m | 0 <= b < |blocks| && 0 <= m < W
      ensures Aovs.IsBlock(blocks[b]) && 2 * (b * W + m) + 1 < |draws|
      ensures blocks[b].x[m] == (if b * W + m < inputSize then draws[2 * (b * W + m)] else one)
              && blocks[b].y[m] == (if b * W + m < inputSize then draws[2 * (b * W + m) + 1] else one)
    {
      LaneIsElement(b, m, |blocks|, inputSize);
      assert seeded[b] == BlockOfDraws(draws, b * W);
    }
  }

  /**
   * The set-up of AovS: numberOfChunks(inputSize, W) blocks, all seeded by
   * simulateInput, and then the lanes past the input in the last block set
   * to `one`.
   */
  method SeededBlocks<T(0)>(inputSize: nat, draws: seq<T>, one: T) returns (inputValues: array<Coordinate<seq<T>>>)
    requires inputSize + W - 1 < SizeTModulus
    requires 2 * (VectorizationHelper.NumberOfChunks(inputSize, W) * W) <= |draws|
    ensures fresh(inputValues)
    ensures inputValues.Length == VectorizationHelper.NumberOfChunks(inputSize, W)
    ensures forall b :: 0 <= b < inputValues.Length ==> Aovs.IsBlock(inputValues[b])
    ensures forall b, m :: 0 <= b < inputValues.Length && 0 <= m < W ==>
      Aovs.IsBlock(inputValues[b])
      && inputValues[b].x[m] == (if b * W + m < inputSize then draws[2 * (b * W + m)] else one)
      && inputValues[b].y[m] == (if b * W + m < inputSize then draws[2 * (b * W + m) + 1] else one)
  {
    var containerSize := VectorizationHelper.NumberOfChunks(inputSize, W);
    var lanes := new T[W];
    var zero := lanes[..];
    inputValues := new Coordinate<seq<T>>[containerSize](_ => Coordinate(zero, zero));
    SimulateInput(inputValues, containerSize, draws);
    ghost var seeded := inputValues[..];
    if containerSize > 0 {
      SetPaddingLanes(inputValues, containerSize - 1, containerSize * W - inputSize, one);
      assert PaddedBlock(inputValues[containerSize - 1], seeded[containerSize - 1],
                         W - (containerSize * W - inputSize), one);
    }
    PaddedLanes(inputValues[..], seeded, draws, inputSize, one);
  }

  /**
   * AovS: the label "-AovS/" and range_x; numberOfChunks(inputSize, W)
   * blocks in which lane m of block b holds the draws of element b * W + m
   * when that is below inputSize and `one` otherwise; each timed iteration
   * sets every output block to the lane-wise transform of its input block.
   */
  method AovsBenchmark<T(0)>(inputSize: nat, draws: seq<T>, one: T, polar: Transform<T>, iterations: nat)
    returns (labelText: string, inputValues: array<Coordinate<seq<T>>>,
             outputValues: array<PolarCoordinate<seq<T>>>, items: nat, bytes: nat)
    requires inputSize + W - 1 < SizeTModulus
    requires 2 * (VectorizationHelper.NumberOfChunks(inputSize, W) * W) <= |draws|
    ensures BenchmarkHelper.IsLabel(labelText, "-AovS/", inputSize)
    ensures inputValues.Length == outputValues.Length == VectorizationHelper.NumberOfChunks(inputSize, W)
    ensures forall b, m :: 0 <= b < inputValues.Length && 0 <= m < W ==>
      Aovs.IsBlock(inputValues[b])
      && inputValues[b].x[m] == (if b * W + m < inputSize then draws[2 * (b * W + m)] else one)
      && inputValues[b].y[m] == (if b * W + m < inputSize then draws[2 * (b * W + m) + 1] else one)
    ensures iterations > 0 ==> forall b :: 0 <= b < outputValues.Length ==>
      Aovs.IsBlock(inputValues[b]) && outputValues[b] == PolarV(polar, inputValues[b])
    ensures items == iterations * inputSize && bytes == items * AdditionalCalculations.FloatSize
  {
    labelText := BenchmarkHelper.GetLabelString("-AovS/", inputSize, 1);
    BenchmarkHelper.LabelOfCount("-AovS/", inputSize);
    var containerSize := VectorizationHelper.NumberOfChunks(inputSize, W);
    inputValues := SeededBlocks(inputSize, draws, one);
    var lanes := new T[W];
    var zero := lanes[..];
    outputValues := new PolarCoordinate<seq<T>>[containerSize](_ => PolarCoordinate(zero, zero));
    var iteration := 0;
    while iteration < iterations
      invariant 0 <= iteration <= iterations
      invariant forall b :: 0 <= b < containerSize ==> Aovs.IsBlock(inputValues[b])
      invariant iteration > 0 ==> forall b :: 0 <= b < containerSize ==>
        Aovs.IsBlock(inputValues[b]) && outputValues[b] == PolarV(polar, inputValues[b])
      modifies outputValues
    {
      Aovs.TransformBlocks(inputValues, outputValues, polar);
      iteration := iteration + 1;
    }
    items := iterations * inputSize;
    bytes := items * AdditionalCalculations.FloatSize;
  }
}
