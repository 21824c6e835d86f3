/**
 * Array of vectorised structures (aovs.h): the container holds blocks, each
 * block a pair of W-lane registers, so element i is lane i % W of block
 * i / W.  The layout object used by the generic driver and the dedicated
 * aovs() benchmark both live here.
 */
module Aovs {
  import opened MathFunctions
  import opened TailPolicy

  /** A block: one x register and one y register of W lanes each. */
  predicate IsBlock<T>(c: Coordinate<seq<T>>) {
    |c.x| == W && |c.y| == W
  }

  /** The random registers the generator delivers (T::Random()) are W lanes wide. */
  predicate AreRegisters<T>(draws: seq<seq<T>>) {
    forall i :: 0 <= i < |draws| ==> |draws[i]| == W
  }

  /**
   * simulateInputAovs: walks the first `size` blocks with an iterator and
   * gives each a random x and y register, taken in turn from `draws`.
   */
  method SimulateInputAovs<T>(input: array<Coordinate<seq<T>>>, size: nat, draws: seq<seq<T>>)
    requires size <= input.Length && 2 * size <= |draws|
    modifies input
    ensures forall b :: 0 <= b < size ==> input[b] == Coordinate(draws[2 * b], draws[2 * b + 1])
    ensures input[size..] == old(input[size..])
  {
    var current := 0;
    while current != size
      invariant 0 <= current <= size
      invariant forall b :: 0 <= b < current ==> input[b] == Coordinate(draws[2 * b], draws[2 * b + 1])
      invariant input[size..] == old(input[size..])
    {
      input[current] := Coordinate(draws[2 * current], draws[2 * current + 1]);
      current := current + 1;
    }
  }

  /** AovsLayout: containerSize / W input blocks and as many output blocks. */
  class AovsLayout<T(0)> {
    const inputValues: array<Coordinate<seq<T>>>
    const outputValues: array<PolarCoordinate<seq<T>>>

    ghost predicate Valid()
      reads inputValues
    {
      inputValues.Length == outputValues.Length
      && forall b :: 0 <= b < inputValues.Length ==> IsBlock(inputValues[b])
    }

    /** Allocates containerSize / W blocks (rounding down) and seeds every one of them. */
    constructor (containerSize: nat, draws: seq<seq<T>>)
      requires 2 * (containerSize / W) <= |draws| && AreRegisters(draws)
      ensures Valid() && fresh(inputValues) && fresh(outputValues)
      ensures inputValues.Length == containerSize / W
      ensures forall b :: 0 <= b < inputValues.Length ==>
        inputValues[b] == Coordinate(draws[2 * b], draws[2 * b + 1])
    {
      var blocks := containerSize / W;
      var lanes := new T[W];
      var zero := lanes[..];
      inputValues := new Coordinate<seq<T>>[blocks](_ => Coordinate(zero, zero));
      outputValues := new PolarCoordinate<seq<T>>[blocks](_ => PolarCoordinate(zero, zero));
      new;
      SimulateInputAovs(inputValues, inputValues.Length, draws);
    }

    /** coordinate(index): returns a default-constructed element, unrelated to the blocks. */
    method CoordinateAt(index: nat) returns (r: Coordinate<T>)
    {
      var uninitialised := new Coordinate<T>[1];
      r := uninitialised[0];
    }

    /** setPolarCoordinate(index, coord): stores nothing. */
    method SetPolarCoordinate(index: nat, coord: PolarCoordinate<T>)
      ensures unchanged(inputValues, outputValues)
    {
    }
  }

  /** AovsAccessImpl: load and store address whole blocks by their block index. */
  class AovsAccess<T(0)> {
    const layout: AovsLayout<T>

    ghost predicate Valid()
      reads layout.inputValues
    {
      layout.Valid()
    }

    constructor (containerSize: nat, draws: seq<seq<T>>)
      requires 2 * (containerSize / W) <= |draws| && AreRegisters(draws)
      ensures Valid() && fresh(layout) && fresh(layout.inputValues) && fresh(layout.outputValues)
      ensures layout.inputValues.Length == containerSize / W
      ensures forall b :: 0 <= b < layout.inputValues.Length ==>
        layout.inputValues[b] == Coordinate(draws[2 * b], draws[2 * b + 1])
    {
      layout := new AovsLayout(containerSize, draws);
    }

    /** setupLoop: nothing to prepare. */
    method SetupLoop()
    {
    }

    /** load(index): block number index, which must exist. */
    method Load(index: nat) returns (r: Coordinate<seq<T>>)
      requires Valid() && index < layout.inputValues.Length
      ensures r == layout.inputValues[index] && IsBlock(r)
    {
      r := layout.inputValues[index];
    }

    /** store(index, coord): replaces output block number index and no other. */
    method Store(index: nat, coord: PolarCoordinate<seq<T>>)
      requires Valid() && index < layout.outputValues.Length
      modifies layout.outputValues
      ensures layout.outputValues[..] == old(layout.outputValues[..])[index := coord]
    {
      layout.outputValues[index] := coord;
    }
  }

  /**
   * The generic driver hands load and store the element index n of each
   * vector step, n = 0, W, 2W, ..., containerSize - W, but this layout
   * reads it as a block index.  With more than one lane and more than one
   * block, the last step asks for block containerSize - W, which is not
   * below the block count containerSize / W.
   */
  lemma DriverIndexPastBlocks(inputSize: nat)
    requires SizesDefined(Padding, inputSize)
    requires W >= 2 && inputSize > W
    ensures var c := ContainerSize(Padding, inputSize);
            W <= c && (c - W) % W == 0 && c - W >= c / W
  {
    TailSizes(Padding, inputSize);
    var c := ContainerSize(Padding, inputSize);
    var blocks := c / W;
    assert c == blocks * W;
    MultiplyCancel(1, blocks, W);
    assert c - W == (blocks - 1) * W;
    MultipleOf(blocks - 1, W);
    MultiplyMonotone(2, W, blocks - 1);
  }

  /** Sets every lane of block `last` to `one`, one lane at a time; no other block changes. */
  method FillLastBlock<T>(inputValues: array<Coordinate<seq<T>>>, last: nat, one: T)
    requires last < inputValues.Length && IsBlock(inputValues[last])
    modifies inputValues
    ensures inputValues[last] == Coordinate(seq(W, _ => one), seq(W, _ => one))
    ensures forall b :: 0 <= b < inputValues.Length && b != last ==> inputValues[b] == old(inputValues[b])
  {
    var n := 0;
    while n < W
      invariant 0 <= n <= W
      invariant forall b :: 0 <= b < inputValues.Length && b != last ==> inputValues[b] == old(inputValues[b])
      invariant IsBlock(inputValues[last])
      invariant forall m :: 0 <= m < n ==> inputValues[last].x[m] == one && inputValues[last].y[m] == one
    {
      var block := inputValues[last];
      inputValues[last] := Coordinate(block.x[n := one], block.y[n := one]);
      n := n + 1;
    }
    assert inputValues[last].x == seq(W, _ => one);
    assert inputValues[last].y == seq(W, _ => one);
  }

  /** One timed iteration of aovs(): output block n becomes the lane-wise transform of input block n. */
  method TransformBlocks<T>(inputValues: array<Coordinate<seq<T>>>, outputValues: array<PolarCoordinate<seq<T>>>,
                            polar: Transform<T>)
    requires inputValues.Length == outputValues.Length
    requires forall b :: 0 <= b < inputValues.Length ==> IsBlock(inputValues[b])
    modifies outputValues
    ensures forall b :: 0 <= b < outputValues.Length ==>
      IsBlock(inputValues[b]) && outputValues[b] == PolarV(polar, inputValues[b])
  {
    var n := 0;
    while n < inputValues.Length
      invariant 0 <= n <= inputValues.Length
      invariant forall b :: 0 <= b < n ==>
        IsBlock(inputValues[b]) && outputValues[b] == PolarV(polar, inputValues[b])
    {
      outputValues[n] := PolarV(polar, inputValues[n]);
      n := n + 1;
    }
  }

  /**
   * The set-up of aovs(): `blocks` blocks, all seeded, and then every lane
   * of the last block set to `one`.
   */
  method SeededBlocks<T(0)>(blocks: nat, draws: seq<seq<T>>, one: T) returns (inputValues: array<Coordinate<seq<T>>>)
    requires 1 <= blocks && 2 * blocks <= |draws| && AreRegisters(draws)
    ensures fresh(inputValues) && inputValues.Length == blocks
    ensures forall b :: 0 <= b < blocks ==> IsBlock(inputValues[b])
    ensures forall b :: 0 <= b < blocks - 1 ==> inputValues[b] == Coordinate(draws[2 * b], draws[2 * b + 1])
    ensures inputValues[blocks - 1] == Coordinate(seq(W, _ => one), seq(W, _ => one))
  {
    var lanes := new T[W];
    var zero := lanes[..];
    inputValues := new Coordinate<seq<T>>[blocks](_ => Coordinate(zero, zero));
    SimulateInputAovs(inputValues, blocks, draws);
    assert forall b :: 0 <= b < blocks ==> IsBlock(inputValues[b]);
    FillLastBlock(inputValues, blocks - 1, one);
  }

  /**
   * aovs(): numberOfChunks(inputSize, W) blocks, all seeded, then every lane
   * of the last block set to `one` (1.0f), also the lanes of real
   * elements; each timed iteration transforms every block once.
   * `containerSize - 1` is a block index, so the input must not be empty.
   */
  method AovsBenchmark<T(0)>(inputSize: nat, draws: seq<seq<T>>, one: T, polar: Transform<T>,
                             iterations: nat, valueSize: nat)
    returns (inputValues: array<Coordinate<seq<T>>>, outputValues: array<PolarCoordinate<seq<T>>>,
             items: nat, bytes: nat)
    requires 1 <= inputSize && inputSize + W - 1 < SizeTModulus
    requires 2 * NumberOfChunks(inputSize, W) <= |draws| && AreRegisters(draws)
    ensures fresh(inputValues) && fresh(outputValues)
    ensures inputValues.Length == NumberOfChunks(inputSize, W) == outputValues.Length
    ensures forall b :: 0 <= b < inputValues.Length - 1 ==>
      inputValues[b] == Coordinate(draws[2 * b], draws[2 * b + 1])
    ensures inputValues[inputValues.Length - 1] == Coordinate(seq(W, _ => one), seq(W, _ => one))
    ensures iterations > 0 ==> forall b :: 0 <= b < outputValues.Length ==>
      IsBlock(inputValues[b]) && outputValues[b] == PolarV(polar, inputValues[b])
    ensures items == iterations * inputSize && bytes == items * valueSize
  {
    var containerSize := NumberOfChunks(inputSize, W);
    NumberOfChunksBounds(inputSize, W);
    inputValues := SeededBlocks(containerSize, draws, one);
    var lanes := new T[W];
    var zero := lanes[..];
    outputValues := new PolarCoordinate<seq<T>>[containerSize](_ => PolarCoordinate(zero, zero));

    var iteration := 0;
    while iteration < iterations
      invariant 0 <= iteration <= iterations
      modifies outputValues
      invariant iteration > 0 ==> forall b :: 0 <= b < containerSize ==>
        IsBlock(inputValues[b]) && outputValues[b] == PolarV(polar, inputValues[b])
    {
      TransformBlocks(inputValues, outputValues, polar);
      iteration := iteration + 1;
    }
    items := iterations * inputSize;
    bytes := items * valueSize;
  }
}
