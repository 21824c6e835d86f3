/**
 * The reference benchmarks (additinalcalculations.h): `baseline`, which
 * repeats the transform on one fixed pair of registers, and `scalar`, the
 * plain element-wise map that every layout's result is compared with.
 */
module AdditionalCalculations {
  import opened MathFunctions
  import Aos

  /** sizeof(float): the byte size `baseline` reports per item whatever the vector type. */
  const FloatSize: nat := 4

  /**
   * The timed loops of a baseline benchmark: `iterations` passes of
   * `chunks` transforms each, all on the same input registers, which are
   * never changed.  `transforms` counts the calls.
   */
  method RepeatTransform<T(0)>(coordinateX: seq<T>, coordinateY: seq<T>, polar: Transform<T>,
                               chunks: nat, iterations: nat)
    returns (radius: seq<T>, phi: seq<T>, ghost transforms: nat)
    requires |coordinateX| == W && |coordinateY| == W
    ensures transforms == iterations * chunks
    ensures |radius| == W && |phi| == W
    ensures transforms > 0 ==> PolarCoordinate(radius, phi) == PolarV(polar, Coordinate(coordinateX, coordinateY))
  {
    var lanes := new T[W];
    radius, phi := lanes[..], lanes[..];
    transforms := 0;
    var iteration := 0;
    while iteration < iterations
      invariant 0 <= iteration <= iterations && transforms == iteration * chunks
      invariant |radius| == W && |phi| == W
      invariant transforms > 0 ==> PolarCoordinate(radius, phi) == PolarV(polar, Coordinate(coordinateX, coordinateY))
    {
      var n := 0;
      while n < chunks
        invariant 0 <= n <= chunks && transforms == iteration * chunks + n
        invariant |radius| == W && |phi| == W
        invariant transforms > 0 ==>
          PolarCoordinate(radius, phi) == PolarV(polar, Coordinate(coordinateX, coordinateY))
      {
        var result := PolarV(polar, Coordinate(coordinateX, coordinateY));
        radius, phi := result.radius, result.phi;
        transforms := transforms + 1;
        n := n + 1;
      }
      iteration := iteration + 1;
    }
  }

  /**
   * baseline: numberOfChunks(range_x, W) transforms per timed iteration on
   * two random registers (randomX and randomY stand for T::Random()); the
   * reported items are range_x per iteration and the bytes use sizeof(float).
   * Between them the transforms compute at least as many lanes as items are
   * reported.
   */
  method Baseline<T(0)>(rangeX: nat, randomX: seq<T>, randomY: seq<T>, polar: Transform<T>, iterations: nat)
    returns (radius: seq<T>, phi: seq<T>, ghost transforms: nat, items: nat, bytes: nat)
    requires rangeX + W - 1 < SizeTModulus
    requires |randomX| == W && |randomY| == W
    ensures transforms == iterations * NumberOfChunks(rangeX, W)
    ensures transforms * W >= items
    ensures iterations > 0 && rangeX > 0 ==>
      PolarCoordinate(radius, phi) == PolarV(polar, Coordinate(randomX, randomY))
    ensures items == iterations * rangeX && bytes == items * FloatSize
  {
    var containerSize := NumberOfChunks(rangeX, W);
    NumberOfChunksBounds(rangeX, W);
    radius, phi, transforms := RepeatTransform(randomX, randomY, polar, containerSize, iterations);
    items := iterations * rangeX;
    bytes := items * FloatSize;
    CountsCover(iterations, containerSize, rangeX);
  }

  /** Enough lanes per iteration cover the items of every iteration. */
  lemma CountsCover(iterations: nat, chunks: nat, rangeX: nat)
    requires chunks * W >= rangeX
    ensures iterations * chunks * W >= iterations * rangeX
    ensures iterations > 0 && rangeX > 0 ==> iterations * chunks > 0
  {
    MultiplyMonotone(rangeX, chunks * W, iterations);
    assert iterations * (chunks * W) == iterations * chunks * W;
    if iterations > 0 && rangeX > 0 {
      assert chunks > 0;
      MultiplyMonotone(1, chunks, iterations);
    }
  }

  /**
   * scalar: inputSize elements, all seeded, and every timed iteration sets
   * output n to the transform of input n for every n; bytes use sizeof(T).
   */
  method Scalar<T(0)>(inputSize: nat, draws: seq<T>, polar: Transform<T>, iterations: nat, valueSize: nat)
    returns (inputValues: array<Coordinate<T>>, outputValues: array<PolarCoordinate<T>>, items: nat, bytes: nat)
    requires 2 * inputSize <= |draws|
    ensures fresh(inputValues) && fresh(outputValues)
    ensures inputValues.Length == outputValues.Length == inputSize
    ensures forall n :: 0 <= n < inputSize ==> inputValues[n] == Coordinate(draws[2 * n], draws[2 * n + 1])
    ensures iterations > 0 ==> outputValues[..] == PolarMap(polar, inputValues[..])
    ensures items == iterations * inputSize && bytes == items * valueSize
  {
    inputValues := new Coordinate<T>[inputSize];
    outputValues := new PolarCoordinate<T>[inputSize];
    Aos.SimulateInputAos(inputValues, inputSize, draws);
    var iteration := 0;
    while iteration < iterations
      invariant 0 <= iteration <= iterations
      invariant iteration > 0 ==> outputValues[..] == PolarMap(polar, inputValues[..])
      modifies outputValues
    {
      Aos.AosScalarLoop(inputValues, outputValues, 0, inputSize, polar);
      Aos.MatchesIsPolarMap(polar, inputValues[..], outputValues[..]);
      iteration := iteration + 1;
    }
    items := iterations * inputSize;
    bytes := items * valueSize;
  }
}
