/**
 * The oldest reference benchmarks (Sonst.h): the same baseline and scalar
 * map as AdditinalCalculations.h, each reporting a labelText ("Baseline/" or
 * ".Scalar/" followed by range_x).  Its simulateInput_v is the lane fill
 * of LegacyCalculations.SimulateInputV.  Its baselineCalculation sizes the
 * loop by sizeof(float_v), the byte size of a register, rather than by its
 * lane count.
 */
module Sonst {
  import opened MathFunctions
  import VectorizationHelper
  import AdditionalCalculations
  import LegacyCalculations
  import BenchmarkHelper

  /** sizeof(float_v): W floats of sizeof(float) bytes each. */
  function FloatVectorBytes(): (r: nat)
    ensures r == AdditionalCalculations.FloatSize * W && r > W
  {
    AdditionalCalculations.FloatSize * W
  }

  /**
   * baselineCalculation as written: numberOfChunks(range_x, sizeof(float_v))
   * transforms per timed iteration, a quarter of the registers range_x needs.
   */
  method BaselineCalculation<T(0)>(rangeX: nat, draws: seq<T>, polar: Transform<T>, iterations: nat)
    returns (labelText: string, coordinateX: seq<T>, coordinateY: seq<T>, radius: seq<T>, phi: seq<T>,
             ghost transforms: nat, items: nat, bytes: nat)
    requires rangeX + FloatVectorBytes() - 1 < SizeTModulus && 2 * W <= |draws|
    ensures BenchmarkHelper.IsLabel(labelText, "Baseline/", rangeX)
    ensures |coordinateX| == W && |coordinateY| == W
    ensures forall m :: 0 <= m < W ==> coordinateX[m] == draws[2 * m] && coordinateY[m] == draws[2 * m + 1]
    ensures transforms == iterations * VectorizationHelper.NumberOfChunks(rangeX, FloatVectorBytes())
    ensures iterations > 0 && rangeX > 0 ==>
      PolarCoordinate(radius, phi) == PolarV(polar, Coordinate(coordinateX, coordinateY))
    ensures items == iterations * rangeX && bytes == items * AdditionalCalculations.FloatSize
  {
    labelText := BenchmarkHelper.GetLabelString("Baseline/", rangeX, 1);
    BenchmarkHelper.LabelOfCount("Baseline/", rangeX);
    var containerSize := VectorizationHelper.NumberOfChunks(rangeX, FloatVectorBytes());
    var lanes := new T[W];
    coordinateX, coordinateY := LegacyCalculations.SimulateInputV(lanes[..], lanes[..], draws);
    radius, phi, transforms := AdditionalCalculations.RepeatTransform(coordinateX, coordinateY, polar,
                                                                      containerSize, iterations);
    items := iterations * rangeX;
    bytes := items * AdditionalCalculations.FloatSize;
    if iterations > 0 && rangeX > 0 {
      assert containerSize > 0;
      MultiplyMonotone(1, containerSize, iterations);
    }
  }

  /**
   * With range_x = 2W and one iteration, the loop sized by bytes makes one
   * transform of W lanes, while 2W items are reported and two registers are
   * needed.
   */
  lemma BaselineChunksByBytes()
    requires 6 * W < SizeTModulus
    ensures var rangeX := 2 * W;
            VectorizationHelper.NumberOfChunks(rangeX, FloatVectorBytes()) == 1
            && VectorizationHelper.NumberOfChunks(rangeX, W) == 2
            && 1 * VectorizationHelper.NumberOfChunks(rangeX, FloatVectorBytes()) * W < 1 * rangeX
  {
    var rangeX := 2 * W;
    var c := VectorizationHelper.NumberOfChunks(rangeX, FloatVectorBytes());
    MathFunctions.NumberOfChunksIsCeiling(rangeX, FloatVectorBytes(), 1);
    MathFunctions.NumberOfChunksIsCeiling(rangeX, W, 2);
  }

  /** Scalar: the element-wise map over range_x seeded elements, labelled ".Scalar/" and range_x. */
  method Scalar<T(0)>(inputSize: nat, draws: seq<T>, polar: Transform<T>, iterations: nat)
    returns (labelText: string, inputValues: array<Coordinate<T>>, outputValues: array<PolarCoordinate<T>>,
             items: nat, bytes: nat)
    requires inputSize < SizeTModulus && 2 * inputSize <= |draws|
    ensures BenchmarkHelper.IsLabel(labelText, ".Scalar/", inputSize)
    ensures fresh(inputValues) && fresh(outputValues)
    ensures inputValues.Length == outputValues.Length == inputSize
    ensures forall n :: 0 <= n < inputSize ==> inputValues[n] == Coordinate(draws[2 * n], draws[2 * n + 1])
    ensures iterations > 0 ==> outputValues[..] == PolarMap(polar, inputValues[..])
    ensures items == iterations * inputSize && bytes == items * AdditionalCalculations.FloatSize
  {
    labelText := BenchmarkHelper.GetLabelString(".Scalar/", inputSize, 1);
    BenchmarkHelper.LabelOfCount(".Scalar/", inputSize);
    inputValues, outputValues, items, bytes :=
      AdditionalCalculations.Scalar(inputSize, draws, polar, iterations, AdditionalCalculations.FloatSize);
  }
}
