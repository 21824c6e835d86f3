/**
 * The older reference benchmarks (AdditinalCalculations.h), written for
 * float_v: simulateInput_v fills the lanes of a register pair, and
 * baselineCalculation repeats the transform on that pair once per
 * register the range needs.  Its Scalar is the element-wise map of
 * AdditionalCalculations.Scalar with sizeof(float) as the item size.
 */
module LegacyCalculations {
  import opened MathFunctions
  import VectorizationHelper
  import AdditionalCalculations

  /** simulateInput_v: lane n of x and of y get the next two draws, for every lane. */
  method SimulateInputV<T>(inputX: seq<T>, inputY: seq<T>, draws: seq<T>) returns (x: seq<T>, y: seq<T>)
    requires |inputX| == W && |inputY| == W && 2 * W <= |draws|
    ensures |x| == W && |y| == W
    ensures forall m :: 0 <= m < W ==> x[m] == draws[2 * m] && y[m] == draws[2 * m + 1]
  {
    x, y := inputX, inputY;
    var n := 0;
    while n < W
      invariant 0 <= n <= W && |x| == W && |y| == W
      invariant forall m :: 0 <= m < n ==> x[m] == draws[2 * m] && y[m] == draws[2 * m + 1]
    {
      x := x[n := draws[2 * n]];
      y := y[n := draws[2 * n + 1]];
      n := n + 1;
    }
  }

  /**
   * baselineCalculation: numberOfChunks(range_x, W) transforms per timed
   * iteration, so the lanes computed cover the items reported.
   */
  method BaselineCalculation<T(0)>(rangeX: nat, draws: seq<T>, polar: Transform<T>, iterations: nat)
    returns (coordinateX: seq<T>, coordinateY: seq<T>, radius: seq<T>, phi: seq<T>, ghost transforms: nat,
             items: nat, bytes: nat)
    requires rangeX + W - 1 < SizeTModulus && 2 * W <= |draws|
    ensures |coordinateX| == W && |coordinateY| == W
    ensures forall m :: 0 <= m < W ==> coordinateX[m] == draws[2 * m] && coordinateY[m] == draws[2 * m + 1]
    ensures transforms == iterations * VectorizationHelper.NumberOfChunks(rangeX, W)
    ensures transforms * W >= items
    ensures iterations > 0 && rangeX > 0 ==>
      PolarCoordinate(radius, phi) == PolarV(polar, Coordinate(coordinateX, coordinateY))
    ensures items == iterations * rangeX && bytes == items * AdditionalCalculations.FloatSize
  {
    var containerSize := VectorizationHelper.NumberOfChunks(rangeX, W);
    var lanes := new T[W];
    coordinateX, coordinateY := SimulateInputV(lanes[..], lanes[..], draws);
    radius, phi, transforms := AdditionalCalculations.RepeatTransform(coordinateX, coordinateY, polar,
                                                                      containerSize, iterations);
    items := iterations * rangeX;
    bytes := items * AdditionalCalculations.FloatSize;
    AdditionalCalculations.CountsCover(iterations, containerSize, rangeX);
  }
}
