/**
 * The older helper header (VectorizationHelper.h): a tuple-returning polar
 * transform and its own copy of the chunk count.
 */
module VectorizationHelper {
  import MathFunctions

  /** calcularePolarCoordinate: the transform applied to one (x, y) pair, or lane-wise to registers. */
  function CalcularePolarCoordinate<V>(polar: MathFunctions.Transform<V>, x: V, y: V): (r: (V, V))
    ensures r == MathFunctions.CalculatePolarCoordinate(polar, x, y)
    ensures MathFunctions.CalculatePolarCoordinateOf(polar, MathFunctions.Coordinate(x, y))
            == MathFunctions.PolarCoordinate(r.0, r.1)
  {
    polar(x, y)
  }

  /**
   * numberOfChunks: the least number of chunks of chunkSize elements that
   * hold inputSize elements; the size_t sum must not wrap.
   */
  function NumberOfChunks(inputSize: nat, chunkSize: nat): (r: nat)
    requires 0 < chunkSize
    requires inputSize + chunkSize - 1 < MathFunctions.SizeTModulus
    ensures r * chunkSize >= inputSize
    ensures r * chunkSize < inputSize + chunkSize
    ensures inputSize % chunkSize == 0 ==> r == inputSize / chunkSize
    ensures inputSize == 0 ==> r == 0
    ensures r == MathFunctions.NumberOfChunks(inputSize, chunkSize)
  {
    MathFunctions.NumberOfChunksBounds(inputSize, chunkSize);
    MathFunctions.NumberOfChunksExact(inputSize, chunkSize);
    (inputSize + chunkSize - 1) / chunkSize
  }
}
