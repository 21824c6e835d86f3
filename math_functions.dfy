/**
 * Records, the polar transform and the chunk arithmetic shared by every
 * layout (mathfunctions.h).
 *
 * The floating-point transform (square root and degree-scaled arctangent) is
 * not modelled: every member that applies it takes it as a parameter
 * `polar`, so all that is proved holds for any transform.  Applied to vector
 * registers it works lane by lane, as the SIMD operations do.
 */
module MathFunctions {

  /** A vector width: the number of lanes of one register. */
  type Width = w: nat | 0 < w witness 1

  /** The lane count T::size() of the vector type; fixed, but arbitrary. */
  const W: Width

  /** size_t is 64 bits wide: its arithmetic is modulo this number. */
  const SizeTModulus: nat := 0x1_0000_0000_0000_0000

  /** One logical input element; V is a scalar or a vector register. */
  datatype Coordinate<V> = Coordinate(x: V, y: V)

  /** One logical output element. */
  datatype PolarCoordinate<V> = PolarCoordinate(radius: V, phi: V)

  /** The Cartesian-to-polar transform: (x, y) to (radius, phi). */
  type Transform<!V> = (V, V) -> (V, V)

  /** A vector register holds exactly W lanes. */
  predicate IsVector<T>(v: seq<T>) {
    |v| == W
  }

  /** The tuple overload of calculatePolarCoordinate. */
  function CalculatePolarCoordinate<V>(polar: Transform<V>, x: V, y: V): (V, V) {
    polar(x, y)
  }

  /** The Coordinate overload of calculatePolarCoordinate. */
  function CalculatePolarCoordinateOf<V>(polar: Transform<V>, coord: Coordinate<V>): (r: PolarCoordinate<V>)
  {
    var (radius, phi) := polar(coord.x, coord.y);
    PolarCoordinate(radius, phi)
  }

  /**
   * Both overloads apply one formula, which the model writes once as
   * `polar`: they give the same (radius, phi) for the same (x, y) by
   * construction, not by a property of the floating-point code.
   */
  lemma OverloadsAgree<V>(polar: Transform<V>, x: V, y: V)
    ensures CalculatePolarCoordinateOf(polar, Coordinate(x, y)).radius == CalculatePolarCoordinate(polar, x, y).0
    ensures CalculatePolarCoordinateOf(polar, Coordinate(x, y)).phi == CalculatePolarCoordinate(polar, x, y).1
  {
  }

  /**
   * calculatePolarCoordinate instantiated on a vector type: the transform is
   * applied to each lane independently.
   */
  function PolarV<T>(polar: Transform<T>, coord: Coordinate<seq<T>>): (r: PolarCoordinate<seq<T>>)
    requires |coord.x| == |coord.y|
    ensures |r.radius| == |coord.x| && |r.phi| == |coord.x|
    ensures forall m :: 0 <= m < |coord.x| ==> (r.radius[m], r.phi[m]) == polar(coord.x[m], coord.y[m])
  {
    PolarCoordinate(seq(|coord.x|, m requires 0 <= m < |coord.x| => polar(coord.x[m], coord.y[m]).0),
                    seq(|coord.x|, m requires 0 <= m < |coord.x| => polar(coord.x[m], coord.y[m]).1))
  }

  /** The reference result every layout must reproduce: the plain element-wise map. */
  function PolarMap<T>(polar: Transform<T>, input: seq<Coordinate<T>>): (r: seq<PolarCoordinate<T>>)
    ensures |r| == |input|
    ensures forall n :: 0 <= n < |input| ==> r[n] == CalculatePolarCoordinateOf(polar, input[n])
  {
    seq(|input|, n requires 0 <= n < |input| => CalculatePolarCoordinateOf(polar, input[n]))
  }

  /**
   * numberOfChunks: the number of chunks of chunkSize elements needed to hold
   * inputSize elements.  The source adds in size_t, so the sum must not wrap.
   */
  function NumberOfChunks(inputSize: nat, chunkSize: nat): nat
    requires 0 < chunkSize
    requires inputSize + chunkSize - 1 < SizeTModulus
  {
    (inputSize + chunkSize - 1) / chunkSize
  }

  /** The chunks hold every element, and one chunk fewer would not. */
  lemma NumberOfChunksBounds(inputSize: nat, chunkSize: nat)
    requires 0 < chunkSize
    requires inputSize + chunkSize - 1 < SizeTModulus
    ensures NumberOfChunks(inputSize, chunkSize) * chunkSize >= inputSize
    ensures NumberOfChunks(inputSize, chunkSize) * chunkSize < inputSize + chunkSize
  {
    var s := inputSize + chunkSize - 1;
    var q, r := s / chunkSize, s % chunkSize;
    assert s == q * chunkSize + r && 0 <= r < chunkSize;
  }

  /** numberOfChunks is the ceiling: the one chunk count with both properties. */
  lemma NumberOfChunksIsCeiling(inputSize: nat, chunkSize: nat, q: nat)
    requires 0 < chunkSize
    requires inputSize + chunkSize - 1 < SizeTModulus
    ensures q * chunkSize >= inputSize && q * chunkSize < inputSize + chunkSize
            <==> q == NumberOfChunks(inputSize, chunkSize)
  {
    NumberOfChunksBounds(inputSize, chunkSize);
    var c := NumberOfChunks(inputSize, chunkSize);
    if q * chunkSize >= inputSize && q * chunkSize < inputSize + chunkSize {
      assert (q + 1) * chunkSize == q * chunkSize + chunkSize;
      MultiplyCancel(c, q + 1, chunkSize);
      assert (c + 1) * chunkSize == c * chunkSize + chunkSize;
      MultiplyCancel(q, c + 1, chunkSize);
    }
  }

  /** When chunkSize divides inputSize no rounding happens; no elements need no chunks. */
  lemma NumberOfChunksExact(inputSize: nat, chunkSize: nat)
    requires 0 < chunkSize
    requires inputSize + chunkSize - 1 < SizeTModulus
    ensures inputSize % chunkSize == 0 ==> NumberOfChunks(inputSize, chunkSize) == inputSize / chunkSize
    ensures inputSize == 0 ==> NumberOfChunks(inputSize, chunkSize) == 0
  {
    if inputSize % chunkSize == 0 {
      var q := inputSize / chunkSize;
      assert q * chunkSize == inputSize;
      NumberOfChunksIsCeiling(inputSize, chunkSize, q);
    }
    if inputSize == 0 {
      NumberOfChunksIsCeiling(0, chunkSize, 0);
    }
  }

  /**
   * Without the no-wrap precondition the size_t sum wraps: for the largest
   * size_t and chunks of two, the computed count is 0 although there are
   * elements to hold.
   */
  lemma NumberOfChunksWrapsWithoutPrecondition()
    ensures var s, c := SizeTModulus - 1, 2;
            ((s + c - 1) % SizeTModulus) / c == 0 && s > 0
  {
  }

  /** a <= b implies a * c <= b * c for non-negative c. */
  lemma MultiplyMonotone(a: int, b: int, c: nat)
    requires a <= b
    ensures a * c <= b * c
  {
    assert b * c == a * c + (b - a) * c;
  }

  /** a * c < b * c implies a < b. */
  lemma MultiplyCancel(a: int, b: int, c: nat)
    requires a * c < b * c
    ensures a < b
  {
    if b <= a {
      MultiplyMonotone(b, a, c);
    }
  }

  /** A multiple of c leaves no remainder and divides back exactly. */
  lemma MultipleOf(j: nat, c: nat)
    requires 0 < c
    ensures (j * c) % c == 0
    ensures (j * c) / c == j
  {
    var q, r := (j * c) / c, (j * c) % c;
    assert (j - q) * c == r;
    assert (j - q) * c < 1 * c;
    MultiplyCancel(j - q, 1, c);
    assert -1 * c < (j - q) * c;
    MultiplyCancel(-1, j - q, c);
  }
}
