/**
 * The hand-written array-of-structures benchmarks (AoS.h): one array of
 * Coordinate and one of PolarCoordinate, value-initialised to the
 * container size (Padding) or the input size (RestScalar), and eight
 * functions moving W consecutive elements by subscripts, by the
 * interleaved-memory wrapper, by gather/scatter through the index
 * operator, or by the gather/scatter member functions on float pointers
 * with a stride-2 index vector.
 */
module LegacyAos {
  import opened MathFunctions
  import opened Registers
  import opened TailPolicy
  import opened LegacyLabels
  import BenchmarkHelper
  import Aos
  import AdditionalCalculations

  /**
   * The padding sentinels: the x and then the y member of each of the last
   * W elements, from containerSize - 1 down to containerSize - W, become
   * `one` (1.0f).
   */
  method SetPaddingSentinels<T>(inputValues: array<Coordinate<T>>, containerSize: nat, one: T)
    requires W <= containerSize <= inputValues.Length
    modifies inputValues
    ensures forall i :: 0 <= i < inputValues.Length ==>
      inputValues[i] == if containerSize - W <= i < containerSize then Coordinate(one, one) else old(inputValues[i])
  {
    var n := 1;
    while n <= W
      invariant 1 <= n <= W + 1
      invariant forall i :: 0 <= i < inputValues.Length ==>
        inputValues[i] == if containerSize - n < i < containerSize then Coordinate(one, one) else old(inputValues[i])
    {
      inputValues[containerSize - n] := inputValues[containerSize - n].(x := one);
      inputValues[containerSize - n] := inputValues[containerSize - n].(y := one);
      n := n + 1;
    }
  }

  /** The input after set-up: the draws below inputSize, `one` in every slot above it. */
  ghost predicate Seeded<T>(input: seq<Coordinate<T>>, inputSize: nat, draws: seq<T>, one: T)
    requires inputSize <= |input| && 2 * inputSize <= |draws|
  {
    (forall i :: 0 <= i < inputSize ==> input[i] == Coordinate(draws[2 * i], draws[2 * i + 1]))
    && (forall i :: inputSize <= i < |input| ==> input[i] == Coordinate(one, one))
  }

  /** Under Padding: the sentinels, then simulateInput_AoS over the real elements. */
  method SeedPadded<T>(inputValues: array<Coordinate<T>>, inputSize: nat, draws: seq<T>, one: T)
    requires W <= inputValues.Length && inputValues.Length - W <= inputSize <= inputValues.Length
    requires 2 * inputSize <= |draws|
    modifies inputValues
    ensures Seeded(inputValues[..], inputSize, draws, one)
  {
    SetPaddingSentinels(inputValues, inputValues.Length, one);
    ghost var sentinels := inputValues[..];
    Aos.SimulateInputAos(inputValues, inputSize, draws);
    forall i | inputSize <= i < inputValues.Length
      ensures inputValues[i] == Coordinate(one, one)
    {
      assert inputValues[i] == inputValues[inputSize..][i - inputSize] == sentinels[inputSize..][i - inputSize];
    }
  }

  /**
   * The set-up shared by the eight benchmarks: both arrays get
   * containerSize + missingSize elements, then the input is seeded.  Under
   * Padding the sentinel index containerSize - n is only defined for a
   * non-empty input.
   */
  method Allocate<T(0)>(tail: Tail, inputSize: nat, draws: seq<T>, one: T)
    returns (inputValues: array<Coordinate<T>>, outputValues: array<PolarCoordinate<T>>)
    requires SizesDefined(tail, inputSize) && (tail.Padding? ==> 1 <= inputSize)
    requires 2 * inputSize <= |draws|
    ensures fresh(inputValues) && fresh(outputValues)
    ensures inputValues.Length == outputValues.Length == Capacity(tail, inputSize) && inputSize <= inputValues.Length
    ensures Seeded(inputValues[..], inputSize, draws, one)
  {
    TailSizes(tail, inputSize);
    inputValues := new Coordinate<T>[Capacity(tail, inputSize)];
    outputValues := new PolarCoordinate<T>[Capacity(tail, inputSize)];
    if tail.Padding? {
      SeedPadded(inputValues, inputSize, draws, one);
    } else {
      Aos.SimulateInputAos(inputValues, inputSize, draws);
    }
  }

  /**
   * AoS_Padding, AoS_RestScalar and the two AoS_Interleaved benchmarks: the
   * subscript loops and the interleaved wrapper both put element n + m in
   * lane m, so each timed iteration maps every container element.
   */
  method SubscriptBenchmark<T(0)>(access: Access, tail: Tail, inputSize: nat, draws: seq<T>, one: T,
                                  polar: Transform<T>, iterations: nat)
    returns (labelText: string, inputValues: array<Coordinate<T>>, outputValues: array<PolarCoordinate<T>>,
             items: nat, bytes: nat)
    requires access.Subscript? || access.Interleaved?
    requires SizesDefined(tail, inputSize) && inputSize < SizeTModulus && (tail.Padding? ==> 1 <= inputSize)
    requires 2 * inputSize <= |draws|
    ensures BenchmarkHelper.IsLabel(labelText, Title("AoS", access, tail), inputSize)
    ensures inputValues.Length == outputValues.Length == Capacity(tail, inputSize) && inputSize <= inputValues.Length
    ensures Seeded(inputValues[..], inputSize, draws, one)
    ensures iterations > 0 ==> outputValues[..] == PolarMap(polar, inputValues[..])
    ensures items == iterations * inputSize && bytes == items * AdditionalCalculations.FloatSize
  {
    labelText := BenchmarkHelper.GetLabelString(Title("AoS", access, tail), inputSize, 1);
    BenchmarkHelper.LabelOfCount(Title("AoS", access, tail), inputSize);
    inputValues, outputValues := Allocate(tail, inputSize, draws, one);
    var iteration := 0;
    while iteration < iterations
      invariant 0 <= iteration <= iterations
      invariant iteration > 0 ==> outputValues[..] == PolarMap(polar, inputValues[..])
      modifies outputValues
    {
      Aos.AosNormalIteration(inputValues, outputValues, tail, inputSize, polar);
      iteration := iteration + 1;
    }
    items := iterations * inputSize;
    bytes := items * AdditionalCalculations.FloatSize;
  }

  /**
   * AoS_GatherScatter[]: the index vector is reset to IndexesFromZero in
   * every timed iteration and advanced by W after each scatter.
   */
  method GatherOperatorBenchmark<T(0)>(tail: Tail, inputSize: nat, draws: seq<T>, one: T, polar: Transform<T>,
                                       iterations: nat)
    returns (labelText: string, inputValues: array<Coordinate<T>>, outputValues: array<PolarCoordinate<T>>,
             indexes: seq<int>, items: nat, bytes: nat)
    requires SizesDefined(tail, inputSize) && inputSize < SizeTModulus && (tail.Padding? ==> 1 <= inputSize)
    requires 2 * inputSize <= |draws|
    ensures BenchmarkHelper.IsLabel(labelText, Title("AoS", GatherOperator, tail), inputSize)
    ensures inputValues.Length == outputValues.Length == Capacity(tail, inputSize) && inputSize <= inputValues.Length
    ensures Seeded(inputValues[..], inputSize, draws, one)
    ensures iterations > 0 ==> outputValues[..] == PolarMap(polar, inputValues[..])
    ensures indexes == if iterations > 0 then Iota(ContainerSize(tail, inputSize)) else Iota(0)
    ensures items == iterations * inputSize && bytes == items * AdditionalCalculations.FloatSize
  {
    labelText := BenchmarkHelper.GetLabelString(Title("AoS", GatherOperator, tail), inputSize, 1);
    BenchmarkHelper.LabelOfCount(Title("AoS", GatherOperator, tail), inputSize);
    inputValues, outputValues := Allocate(tail, inputSize, draws, one);
    indexes := Iota(0);
    var iteration := 0;
    while iteration < iterations
      invariant 0 <= iteration <= iterations
      invariant iteration > 0 ==> outputValues[..] == PolarMap(polar, inputValues[..])
      invariant indexes == if iteration > 0 then Iota(ContainerSize(tail, inputSize)) else Iota(0)
      modifies outputValues
    {
      indexes := Aos.AosGatherScatterIteration(inputValues, outputValues, tail, inputSize, polar);
      iteration := iteration + 1;
    }
    items := iterations * inputSize;
    bytes := items * AdditionalCalculations.FloatSize;
  }

  /**
   * The array of Coordinate seen as the floats it is laid out as: x of
   * element i at offset 2i, y at 2i + 1.
   */
  function Floats<T>(elements: seq<Coordinate<T>>): (r: seq<T>)
    ensures |r| == 2 * |elements|
    ensures forall i :: 0 <= i < |elements| ==> r[2 * i] == elements[i].x && r[2 * i + 1] == elements[i].y
  {
    seq(2 * |elements|, k requires 0 <= k < 2 * |elements| =>
      if k % 2 == 0 then elements[k / 2].x else elements[k / 2].y)
  }

  /** The index vector of the member-function gather: lane 0 is 0 and lane n is n << 1. */
  method BuildStrideIndexes() returns (indexes: seq<int>)
    ensures |indexes| == W
    ensures forall m :: 0 <= m < W ==> indexes[m] == 2 * m
  {
    indexes := seq(W, _ => 0);
    indexes := indexes[0 := 0];
    var n := 1;
    while n < W
      invariant 1 <= n <= W && |indexes| == W
      invariant forall m :: 0 <= m < n ==> indexes[m] == 2 * m
    {
      indexes := indexes[n := n * 2];
      n := n + 1;
    }
  }

  /**
   * gather(&inputValues[n].x, indexes) and gather(&inputValues[n].y,
   * indexes) over the input seen as floats: lane m reads the float at
   * offset indexes[m] from the x (or y) member of element n.
   */
  method StrideGatherLoad<T>(floats: seq<T>, n: nat, indexes: seq<int>) returns (r: Coordinate<seq<T>>)
    requires forall m :: 0 <= m < |indexes| ==> 0 <= 2 * n + indexes[m] && 2 * n + indexes[m] + 1 < |floats|
    ensures |r.x| == |indexes| && |r.y| == |indexes|
    ensures forall m :: 0 <= m < |indexes| ==>
      r.x[m] == floats[2 * n + indexes[m]] && r.y[m] == floats[2 * n + 1 + indexes[m]]
  {
    r := Coordinate(seq(|indexes|, m requires 0 <= m < |indexes| => floats[2 * n + indexes[m]]),
                    seq(|indexes|, m requires 0 <= m < |indexes| => floats[2 * n + 1 + indexes[m]]));
  }

  /**
   * With the stride-2 index vector, lane m of the gather is element n + m,
   * the same lanes the subscript loop loads.
   */
  lemma StrideGatherIsBlock<T>(elements: seq<Coordinate<T>>, n: nat, indexes: seq<int>, m: nat)
    requires |indexes| == W && forall j :: 0 <= j < W ==> indexes[j] == 2 * j
    requires n + W <= |elements| && m < W
    ensures Floats(elements)[2 * n + indexes[m]] == elements[n + m].x
    ensures Floats(elements)[2 * n + 1 + indexes[m]] == elements[n + m].y
  {
    assert 2 * n + indexes[m] == 2 * (n + m);
  }

  /** The elements a stride scatter at element n writes: element n + indexes[m] / 2 for lane m. */
  function StrideTargets(n: nat, indexes: seq<int>): (r: seq<int>)
    ensures |r| == |indexes|
    ensures forall m :: 0 <= m < |indexes| ==> r[m] == n + indexes[m] / 2
  {
    seq(|indexes|, m requires 0 <= m < |indexes| => n + indexes[m] / 2)
  }

  /** With the stride-2 index vector the targets are n, n + 1, ..., n + W - 1. */
  lemma StrideTargetsAreBlock(n: nat, indexes: seq<int>)
    requires |indexes| == W && forall m :: 0 <= m < W ==> indexes[m] == 2 * m
    ensures StrideTargets(n, indexes) == Iota(n)
  {
    forall m | 0 <= m < W
      ensures StrideTargets(n, indexes)[m] == Iota(n)[m]
    {
      assert indexes[m] / 2 == m;
    }
  }

  /**
   * scatter(&outputValues[n].radius, indexes) and then
   * scatter(&outputValues[n].phi, indexes), for even offsets: lane m writes
   * the radius (then the phi) member of element n + indexes[m] / 2.
   */
  method StrideScatterStore<T>(outputValues: array<PolarCoordinate<T>>, n: nat, indexes: seq<int>,
                               coord: PolarCoordinate<seq<T>>)
    requires forall m :: 0 <= m < |indexes| ==> 0 <= indexes[m] && indexes[m] % 2 == 0
    requires InBounds(StrideTargets(n, indexes), outputValues.Length) && Aos.Distinct(StrideTargets(n, indexes))
    requires |coord.radius| == |indexes| && |coord.phi| == |indexes|
    modifies outputValues
    ensures forall m :: 0 <= m < |indexes| ==>
      outputValues[StrideTargets(n, indexes)[m]] == PolarCoordinate(coord.radius[m], coord.phi[m])
    ensures forall i :: 0 <= i < outputValues.Length && i !in StrideTargets(n, indexes) ==>
      outputValues[i] == old(outputValues[i])
  {
    var targets := StrideTargets(n, indexes);
    forall m | 0 <= m < |indexes| {
      outputValues[targets[m]] := outputValues[targets[m]].(radius := coord.radius[m]);
    }
    forall m | 0 <= m < |indexes| {
      outputValues[targets[m]] := outputValues[targets[m]].(phi := coord.phi[m]);
    }
  }

  /**
   * One vector step of the member-function gather/scatter benchmarks: with
   * the stride-2 index vector, elements n .. n + W - 1 are gathered,
   * transformed and scattered back to the same positions, and no other
   * output element changes.
   */
  method StrideStep<T>(inputValues: array<Coordinate<T>>, outputValues: array<PolarCoordinate<T>>,
                       n: nat, indexes: seq<int>, polar: Transform<T>)
    requires n + W <= inputValues.Length == outputValues.Length
    requires |indexes| == W && forall m :: 0 <= m < W ==> indexes[m] == 2 * m
    modifies outputValues
    ensures forall i :: 0 <= i < outputValues.Length ==>
      outputValues[i] == if n <= i < n + W then CalculatePolarCoordinateOf(polar, inputValues[i])
                         else old(outputValues[i])
  {
    var coord := StrideGatherLoad(Floats(inputValues[..]), n, indexes);
    forall m | 0 <= m < W
      ensures coord.x[m] == inputValues[n + m].x && coord.y[m] == inputValues[n + m].y
    {
      StrideGatherIsBlock(inputValues[..], n, indexes, m);
    }
    var polarCoord := PolarV(polar, coord);
    StrideTargetsAreBlock(n, indexes);
    StrideScatterStore(outputValues, n, indexes, polarCoord);
    forall i | 0 <= i < outputValues.Length
      ensures outputValues[i] == if n <= i < n + W then CalculatePolarCoordinateOf(polar, inputValues[i])
                                 else old(outputValues[i])
    {
      if n <= i < n + W {
        assert Iota(n)[i - n] == i;
      } else {
        assert i !in Iota(n);
      }
    }
  }

  /** The vector loop of the member-function gather/scatter benchmarks over `blocks` whole vectors. */
  method StrideVectorLoop<T>(inputValues: array<Coordinate<T>>, outputValues: array<PolarCoordinate<T>>,
                             containerSize: nat, ghost blocks: nat, indexes: seq<int>, polar: Transform<T>)
    requires containerSize == blocks * W && containerSize <= inputValues.Length == outputValues.Length
    requires |indexes| == W && forall m :: 0 <= m < W ==> indexes[m] == 2 * m
    modifies outputValues
    ensures Aos.AosMatches(polar, inputValues[..], outputValues[..], containerSize)
    ensures outputValues[containerSize..] == old(outputValues[containerSize..])
  {
    var n := 0;
    ghost var k := 0;
    while n < containerSize
      invariant n == k * W && k <= blocks
      invariant Aos.AosMatches(polar, inputValues[..], outputValues[..], n)
      invariant outputValues[containerSize..] == old(outputValues[containerSize..])
    {
      MultiplyCancel(k, blocks, W);
      MultiplyMonotone(k + 1, blocks, W);
      assert n + W == (k + 1) * W;
      StrideStep(inputValues, outputValues, n, indexes, polar);
      n, k := n + W, k + 1;
    }
    MultiplyMonotone(k, blocks, W);
  }

  /**
   * One timed iteration of AoS_GatherScatter(): the stride-2 index vector is
   * rebuilt, the vector loop covers the container and the scalar loop the
   * rest, so every element is mapped.
   */
  method StrideIteration<T>(inputValues: array<Coordinate<T>>, outputValues: array<PolarCoordinate<T>>,
                            tail: Tail, inputSize: nat, polar: Transform<T>)
    requires SizesDefined(tail, inputSize)
    requires inputValues.Length == outputValues.Length == Capacity(tail, inputSize)
    modifies outputValues
    ensures outputValues[..] == PolarMap(polar, inputValues[..])
  {
    TailSizes(tail, inputSize);
    var missingSize := MissingSize(tail, inputSize);
    var containerSize := ContainerSize(tail, inputSize);
    ghost var blocks := containerSize / W;
    MultipleOf(blocks, W);
    var indexes := BuildStrideIndexes();
    StrideVectorLoop(inputValues, outputValues, containerSize, blocks, indexes, polar);
    Aos.AosScalarLoop(inputValues, outputValues, inputSize - missingSize, inputSize, polar);
    Aos.MatchesIsPolarMap(polar, inputValues[..], outputValues[..]);
  }

  /** AoS_GatherScatterFunc_Padding and AoS_GatherScatterFunc_RestScalar. */
  method GatherFunctionBenchmark<T(0)>(tail: Tail, inputSize: nat, draws: seq<T>, one: T, polar: Transform<T>,
                                       iterations: nat)
    returns (labelText: string, inputValues: array<Coordinate<T>>, outputValues: array<PolarCoordinate<T>>,
             items: nat, bytes: nat)
    requires SizesDefined(tail, inputSize) && inputSize < SizeTModulus && (tail.Padding? ==> 1 <= inputSize)
    requires 2 * inputSize <= |draws|
    ensures BenchmarkHelper.IsLabel(labelText, Title("AoS", GatherFunction, tail), inputSize)
    ensures inputValues.Length == outputValues.Length == Capacity(tail, inputSize) && inputSize <= inputValues.Length
    ensures Seeded(inputValues[..], inputSize, draws, one)
    ensures iterations > 0 ==> outputValues[..] == PolarMap(polar, inputValues[..])
    ensures items == iterations * inputSize && bytes == items * AdditionalCalculations.FloatSize
  {
    labelText := BenchmarkHelper.GetLabelString(Title("AoS", GatherFunction, tail), inputSize, 1);
    BenchmarkHelper.LabelOfCount(Title("AoS", GatherFunction, tail), inputSize);
    inputValues, outputValues := Allocate(tail, inputSize, draws, one);
    var iteration := 0;
    while iteration < iterations
      invariant 0 <= iteration <= iterations
      invariant iteration > 0 ==> outputValues[..] == PolarMap(polar, inputValues[..])
      modifies outputValues
    {
      StrideIteration(inputValues, outputValues, tail, inputSize, polar);
      iteration := iteration + 1;
    }
    items := iterations * inputSize;
    bytes := items * AdditionalCalculations.FloatSize;
  }
}
