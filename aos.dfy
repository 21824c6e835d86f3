/**
 * Array of structures (aos.h): one array of Coordinate elements in, one
 * array of PolarCoordinate elements out.  aosWith sizes both arrays by the
 * tail policy, seeds every element, and in each timed iteration runs the
 * loop setup, the vector loop over [0, containerSize) through a pair of
 * load / store operations, and the scalar loop over the remainder.  Two
 * load / store pairs are modelled: aosNormalWith's lane-by-lane copies and
 * aosGatherScatterWith's gather and scatter through an index vector that
 * the loop setup resets and each store advances.
 */
module Aos {
  import opened MathFunctions
  import opened Registers
  import opened TailPolicy

  /**
   * simulateInputAos: walks the first `size` elements with an iterator and
   * gives each a random x and then a random y, drawn in turn from `draws`.
   */
  method SimulateInputAos<T>(input: array<Coordinate<T>>, size: nat, draws: seq<T>)
    requires size <= input.Length && 2 * size <= |draws|
    modifies input
    ensures forall n :: 0 <= n < size ==> input[n] == Coordinate(draws[2 * n], draws[2 * n + 1])
    ensures input[size..] == old(input[size..])
  {
    var current := 0;
    while current != size
      invariant 0 <= current <= size
      invariant forall n :: 0 <= n < current ==> input[n] == Coordinate(draws[2 * n], draws[2 * n + 1])
      invariant input[size..] == old(input[size..])
    {
      input[current] := Coordinate(draws[2 * current], draws[2 * current + 1]);
      current := current + 1;
    }
  }

  /** The three policies of aos.h, each with its useRestScalar flag. */
  datatype AosPolicy =
    | PaddingPolicy(useRestScalar: bool)
    | InterleavedPolicy(useRestScalar: bool)
    | GatherScatterPolicy(useRestScalar: bool)

  predicate StartsWith(s: string, prefix: string) {
    |prefix| <= |s| && s[..|prefix|] == prefix
  }

  predicate EndsWith(s: string, suffix: string) {
    |suffix| <= |s| && s[|s| - |suffix|..] == suffix
  }

  /**
   * getLogName.  PaddingPolicy and GatherScatterPolicy append the tail
   * policy to their prefix; InterleavedPolicy builds its prefix too but
   * returns the bare tail policy.
   */
  function GetLogName(policy: AosPolicy): string
  {
    var suffix := if policy.useRestScalar then "rest scalar" else "padding";
    match policy
    case PaddingPolicy(_) => "AoS with " + suffix
    case InterleavedPolicy(_) => suffix
    case GatherScatterPolicy(_) => "AoS with gather/scatter and " + suffix
  }

  /**
   * Every log name ends with the tail policy it was built for, and starts
   * with "AoS with " unless the policy is InterleavedPolicy, whose prefix is
   * dropped.
   */
  lemma LogNameShape(policy: AosPolicy)
    ensures EndsWith(GetLogName(policy), "rest scalar") <==> policy.useRestScalar
    ensures EndsWith(GetLogName(policy), "padding") <==> !policy.useRestScalar
    ensures StartsWith(GetLogName(policy), "AoS with ") <==> !policy.InterleavedPolicy?
  {
    var r := GetLogName(policy);
    var suffix := if policy.useRestScalar then "rest scalar" else "padding";
    var other := if policy.useRestScalar then "padding" else "rest scalar";
    var prefix := r[..|r| - |suffix|];
    assert r == prefix + suffix;
    assert EndsWith(r, suffix);
    assert r[|r| - 1] == suffix[|suffix| - 1] != other[|other| - 1];
    assert |other| <= |r| ==> r[|r| - |other|..][|other| - 1] != other[|other| - 1];
    if policy.InterleavedPolicy? {
      assert r[0] != 'A';
    } else {
      assert r[..9] == "AoS with ";
    }
  }

  /** No two of the six policies share a log name. */
  lemma LogNamesDistinct(p: AosPolicy, q: AosPolicy)
    ensures GetLogName(p) == GetLogName(q) <==> p == q
  {
    if GetLogName(p) == GetLogName(q) {
      assert |GetLogName(p)| == |GetLogName(q)|;
    }
  }

  /** The W output elements a pair of result registers describes: lane m gives element m. */
  function Lanes<T>(coord: PolarCoordinate<seq<T>>): (r: seq<PolarCoordinate<T>>)
    requires |coord.radius| == W && |coord.phi| == W
    ensures |r| == W
    ensures forall m :: 0 <= m < W ==> r[m].radius == coord.radius[m] && r[m].phi == coord.phi[m]
  {
    seq(W, m requires 0 <= m < W => PolarCoordinate(coord.radius[m], coord.phi[m]))
  }

  /** aosNormalWith's load: lane m of each register comes from element n + m. */
  method NormalLoad<T>(inputValues: array<Coordinate<T>>, n: nat) returns (r: Coordinate<seq<T>>)
    requires n + W <= inputValues.Length
    ensures |r.x| == W && |r.y| == W
    ensures forall m :: 0 <= m < W ==> r.x[m] == inputValues[n + m].x && r.y[m] == inputValues[n + m].y
  {
    var vx, vy := [], [];
    var m := 0;
    while m < W
      invariant 0 <= m <= W && |vx| == m && |vy| == m
      invariant forall j :: 0 <= j < m ==> vx[j] == inputValues[n + j].x && vy[j] == inputValues[n + j].y
    {
      vx := vx + [inputValues[n + m].x];
      vy := vy + [inputValues[n + m].y];
      m := m + 1;
    }
    r := Coordinate(vx, vy);
  }

  /** aosNormalWith's store: lane m goes to element n + m, and nothing outside [n, n + W) changes. */
  method NormalStore<T>(outputValues: array<PolarCoordinate<T>>, n: nat, coord: PolarCoordinate<seq<T>>)
    requires n + W <= outputValues.Length
    requires |coord.radius| == W && |coord.phi| == W
    modifies outputValues
    ensures outputValues[..] == Splice(old(outputValues[..]), n, Lanes(coord))
  {
    var m := 0;
    while m < W
      invariant 0 <= m <= W
      invariant forall i :: 0 <= i < outputValues.Length ==>
        outputValues[i] == if n <= i < n + m then Lanes(coord)[i - n] else old(outputValues[i])
    {
      outputValues[n + m] := outputValues[n + m].(radius := coord.radius[m]);
      outputValues[n + m] := outputValues[n + m].(phi := coord.phi[m]);
      m := m + 1;
    }
  }

  /** The lanes of an index vector address pairwise different elements. */
  predicate Distinct(indexes: seq<int>) {
    forall m, m' :: 0 <= m < m' < |indexes| ==> indexes[m] != indexes[m']
  }

  /** aosGatherScatterWith's load: lane m of each register is a member of element indexes[m]. */
  method GatherLoad<T>(inputValues: array<Coordinate<T>>, indexes: seq<int>) returns (r: Coordinate<seq<T>>)
    requires InBounds(indexes, inputValues.Length)
    ensures |r.x| == |indexes| && |r.y| == |indexes|
    ensures forall m :: 0 <= m < |indexes| ==>
      r.x[m] == inputValues[indexes[m]].x && r.y[m] == inputValues[indexes[m]].y
  {
    var elements := Gathered(inputValues[..], indexes);
    r := Coordinate(seq(|elements|, m requires 0 <= m < |elements| => elements[m].x),
                    seq(|elements|, m requires 0 <= m < |elements| => elements[m].y));
  }

  /**
   * aosGatherScatterWith's store: scatters the radius lanes and then the phi
   * lanes to the elements indexes[m], then returns the index vector advanced by W.
   */
  method ScatterStore<T>(outputValues: array<PolarCoordinate<T>>, indexes: seq<int>, coord: PolarCoordinate<seq<T>>)
    returns (advanced: seq<int>)
    requires InBounds(indexes, outputValues.Length) && Distinct(indexes)
    requires |coord.radius| == |indexes| && |coord.phi| == |indexes|
    modifies outputValues
    ensures forall m :: 0 <= m < |indexes| ==>
      outputValues[indexes[m]] == PolarCoordinate(coord.radius[m], coord.phi[m])
    ensures forall i :: 0 <= i < outputValues.Length && i !in indexes ==> outputValues[i] == old(outputValues[i])
    ensures advanced == Advance(indexes, W)
  {
    forall m | 0 <= m < |indexes| {
      outputValues[indexes[m]] := outputValues[indexes[m]].(radius := coord.radius[m]);
    }
    forall m | 0 <= m < |indexes| {
      outputValues[indexes[m]] := outputValues[indexes[m]].(phi := coord.phi[m]);
    }
    advanced := Advance(indexes, W);
  }

  /** The output agrees with the reference transform on [0, hi). */
  ghost predicate AosMatches<T>(polar: Transform<T>, input: seq<Coordinate<T>>, output: seq<PolarCoordinate<T>>,
                                hi: nat)
    requires hi <= |input| && hi <= |output|
  {
    forall i :: 0 <= i < hi ==> output[i] == CalculatePolarCoordinateOf(polar, input[i])
  }

  /** Agreement on the whole array is agreement with the reference map. */
  lemma MatchesIsPolarMap<T>(polar: Transform<T>, input: seq<Coordinate<T>>, output: seq<PolarCoordinate<T>>)
    requires |input| == |output| && AosMatches(polar, input, output, |input|)
    ensures output == PolarMap(polar, input)
  {
  }

  /** The scalar loop over [from, to): the tuple overload on element n, written into output element n. */
  method AosScalarLoop<T>(inputValues: array<Coordinate<T>>, outputValues: array<PolarCoordinate<T>>,
                          from: nat, to: nat, polar: Transform<T>)
    requires from <= to <= inputValues.Length == outputValues.Length
    requires AosMatches(polar, inputValues[..], outputValues[..], from)
    modifies outputValues
    ensures AosMatches(polar, inputValues[..], outputValues[..], to)
    ensures outputValues[to..] == old(outputValues[to..])
  {
    var n := from;
    while n < to
      invariant from <= n <= to
      invariant AosMatches(polar, inputValues[..], outputValues[..], n)
      invariant outputValues[to..] == old(outputValues[to..])
    {
      var (radius, phi) := CalculatePolarCoordinate(polar, inputValues[n].x, inputValues[n].y);
      outputValues[n] := PolarCoordinate(radius, phi);
      n := n + 1;
    }
  }

  /** The vector loop of aosNormalWith over a container of `blocks` whole vectors. */
  method NormalVectorLoop<T>(inputValues: array<Coordinate<T>>, outputValues: array<PolarCoordinate<T>>,
                             containerSize: nat, ghost blocks: nat, polar: Transform<T>)
    requires containerSize == blocks * W && containerSize <= inputValues.Length == outputValues.Length
    modifies outputValues
    ensures AosMatches(polar, inputValues[..], outputValues[..], containerSize)
    ensures outputValues[containerSize..] == old(outputValues[containerSize..])
  {
    var n := 0;
    ghost var k := 0;
    while n < containerSize
      invariant n == k * W && k <= blocks
      invariant AosMatches(polar, inputValues[..], outputValues[..], n)
      invariant outputValues[containerSize..] == old(outputValues[containerSize..])
    {
      MultiplyCancel(k, blocks, W);
      MultiplyMonotone(k + 1, blocks, W);
      assert n + W == (k + 1) * W;
      var coord := NormalLoad(inputValues, n);
      var polarCoord := PolarV(polar, coord);
      NormalStore(outputValues, n, polarCoord);
      forall i | n <= i < n + W
        ensures outputValues[i] == CalculatePolarCoordinateOf(polar, inputValues[i])
      {
        assert outputValues[i] == Lanes(polarCoord)[i - n];
      }
      n, k := n + W, k + 1;
    }
    MultiplyMonotone(k, blocks, W);
  }

  /**
   * One step of aosGatherScatterWith's vector loop with the index vector at
   * Iota(n): the gather reads and the scatter writes exactly the block
   * [n, n + W), and the index vector moves on to the next block.
   */
  method GatherScatterStep<T>(inputValues: array<Coordinate<T>>, outputValues: array<PolarCoordinate<T>>,
                              n: nat, indexes: seq<int>, polar: Transform<T>)
    returns (indexes': seq<int>)
    requires n + W <= inputValues.Length == outputValues.Length && indexes == Iota(n)
    requires AosMatches(polar, inputValues[..], outputValues[..], n)
    modifies outputValues
    ensures indexes' == Iota(n + W)
    ensures AosMatches(polar, inputValues[..], outputValues[..], n + W)
    ensures outputValues[n + W..] == old(outputValues[n + W..])
  {
    var coord := GatherLoad(inputValues, indexes);
    var polarCoord := PolarV(polar, coord);
    indexes' := ScatterStore(outputValues, indexes, polarCoord);
    forall i | 0 <= i < outputValues.Length
      ensures outputValues[i] == if n <= i < n + W then CalculatePolarCoordinateOf(polar, inputValues[i])
                                 else old(outputValues[i])
    {
      if n <= i < n + W {
        assert Iota(n)[i - n] == i;
      } else {
        assert i !in Iota(n);
      }
    }
    AdvanceIota(n);
  }

  /**
   * The vector loop of aosGatherScatterWith, starting from the reset index
   * vector: before the k-th block it holds k * W + m in lane m, so the
   * gather reads and the scatter writes exactly the block [k * W, k * W + W).
   */
  method GatherScatterVectorLoop<T>(inputValues: array<Coordinate<T>>, outputValues: array<PolarCoordinate<T>>,
                                    containerSize: nat, ghost blocks: nat, indexes: seq<int>, polar: Transform<T>)
    returns (indexes': seq<int>)
    requires containerSize == blocks * W && containerSize <= inputValues.Length == outputValues.Length
    requires indexes == Iota(0)
    modifies outputValues
    ensures indexes' == Iota(containerSize)
    ensures AosMatches(polar, inputValues[..], outputValues[..], containerSize)
    ensures outputValues[containerSize..] == old(outputValues[containerSize..])
  {
    indexes' := indexes;
    var n := 0;
    ghost var k := 0;
    while n < containerSize
      invariant n == k * W && k <= blocks && indexes' == Iota(n)
      invariant AosMatches(polar, inputValues[..], outputValues[..], n)
      invariant outputValues[containerSize..] == old(outputValues[containerSize..])
    {
      MultiplyCancel(k, blocks, W);
      MultiplyMonotone(k + 1, blocks, W);
      assert n + W == (k + 1) * W;
      ghost var before := outputValues[..];
      indexes' := GatherScatterStep(inputValues, outputValues, n, indexes', polar);
      assert outputValues[containerSize..] == before[containerSize..];
      n, k := n + W, k + 1;
    }
    MultiplyMonotone(k, blocks, W);
  }

  /** One timed iteration of aosNormalWith: the loop setup does nothing. */
  method AosNormalIteration<T>(inputValues: array<Coordinate<T>>, outputValues: array<PolarCoordinate<T>>,
                               tail: Tail, inputSize: nat, polar: Transform<T>)
    requires SizesDefined(tail, inputSize)
    requires inputValues.Length == outputValues.Length == Capacity(tail, inputSize)
    modifies outputValues
    ensures outputValues[..] == PolarMap(polar, inputValues[..])
  {
    TailSizes(tail, inputSize);
    var missingSize := MissingSize(tail, inputSize);
    var containerSize := ContainerSize(tail, inputSize);
    ghost var blocks := containerSize / W;
    MultipleOf(blocks, W);
    NormalVectorLoop(inputValues, outputValues, containerSize, blocks, polar);
    AosScalarLoop(inputValues, outputValues, inputSize - missingSize, inputSize, polar);
    MatchesIsPolarMap(polar, inputValues[..], outputValues[..]);
  }

  /**
   * One timed iteration of aosGatherScatterWith: the loop setup resets the
   * captured index vector to IndexesFromZero; it ends one block past the
   * container.
   */
  method AosGatherScatterIteration<T>(inputValues: array<Coordinate<T>>, outputValues: array<PolarCoordinate<T>>,
                                      tail: Tail, inputSize: nat, polar: Transform<T>)
    returns (indexes: seq<int>)
    requires SizesDefined(tail, inputSize)
    requires inputValues.Length == outputValues.Length == Capacity(tail, inputSize)
    modifies outputValues
    ensures outputValues[..] == PolarMap(polar, inputValues[..])
    ensures indexes == Iota(ContainerSize(tail, inputSize))
  {
    TailSizes(tail, inputSize);
    var missingSize := MissingSize(tail, inputSize);
    var containerSize := ContainerSize(tail, inputSize);
    ghost var blocks := containerSize / W;
    MultipleOf(blocks, W);
    indexes := Iota(0);
    indexes := GatherScatterVectorLoop(inputValues, outputValues, containerSize, blocks, indexes, polar);
    AosScalarLoop(inputValues, outputValues, inputSize - missingSize, inputSize, polar);
    MatchesIsPolarMap(polar, inputValues[..], outputValues[..]);
  }

  /**
   * aosWith's set-up: both arrays get containerSize + missingSize elements
   * and every input element is seeded, padding slots included.
   */
  method AllocateAndSeed<T(0)>(tail: Tail, inputSize: nat, draws: seq<T>)
    returns (inputValues: array<Coordinate<T>>, outputValues: array<PolarCoordinate<T>>)
    requires SizesDefined(tail, inputSize) && 2 * Capacity(tail, inputSize) <= |draws|
    ensures fresh(inputValues) && fresh(outputValues)
    ensures inputValues.Length == outputValues.Length == Capacity(tail, inputSize)
    ensures forall n :: 0 <= n < inputValues.Length ==> inputValues[n] == Coordinate(draws[2 * n], draws[2 * n + 1])
  {
    var missingSize := MissingSize(tail, inputSize);
    var containerSize := ContainerSize(tail, inputSize);
    inputValues := new Coordinate<T>[containerSize + missingSize];
    outputValues := new PolarCoordinate<T>[containerSize + missingSize];
    SimulateInputAos(inputValues, inputValues.Length, draws);
  }

  /** aosNormalWith (aosWithPadding, aosWithRestScalar): set-up, `iterations` timed iterations, counters. */
  method AosNormalWith<T(0)>(tail: Tail, inputSize: nat, draws: seq<T>, polar: Transform<T>,
                             iterations: nat, valueSize: nat)
    returns (inputValues: array<Coordinate<T>>, outputValues: array<PolarCoordinate<T>>, items: nat, bytes: nat)
    requires SizesDefined(tail, inputSize) && 2 * Capacity(tail, inputSize) <= |draws|
    ensures fresh(inputValues) && fresh(outputValues)
    ensures inputValues.Length == outputValues.Length == Capacity(tail, inputSize)
    ensures forall n :: 0 <= n < inputValues.Length ==> inputValues[n] == Coordinate(draws[2 * n], draws[2 * n + 1])
    ensures iterations > 0 ==> outputValues[..] == PolarMap(polar, inputValues[..])
    ensures items == iterations * inputSize && bytes == items * valueSize
  {
    inputValues, outputValues := AllocateAndSeed(tail, inputSize, draws);
    var iteration := 0;
    while iteration < iterations
      invariant 0 <= iteration <= iterations
      invariant iteration > 0 ==> outputValues[..] == PolarMap(polar, inputValues[..])
      modifies outputValues
    {
      AosNormalIteration(inputValues, outputValues, tail, inputSize, polar);
      iteration := iteration + 1;
    }
    items := iterations * inputSize;
    bytes := items * valueSize;
  }

  /**
   * aosGatherScatterWith (aosWithGatherScatterPadding / RestScalar): the
   * index vector starts as IndexesFromZero and is reset at every iteration.
   */
  method AosGatherScatterWith<T(0)>(tail: Tail, inputSize: nat, draws: seq<T>, polar: Transform<T>,
                                    iterations: nat, valueSize: nat)
    returns (inputValues: array<Coordinate<T>>, outputValues: array<PolarCoordinate<T>>,
             indexes: seq<int>, items: nat, bytes: nat)
    requires SizesDefined(tail, inputSize) && 2 * Capacity(tail, inputSize) <= |draws|
    ensures fresh(inputValues) && fresh(outputValues)
    ensures inputValues.Length == outputValues.Length == Capacity(tail, inputSize)
    ensures forall n :: 0 <= n < inputValues.Length ==> inputValues[n] == Coordinate(draws[2 * n], draws[2 * n + 1])
    ensures iterations > 0 ==> outputValues[..] == PolarMap(polar, inputValues[..])
    ensures indexes == if iterations > 0 then Iota(ContainerSize(tail, inputSize)) else Iota(0)
    ensures items == iterations * inputSize && bytes == items * valueSize
  {
    indexes := Iota(0);
    inputValues, outputValues := AllocateAndSeed(tail, inputSize, draws);
    var iteration := 0;
    while iteration < iterations
      invariant 0 <= iteration <= iterations
      invariant iteration > 0 ==> outputValues[..] == PolarMap(polar, inputValues[..])
      invariant indexes == if iteration > 0 then Iota(ContainerSize(tail, inputSize)) else Iota(0)
      modifies outputValues
    {
      indexes := AosGatherScatterIteration(inputValues, outputValues, tail, inputSize, polar);
      iteration := iteration + 1;
    }
    items := iterations * inputSize;
    bytes := items * valueSize;
  }
}
