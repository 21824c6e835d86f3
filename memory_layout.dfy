/**
 * The layout-generic benchmark driver (benchmarkmemorylayout.cpp).  It
 * sizes the container by the tail policy, constructs one strategy object
 * with room for containerSize + missingSize elements, and in every timed
 * iteration calls setupLoop, transforms whole vectors with load / store at
 * n = 0, W, 2W, ... below containerSize, and transforms the remaining
 * elements one at a time through coordinate / setPolarCoordinate.
 *
 * The driver is a template over the strategy; it is written out here once
 * per strategy class.  Each timed iteration is a method of its own, and the
 * benchmark runs it `iterations` times.
 */
module MemoryLayout {
  import opened MathFunctions
  import opened Registers
  import opened TailPolicy
  import Soa
  import Baseline
  import Aovs

  /** The strategies of the test list (layout x tail-policy product). */
  datatype Strategy =
    | AovsStrategy | BaselineStrategy
    | AosSubscriptStrategy | InterleavedStrategy | AosGatherScatterStrategy
    | SoaSubscriptStrategy | LoadStoreStrategy | SoaGatherScatterStrategy

  /** Vc_ALL_MEMORY_LAYOUT_TESTS: AoVS and Baseline with Padding, the six others with both policies. */
  function TestList(): (r: seq<(Strategy, Tail)>)
    ensures |r| == 14
  {
    [(AovsStrategy, Padding), (BaselineStrategy, Padding),
     (AosSubscriptStrategy, Padding), (AosSubscriptStrategy, RestScalar),
     (InterleavedStrategy, Padding), (InterleavedStrategy, RestScalar),
     (AosGatherScatterStrategy, Padding), (AosGatherScatterStrategy, RestScalar),
     (SoaSubscriptStrategy, Padding), (SoaSubscriptStrategy, RestScalar),
     (LoadStoreStrategy, Padding), (LoadStoreStrategy, RestScalar),
     (SoaGatherScatterStrategy, Padding), (SoaGatherScatterStrategy, RestScalar)]
  }

  /** A strategy is tested with a tail policy exactly when the policy is Padding or the strategy is not AoVS or Baseline. */
  lemma TestListMembers(s: Strategy, t: Tail)
    ensures (s, t) in TestList() <==> (t == Padding || !(s.AovsStrategy? || s.BaselineStrategy?))
  {
    var r := TestList();
    var first := match s
      case AovsStrategy => 0
      case BaselineStrategy => 1
      case AosSubscriptStrategy => 2
      case InterleavedStrategy => 4
      case AosGatherScatterStrategy => 6
      case SoaSubscriptStrategy => 8
      case LoadStoreStrategy => 10
      case SoaGatherScatterStrategy => 12;
    if t == Padding || !(s.AovsStrategy? || s.BaselineStrategy?) {
      assert r[first + (if t == Padding then 0 else 1)] == (s, t);
    }
  }

  /**
   * The SoA buffers agree with the reference transform on [0, hi): each
   * output element is calculatePolarCoordinate of the input element at the
   * same index.
   */
  ghost predicate SoaMatches<T>(polar: Transform<T>, x: seq<T>, y: seq<T>, radius: seq<T>, phi: seq<T>, hi: nat)
    requires hi <= |x| && hi <= |y| && hi <= |radius| && hi <= |phi|
  {
    forall i :: 0 <= i < hi ==>
      PolarCoordinate(radius[i], phi[i]) == CalculatePolarCoordinateOf(polar, Coordinate(x[i], y[i]))
  }

  /**
   * One vector step: storing the lane-wise transform of the block loaded at
   * n extends the agreement from [0, n) to [0, n + W), because lane m of the
   * block is element n + m both when loaded and when stored.
   */
  lemma VectorStepExtends<T>(polar: Transform<T>, x: seq<T>, y: seq<T>, radius: seq<T>, phi: seq<T>, n: nat)
    requires |x| == |y| == |radius| == |phi| && n + W <= |x|
    requires SoaMatches(polar, x, y, radius, phi, n)
    ensures var out := PolarV(polar, Coordinate(x[n..n + W], y[n..n + W]));
            SoaMatches(polar, x, y, Splice(radius, n, out.radius), Splice(phi, n, out.phi), n + W)
  {
    var out := PolarV(polar, Coordinate(x[n..n + W], y[n..n + W]));
    var radius', phi' := Splice(radius, n, out.radius), Splice(phi, n, out.phi);
    forall i | 0 <= i < n + W
      ensures PolarCoordinate(radius'[i], phi'[i]) == CalculatePolarCoordinateOf(polar, Coordinate(x[i], y[i]))
    {
      if i >= n {
        assert x[n..n + W][i - n] == x[i] && y[n..n + W][i - n] == y[i];
      }
    }
  }

  /** One scalar step: setting element i to its transform extends the agreement from [0, i) to [0, i + 1). */
  lemma ScalarStepExtends<T>(polar: Transform<T>, x: seq<T>, y: seq<T>, radius: seq<T>, phi: seq<T>, i: nat)
    requires |x| == |y| == |radius| == |phi| && i < |x|
    requires SoaMatches(polar, x, y, radius, phi, i)
    ensures var out := CalculatePolarCoordinateOf(polar, Coordinate(x[i], y[i]));
            SoaMatches(polar, x, y, radius[i := out.radius], phi[i := out.phi], i + 1)
  {
  }

  /** The scalar loop over [from, to): coordinate, transform, setPolarCoordinate. */
  method SoaScalarLoop<T(0)>(layout: Soa.SoaLayout<T>, from: nat, to: nat, polar: Transform<T>)
    requires layout.Valid() && from <= to <= layout.capacity
    requires SoaMatches(polar, layout.x[..], layout.y[..], layout.radius[..], layout.phi[..], from)
    modifies layout.radius, layout.phi
    ensures SoaMatches(polar, layout.x[..], layout.y[..], layout.radius[..], layout.phi[..], to)
    ensures layout.radius[to..] == old(layout.radius[to..]) && layout.phi[to..] == old(layout.phi[to..])
  {
    var n := from;
    while n < to
      invariant from <= n <= to
      invariant SoaMatches(polar, layout.x[..], layout.y[..], layout.radius[..], layout.phi[..], n)
      invariant layout.radius[to..] == old(layout.radius[to..]) && layout.phi[to..] == old(layout.phi[to..])
    {
      ScalarStepExtends(polar, layout.x[..], layout.y[..], layout.radius[..], layout.phi[..], n);
      var coord := layout.CoordinateAt(n);
      layout.SetPolarCoordinate(n, CalculatePolarCoordinateOf(polar, coord));
      n := n + 1;
    }
  }

  /** One timed iteration with SoaSubscriptAccess: every element of the container is transformed. */
  method SoaSubscriptIteration<T(0)>(magic: Soa.SoaSubscriptAccess<T>, tail: Tail, inputSize: nat, polar: Transform<T>)
    requires magic.Valid() && SizesDefined(tail, inputSize)
    requires magic.layout.capacity == Capacity(tail, inputSize)
    modifies magic.layout.radius, magic.layout.phi
    ensures SoaMatches(polar, magic.layout.x[..], magic.layout.y[..], magic.layout.radius[..], magic.layout.phi[..],
                       magic.layout.capacity)
  {
    TailSizes(tail, inputSize);
    var missingSize := MissingSize(tail, inputSize);
    var containerSize := ContainerSize(tail, inputSize);
    var layout := magic.layout;
    magic.SetupLoop();
    var n := 0;
    while n < containerSize
      invariant n <= containerSize && n % W == 0
      invariant SoaMatches(polar, layout.x[..], layout.y[..], layout.radius[..], layout.phi[..], n)
    {
      VectorStep(n, containerSize);
      VectorStepExtends(polar, layout.x[..], layout.y[..], layout.radius[..], layout.phi[..], n);
      var coord := magic.Load(n);
      var polarCoord := PolarV(polar, coord);
      magic.Store(n, polarCoord);
      n := n + W;
    }
    SoaScalarLoop(layout, inputSize - missingSize, inputSize, polar);
  }

  /** One timed iteration with LoadStoreAccess (aligned loads and stores). */
  method SoaLoadStoreIteration<T(0)>(magic: Soa.SoaLoadStoreAccess<T>, tail: Tail, inputSize: nat, polar: Transform<T>)
    requires magic.Valid() && SizesDefined(tail, inputSize)
    requires magic.layout.capacity == Capacity(tail, inputSize)
    modifies magic.layout.radius, magic.layout.phi
    ensures SoaMatches(polar, magic.layout.x[..], magic.layout.y[..], magic.layout.radius[..], magic.layout.phi[..],
                       magic.layout.capacity)
  {
    TailSizes(tail, inputSize);
    var missingSize := MissingSize(tail, inputSize);
    var containerSize := ContainerSize(tail, inputSize);
    var layout := magic.layout;
    magic.SetupLoop();
    var n := 0;
    while n < containerSize
      invariant n <= containerSize && n % W == 0
      invariant SoaMatches(polar, layout.x[..], layout.y[..], layout.radius[..], layout.phi[..], n)
    {
      VectorStep(n, containerSize);
      VectorStepExtends(polar, layout.x[..], layout.y[..], layout.radius[..], layout.phi[..], n);
      var coord := magic.Load(n);
      assert coord.x == layout.x[n..n + W] && coord.y == layout.y[n..n + W];
      var polarCoord := PolarV(polar, coord);
      magic.Store(n, polarCoord);
      n := n + W;
    }
    SoaScalarLoop(layout, inputSize - missingSize, inputSize, polar);
  }

  /**
   * One vector step of a SoaGatherScatterAccess iteration: after k stores
   * the index vector addresses [n, n + W) with n = k * W, so the gather
   * reads and the scatter writes that block.
   */
  method SoaGatherScatterStep<T(0)>(magic: Soa.SoaGatherScatterAccess<T>, n: nat, ghost k: nat, polar: Transform<T>)
    requires magic.Valid() && magic.steps == k && n == k * W && n + W <= magic.layout.capacity
    requires SoaMatches(polar, magic.layout.x[..], magic.layout.y[..], magic.layout.radius[..], magic.layout.phi[..], n)
    modifies magic.layout.radius, magic.layout.phi, magic`indexes, magic`steps
    ensures magic.Valid() && magic.steps == k + 1
    ensures SoaMatches(polar, magic.layout.x[..], magic.layout.y[..], magic.layout.radius[..], magic.layout.phi[..],
                       n + W)
  {
    var layout := magic.layout;
    VectorStepExtends(polar, layout.x[..], layout.y[..], layout.radius[..], layout.phi[..], n);
    var coord := magic.Load(n);
    var polarCoord := PolarV(polar, coord);
    magic.Store(n, polarCoord);
  }

  /**
   * The vector loop of a SoaGatherScatterAccess iteration, from a freshly
   * reset index vector: the strategy's step count keeps pace with n, so
   * each gather reads and each scatter writes the block [n, n + W).
   */
  method SoaGatherScatterVectorLoop<T(0)>(magic: Soa.SoaGatherScatterAccess<T>, containerSize: nat, ghost blocks: nat,
                                         polar: Transform<T>)
    requires magic.Valid() && magic.steps == 0
    requires containerSize == blocks * W && containerSize <= magic.layout.capacity
    modifies magic.layout.radius, magic.layout.phi, magic`indexes, magic`steps
    ensures magic.Valid() && magic.steps == blocks && magic.indexes == Iota(containerSize)
    ensures SoaMatches(polar, magic.layout.x[..], magic.layout.y[..], magic.layout.radius[..], magic.layout.phi[..],
                       containerSize)
  {
    var n := 0;
    ghost var k := 0;
    while n < containerSize
      invariant magic.Valid() && magic.steps == k && n == k * W && k <= blocks
      invariant SoaMatches(polar, magic.layout.x[..], magic.layout.y[..], magic.layout.radius[..], magic.layout.phi[..], n)
    {
      MultiplyCancel(k, blocks, W);
      MultiplyMonotone(k + 1, blocks, W);
      SoaGatherScatterStep(magic, n, k, polar);
      assert n + W == (k + 1) * W;
      n, k := n + W, k + 1;
    }
    MultiplyMonotone(k, blocks, W);
    if k < blocks {
      MultiplyMonotone(k + 1, blocks, W);
    } else if k > blocks {
      MultiplyMonotone(blocks + 1, k, W);
    }
  }

  /**
   * One timed iteration with SoaGatherScatterAccess: setupLoop resets the
   * index vector, and each store advances it.
   */
  method SoaGatherScatterIteration<T(0)>(magic: Soa.SoaGatherScatterAccess<T>, tail: Tail, inputSize: nat,
                                        polar: Transform<T>)
    requires magic.layout.Valid() && SizesDefined(tail, inputSize)
    requires magic.layout.capacity == Capacity(tail, inputSize)
    modifies magic.layout.radius, magic.layout.phi, magic`indexes, magic`steps
    ensures magic.Valid() && magic.indexes == Iota(ContainerSize(tail, inputSize))
    ensures SoaMatches(polar, magic.layout.x[..], magic.layout.y[..], magic.layout.radius[..], magic.layout.phi[..],
                       magic.layout.capacity)
  {
    TailSizes(tail, inputSize);
    var missingSize := MissingSize(tail, inputSize);
    var containerSize := ContainerSize(tail, inputSize);
    ghost var blocks := containerSize / W;
    MultipleOf(blocks, W);
    var layout := magic.layout;
    magic.SetupLoop();
    SoaGatherScatterVectorLoop(magic, containerSize, blocks, polar);
    SoaScalarLoop(layout, inputSize - missingSize, inputSize, polar);
  }

  /** benchmarkGenericMemoryLayout with SoaSubscriptAccess. */
  method BenchmarkSoaSubscript<T(0)>(tail: Tail, inputSize: nat, polar: Transform<T>, iterations: nat, valueSize: nat)
    returns (magic: Soa.SoaSubscriptAccess<T>, items: nat, bytes: nat)
    requires SizesDefined(tail, inputSize)
    ensures magic.Valid() && fresh(magic.layout.radius) && fresh(magic.layout.phi)
    ensures magic.layout.capacity == Capacity(tail, inputSize)
    ensures iterations > 0 ==>
      SoaMatches(polar, magic.layout.x[..], magic.layout.y[..], magic.layout.radius[..], magic.layout.phi[..],
                 magic.layout.capacity)
    ensures items == iterations * inputSize && bytes == items * valueSize
  {
    magic := new Soa.SoaSubscriptAccess(Capacity(tail, inputSize));
    var iteration := 0;
    while iteration < iterations
      invariant 0 <= iteration <= iterations
      invariant iteration > 0 ==>
        SoaMatches(polar, magic.layout.x[..], magic.layout.y[..], magic.layout.radius[..], magic.layout.phi[..],
                   magic.layout.capacity)
    {
      SoaSubscriptIteration(magic, tail, inputSize, polar);
      iteration := iteration + 1;
    }
    items := iterations * inputSize;
    bytes := items * valueSize;
  }

  /** benchmarkGenericMemoryLayout with LoadStoreAccess. */
  method BenchmarkSoaLoadStore<T(0)>(tail: Tail, inputSize: nat, polar: Transform<T>, iterations: nat, valueSize: nat)
    returns (magic: Soa.SoaLoadStoreAccess<T>, items: nat, bytes: nat)
    requires SizesDefined(tail, inputSize)
    ensures magic.Valid() && fresh(magic.layout.radius) && fresh(magic.layout.phi)
    ensures magic.layout.capacity == Capacity(tail, inputSize)
    ensures iterations > 0 ==>
      SoaMatches(polar, magic.layout.x[..], magic.layout.y[..], magic.layout.radius[..], magic.layout.phi[..],
                 magic.layout.capacity)
    ensures items == iterations * inputSize && bytes == items * valueSize
  {
    magic := new Soa.SoaLoadStoreAccess(Capacity(tail, inputSize));
    var iteration := 0;
    while iteration < iterations
      invariant 0 <= iteration <= iterations
      invariant iteration > 0 ==>
        SoaMatches(polar, magic.layout.x[..], magic.layout.y[..], magic.layout.radius[..], magic.layout.phi[..],
                   magic.layout.capacity)
    {
      SoaLoadStoreIteration(magic, tail, inputSize, polar);
      iteration := iteration + 1;
    }
    items := iterations * inputSize;
    bytes := items * valueSize;
  }

  /** benchmarkGenericMemoryLayout with SoaGatherScatterAccess. */
  method BenchmarkSoaGatherScatter<T(0)>(tail: Tail, inputSize: nat, polar: Transform<T>, iterations: nat,
                                         valueSize: nat)
    returns (magic: Soa.SoaGatherScatterAccess<T>, items: nat, bytes: nat)
    requires SizesDefined(tail, inputSize)
    ensures magic.Valid() && fresh(magic) && fresh(magic.layout.radius) && fresh(magic.layout.phi)
    ensures magic.layout.capacity == Capacity(tail, inputSize)
    ensures iterations > 0 ==>
      SoaMatches(polar, magic.layout.x[..], magic.layout.y[..], magic.layout.radius[..], magic.layout.phi[..],
                 magic.layout.capacity)
    ensures iterations > 0 ==> magic.indexes == Iota(ContainerSize(tail, inputSize))
    ensures items == iterations * inputSize && bytes == items * valueSize
  {
    magic := new Soa.SoaGatherScatterAccess(Capacity(tail, inputSize));
    var iteration := 0;
    while iteration < iterations
      invariant 0 <= iteration <= iterations
      invariant magic.Valid()
      invariant iteration > 0 ==>
        SoaMatches(polar, magic.layout.x[..], magic.layout.y[..], magic.layout.radius[..], magic.layout.phi[..],
                   magic.layout.capacity)
      invariant iteration > 0 ==> magic.indexes == Iota(ContainerSize(tail, inputSize))
    {
      SoaGatherScatterIteration(magic, tail, inputSize, polar);
      iteration := iteration + 1;
    }
    items := iterations * inputSize;
    bytes := items * valueSize;
  }

  /**
   * One timed iteration with Baseline (Padding only): every vector step loads
   * the same stored pair and overwrites the single output with its
   * transform; the scalar loop is empty.
   */
  method BaselineIteration<T(0)>(magic: Baseline.BaselineAccess<T>, inputSize: nat, polar: Transform<T>)
    requires magic.Valid() && SizesDefined(Padding, inputSize)
    modifies magic.layout`outputValue
    ensures magic.Valid()
    ensures inputSize > 0 ==> magic.layout.outputValue == PolarV(polar, magic.layout.inputValue)
    ensures inputSize == 0 ==> magic.layout.outputValue == old(magic.layout.outputValue)
  {
    TailSizes(Padding, inputSize);
    var missingSize := MissingSize(Padding, inputSize);
    var containerSize := ContainerSize(Padding, inputSize);
    magic.SetupLoop();
    var n := 0;
    while n < containerSize
      invariant magic.Valid() && (n > 0 ==> containerSize > 0)
      invariant n > 0 ==> magic.layout.outputValue == PolarV(polar, magic.layout.inputValue)
      invariant n == 0 ==> magic.layout.outputValue == old(magic.layout.outputValue)
      decreases containerSize - n
    {
      var coord := magic.Load(n);
      var polarCoord := PolarV(polar, coord);
      magic.Store(n, polarCoord);
      n := n + W;
    }
    // The scalar loop over [inputSize - missingSize, inputSize) is empty under Padding.
    assert inputSize - missingSize == inputSize;
  }

  /** benchmarkGenericMemoryLayout with Baseline; randomX and randomY stand for T::Random(). */
  method BenchmarkBaseline<T(0)>(inputSize: nat, randomX: seq<T>, randomY: seq<T>, polar: Transform<T>,
                                 iterations: nat, valueSize: nat)
    returns (magic: Baseline.BaselineAccess<T>, items: nat, bytes: nat)
    requires SizesDefined(Padding, inputSize)
    requires |randomX| == W && |randomY| == W
    ensures magic.Valid() && fresh(magic.layout)
    ensures magic.layout.inputValue == Coordinate(randomX, randomY)
    ensures iterations > 0 && inputSize > 0 ==> magic.layout.outputValue == PolarV(polar, Coordinate(randomX, randomY))
    ensures items == iterations * inputSize && bytes == items * valueSize
  {
    magic := new Baseline.BaselineAccess(Capacity(Padding, inputSize), randomX, randomY);
    var iteration := 0;
    while iteration < iterations
      invariant 0 <= iteration <= iterations
      invariant magic.Valid() && magic.layout.inputValue == Coordinate(randomX, randomY)
      invariant iteration > 0 && inputSize > 0 ==>
        magic.layout.outputValue == PolarV(polar, Coordinate(randomX, randomY))
    {
      BaselineIteration(magic, inputSize, polar);
      iteration := iteration + 1;
    }
    items := iterations * inputSize;
    bytes := items * valueSize;
  }

  /**
   * One timed iteration with AovsAccess (Padding only), with the element
   * index n of each vector step turned into its block index n / W before it
   * reaches load and store: every block is then transformed exactly once.
   * The source passes n itself; see Aovs.DriverIndexPastBlocks.
   */
  method AovsIteration<T(0)>(magic: Aovs.AovsAccess<T>, inputSize: nat, polar: Transform<T>)
    requires magic.Valid() && SizesDefined(Padding, inputSize)
    requires magic.layout.inputValues.Length == Capacity(Padding, inputSize) / W
    modifies magic.layout.outputValues
    ensures forall b :: 0 <= b < magic.layout.outputValues.Length ==>
      Aovs.IsBlock(magic.layout.inputValues[b])
      && magic.layout.outputValues[b] == PolarV(polar, magic.layout.inputValues[b])
  {
    TailSizes(Padding, inputSize);
    var missingSize := MissingSize(Padding, inputSize);
    var containerSize := ContainerSize(Padding, inputSize);
    var blocks := containerSize / W;
    MultipleOf(blocks, W);
    assert containerSize == blocks * W;
    var layout := magic.layout;
    magic.SetupLoop();
    var n := 0;
    ghost var k := 0;
    while n < containerSize
      invariant n == k * W && k <= blocks
      invariant forall b :: 0 <= b < k ==>
        Aovs.IsBlock(layout.inputValues[b]) && layout.outputValues[b] == PolarV(polar, layout.inputValues[b])
    {
      MultiplyCancel(k, blocks, W);
      MultipleOf(k, W);
      var coord := magic.Load(n / W);
      var polarCoord := PolarV(polar, coord);
      magic.Store(n / W, polarCoord);
      assert n + W == (k + 1) * W;
      n, k := n + W, k + 1;
    }
    MultiplyCancel(blocks, k + 1, W);
    assert (k + 1) * W == k * W + W;
    // The scalar loop over [inputSize - missingSize, inputSize) is empty under Padding.
    assert inputSize - missingSize == inputSize;
  }

  /** benchmarkGenericMemoryLayout with AovsAccess; `draws` stands for the random registers. */
  method BenchmarkAovs<T(0)>(inputSize: nat, draws: seq<seq<T>>, polar: Transform<T>, iterations: nat, valueSize: nat)
    returns (magic: Aovs.AovsAccess<T>, items: nat, bytes: nat)
    requires SizesDefined(Padding, inputSize)
    requires 2 * (Capacity(Padding, inputSize) / W) <= |draws| && Aovs.AreRegisters(draws)
    ensures magic.Valid() && fresh(magic.layout.inputValues) && fresh(magic.layout.outputValues)
    ensures magic.layout.inputValues.Length == Capacity(Padding, inputSize) / W
    ensures iterations > 0 ==> forall b :: 0 <= b < magic.layout.outputValues.Length ==>
      Aovs.IsBlock(magic.layout.inputValues[b])
      && magic.layout.outputValues[b] == PolarV(polar, magic.layout.inputValues[b])
    ensures items == iterations * inputSize && bytes == items * valueSize
  {
    magic := new Aovs.AovsAccess(Capacity(Padding, inputSize), draws);
    var iteration := 0;
    while iteration < iterations
      invariant 0 <= iteration <= iterations
      invariant iteration > 0 ==> forall b :: 0 <= b < magic.layout.outputValues.Length ==>
        Aovs.IsBlock(magic.layout.inputValues[b])
        && magic.layout.outputValues[b] == PolarV(polar, magic.layout.inputValues[b])
      modifies magic.layout.outputValues
    {
      AovsIteration(magic, inputSize, polar);
      iteration := iteration + 1;
    }
    items := iterations * inputSize;
    bytes := items * valueSize;
  }
}
