/**
 * The hand-written structure-of-arrays benchmarks (SoA.h): eight functions,
 * one per way of moving W elements between the buffers and the registers
 * (lane-by-lane subscripts, aligned load/store, gather/scatter through the
 * index operator, gather/scatter member functions) and per tail policy.
 * Each writes its own driver loop inline; the loops do what the generic
 * driver does with the matching Soa strategy, so the timed iterations are
 * MemoryLayout's, and the buffers are Soa.SoaLayout's.
 */
module LegacySoa {
  import opened MathFunctions
  import opened TailPolicy
  import BenchmarkHelper
  import Soa
  import MemoryLayout
  import AdditionalCalculations
  import opened LegacyLabels

  /**
   * The padding sentinels: the last W slots of the container, written from
   * containerSize - 1 down to containerSize - W, become `one` (1.0f).
   */
  method SetPaddingSentinels<T>(x: array<T>, y: array<T>, containerSize: nat, one: T)
    requires x != y && W <= containerSize <= x.Length && containerSize <= y.Length
    modifies x, y
    ensures forall i :: 0 <= i < x.Length ==>
      x[i] == if containerSize - W <= i < containerSize then one else old(x[i])
    ensures forall i :: 0 <= i < y.Length ==>
      y[i] == if containerSize - W <= i < containerSize then one else old(y[i])
  {
    var n := 1;
    while n <= W
      invariant 1 <= n <= W + 1
      invariant forall i :: 0 <= i < x.Length ==>
        x[i] == if containerSize - n < i < containerSize then one else old(x[i])
      invariant forall i :: 0 <= i < y.Length ==>
        y[i] == if containerSize - n < i < containerSize then one else old(y[i])
    {
      x[containerSize - n] := one;
      y[containerSize - n] := one;
      n := n + 1;
    }
  }

  /**
   * The input after set-up: element i < inputSize holds the i-th pair of
   * draws, and every slot from inputSize to the end of the container holds
   * `one` (under RestScalar there is no such slot).
   */
  ghost predicate Seeded<T>(x: seq<T>, y: seq<T>, inputSize: nat, capacity: nat, draws: seq<T>, one: T)
    requires capacity <= |x| && capacity <= |y| && inputSize <= capacity && 2 * inputSize <= |draws|
  {
    (forall i :: 0 <= i < inputSize ==> x[i] == draws[2 * i] && y[i] == draws[2 * i + 1])
    && (forall i :: inputSize <= i < capacity ==> x[i] == one && y[i] == one)
  }

  /**
   * Under Padding: the sentinels, then simulateInput_SoA, which overwrites
   * the sentinels below inputSize and leaves the ones above it.
   */
  method SeedPadded<T>(x: array<T>, y: array<T>, inputSize: nat, containerSize: nat, draws: seq<T>, one: T)
    requires x != y && x.Length == containerSize && y.Length == containerSize
    requires W <= containerSize && containerSize - W <= inputSize <= containerSize
    requires 2 * inputSize <= |draws|
    modifies x, y
    ensures forall i :: 0 <= i < inputSize ==> x[i] == draws[2 * i] && y[i] == draws[2 * i + 1]
    ensures forall i :: inputSize <= i < containerSize ==> x[i] == one && y[i] == one
  {
    SetPaddingSentinels(x, y, containerSize, one);
    ghost var x0, y0 := x[..], y[..];
    Soa.SimulateInputSoa(x, y, inputSize, draws);
    forall i | inputSize <= i < containerSize
      ensures x[i] == one && y[i] == one
    {
      assert x[i] == x[inputSize..][i - inputSize] == x0[inputSize..][i - inputSize];
      assert y[i] == y[inputSize..][i - inputSize] == y0[inputSize..][i - inputSize];
    }
  }

  /**
   * Set-up of a benchmark: the sentinels under Padding, then
   * simulateInput_SoA over the inputSize real elements.  Under Padding the
   * sentinel index containerSize - n is only defined for a non-empty input.
   */
  method SeedInput<T(0)>(layout: Soa.SoaLayout<T>, tail: Tail, inputSize: nat, draws: seq<T>, one: T)
    requires layout.Valid() && SizesDefined(tail, inputSize) && layout.capacity == Capacity(tail, inputSize)
    requires tail.Padding? ==> 1 <= inputSize
    requires 2 * inputSize <= |draws|
    modifies layout.x, layout.y
    ensures inputSize <= layout.capacity
    ensures Seeded(layout.x[..], layout.y[..], inputSize, layout.capacity, draws, one)
  {
    TailSizes(tail, inputSize);
    if tail.Padding? {
      SeedPadded(layout.x, layout.y, inputSize, layout.capacity, draws, one);
    } else {
      Soa.SimulateInputSoa(layout.x, layout.y, inputSize, draws);
    }
  }

  /**
   * SoA_Padding and SoA_RestScalar: subscript loads and stores, labelled,
   * seeded, and with every container element transformed in each timed
   * iteration; items are range_x per iteration, bytes sizeof(float) each.
   */
  method SubscriptBenchmark<T(0)>(tail: Tail, inputSize: nat, draws: seq<T>, one: T, polar: Transform<T>,
                                  iterations: nat)
    returns (labelText: string, magic: Soa.SoaSubscriptAccess<T>, items: nat, bytes: nat)
    requires SizesDefined(tail, inputSize) && inputSize < SizeTModulus
    requires tail.Padding? ==> 1 <= inputSize
    requires 2 * inputSize <= |draws|
    ensures BenchmarkHelper.IsLabel(labelText, Title("SoA", Subscript, tail), inputSize)
    ensures magic.Valid() && magic.layout.capacity == Capacity(tail, inputSize) && inputSize <= magic.layout.capacity
    ensures Seeded(magic.layout.x[..], magic.layout.y[..], inputSize, magic.layout.capacity, draws, one)
    ensures iterations > 0 ==>
      MemoryLayout.SoaMatches(polar, magic.layout.x[..], magic.layout.y[..], magic.layout.radius[..],
                              magic.layout.phi[..], magic.layout.capacity)
    ensures items == iterations * inputSize && bytes == items * AdditionalCalculations.FloatSize
  {
    labelText := BenchmarkHelper.GetLabelString(Title("SoA", Subscript, tail), inputSize, 1);
    BenchmarkHelper.LabelOfCount(Title("SoA", Subscript, tail), inputSize);
    magic := new Soa.SoaSubscriptAccess(Capacity(tail, inputSize));
    SeedInput(magic.layout, tail, inputSize, draws, one);
    ghost var x, y := magic.layout.x[..], magic.layout.y[..];
    var iteration := 0;
    while iteration < iterations
      invariant 0 <= iteration <= iterations
      invariant magic.layout.x[..] == x && magic.layout.y[..] == y
      invariant iteration > 0 ==>
        MemoryLayout.SoaMatches(polar, x, y, magic.layout.radius[..], magic.layout.phi[..], magic.layout.capacity)
    {
      MemoryLayout.SoaSubscriptIteration(magic, tail, inputSize, polar);
      iteration := iteration + 1;
    }
    items := iterations * inputSize;
    bytes := items * AdditionalCalculations.FloatSize;
  }

  /** SoA_LoadStore_Padding and SoA_LoadStore_RestScalar: aligned loads and stores. */
  method LoadStoreBenchmark<T(0)>(tail: Tail, inputSize: nat, draws: seq<T>, one: T, polar: Transform<T>,
                                  iterations: nat)
    returns (labelText: string, magic: Soa.SoaLoadStoreAccess<T>, items: nat, bytes: nat)
    requires SizesDefined(tail, inputSize) && inputSize < SizeTModulus
    requires tail.Padding? ==> 1 <= inputSize
    requires 2 * inputSize <= |draws|
    ensures BenchmarkHelper.IsLabel(labelText, Title("SoA", LoadStore, tail), inputSize)
    ensures magic.Valid() && magic.layout.capacity == Capacity(tail, inputSize) && inputSize <= magic.layout.capacity
    ensures Seeded(magic.layout.x[..], magic.layout.y[..], inputSize, magic.layout.capacity, draws, one)
    ensures iterations > 0 ==>
      MemoryLayout.SoaMatches(polar, magic.layout.x[..], magic.layout.y[..], magic.layout.radius[..],
                              magic.layout.phi[..], magic.layout.capacity)
    ensures items == iterations * inputSize && bytes == items * AdditionalCalculations.FloatSize
  {
    labelText := BenchmarkHelper.GetLabelString(Title("SoA", LoadStore, tail), inputSize, 1);
    BenchmarkHelper.LabelOfCount(Title("SoA", LoadStore, tail), inputSize);
    magic := new Soa.SoaLoadStoreAccess(Capacity(tail, inputSize));
    SeedInput(magic.layout, tail, inputSize, draws, one);
    ghost var x, y := magic.layout.x[..], magic.layout.y[..];
    var iteration := 0;
    while iteration < iterations
      invariant 0 <= iteration <= iterations
      invariant magic.layout.x[..] == x && magic.layout.y[..] == y
      invariant iteration > 0 ==>
        MemoryLayout.SoaMatches(polar, x, y, magic.layout.radius[..], magic.layout.phi[..], magic.layout.capacity)
    {
      MemoryLayout.SoaLoadStoreIteration(magic, tail, inputSize, polar);
      iteration := iteration + 1;
    }
    items := iterations * inputSize;
    bytes := items * AdditionalCalculations.FloatSize;
  }

  /**
   * The four gather/scatter benchmarks: the index vector is reset to
   * IndexesFromZero at the start of each timed iteration and advanced by W
   * after every scatter.
   */
  method GatherScatterBenchmark<T(0)>(access: Access, tail: Tail, inputSize: nat, draws: seq<T>, one: T,
                                      polar: Transform<T>, iterations: nat)
    returns (labelText: string, magic: Soa.SoaGatherScatterAccess<T>, items: nat, bytes: nat)
    requires access.GatherOperator? || access.GatherFunction?
    requires SizesDefined(tail, inputSize) && inputSize < SizeTModulus
    requires tail.Padding? ==> 1 <= inputSize
    requires 2 * inputSize <= |draws|
    ensures BenchmarkHelper.IsLabel(labelText, Title("SoA", access, tail), inputSize)
    ensures magic.Valid() && magic.layout.capacity == Capacity(tail, inputSize) && inputSize <= magic.layout.capacity
    ensures Seeded(magic.layout.x[..], magic.layout.y[..], inputSize, magic.layout.capacity, draws, one)
    ensures iterations > 0 ==>
      MemoryLayout.SoaMatches(polar, magic.layout.x[..], magic.layout.y[..], magic.layout.radius[..],
                              magic.layout.phi[..], magic.layout.capacity)
    ensures items == iterations * inputSize && bytes == items * AdditionalCalculations.FloatSize
  {
    labelText := BenchmarkHelper.GetLabelString(Title("SoA", access, tail), inputSize, 1);
    BenchmarkHelper.LabelOfCount(Title("SoA", access, tail), inputSize);
    magic := new Soa.SoaGatherScatterAccess(Capacity(tail, inputSize));
    SeedInput(magic.layout, tail, inputSize, draws, one);
    ghost var x, y := magic.layout.x[..], magic.layout.y[..];
    var iteration := 0;
    while iteration < iterations
      invariant 0 <= iteration <= iterations
      invariant magic.Valid()
      invariant magic.layout.x[..] == x && magic.layout.y[..] == y
      invariant iteration > 0 ==>
        MemoryLayout.SoaMatches(polar, x, y, magic.layout.radius[..], magic.layout.phi[..], magic.layout.capacity)
    {
      MemoryLayout.SoaGatherScatterIteration(magic, tail, inputSize, polar);
      iteration := iteration + 1;
    }
    items := iterations * inputSize;
    bytes := items * AdditionalCalculations.FloatSize;
  }
}
