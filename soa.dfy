/**
 * Structure of arrays (soa.h): four separate buffers x, y, radius and phi,
 * and three ways of moving W consecutive elements between them and vector
 * registers — a lane-by-lane subscript loop, aligned vector loads and
 * stores, and a gather/scatter through an index vector that the strategy
 * advances itself.
 *
 * The buffers are std::vectors that are only reserve()d; they are modelled
 * as arrays allocated to the reserved capacity, with unspecified contents.
 */
module Soa {
  import opened MathFunctions
  import opened Registers

  /**
   * simulateInputSoa: fills x[n] and y[n] for n < size with values drawn in
   * turn from one generator; `draws` stands for the generator's output.
   */
  method SimulateInputSoa<T>(x: array<T>, y: array<T>, size: nat, draws: seq<T>)
    requires x != y
    requires size <= x.Length && size <= y.Length
    requires 2 * size <= |draws|
    modifies x, y
    ensures forall n :: 0 <= n < size ==> x[n] == draws[2 * n] && y[n] == draws[2 * n + 1]
    ensures x[size..] == old(x[size..]) && y[size..] == old(y[size..])
  {
    var n := 0;
    while n < size
      invariant 0 <= n <= size
      invariant forall i :: 0 <= i < n ==> x[i] == draws[2 * i] && y[i] == draws[2 * i + 1]
      invariant x[size..] == old(x[size..]) && y[size..] == old(y[size..])
    {
      x[n] := draws[2 * n];
      y[n] := draws[2 * n + 1];
      n := n + 1;
    }
  }

  /** SoaLayout: the input and output buffers, all of one capacity. */
  class SoaLayout<T(0)> {
    const x: array<T>
    const y: array<T>
    const radius: array<T>
    const phi: array<T>
    const capacity: nat

    /** All four buffers have the reserved capacity and none aliases another. */
    ghost predicate Valid() {
      x.Length == capacity && y.Length == capacity
      && radius.Length == capacity && phi.Length == capacity
      && x != y && x != radius && x != phi && y != radius && y != phi && radius != phi
    }

    /** Reserves containerSize elements in each buffer and writes none of them. */
    constructor (containerSize: nat)
      ensures Valid() && capacity == containerSize
      ensures fresh(x) && fresh(y) && fresh(radius) && fresh(phi)
    {
      x := new T[containerSize];
      y := new T[containerSize];
      radius := new T[containerSize];
      phi := new T[containerSize];
      capacity := containerSize;
    }

    /** coordinate(index): the scalar element at index. */
    method CoordinateAt(index: nat) returns (r: Coordinate<T>)
      requires Valid() && index < capacity
      ensures r.x == x[index] && r.y == y[index]
    {
      r := Coordinate(x[index], y[index]);
    }

    /** setPolarCoordinate(index, coord): writes one output element and nothing else. */
    method SetPolarCoordinate(index: nat, coord: PolarCoordinate<T>)
      requires Valid() && index < capacity
      modifies radius, phi
      ensures radius[..] == old(radius[..])[index := coord.radius]
      ensures phi[..] == old(phi[..])[index := coord.phi]
    {
      radius[index] := coord.radius;
      phi[index] := coord.phi;
    }
  }

  /** SoaSubscriptAccessImpl: lane-by-lane subscript loads and stores. */
  class SoaSubscriptAccess<T(0)> {
    const layout: SoaLayout<T>

    ghost predicate Valid() {
      layout.Valid()
    }

    constructor (containerSize: nat)
      ensures Valid() && layout.capacity == containerSize && fresh(layout)
      ensures fresh(layout.x) && fresh(layout.y) && fresh(layout.radius) && fresh(layout.phi)
    {
      layout := new SoaLayout(containerSize);
    }

    /** setupLoop: nothing to prepare. */
    method SetupLoop()
    {
    }

    /** load(n): lane m holds the element n + m. */
    method Load(n: nat) returns (r: Coordinate<seq<T>>)
      requires Valid() && n + W <= layout.capacity
      ensures r.x == layout.x[n..n + W] && r.y == layout.y[n..n + W]
    {
      var vx, vy := [], [];
      var m := 0;
      while m < W
        invariant 0 <= m <= W && |vx| == m && |vy| == m
        invariant forall j :: 0 <= j < m ==> vx[j] == layout.x[n + j] && vy[j] == layout.y[n + j]
      {
        vx := vx + [layout.x[n + m]];
        vy := vy + [layout.y[n + m]];
        m := m + 1;
      }
      r := Coordinate(vx, vy);
    }

    /** store(n, coord): lane m goes to element n + m; nothing outside [n, n + W) changes. */
    method Store(n: nat, coord: PolarCoordinate<seq<T>>)
      requires Valid() && n + W <= layout.capacity
      requires |coord.radius| == W && |coord.phi| == W
      modifies layout.radius, layout.phi
      ensures layout.radius[..] == Splice(old(layout.radius[..]), n, coord.radius)
      ensures layout.phi[..] == Splice(old(layout.phi[..]), n, coord.phi)
    {
      var m := 0;
      while m < W
        invariant 0 <= m <= W
        invariant forall i :: 0 <= i < layout.capacity ==>
          layout.radius[i] == (if n <= i < n + m then coord.radius[i - n] else old(layout.radius[i]))
        invariant forall i :: 0 <= i < layout.capacity ==>
          layout.phi[i] == (if n <= i < n + m then coord.phi[i - n] else old(layout.phi[i]))
      {
        layout.radius[n + m] := coord.radius[m];
        layout.phi[n + m] := coord.phi[m];
        m := m + 1;
      }
    }
  }

  /** LoadStoreAccessImpl: aligned vector loads and stores of W consecutive elements. */
  class SoaLoadStoreAccess<T(0)> {
    const layout: SoaLayout<T>

    ghost predicate Valid() {
      layout.Valid()
    }

    constructor (containerSize: nat)
      ensures Valid() && layout.capacity == containerSize && fresh(layout)
      ensures fresh(layout.x) && fresh(layout.y) && fresh(layout.radius) && fresh(layout.phi)
    {
      layout := new SoaLayout(containerSize);
    }

    /** setupLoop: nothing to prepare. */
    method SetupLoop()
    {
    }

    /** load(n) with Vc::Aligned: n must start a vector; same lanes as the subscript load. */
    method Load(n: nat) returns (r: Coordinate<seq<T>>)
      requires Valid() && n % W == 0 && n + W <= layout.capacity
      ensures |r.x| == W && |r.y| == W
      ensures forall m :: 0 <= m < W ==> r.x[m] == layout.x[n + m] && r.y[m] == layout.y[n + m]
    {
      r := Coordinate(layout.x[n..n + W], layout.y[n..n + W]);
    }

    /** store(n, coord) with Vc::Aligned: the same block positions as the subscript store. */
    method Store(n: nat, coord: PolarCoordinate<seq<T>>)
      requires Valid() && n % W == 0 && n + W <= layout.capacity
      requires |coord.radius| == W && |coord.phi| == W
      modifies layout.radius, layout.phi
      ensures layout.radius[..] == Splice(old(layout.radius[..]), n, coord.radius)
      ensures layout.phi[..] == Splice(old(layout.phi[..]), n, coord.phi)
    {
      forall i | n <= i < n + W {
        layout.radius[i] := coord.radius[i - n];
      }
      forall i | n <= i < n + W {
        layout.phi[i] := coord.phi[i - n];
      }
    }
  }

  /** `buffer[indexes] = values` for the index vector Iota(base): the block [base, base + W) becomes values. */
  method ScatterAtIota<T>(buffer: array<T>, indexes: seq<int>, ghost base: nat, values: seq<T>)
    requires indexes == Iota(base) && base + W <= buffer.Length && |values| == W
    modifies buffer
    ensures buffer[..] == Splice(old(buffer[..]), base, values)
  {
    forall m | 0 <= m < W {
      buffer[indexes[m]] := values[m];
    }
    assert forall i :: 0 <= i < buffer.Length ==>
      buffer[i] == (if base <= i < base + W then values[i - base] else old(buffer[i]));
  }

  /**
   * SoaGatherScatterAccessImpl: loads and stores go through an index
   * vector.  The argument n is ignored; instead `steps`, the number of
   * stores since the last reset, fixes the index vector at
   * steps * W + m, so it agrees with a caller that steps n by W from 0.
   */
  class SoaGatherScatterAccess<T(0)> {
    const layout: SoaLayout<T>
    var indexes: seq<int>
    ghost var steps: nat

    ghost predicate Valid()
      reads this
    {
      layout.Valid() && indexes == Iota(steps * W)
    }

    /** The index vector starts as IndexesFromZero. */
    constructor (containerSize: nat)
      ensures Valid() && layout.capacity == containerSize && fresh(layout)
      ensures fresh(layout.x) && fresh(layout.y) && fresh(layout.radius) && fresh(layout.phi)
      ensures indexes == Iota(0) && steps == 0
    {
      layout := new SoaLayout(containerSize);
      indexes := Iota(0);
      steps := 0;
    }

    /** setupLoop: resets the index vector to IndexesFromZero. */
    method SetupLoop()
      requires layout.Valid()
      modifies this`indexes, this`steps
      ensures Valid() && indexes == Iota(0) && steps == 0
    {
      indexes := Iota(0);
      steps := 0;
    }

    /** load(n): gathers at the index vector, which is the block [steps * W, steps * W + W). */
    method Load(n: nat) returns (r: Coordinate<seq<T>>)
      requires Valid() && steps * W + W <= layout.capacity
      ensures InBounds(indexes, layout.capacity)
      ensures r.x == Gathered(layout.x[..], indexes) && r.y == Gathered(layout.y[..], indexes)
      ensures r.x == layout.x[steps * W..steps * W + W] && r.y == layout.y[steps * W..steps * W + W]
    {
      GatherIotaIsBlock(layout.x[..], steps * W);
      GatherIotaIsBlock(layout.y[..], steps * W);
      r := Coordinate(Gathered(layout.x[..], indexes), Gathered(layout.y[..], indexes));
    }

    /** store(n, coord): scatters to the index vector, then advances it by W. */
    method Store(n: nat, coord: PolarCoordinate<seq<T>>)
      requires Valid() && steps * W + W <= layout.capacity
      requires |coord.radius| == W && |coord.phi| == W
      modifies layout.radius, layout.phi, this`indexes, this`steps
      ensures Valid() && steps == old(steps) + 1
      ensures indexes == Advance(old(indexes), W)
      ensures layout.radius[..] == Splice(old(layout.radius[..]), old(steps) * W, coord.radius)
      ensures layout.phi[..] == Splice(old(layout.phi[..]), old(steps) * W, coord.phi)
    {
      ghost var base := steps * W;
      ScatterAtIota(layout.radius, indexes, base, coord.radius);
      ScatterAtIota(layout.phi, indexes, base, coord.phi);
      AdvanceIota(base);
      assert steps * W + W == (steps + 1) * W;
      indexes := Advance(indexes, W);
      steps := steps + 1;
    }
  }
}
