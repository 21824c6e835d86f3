/**
 * The baseline "layout" (baseline.h): a single input vector pair that every
 * load returns and a single output vector pair that every store overwrites,
 * so the driver measures the transform without memory traffic.
 */
module Baseline {
  import opened MathFunctions

  /** BaselineLayout: one input pair and one output pair, whatever the container size. */
  class BaselineLayout<T(0)> {
    var inputValue: Coordinate<seq<T>>
    var outputValue: PolarCoordinate<seq<T>>

    /** The stored input pair is a pair of W-lane registers. */
    ghost predicate Valid()
      reads this
    {
      |inputValue.x| == W && |inputValue.y| == W
    }

    /**
     * Sets the input pair to two random registers (randomX and randomY stand
     * for T::Random()); containerSize is not used.
     */
    constructor (containerSize: nat, randomX: seq<T>, randomY: seq<T>)
      requires |randomX| == W && |randomY| == W
      ensures Valid() && inputValue == Coordinate(randomX, randomY)
    {
      var lanes := new T[W];
      inputValue := Coordinate(randomX, randomY);
      outputValue := PolarCoordinate(lanes[..], lanes[..]);
    }

    /** coordinate(index): returns an indeterminate element unrelated to the stored pair. */
    method CoordinateAt(index: nat) returns (r: Coordinate<T>)
    {
      var uninitialised := new Coordinate<T>[1];
      r := uninitialised[0];
    }

    /** setPolarCoordinate(index, coord): stores nothing. */
    method SetPolarCoordinate(index: nat, coord: PolarCoordinate<T>)
      ensures unchanged(this)
    {
    }
  }

  /** BaselineImpl: loads return the stored pair, stores overwrite the single output. */
  class BaselineAccess<T(0)> {
    const layout: BaselineLayout<T>

    ghost predicate Valid()
      reads layout
    {
      layout.Valid()
    }

    constructor (containerSize: nat, randomX: seq<T>, randomY: seq<T>)
      requires |randomX| == W && |randomY| == W
      ensures Valid() && fresh(layout) && layout.inputValue == Coordinate(randomX, randomY)
    {
      layout := new BaselineLayout(containerSize, randomX, randomY);
    }

    /** setupLoop: nothing to prepare. */
    method SetupLoop()
    {
    }

    /** load(index): the stored input pair, for every index; it is never changed. */
    method Load(index: nat) returns (r: Coordinate<seq<T>>)
      requires Valid()
      ensures r == layout.inputValue
      ensures |r.x| == W && |r.y| == W
    {
      r := layout.inputValue;
    }

    /** store(index, coord): the single output pair becomes coord, for every index. */
    method Store(index: nat, coord: PolarCoordinate<seq<T>>)
      requires Valid()
      modifies layout`outputValue
      ensures layout.outputValue == coord
      ensures Valid()
    {
      layout.outputValue := coord;
    }
  }
}
