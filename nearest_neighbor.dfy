/**
 * Nearest-neighbour search (nearestneighbor.cpp): the index of the particle
 * closest to a target position, found once by a scalar scan over a list of
 * particles (std_for_each) and once by a lane-wise scan over blocks of W
 * particles (aovs).  The squared distance is the parameter `distance2` into
 * int, standing for the float computation dx * dx + dy * dy + dz * dz;
 * `top` stands for std::numeric_limits<float>::max(), the initial best.
 */
module NearestNeighbor {
  import opened MathFunctions

  /** PositionTemplate: a point of three coordinates. */
  datatype Position<F> = Position(x: F, y: F, z: F)

  /** The squared distance of a particle from the target. */
  type Distance<!F> = (Position<F>, Position<F>) -> int

  /** The distance of every particle from `to`, in particle order. */
  function Distances<F>(to: Position<F>, particles: seq<Position<F>>, distance2: Distance<F>): seq<int> {
    seq(|particles|, i requires 0 <= i < |particles| => distance2(particles[i], to))
  }

  /** No key is below top: a scan seeded with top never takes a particle. */
  predicate NoneBelow(keys: seq<int>, top: int) {
    forall i :: 0 <= i < |keys| ==> keys[i] >= top
  }

  /**
   * r is what a first-minimum scan seeded with top answers: 0 when no key is
   * below top, otherwise the first index of the least key.
   */
  predicate IsFirstNearest(keys: seq<int>, top: int, r: int) {
    if NoneBelow(keys, top) then r == 0
    else 0 <= r < |keys| && keys[r] < top
         && (forall i :: 0 <= i < |keys| ==> keys[r] <= keys[i])
         && (forall i :: 0 <= i < r ==> keys[r] < keys[i])
  }

  /**
   * r attains the least key: 0 when no key is below top, otherwise some
   * index whose key is below top and no greater than any other.
   */
  predicate AttainsNearest(keys: seq<int>, top: int, r: int) {
    if NoneBelow(keys, top) then r == 0
    else 0 <= r < |keys| && keys[r] < top
         && forall i :: 0 <= i < |keys| ==> keys[r] <= keys[i]
  }

  /** The first nearest index is determined by the keys alone. */
  lemma FirstNearestUnique(keys: seq<int>, top: int, r: int, s: int)
    requires IsFirstNearest(keys, top, r) && IsFirstNearest(keys, top, s)
    ensures r == s
  {
  }

  /** The first nearest index attains the least key. */
  lemma FirstNearestAttains(keys: seq<int>, top: int, r: int)
    requires IsFirstNearest(keys, top, r)
    ensures AttainsNearest(keys, top, r)
  {
  }

  /**
   * Two answers that both attain the least key may differ on ties, but
   * their keys agree.
   */
  lemma AttainedKeysAgree(keys: seq<int>, top: int, r: int, s: int)
    requires AttainsNearest(keys, top, r) && AttainsNearest(keys, top, s)
    ensures r == s || (0 <= r < |keys| && 0 <= s < |keys| && keys[r] == keys[s])
  {
    if !NoneBelow(keys, top) {
      assert keys[r] <= keys[s] && keys[s] <= keys[r];
    }
  }

  /** x.min(): the least lane of a vector. */
  function Min(x: seq<int>): (r: int)
    requires |x| > 0
    ensures r in x
    ensures forall i :: 0 <= i < |x| ==> r <= x[i]
  {
    if |x| == 1 then x[0]
    else
      var rest := Min(x[1..]);
      assert forall i :: 1 <= i < |x| ==> x[i] == x[1..][i - 1];
      if x[0] <= rest then x[0] else rest
  }

  /** mask.firstOne(): the first set lane of a mask with a set lane. */
  function FirstOne(mask: seq<bool>): (r: nat)
    requires true in mask
    ensures r < |mask| && mask[r]
    ensures forall i :: 0 <= i < r ==> !mask[i]
  {
    if mask[0] then 0
    else
      assert true in mask[1..];
      1 + FirstOne(mask[1..])
  }

  /** The mask of lanes equal to the minimum has a set lane. */
  lemma LeastIsSet(x: seq<int>, mask: seq<bool>)
    requires |x| > 0 && |mask| == |x|
    requires forall i :: 0 <= i < |x| ==> mask[i] == (Min(x) == x[i])
    ensures true in mask
  {
    var i :| 0 <= i < |x| && x[i] == Min(x);
    assert mask[i];
  }

  /**
   * index_of_min: the first lane equal to the vector minimum, so its value is
   * no greater than any lane and less than every lane before it.
   */
  function IndexOfMin(x: seq<int>): (r: nat)
    requires |x| > 0
    ensures r < |x|
    ensures forall i :: 0 <= i < |x| ==> x[r] <= x[i]
    ensures forall i :: 0 <= i < r ==> x[r] < x[i]
  {
    var least := Min(x);
    var mask := seq(|x|, i requires 0 <= i < |x| => least == x[i]);
    LeastIsSet(x, mask);
    var r := FirstOne(mask);
    assert forall i :: 0 <= i < r ==> least != x[i];
    r
  }

  /**
   * std_for_each: walks the particles once, keeping the best distance seen
   * (seeded with top) and its index, replaced only by a strictly smaller
   * distance; the answer is the first particle of least distance, or 0.
   */
  method StdForEach<F>(to: Position<F>, particles: seq<Position<F>>, distance2: Distance<F>, top: int)
    returns (bestIndex: int)
    ensures IsFirstNearest(Distances(to, particles, distance2), top, bestIndex)
  {
    ghost var keys := Distances(to, particles, distance2);
    var best := top;
    bestIndex := 0;
    var i := 0;
    while i < |particles|
      invariant 0 <= i <= |particles|
      invariant forall j :: 0 <= j < i ==> best <= keys[j]
      invariant (best == top && bestIndex == 0)
                || (0 <= bestIndex < i && best == keys[bestIndex] && best < top
                    && forall j :: 0 <= j < bestIndex ==> best < keys[j])
    {
      var distance := distance2(particles[i], to);
      if distance < best {
        best := distance;
        bestIndex := i;
      }
      i := i + 1;
    }
  }

  /** An empty particle list answers 0. */
  lemma EmptyAnswersZero(keys: seq<int>, top: int, r: int)
    requires |keys| == 0 && IsFirstNearest(keys, top, r)
    ensures r == 0
  {
  }

  /**
   * create_particles: size particles, each taking the next three draws of
   * the generator as x, y and z.  A negative size would not end the loop.
   */
  method CreateParticles<F>(size: int, draws: seq<F>) returns (particles: seq<Position<F>>)
    requires 0 <= size && 3 * size <= |draws|
    ensures |particles| == size && particles == Generated(draws, size)
  {
    particles := [];
    var remaining := size;
    var next := 0;
    while remaining != 0
      invariant 0 <= remaining <= size && |particles| == size - remaining && next == 3 * |particles|
      invariant particles == Generated(draws, |particles|)
    {
      particles := particles + [Position(draws[next], draws[next + 1], draws[next + 2])];
      next := next + 3;
      remaining := remaining - 1;
    }
  }

  /** PositionV: a block of W particles, one register per coordinate. */
  predicate IsBlock<F>(block: Position<seq<F>>) {
    |block.x| == W && |block.y| == W && |block.z| == W
  }

  predicate AreBlocks<F>(blocks: seq<Position<seq<F>>>) {
    forall b :: 0 <= b < |blocks| ==> IsBlock(blocks[b])
  }

  /** Lane m of a block: the particle it holds in that lane. */
  function Lane<F>(block: Position<seq<F>>, m: nat): Position<F>
    requires IsBlock(block) && m < W
  {
    Position(block.x[m], block.y[m], block.z[m])
  }

  /** The particles of a block, lane by lane. */
  function Lanes<F>(block: Position<seq<F>>): seq<Position<F>>
    requires IsBlock(block)
  {
    seq(W, m requires 0 <= m < W => Lane(block, m))
  }

  /** The particles of the blocks in memory order: block by block, lane by lane. */
  function Flatten<F>(blocks: seq<Position<seq<F>>>): (r: seq<Position<F>>)
    requires AreBlocks(blocks)
    ensures |r| == |blocks| * W
  {
    if blocks == [] then []
    else
      var rest := Flatten(blocks[1..]);
      assert |blocks| * W == W + (|blocks| - 1) * W;
      Lanes(blocks[0]) + rest
  }

  /** Appending a block appends its lanes. */
  lemma {:induction false} FlattenAppend<F>(blocks: seq<Position<seq<F>>>, block: Position<seq<F>>)
    requires AreBlocks(blocks) && IsBlock(block)
    ensures AreBlocks(blocks + [block])
    ensures Flatten(blocks + [block]) == Flatten(blocks) + Lanes(block)
  {
    if blocks != [] {
      assert (blocks + [block])[1..] == blocks[1..] + [block];
      FlattenAppend(blocks[1..], block);
    }
  }

  /** Position b * W + m of the flattened blocks is lane m of block b. */
  lemma {:induction false} FlattenLane<F>(blocks: seq<Position<seq<F>>>, b: nat, m: nat)
    requires AreBlocks(blocks) && b < |blocks| && m < W
    ensures b * W + m < |Flatten(blocks)| && Flatten(blocks)[b * W + m] == Lane(blocks[b], m)
  {
    MultiplyMonotone(b + 1, |blocks|, W);
    if b > 0 {
      FlattenLane(blocks[1..], b - 1, m);
      assert b * W + m == W + ((b - 1) * W + m);
    }
  }

  /** Every position of a row of n blocks is lane e % W of block e / W. */
  lemma Decompose(e: nat, n: nat)
    requires e < n * W
    ensures e / W < n && e % W < W && e == (e / W) * W + e % W
  {
    assert (e / W) * W <= e;
    MultiplyCancel(e / W, n, W);
  }

  /** Every particle of the flattened blocks is a lane of one of them. */
  lemma FlattenAt<F>(blocks: seq<Position<seq<F>>>, e: nat) returns (b: nat, m: nat)
    requires AreBlocks(blocks) && e < |blocks| * W
    ensures b < |blocks| && m < W && Flatten(blocks)[e] == Lane(blocks[b], m)
  {
    Decompose(e, |blocks|);
    b, m := e / W, e % W;
    FlattenLane(blocks, b, m);
    assert e == b * W + m;
  }

  /** The particle made of draws 3e, 3e + 1 and 3e + 2, the e-th the generator yields. */
  function Drawn<F>(draws: seq<F>, e: nat): Position<F>
    requires 3 * e + 2 < |draws|
  {
    Position(draws[3 * e], draws[3 * e + 1], draws[3 * e + 2])
  }

  /**
   * One generator construction of a PositionV: lane m holds particle
   * first + m of the generator, lane after lane.
   */
  method GenerateBlock<F>(draws: seq<F>, first: nat) returns (block: Position<seq<F>>)
    requires 3 * (first + W) <= |draws|
    ensures IsBlock(block)
    ensures forall m :: 0 <= m < W ==> Lane(block, m) == Drawn(draws, first + m)
  {
    var x, y, z := [], [], [];
    var m := 0;
    while m < W
      invariant 0 <= m <= W && |x| == m && |y| == m && |z| == m
      invariant forall j :: 0 <= j < m ==> Position(x[j], y[j], z[j]) == Drawn(draws, first + j)
    {
      var p := Drawn(draws, first + m);
      x, y, z := x + [p.x], y + [p.y], z + [p.z];
      m := m + 1;
    }
    block := Position(x, y, z);
  }

  /** The first n particles of the generator, three draws each. */
  function Generated<F>(draws: seq<F>, n: nat): seq<Position<F>>
    requires 3 * n <= |draws|
  {
    seq(n, e requires 0 <= e < n => Drawn(draws, e))
  }

  /** A block of the next W particles extends the generated particles by W. */
  lemma GeneratedByBlock<F>(draws: seq<F>, n: nat, block: Position<seq<F>>)
    requires 3 * (n + W) <= |draws| && IsBlock(block)
    requires forall m :: 0 <= m < W ==> Lane(block, m) == Drawn(draws, n + m)
    ensures Generated(draws, n) + Lanes(block) == Generated(draws, n + W)
  {
    var left, right := Generated(draws, n) + Lanes(block), Generated(draws, n + W);
    forall e | 0 <= e < n + W
      ensures left[e] == right[e]
    {
      if e >= n {
        assert left[e] == Lane(block, e - n);
      }
    }
  }

  /**
   * The setup of aovs(): one block per started group of W particles, that is
   * ceil(size / W) blocks and none for a size of 0 or less; in memory order
   * the blocks hold the first particles of the generator, so the lanes past
   * size in the last block are random particles too.
   */
  method CreateBlocks<F>(size: int, draws: seq<F>) returns (particles: seq<Position<seq<F>>>)
    requires size <= 0 || 3 * (size + W) <= |draws|
    ensures AreBlocks(particles)
    ensures size <= 0 ==> |particles| == 0
    ensures size > 0 ==> (|particles| - 1) * W < size <= |particles| * W
    ensures 3 * (|particles| * W) <= |draws| && Flatten(particles) == Generated(draws, |particles| * W)
  {
    particles := [];
    var remaining := size;
    while remaining > 0
      invariant AreBlocks(particles)
      invariant remaining == size - |particles| * W
      invariant size > 0 ==> remaining + W > 0
      invariant size <= 0 ==> |particles| == 0
      invariant 3 * (|particles| * W) <= |draws| && Flatten(particles) == Generated(draws, |particles| * W)
    {
      var block := GenerateBlock(draws, |particles| * W);
      FlattenAppend(particles, block);
      GeneratedByBlock(draws, |particles| * W, block);
      assert (|particles| + 1) * W == |particles| * W + W;
      particles := particles + [block];
      remaining := remaining - W;
    }
    assert (|particles| - 1) * W == |particles| * W - W;
  }

  /** The distance of lane m of block b from `to`. */
  function BlockKey<F>(to: Position<F>, particles: seq<Position<seq<F>>>, distance2: Distance<F>, b: nat, m: nat): int
    requires AreBlocks(particles) && b < |particles| && m < W
  {
    distance2(Lane(particles[b], m), to)
  }

  /**
   * After k blocks, lane m holds in best the least of its distances and top.
   * When best is below top, index is b * W + m for the first block b whose
   * lane m has that distance; otherwise index is still the initial 0.
   */
  ghost predicate LaneHoldsBest<F>(to: Position<F>, particles: seq<Position<seq<F>>>, distance2: Distance<F>, top: int,
                                   k: nat, m: nat, best: int, index: int)
    requires AreBlocks(particles) && k <= |particles| && m < W
  {
    (forall b :: 0 <= b < k ==> best <= BlockKey(to, particles, distance2, b, m))
    && best <= top
    && ((best == top && index == 0)
        || (best < top
            && exists b :: 0 <= b < k && index == b * W + m && best == BlockKey(to, particles, distance2, b, m)
                           && forall b' :: 0 <= b' < b ==> BlockKey(to, particles, distance2, b', m) > best))
  }

  /** Every lane of best and bestIndex holds its best after k blocks. */
  ghost predicate LanesHoldBest<F>(to: Position<F>, particles: seq<Position<seq<F>>>, distance2: Distance<F>, top: int,
                                   k: nat, best: seq<int>, bestIndex: seq<int>)
    requires AreBlocks(particles) && k <= |particles|
  {
    |best| == W && |bestIndex| == W
    && forall m :: 0 <= m < W ==> LaneHoldsBest(to, particles, distance2, top, k, m, best[m], bestIndex[m])
  }

  /**
   * Block k moves lane m on: a distance strictly below best replaces best
   * and index, any other distance leaves both.
   */
  lemma LaneStep<F>(to: Position<F>, particles: seq<Position<seq<F>>>, distance2: Distance<F>, top: int,
                    k: nat, m: nat, best: int, index: int)
    requires AreBlocks(particles) && k < |particles| && m < W
    requires LaneHoldsBest(to, particles, distance2, top, k, m, best, index)
    ensures var key := BlockKey(to, particles, distance2, k, m);
            if key < best then LaneHoldsBest(to, particles, distance2, top, k + 1, m, key, k * W + m)
            else LaneHoldsBest(to, particles, distance2, top, k + 1, m, best, index)
  {
    var key := BlockKey(to, particles, distance2, k, m);
    if key < best {
      assert forall b' :: 0 <= b' < k ==> BlockKey(to, particles, distance2, b', m) > key;
    } else if best < top {
      var b :| 0 <= b < k && index == b * W + m && best == BlockKey(to, particles, distance2, b, m)
               && forall b' :: 0 <= b' < b ==> BlockKey(to, particles, distance2, b', m) > best;
      assert 0 <= b < k + 1;
    }
  }

  /**
   * One step of the aovs() scan over block k, whose lane m sits at position
   * i[m] == k * W + m of the flattened blocks: where a lane's distance is
   * below its best, best_index takes i and best the distance.  The any_of
   * guard skips a block with no improvement.
   */
  method ScanBlock<F>(to: Position<F>, particles: seq<Position<seq<F>>>, distance2: Distance<F>, top: int,
                      k: nat, best: seq<int>, bestIndex: seq<int>, i: seq<int>)
    returns (best': seq<int>, bestIndex': seq<int>)
    requires AreBlocks(particles) && k < |particles| && |i| == W
    requires forall m :: 0 <= m < W ==> i[m] == k * W + m
    requires LanesHoldBest(to, particles, distance2, top, k, best, bestIndex)
    ensures LanesHoldBest(to, particles, distance2, top, k + 1, best', bestIndex')
  {
    var p := particles[k];
    var distance := seq(W, m requires 0 <= m < W => distance2(Lane(p, m), to));
    if exists m :: 0 <= m < W && distance[m] < best[m] {
      var mask := seq(W, m requires 0 <= m < W => distance[m] < best[m]);
      bestIndex' := seq(W, m requires 0 <= m < W => if mask[m] then i[m] else bestIndex[m]);
      best' := seq(W, m requires 0 <= m < W => if distance[m] < best[m] then distance[m] else best[m]);
    } else {
      best', bestIndex' := best, bestIndex;
    }
    forall m | 0 <= m < W
      ensures LaneHoldsBest(to, particles, distance2, top, k + 1, m, best'[m], bestIndex'[m])
    {
      assert distance[m] == BlockKey(to, particles, distance2, k, m);
      LaneStep(to, particles, distance2, top, k, m, best[m], bestIndex[m]);
    }
  }

  /**
   * The search of one timed aovs() iteration: lane-wise best and best_index,
   * the index vector starting at 0 .. W - 1 and advancing by W per block; the
   * answer best_index[index_of_min(best)] attains the least distance over
   * every lane of every block.
   */
  method AovsSearch<F>(to: Position<F>, particles: seq<Position<seq<F>>>, distance2: Distance<F>, top: int)
    returns (result: int)
    requires AreBlocks(particles)
    ensures AttainsNearest(Distances(to, Flatten(particles), distance2), top, result)
  {
    var best := seq(W, _ => top);
    var bestIndex := seq(W, _ => 0);
    var i := seq(W, m => m);
    var k := 0;
    while k < |particles|
      invariant 0 <= k <= |particles| && |i| == W
      invariant forall m :: 0 <= m < W ==> i[m] == k * W + m
      invariant LanesHoldBest(to, particles, distance2, top, k, best, bestIndex)
    {
      best, bestIndex := ScanBlock(to, particles, distance2, top, k, best, bestIndex, i);
      i := seq(W, m requires 0 <= m < W => i[m] + W);
      k := k + 1;
      assert forall m :: 0 <= m < W ==> i[m] == (k - 1) * W + m + W == k * W + m;
    }
    var lane := IndexOfMin(best);
    result := bestIndex[lane];
    LanesAttain(to, particles, distance2, top, best, bestIndex, lane);
  }

  /** Every distance of the flattened blocks is the distance of some lane of some block. */
  lemma KeyAt<F>(to: Position<F>, particles: seq<Position<seq<F>>>, distance2: Distance<F>, e: nat)
    returns (b: nat, m: nat)
    requires AreBlocks(particles) && e < |Flatten(particles)|
    ensures b < |particles| && m < W
    ensures Distances(to, Flatten(particles), distance2)[e] == BlockKey(to, particles, distance2, b, m)
  {
    b, m := FlattenAt(particles, e);
    DistanceAt(to, Flatten(particles), distance2, e);
  }

  /** The distances of the flattened blocks, position by position. */
  lemma DistanceAt<F>(to: Position<F>, flat: seq<Position<F>>, distance2: Distance<F>, e: nat)
    requires e < |flat|
    ensures Distances(to, flat, distance2)[e] == distance2(flat[e], to)
  {
  }

  /** The distance of lane m of block b sits at position b * W + m of the flattened blocks. */
  lemma KeyOfLane<F>(to: Position<F>, particles: seq<Position<seq<F>>>, distance2: Distance<F>, b: nat, m: nat)
    requires AreBlocks(particles) && b < |particles| && m < W
    ensures 0 <= b * W + m < |Flatten(particles)|
    ensures Distances(to, Flatten(particles), distance2)[b * W + m] == BlockKey(to, particles, distance2, b, m)
  {
    FlattenLane(particles, b, m);
    DistanceAt(to, Flatten(particles), distance2, b * W + m);
  }

  /** The lane with the least best holds an index attaining the least distance overall. */
  lemma LanesAttain<F>(to: Position<F>, particles: seq<Position<seq<F>>>, distance2: Distance<F>, top: int,
                       best: seq<int>, bestIndex: seq<int>, lane: nat)
    requires AreBlocks(particles)
    requires LanesHoldBest(to, particles, distance2, top, |particles|, best, bestIndex)
    requires lane < W && forall m :: 0 <= m < W ==> best[lane] <= best[m]
    ensures AttainsNearest(Distances(to, Flatten(particles), distance2), top, bestIndex[lane])
  {
    var keys := Distances(to, Flatten(particles), distance2);
    forall e | 0 <= e < |keys|
      ensures keys[e] >= best[lane]
    {
      var b, m := KeyAt(to, particles, distance2, e);
      assert LaneHoldsBest(to, particles, distance2, top, |particles|, m, best[m], bestIndex[m]);
    }
    assert LaneHoldsBest(to, particles, distance2, top, |particles|, lane, best[lane], bestIndex[lane]);
    if best[lane] < top {
      var b :| 0 <= b < |particles| && bestIndex[lane] == b * W + lane
               && best[lane] == BlockKey(to, particles, distance2, b, lane)
               && forall b' :: 0 <= b' < b ==> BlockKey(to, particles, distance2, b', lane) > best[lane];
      KeyOfLane(to, particles, distance2, b, lane);
    } else {
      assert best[lane] == top && bestIndex[lane] == 0;
      assert NoneBelow(keys, top);
    }
  }

  /** The target after n timed iterations, each scaling it by 0.9 (`shrink`). */
  function Target<F>(shrink: Position<F> -> Position<F>, to: Position<F>, n: nat): Position<F> {
    if n == 0 then to else shrink(Target(shrink, to, n - 1))
  }

  /**
   * aovs(): builds the blocks from the draws, then each timed iteration
   * shrinks the target and searches; after the last iteration the answer
   * attains the least distance from the last target over every lane of
   * every block.  The byte counter is iterations times the block count times
   * sizeof(PositionV).
   */
  method AovsNearest<F>(size: int, draws: seq<F>, to: Position<F>, shrink: Position<F> -> Position<F>,
                        distance2: Distance<F>, top: int, iterations: nat, blockSize: nat)
    returns (particles: seq<Position<seq<F>>>, result: int, bytes: nat)
    requires size <= 0 || 3 * (size + W) <= |draws|
    ensures AreBlocks(particles)
    ensures size <= 0 ==> |particles| == 0
    ensures size > 0 ==> (|particles| - 1) * W < size <= |particles| * W
    ensures iterations > 0 ==>
      AttainsNearest(Distances(Target(shrink, to, iterations), Flatten(particles), distance2), top, result)
    ensures bytes == iterations * |particles| * blockSize
  {
    particles := CreateBlocks(size, draws);
    var target := to;
    result := 0;
    var iteration := 0;
    while iteration < iterations
      invariant 0 <= iteration <= iterations && target == Target(shrink, to, iteration)
      invariant iteration > 0 ==>
        AttainsNearest(Distances(target, Flatten(particles), distance2), top, result)
    {
      target := shrink(target);
      result := AovsSearch(target, particles, distance2, top);
      iteration := iteration + 1;
    }
    bytes := iterations * |particles| * blockSize;
  }

  /**
   * Over the same particles in memory order, the lane-wise answer and the
   * scalar scan's answer have the same distance, though on ties they may
   * name different particles.
   */
  lemma AovsAgreesWithScan<F>(to: Position<F>, particles: seq<Position<seq<F>>>, distance2: Distance<F>, top: int,
                              aovs: int, scan: int)
    requires AreBlocks(particles)
    requires AttainsNearest(Distances(to, Flatten(particles), distance2), top, aovs)
    requires IsFirstNearest(Distances(to, Flatten(particles), distance2), top, scan)
    ensures var keys := Distances(to, Flatten(particles), distance2);
            aovs == scan || (0 <= aovs < |keys| && 0 <= scan < |keys| && keys[aovs] == keys[scan])
  {
    var keys := Distances(to, Flatten(particles), distance2);
    FirstNearestAttains(keys, top, scan);
    AttainedKeysAgree(keys, top, aovs, scan);
  }
}
