# vc-benchmarks memory-layout core in Dafny

This project models the index and layout logic of the vc-benchmarks suite.
The suite times a polar-coordinate transform, `(x, y) -> (radius, phi)`, over
coordinates stored in several memory layouts, using SIMD vectors of `W` lanes:

- structure of arrays (SoA);
- array of structures (AoS);
- array of vectorized structures (AoVS);
- a baseline that keeps one register pair.

The model captures which logical element each vector load, vector store and
scalar step touches. The numbers themselves are not modelled:

- The vector width is a module constant `MathFunctions.W`, greater than 0.
- A vector register is a `seq<T>` of `W` lanes, where `T` is the scalar element type.
- The floating-point transform is a parameter `polar: (T, T) -> (T, T)`. On registers it acts lane by lane (`MathFunctions.PolarV`).
- Random draws (`std::mt19937`, `T::Random()`) become sequences passed in as parameters.
- The constant `1.0f` written into padding slots becomes a parameter `one`.
- The timing loop `while (state.KeepRunning())` becomes a loop over `iterations`. The reported counters become results `items` and `bytes`.

The modules follow the source files:

- `MathFunctions` (mathfunctions.h) and `VectorizationHelper` (VectorizationHelper.h) hold the chunk count and the two polar overloads.
- `TailPolicy` and `MemoryLayout` (benchmarkmemorylayout.cpp) hold the size arithmetic of the two tail policies, the test list and the layout-generic driver.
- `Registers` holds the index-vector arithmetic shared by gather and scatter.
- `Soa`, `Aos`, `Aovs` and `Baseline` (soa.h, aos.h, aovs.h, baseline.h) hold the layouts and access strategies. Layouts whose fields change in place are classes over arrays.
- `LegacySoa`, `LegacyAos`, `LegacyAovs` and `LegacyLabels` model the hand-written benchmarks of SoA.h, AoS.h and AovS.h.
- `AdditionalCalculations`, `LegacyCalculations` and `Sonst` model the reference loops in additinalcalculations.h, AdditinalCalculations.h and Sonst.h.
- `BenchmarkHelper` models label formatting (BenchmarkHelper.h).
- `LoopUnroll` models the simple and software-pipelined add-one loops (loopunroll.cpp). Its element values are the integers `0 .. N`, which float and double hold exactly, so they are modelled as `int`.
- `NearestNeighbor` models the first-minimum scans (nearestneighbor.cpp). `distance2` is an abstract key function into `int`. The AoVS block size and the shrink factor are parameters.

## Model

| member | source | states |
|---|---|---|
| MathFunctions.OverloadsAgree | mathfunctions.h:46-59 | both overloads of calculatePolarCoordinate apply one formula; the model defines both through `polar(x, y)`, so this identifies them rather than proving anything about the floating-point code |
| MathFunctions.PolarV | mathfunctions.h:46-49 | applied to registers the transform is lane-wise: lane m of radius and phi is the scalar transform of lane m of x and y, and the result has the registers' length |
| MathFunctions.NumberOfChunksBounds | mathfunctions.h:61-63 | `numberOfChunks(s, c) * c >= s` and `< s + c`: enough chunks to hold every element, with less than one chunk to spare |
| MathFunctions.NumberOfChunksIsCeiling | mathfunctions.h:61-63 | a chunk count q holds all s elements with less than one chunk to spare exactly when q is numberOfChunks(s, c), so the result is the ceiling of s / c |
| MathFunctions.NumberOfChunksExact | mathfunctions.h:61-63 | when c divides s the result is exactly s / c, and for s = 0 it is 0 |
| MathFunctions.NumberOfChunksWrapsWithoutPrecondition | mathfunctions.h:62 | without the range precondition, `s + c - 1` computed modulo 2^64 yields 0 chunks for s = 2^64 - 1, c = 2, even though s > 0 |
| VectorizationHelper.CalcularePolarCoordinate | VectorizationHelper.h:11-15 | the misspelled helper computes the same (radius, phi) as both mathfunctions.h overloads |
| VectorizationHelper.NumberOfChunks | VectorizationHelper.h:17-21 | the duplicate chunk count returns the same value as mathfunctions.h and is therefore at least the ceiling and below it plus one chunk, exact on multiples, and 0 for no elements |
| Registers.Iota | soa.h:128-133 | the index register `IT([](int n){ return n; })` based at b has W lanes, with lane m equal to b + m |
| Registers.Advance | soa.h:144-148 | `indexes += W` adds W to every lane and keeps the lane count |
| Registers.AdvanceIota | soa.h:144-148 | advancing the identity register based at b gives the identity register based at b + W |
| Registers.AdvanceTimesFromZero | soa.h:131-148 | after setupLoop and k stores, the index register holds kW + m in lane m, which matches the driver's n = kW |
| Registers.Gathered | soa.h:135-142 | a gather reads lane m from position indexes[m] of the array, for every lane |
| Registers.GatherIotaIsBlock | soa.h:135-142 | gathering through the identity register based at n reads exactly the contiguous block n .. n + W - 1 |
| TailPolicy.TailSizes | benchmarkmemorylayout.cpp:57-62 | both policies give a multiple of W as the container and leave fewer than W elements missing. RestScalar: missingSize = inputSize % W and container + missing = inputSize. Padding: nothing missing and inputSize <= container < inputSize + W. Empty input gives an empty container |
| TailPolicy.PaddingIsLeastMultiple | aos.h:146-148 | the Padding container is the least multiple of W that is at least inputSize |
| TailPolicy.VectorStartsInCapacity | benchmarkmemorylayout.cpp:69-78 | the k vector steps start at multiples of W and each block ends within kW, the container the driver allocates |
| TailPolicy.LaneVisitsCover | benchmarkmemorylayout.cpp:69-78 | k vector steps touch exactly the positions 0 .. kW - 1, each once |
| TailPolicy.DriverVisitsExactlyOnce | benchmarkmemorylayout.cpp:69-84 | the vector prefix followed by the scalar remainder visits the capacity in order, each position exactly once. Under RestScalar that is exactly 0 .. inputSize - 1; under Padding the scalar loop is empty |
| TailPolicy.VectorStep | benchmarkmemorylayout.cpp:69 | a vector start n that is a multiple of W and below a container that is a multiple of W leaves room for a whole block, and the next start n + W is again a multiple of W |
| Soa.SimulateInputSoa | soa.h:33-45 | x[n] and y[n] get draws 2n and 2n + 1 for every n < size, and later slots are untouched |
| Soa.SoaLayout.constructor | soa.h:55-61 | the layout gets four fresh arrays x, y, radius and phi with the capacity the driver asks for; no input value is written |
| Soa.SoaLayout.CoordinateAt | soa.h:63-70 | coordinate(i) returns (x[i], y[i]) |
| Soa.SoaLayout.SetPolarCoordinate | soa.h:72-75 | setPolarCoordinate(i, c) sets radius[i] and phi[i] and nothing else |
| Soa.SoaSubscriptAccess.constructor | soa.h:79 | the subscript strategy owns a fresh SoA layout of the given capacity |
| Soa.SoaSubscriptAccess.Load | soa.h:83-92 | for n + W within the capacity, the lane loop returns registers holding x[n .. n + W) and y[n .. n + W) |
| Soa.SoaSubscriptAccess.Store | soa.h:94-99 | the lane loop writes the registers into radius and phi at n .. n + W - 1; every other position and the input arrays are unchanged |
| Soa.SoaLoadStoreAccess.constructor | soa.h:103 | the aligned load/store strategy owns a fresh SoA layout of the given capacity |
| Soa.SoaLoadStoreAccess.Load | soa.h:107-114 | the aligned load needs n to be a multiple of W and returns the same block as the subscript strategy |
| Soa.SoaLoadStoreAccess.Store | soa.h:116-120 | the aligned store needs n to be a multiple of W and changes the same positions, with the same values, as the subscript strategy |
| Soa.ScatterAtIota | soa.h:144-148 | scattering through the identity register based at n writes the block n .. n + W - 1 and leaves all else as it was |
| Soa.SoaGatherScatterAccess.constructor | soa.h:128-129 | the index register starts as 0 .. W - 1 |
| Soa.SoaGatherScatterAccess.SetupLoop | soa.h:131-133 | setupLoop resets the index register to 0 .. W - 1 and changes no data |
| Soa.SoaGatherScatterAccess.Load | soa.h:135-142 | load ignores its argument and gathers at the index register; after k stores this is the block kW .. kW + W - 1 |
| Soa.SoaGatherScatterAccess.Store | soa.h:144-148 | store scatters into radius and phi at the index register's block, then advances the register by W |
| Baseline.BaselineLayout.constructor | baseline.h:37-40 | the single input pair is the two random registers; the capacity is ignored |
| Baseline.BaselineLayout.SetPolarCoordinate | baseline.h:47-48 | setPolarCoordinate changes nothing |
| Baseline.BaselineAccess.constructor | baseline.h:52 | the baseline strategy owns a fresh baseline layout holding the two random registers |
| Baseline.BaselineAccess.Load | baseline.h:56-61 | load(i) returns the stored input pair for every i and changes nothing |
| Baseline.BaselineAccess.Store | baseline.h:63-68 | store(i, c) makes c the single output for every i and keeps the input |
| Aovs.SimulateInputAovs | aovs.h:45-56 | every block below size gets both registers from the draws; later blocks are untouched |
| Aovs.AovsLayout.constructor | aovs.h:66-70 | containerSize / W blocks (integer division) of input and output, every input block seeded |
| Aovs.AovsLayout.SetPolarCoordinate | aovs.h:77-78 | setPolarCoordinate changes nothing |
| Aovs.AovsAccess.constructor | aovs.h:84 | the AoVS strategy owns a fresh, seeded AoVS layout |
| Aovs.AovsAccess.Load | aovs.h:90-92 | load(i) returns input block i itself (not block i / W) and needs i below the block count |
| Aovs.AovsAccess.Store | aovs.h:94-96 | store(i, c) replaces output block i only |
| Aovs.DriverIndexPastBlocks | benchmarkmemorylayout.cpp:69-71 | with W >= 2 and more than W elements, the driver's last load index containerSize - W is at least the block count containerSize / W, so load(n) reads past the blocks |
| Aovs.FillLastBlock | aovs.h:113-116 | every lane of both registers of the last block becomes `one`, including lanes of real elements; other blocks are unchanged |
| Aovs.TransformBlocks | aovs.h:118-123 | each output block in the range is the lane-wise transform of its input block |
| Aovs.SeededBlocks | aovs.h:107-116 | for a block count of at least 1: all blocks but the last hold the draws, and the last holds `one` in every lane |
| Aovs.AovsBenchmark | aovs.h:104-127 | after setup, each timed iteration leaves every output block equal to the transform of its input block; items = iterations * inputSize and bytes = items * sizeof(value) |
| BenchmarkHelper.ToSizeT | BenchmarkHelper.h:16-18 | conversion to size_t wraps a count into 0 .. 2^64 - 1, leaving non-negative counts below 2^64 unchanged |
| BenchmarkHelper.ToDecimal | BenchmarkHelper.h:18 | std::to_string gives decimal digits only, without a leading zero unless the value is 0 |
| BenchmarkHelper.ToDecimalRoundTrip | BenchmarkHelper.h:18 | reading the decimal rendering back gives the original number |
| BenchmarkHelper.GetLabelString | BenchmarkHelper.h:16-19 | the label starts with the function title and the rest is a decimal number |
| BenchmarkHelper.LabelOfCount | BenchmarkHelper.h:16-19 | with item size 1, as every caller passes, the number after the title is itemCount when it is non-negative, and 2^64 + itemCount when it is negative |
| BenchmarkHelper.LabelOfProduct | BenchmarkHelper.h:16-19 | for every int count, the number after the title is (size_t(itemCount) * itemSize) mod 2^64, negative counts converted to size_t first |
| BenchmarkHelper.LabelOfSmallProduct | BenchmarkHelper.h:16-19 | when a non-negative count times the size fits in 64 bits, the label holds the product itself |
| LegacyLabels.Title | SoA.h:74 | every hand-written title starts with its layout's name and ends with '/' |
| LegacyLabels.TitlesDistinct | SoA.h:74 | within one layout, two titles are equal exactly when the access kind and tail policy are equal |
| MemoryLayout.TestList | benchmarkmemorylayout.cpp:43-48 | the test list instantiates 14 strategy and tail-policy pairs |
| MemoryLayout.TestListMembers | benchmarkmemorylayout.cpp:43-48 | a pair is in the list exactly when it uses Padding or a strategy other than AoVS and Baseline |
| MemoryLayout.VectorStepExtends | benchmarkmemorylayout.cpp:69-78 | storing the transform of block n after position n extends "output matches the transform" from n to n + W |
| MemoryLayout.ScalarStepExtends | benchmarkmemorylayout.cpp:80-84 | one scalar step at i extends the match from i to i + 1 |
| MemoryLayout.SoaScalarLoop | benchmarkmemorylayout.cpp:80-84 | the scalar loop over from .. to - 1 extends the match to `to` and leaves later outputs unchanged |
| MemoryLayout.SoaSubscriptIteration | benchmarkmemorylayout.cpp:66-85 | one timed iteration with the subscript strategy leaves radius and phi equal to the transform of x and y over the whole capacity |
| MemoryLayout.SoaLoadStoreIteration | benchmarkmemorylayout.cpp:66-85 | the same for the aligned load/store strategy |
| MemoryLayout.SoaGatherScatterStep | benchmarkmemorylayout.cpp:69-78 | one load/transform/store through the index register at step k extends the match to (k + 1)W and advances the register |
| MemoryLayout.SoaGatherScatterVectorLoop | benchmarkmemorylayout.cpp:69-78 | the vector loop from setupLoop on matches every position below containerSize, and the register ends at containerSize |
| MemoryLayout.SoaGatherScatterIteration | benchmarkmemorylayout.cpp:66-85 | one timed iteration with gather/scatter matches the whole capacity and leaves the register at the container size |
| MemoryLayout.BenchmarkSoaSubscript | benchmarkmemorylayout.cpp:50-89 | the layout-generic driver with the SoA subscript strategy: capacity containerSize + missingSize, output the transform of the input everywhere after a timed iteration, counters iterations * inputSize and items * sizeof(value) |
| MemoryLayout.BenchmarkSoaLoadStore | benchmarkmemorylayout.cpp:50-89 | the same for the aligned load/store strategy |
| MemoryLayout.BenchmarkSoaGatherScatter | benchmarkmemorylayout.cpp:50-89 | the same for the gather/scatter strategy, and after at least one iteration the register is left at the container size |
| MemoryLayout.BaselineIteration | benchmarkmemorylayout.cpp:66-85 | with non-empty input the single output becomes the transform of the single input; with empty input nothing changes |
| MemoryLayout.BenchmarkBaseline | benchmarkmemorylayout.cpp:50-89 | the driver with Baseline under Padding: after a timed iteration on non-empty input the output is the transform of the random pair; counters as above |
| MemoryLayout.AovsIteration | benchmarkmemorylayout.cpp:66-85 | with corrected block indexing (load and store given n / W), one timed iteration makes every output block the transform of its input block |
| MemoryLayout.BenchmarkAovs | benchmarkmemorylayout.cpp:50-89 | the driver with AoVS under Padding and corrected indexing: capacity / W blocks, each output block the transform of its input block; counters as above |
| Aos.SimulateInputAos | aos.h:50-66 | element n gets the draws 2n and 2n + 1 for every n < size; later elements are untouched |
| Aos.GetLogName | aos.h:80-128 | the log name of each policy; InterleavedPolicy's name drops the "AoS with " prefix |
| Aos.LogNameShape | aos.h:80-128 | the name ends in "rest scalar" exactly when the policy uses the rest-scalar tail and in "padding" exactly when it does not; it starts with "AoS with " exactly when the policy is not InterleavedPolicy |
| Aos.LogNamesDistinct | aos.h:80-128 | two policies have the same log name exactly when they are the same policy |
| Aos.NormalLoad | aos.h:190-194 | lane m of the loaded registers is element n + m's x and y |
| Aos.NormalStore | aos.h:195-200 | lane m is written to output element n + m, for m < W; all other elements are unchanged |
| Aos.GatherLoad | aos.h:229-231 | lane m is the x and y of element indexes[m] |
| Aos.ScatterStore | aos.h:232-236 | element indexes[m] gets lane m, every element not indexed is unchanged, and the captured register is advanced by W |
| Aos.AosScalarLoop | aos.h:178-181 | the scalar remainder extends "output n is the transform of input n" over from .. to - 1 and leaves later elements unchanged |
| Aos.NormalVectorLoop | aos.h:167-176 | the vector loop with the plain load/store lambdas makes output n the transform of input n for every n below containerSize |
| Aos.GatherScatterStep | aos.h:229-236 | one gather/transform/scatter at n, with the register at n, extends the match to n + W and moves the register to n + W |
| Aos.GatherScatterVectorLoop | aos.h:167-176 | the vector loop with the gather/scatter lambdas matches every position below containerSize and leaves the register at containerSize |
| Aos.AosNormalIteration | aos.h:164-182 | one timed iteration of aosNormalWith leaves the whole output equal to the element-wise transform of the input |
| Aos.AosGatherScatterIteration | aos.h:164-182 | one timed iteration of aosGatherScatterWith leaves the output equal to the element-wise transform, with the register at containerSize |
| Aos.AllocateAndSeed | aos.h:146-153 | both containers hold containerSize + missingSize elements, and every one of them is seeded, padding slots included |
| Aos.AosNormalWith | aos.h:188-204 | the AoS driver with normal access: sizes, seeding, output equal to the element-wise transform after a timed iteration, and counters iterations * inputSize and items * sizeof(value) |
| Aos.AosGatherScatterWith | aos.h:220-241 | the same with gather/scatter access; the register is 0 .. W - 1 before any iteration and ends at containerSize after each one |
| AdditionalCalculations.RepeatTransform | additinalcalculations.h:38-49 | iterations * chunks transform calls, all on the unchanged input registers; after any call the result is their lane-wise transform |
| AdditionalCalculations.Baseline | additinalcalculations.h:29-52 | numberOfChunks(range_x, W) transforms per timed iteration, which together cover at least the reported items; bytes are counted with sizeof(float) whatever T is |
| AdditionalCalculations.Scalar | additinalcalculations.h:60-78 | exactly inputSize elements allocated and seeded; after a timed iteration output n is the transform of input n for every n; bytes use sizeof(T) |
| LegacyCalculations.SimulateInputV | AdditinalCalculations.h:31-42 | all W lanes of both registers get the draws |
| LegacyCalculations.BaselineCalculation | AdditinalCalculations.h:45-77 | numberOfChunks(range_x, W) transforms per timed iteration on unchanged registers; counters use sizeof(float) |
| Sonst.FloatVectorBytes | Sonst.h:27 | sizeof(float_v) is 4W bytes, which exceeds the lane count W |
| Sonst.BaselineCalculation | Sonst.h:22-60 | as written, the chunk count is numberOfChunks(range_x, sizeof(float_v)); label "Baseline/" followed by range_x; counters use sizeof(float) |
| Sonst.BaselineChunksByBytes | Sonst.h:27 | for range_x = 2W the byte-based count is 1 chunk, where the lane-based count is 2, and W lanes do not cover the 2W reported items |
| Sonst.Scalar | Sonst.h:68-99 | label ".Scalar/" followed by range_x; inputSize elements seeded and output n the transform of input n; bytes use sizeof(float) |
| LegacySoa.SetPaddingSentinels | SoA.h:101-105 | the last W slots below containerSize of x and y become `one` and every other slot is unchanged; needs containerSize >= W |
| LegacySoa.SeedPadded | SoA.h:100-107 | after the sentinels and seeding, slots below inputSize hold the draws and slots inputSize .. containerSize - 1 hold `one` |
| LegacySoa.SeedInput | SoA.h:100-107 | under Padding the container is padded with `one` after the draws; under RestScalar exactly inputSize slots are seeded |
| LegacySoa.SubscriptBenchmark | SoA.h:72-141 | SoA_Padding and SoA_RestScalar: title label; seeded input; radius and phi the transform of x and y over the capacity after a timed iteration; counters |
| LegacySoa.LoadStoreBenchmark | SoA.h:143-208 | the aligned load/store variants: the same label, seeding, output and counter guarantees |
| LegacySoa.GatherScatterBenchmark | SoA.h:210-280 | the gather variants, with the index register reset each iteration and advanced by W per block: the same guarantees |
| LegacyAos.SetPaddingSentinels | AoS.h:83-87 | the last W elements below containerSize become (one, one) and every other element is unchanged |
| LegacyAos.SeedPadded | AoS.h:81-89 | after sentinels and seeding, elements below inputSize hold the draws and elements inputSize .. containerSize - 1 hold (one, one) |
| LegacyAos.Allocate | AoS.h:63-89 | Padding allocates numberOfChunks(inputSize, W) * W padded elements; RestScalar allocates exactly inputSize seeded elements |
| LegacyAos.SubscriptBenchmark | AoS.h:58-122 | AoS_Padding and AoS_RestScalar (and the interleaved titles): label, seeding, output the element-wise transform after a timed iteration, counters |
| LegacyAos.GatherOperatorBenchmark | AoS.h:195-262 | the `[]` gather variants: the same guarantees, and the index register is 0 .. W - 1 before any iteration and at containerSize after one |
| LegacyAos.BuildStrideIndexes | AoS.h:306-308 | the rebuilt index register holds 2m in lane m |
| LegacyAos.StrideGatherLoad | AoS.h:314-315 | with the array viewed as floats, lane m of the gathered x and y is float 2m and 2m + 1 after element n's x |
| LegacyAos.StrideGatherIsBlock | AoS.h:314-315 | with the stride-2 register based at element n, lane m reads element n + m's x and y |
| LegacyAos.StrideTargetsAreBlock | AoS.h:321-322 | the stride-2 scatter based at element n targets exactly elements n .. n + W - 1 |
| LegacyAos.StrideScatterStore | AoS.h:321-322 | the scatter writes lane m to element n + m and leaves all others unchanged |
| LegacyAos.StrideStep | AoS.h:311-323 | one stride-2 gather, transform and scatter at n extends the match to n + W |
| LegacyAos.StrideVectorLoop | AoS.h:311-323 | the stride-2 vector loop matches every element below containerSize |
| LegacyAos.StrideIteration | AoS.h:303-325 | one timed iteration of the `()` gather variant leaves the output equal to the element-wise transform |
| LegacyAos.GatherFunctionBenchmark | AoS.h:267-334 | the `()` gather variants: label, seeding, output and counters as for the subscript variants |
| LegacyAovs.FillBlock | AovS.h:36-40 | one block gets W draws for x and W draws for y |
| LegacyAovs.SimulateInput | AovS.h:34-43 | every lane of every block below containerSize is seeded from the draws |
| LegacyAovs.SetPaddingLanes | AovS.h:67-71 | the countdown loop from count to 1 sets lanes W - count .. W - 1 of the last block to `one` in x and y; every other lane and block is unchanged |
| LegacyAovs.LaneIsElement | AovS.h:67-71 | lane W - k of the last block is logical element containerSize * W - k, so the padded lanes are exactly the elements inputSize .. containerSize * W - 1 |
| LegacyAovs.PaddedLanes | AovS.h:66-71 | after seeding and padding, lane m of block b holds its draw when bW + m < inputSize and `one` otherwise, so real elements keep their draws; when W divides inputSize no lane is padded |
| LegacyAovs.SeededBlocks | AovS.h:54-71 | numberOfChunks(inputSize, W) blocks whose lane m of block b holds the draws when bW + m < inputSize and `one` otherwise |
| LegacyAovs.AovsBenchmark | AovS.h:47-94 | label "-AovS/"; each output block is the transform of its input block after a timed iteration; bytes use sizeof(float) |
| LoopUnroll.PlusOne | loopunroll.cpp:38-39 | the register loaded at i and incremented holds input[i + m] + 1 in lane m |
| LoopUnroll.StoreRegister | loopunroll.cpp:39 | an aligned store writes the lanes to i .. i + W - 1 and nothing else |
| LoopUnroll.WorkLoopSimple | loopunroll.cpp:33-41 | for N a multiple of W, output[j] = input[j] + 1 for every j < N and elements from N on are unchanged |
| LoopUnroll.StoreAndReload | loopunroll.cpp:53-60 | one line pair of the unrolled body stores register r to its block and reloads it, incremented, from the block 4W further on |
| LoopUnroll.UnrolledRound | loopunroll.cpp:52-61 | one round stores the four pending blocks below i and leaves the four blocks at i pending |
| LoopUnroll.StoreAll | loopunroll.cpp:62-65 | the epilogue stores the four pending blocks N - 4W .. N - 1 |
| LoopUnroll.UnrolledRounds | loopunroll.cpp:52-61 | after the loop, output is complete below N - 4W and the registers hold the last four blocks |
| LoopUnroll.WorkLoopUnrolled | loopunroll.cpp:43-66 | for N a positive multiple of 4W, the pipelined loop gives the same buffer as the simple one: output[j] = input[j] + 1 for j < N, elements from N on unchanged |
| LoopUnroll.Loop | loopunroll.cpp:68-84 | with the iota input and either loop shape, after a timed iteration output[j] = j + 1, and the input is never written; items = iterations * N and bytes = items * sizeof(T) |
| NearestNeighbor.FirstNearestUnique | nearestneighbor.cpp:18-36 | at most one index is the first nearest particle |
| NearestNeighbor.FirstNearestAttains | nearestneighbor.cpp:18-36 | the first nearest particle attains the minimum distance |
| NearestNeighbor.AttainedKeysAgree | nearestneighbor.cpp:105-118 | any two answers that attain the minimum have the same distance |
| NearestNeighbor.Min | nearestneighbor.cpp:16 | the horizontal minimum of a register is one of its lanes and is at most every lane |
| NearestNeighbor.FirstOne | nearestneighbor.cpp:16 | the first set bit of a mask is set and has no set bit before it |
| NearestNeighbor.LeastIsSet | nearestneighbor.cpp:16 | the mask `v == v.min()` has at least one set lane |
| NearestNeighbor.IndexOfMin | nearestneighbor.cpp:16 | index_of_min returns the first lane equal to the register's minimum |
| NearestNeighbor.StdForEach | nearestneighbor.cpp:18-36 | the scan returns the first index of minimal distance; the strict `<` keeps the earliest on ties |
| NearestNeighbor.EmptyAnswersZero | nearestneighbor.cpp:19-34 | an empty particle list gives index 0 |
| NearestNeighbor.CreateParticles | nearestneighbor.cpp:63-70 | exactly size particles, taken in order from the draws |
| NearestNeighbor.GenerateBlock | nearestneighbor.cpp:96-98 | a generated block has W lanes, taken in order from the draws |
| NearestNeighbor.CreateBlocks | nearestneighbor.cpp:92-99 | ceil(size / W) blocks, whose lanes in memory order are the generated particles |
| NearestNeighbor.ScanBlock | nearestneighbor.cpp:107-117 | after block k, each lane m's best is the least of top and its distances so far; below top, its index is b * W + m for the first block b with that distance, otherwise 0 |
| NearestNeighbor.LaneStep | nearestneighbor.cpp:112-115 | a lane takes a block's distance and index only when the distance is strictly below its best, which keeps the first block attaining the lane's minimum |
| NearestNeighbor.AovsSearch | nearestneighbor.cpp:105-118 | the lane-wise scan followed by index_of_min returns an index that attains the global minimum over the flattened blocks |
| NearestNeighbor.LanesAttain | nearestneighbor.cpp:118 | the lane chosen by index_of_min holds an index attaining the global minimum |
| NearestNeighbor.AovsNearest | nearestneighbor.cpp:91-121 | the aovs benchmark returns an index attaining the minimum over all block particles; bytes = iterations * particle count * block size |
| NearestNeighbor.AovsAgreesWithScan | nearestneighbor.cpp:84-87 | stands in for the find_nearest check that compares std_for_each with simd_for_each using `!=`, which is not part of this model: the two answers' distances agree, but on ties the indices may differ |

## Left out

- Floating point: `sqrt`, `atan2` and the degree factor are the parameter `polar`. No rounding is modelled. The shrink factor 0.9f of nearestneighbor.cpp is an abstract key function.
- Random number generation: distributions, engines and `T::Random()` are draw sequences passed in as parameters.
- The benchmark timer: `state.KeepRunning()`, `range_x()` and `SetLabel` are parameters or loops over `iterations`. The counters are unbounded naturals, not 64-bit values.
- Compiler fences (`fake_modification`, `fakeMemoryModification`, `fakeRegisterRead`, `do_not_optimize`, `escape`, `clobber`): inline assembly with no effect on values.
- The registration macros and templates in benchmark.h and benchmarkhelper.h, and VcToString.h: compile-time plumbing and type names.
- Cache-size probing in testvalues.h and benchmarkmemorylayout.cpp, and main.cpp: they only choose sizes or start the run.
- quadratic.cpp, sincos.cpp, arithmetics.cpp and addition.h: floating-point numerics outside the memory-layout core.
- The interleaved memory wrapper of the Vc library, which the source does not define. aosInterleavedWith (aos.h:208-218) is left out. The AoS_Interleaved_* benchmarks get the subscript variant's contract through LegacyAos.SubscriptBenchmark.
- simd_for_each and find_nearest in nearestneighbor.cpp: Vc's remainder handling is not visible. The check that compares the two scans is reflected only in NearestNeighbor.AovsAgreesWithScan.
- The AoS strategies named in the test list (AoS subscript, interleaved and gather/scatter access) are not defined in any file of the core, so they are not part of this model.
- constructAccessRead and constructAccessWrite (aos.h:72-78) are identities and need no model.
- Baseline.BaselineLayout.CoordinateAt and Aovs.AovsLayout.CoordinateAt have no ensures, because the source returns a default-constructed value unrelated to the stored data.
- `reserve` followed by `operator[]` (soa.h:55-61, SoA.h:94-98, AovS.h:62-63) is undefined behaviour. The containers are modelled as arrays allocated to the reserved capacity.
- The aovs.h block type is a pair of W-lane registers. The source's mismatch between `VectorVectorizedCoordinate` and the `.vX`/`.vY` fields it uses is not reproduced.
- The loop-unroll register array `x[4]` is a local sequence of four registers. Its element values are modelled as `int`.
- NearestNeighbor: `int` overflow of `i` and `best_index` is not modelled. `sizeof(PositionV)` is the parameter `blockSize`. The lane order of Vc's generator constructor is taken to be lane 0 first.
- LegacySoa.GatherScatterBenchmark: the titles "SoA_GatherScatter[]_RestScalar/" (SoA.h:496) and "SoA_GatherScatter()_RestScalar/" (SoA.h:568) are reproduced, but both RestScalar bodies (SoA.h:532-541 and SoA.h:604-613) call the gather()/scatter() member functions, unlike the subscript-operator Padding body at SoA.h:256-264. The model's two access kinds read and write the same lanes, so that difference is not observable in it.
- LegacySoa.SeedInput and the Padding benchmarks of LegacySoa and LegacyAos require inputSize >= 1 under Padding. With empty input the container is empty and the sentinel writes at `containerSize - n` (SoA.h:103, AoS.h:84) would underflow.
- Aovs.AovsBenchmark requires inputSize >= 1, since aovs.h:113-116 indexes block containerSize - 1.
- LegacyAovs.SeededBlocks does not require inputSize >= 1: with empty input the padding loop at AovS.h:67 does not run, so block containerSize - 1 is never indexed.
- LegacyAos.StrideScatterStore requires the offsets to be even and non-negative. It models only the stride-2 register that AoS.h builds, not arbitrary float offsets.

## Findings

| source | as written | input that shows it | evidently intended | confidence | as-written member | corrected member |
|---|---|---|---|---|---|---|
| aovs.h:90-96 with benchmarkmemorylayout.cpp:69-77 | the driver passes the element index n = 0, W, 2W, … to load and store, which use it as a block index among containerSize / W blocks | W = 4, inputSize = 8: two blocks, but the driver calls load(4) | load and store address block n / W, so each block is transformed once | not executed | Aovs.DriverIndexPastBlocks | MemoryLayout.AovsIteration |
| Sonst.h:27 | the baseline chunk count divides range_x by sizeof(float_v), a byte count of 4W | W = 4, range_x = 8: numberOfChunks(8, 16) = 1 transform covers 4 of the 8 reported items | divide by the lane count W, as AdditinalCalculations.h:47 does | not executed | Sonst.BaselineChunksByBytes | LegacyCalculations.BaselineCalculation |
