# Histogram reducer: a verified model

This project models the histogram benchmark in `Main1.cc`. A reducer task,
`TbbOutputter`, is handed sub-ranges of the indices `[0, size)`. For each
index `i` it increments counter `i / bucketSize` of a counter array that all
copies of the task share, where `bucketSize = size / numBuckets`. A split copy
of the task copies all four fields, so it writes into the same counters. The
`join` step is empty. The benchmark also counts the inputs serially: it fills
`inputs[i] = i` and increments `serialResults[inputs[i] / bucketSize]`. Both
results are then checked to hold exactly `bucketSize` in every bucket.

The model has three modules:

- `BucketSpec` (`bucket_spec.dfy`) is the pure specification. A counter array
  is a `seq<nat>`. `Process(c, b, e, bucket)` gives the counters after every
  index `i` of `[b, e)` has incremented counter `bucket(i)`.
  `Count(b, e, bucket, k)` is how many of those indices fall in bucket `k`.
  `Tally` describes the serial count over input values. The counting algebra
  holds for any bucket function. The histogram's own is `BucketOf(bs)`, which
  sends `i` to `i / bs`. For it, `Overlap` gives each bucket's count in closed
  form. The lemmas prove:
  - per-bucket growth, the frame and the growth of the total;
  - that a range can be split in two and the halves processed in either
    order, and more generally that any tree of splits, with either sibling
    first at each fork, gives the counters of the whole range;
  - that the serial and parallel counts are equal on `inputs[i] = i`;
  - that the bucket index stays in range exactly when `size` is a multiple
    of `numBuckets`.
- `Outputter` (`outputter.dfy`) is the class `TbbOutputter`. Its counter
  array is an `array<nat>`, its range operation `Apply` is a loop that
  updates that array in place, and `Join` changes nothing.
- `Harness` (`harness.dfy`) holds the input fill, the serial counting loop,
  the bucket check and one end-to-end run of the benchmark.

The code never checks the precondition that the range operation relies on.
The model makes it explicit as `TbbOutputter.Valid()`: `numBuckets > 0`,
`size >= numBuckets`, `size % numBuckets == 0` and one counter per bucket.
If `size < numBuckets`, then `bucketSize` is `0` and the division at
`Main1.cc:56` divides by zero. If `size` is not a multiple of `numBuckets`,
the last indices of `[0, size)` go past the last counter.
`BucketSpec.AllIndicesInRangeIff` proves that divisibility is exactly the
condition under which every index stays in range. The benchmark's own sizes,
10^6 elements and 10^3 buckets, meet the precondition (`Harness.BenchmarkShape`).

## Model

| member | source | states |
|---|---|---|
| `BucketSpec.ShapeIsWholeBuckets` | Main1.cc:54 | under the precondition `bucketSize` is non-zero and `size` is exactly `numBuckets * bucketSize` |
| `BucketSpec.BucketIndexInRange` | Main1.cc:54-56 | with `numBuckets > 0`, `size >= numBuckets`, `size % numBuckets == 0` and `i < size`, the counter index `i / bucketSize` lies in `[0, numBuckets)` |
| `BucketSpec.AllIndicesInRangeIff` | Main1.cc:54-56 | given a non-zero bucket size, every index of `[0, size)` maps into the counter array if and only if `size % numBuckets == 0`; otherwise index `numBuckets * bucketSize` maps to the missing counter `numBuckets` |
| `BucketSpec.BucketOf` | Main1.cc:54-56 | index `i` goes to the bucket `q` with `q * bs <= i < q * bs + bs`, the block of `bs` consecutive indices it lies in |
| `BucketSpec.BucketOfWithin` | Main1.cc:54-56 | every index below `n * bs` has its bucket among the `n` counters |
| `BucketSpec.Process` | Main1.cc:55-57 | counting a range keeps the number of counters unchanged |
| `BucketSpec.Tally` | Main1.cc:93-100 | the serial count yields exactly `numBuckets` counters |
| `BucketSpec.CountClosedForm` | Main1.cc:55-56 | the number of indices of `[b, e)` that map to bucket `k` equals the size of the overlap of `[b, e)` with bucket `k`'s block `[k * bs, (k + 1) * bs)` |
| `BucketSpec.CountSplit` | Main1.cc:55-56 | the bucket-`k` counts of `[a, m)` and `[m, b)` add up to the count of `[a, b)` |
| `BucketSpec.ProcessAt` | Main1.cc:54-57 | after processing `[b, e)`, counter `k` is its old value plus the number of indices of `[b, e)` whose bucket is `k` |
| `BucketSpec.ProcessBucketGrowth` | Main1.cc:54-57 | after processing `[b, e)`, counter `k` has grown by the overlap of `[b, e)` with bucket `k`'s index block |
| `BucketSpec.ProcessFrame` | Main1.cc:54-57 | counters outside the buckets `b / bs .. (e - 1) / bs` are unchanged, and an empty range changes no counter |
| `BucketSpec.SumProcess` | Main1.cc:55-57 | processing `[b, e)` raises the sum of all counters by exactly `e - b` |
| `BucketSpec.ProcessSplit` | Main1.cc:50-58 | processing `[a, m)` and then `[m, b)` yields the same counters as processing `[a, b)` |
| `BucketSpec.ProcessCommute` | Main1.cc:50-62 | two ranges processed in either order yield the same counters |
| `BucketSpec.ProcessSplitReversed` | Main1.cc:50-62 | processing the upper half `[m, b)` before the lower half `[a, m)` also yields the counters of `[a, b)` |
| `BucketSpec.ProcessPieces` | Main1.cc:50-58 | processing consecutive pieces one after the other keeps the number of counters unchanged |
| `BucketSpec.ProcessPiecesWhole` | Main1.cc:50-58 | for ascending cut points `ms`, processing `[ms[j], ms[j + 1])` for each `j` in turn yields the counters of processing `[ms[0], ms[|ms| - 1])` at once |
| `BucketSpec.ProcessTree` | Main1.cc:50-62 | processing the leaves of a tree of splits keeps the number of counters unchanged |
| `BucketSpec.ProcessTreeWhole` | Main1.cc:50-62 | for every tree of splits of `[b, e)`, and whichever sibling runs first at each fork, processing its leaves with the empty join yields the counters of processing `[b, e)` at once |
| `BucketSpec.AllBucketsFull` | Main1.cc:133-156 | starting from zeroed counters, processing `[0, numBuckets * bs)` with bucket `i / bs` leaves every bucket equal to `bs`, the value the validation loop demands |
| `BucketSpec.TallyOfIota` | Main1.cc:87-100 | on the inputs `inputs[i] == i`, the serial count of input values equals the reducer's count of indices from zeroed counters |
| `Outputter.TbbOutputter.BucketWidth` | Main1.cc:54 | the bucket width is positive and `size` is exactly one width per counter |
| `Outputter.TbbOutputter.constructor` | Main1.cc:38-41 | the prototype task holds the given input array, counter array, bucket count and size |
| `Outputter.TbbOutputter.Split` | Main1.cc:43-48 | the split copy has the same input array, the same counter array (by reference), bucket count and size as its source, and is valid whenever the source is |
| `Outputter.TbbOutputter.Apply` | Main1.cc:50-58 | the shared counters become `Process` of their old contents over `[begin, end)`: each counter `k` grows by the number of indices in the range that map to bucket `k`, and nothing else changes |
| `Outputter.TbbOutputter.Join` | Main1.cc:60-62 | neither task and neither counter array changes |
| `Harness.BenchmarkShape` | Main1.cc:74-79 | 10^6 elements in 10^3 buckets meet the precondition, with 1000 indices per bucket |
| `Harness.FillInputs` | Main1.cc:87-89 | the input array holds `0, 1, ..., n - 1` |
| `Harness.SerialCount` | Main1.cc:93-100 | the serial loop produces `Tally` of the inputs: each value increments counter `value / bucketSize` |
| `Harness.FirstWrongBucket` | Main1.cc:108-113 | models both validation loops, this one and the one at Main1.cc:151-156: each finds no wrong bucket exactly when every counter equals the expected value; otherwise it reports the first bucket with a different count |
| `Harness.RunHistogram` | Main1.cc:84-156 | for any sizes that meet the precondition, neither the serial validation nor the validation after the reducer finds a wrong bucket |

## Left out

- `Main0.cc`, the Riemann-sum integration of `sin`, is not part of this model. Its results are floating-point and it is checked with a relative-error tolerance.
- The parallel runtime is left out: `parallel_reduce`, the splitting of `blocked_range` and `task_scheduler_init` (Main1.cc:129, 140-141) belong to an external library. `RunHistogram` runs `Apply` once over the whole range. `ProcessTreeWhole` stands in for the runtime's splitting: for any tree of splits, with either sibling first at each fork, processing the leaves gives the counters of the whole range. The model runs siblings one after the other. It does not model sibling leaves whose increments interleave at run time.
- The loop over thread counts 1, 2 and 4 (Main1.cc:116-131) is left out. The thread count only configures the runtime, and the counters do not depend on it.
- Atomicity of `fetch_and_increment` (Main1.cc:56) is left out because it is a concurrency concern. It is modelled as a plain increment.
- `Apply`: counters are unbounded `nat`s, so the 64-bit wrap-around of `unsigned long` is not modelled. It cannot occur in the benchmark, where no counter exceeds the number of elements.
- The harness's memory handling is left out. It allocates with `new` and releases with `delete` where `delete[]` is meant (Main1.cc:160, 172). Its `bzero` at Main1.cc:134 clears `numberOfElements` cells of a `numberOfBuckets`-cell array, past the array's end. The model starts from a fresh array of `numBuckets` zeroed counters instead.
- Timing, `printf`/`fprintf` reporting, the speedup arithmetic and `exit(1)` (Main1.cc:95-105, 110-111, 144-167) are left out as I/O and floating-point reporting. `FirstWrongBucket` returns the wrong bucket instead of printing it and exiting.
- The private default constructor (Main1.cc:65) is never called and is not modelled.
