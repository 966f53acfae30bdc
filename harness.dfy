/** The histogram benchmark's driver: it creates the inputs, counts them
    serially, checks every bucket, then runs the reducer over the whole range
    on a freshly zeroed counter array and checks every bucket again. */
module Harness {
  import opened BucketSpec
  import opened Outputter

  datatype Option<T> = None | Some(value: T)

  /** The benchmark's sizes. */
  const NumberOfElements: nat := 1000000
  const NumberOfBuckets: nat := 1000

  /** The benchmark's sizes meet the reducer's unchecked precondition, with
      buckets of 1000 indices each. */
  lemma BenchmarkShape()
    ensures ValidShape(NumberOfBuckets, NumberOfElements)
    ensures BucketSize(NumberOfElements, NumberOfBuckets) == 1000
  {
  }

  /** Fills the input array with its own indices. */
  method FillInputs(inputs: array<nat>)
    modifies inputs
    ensures inputs[..] == Iota(inputs.Length)
  {
    var i := 0;
    while i < inputs.Length
      invariant 0 <= i <= inputs.Length
      invariant forall j :: 0 <= j < i ==> inputs[j] == j
    {
      inputs[i] := i;
      i := i + 1;
    }
  }

  /** The serial baseline: each input value, in order, increments counter
      `value / bucketSize` of `numBuckets` zeroed counters. */
  method SerialCount(inputs: array<nat>, bucketSize: nat, numBuckets: nat)
    returns (serialResults: seq<nat>)
    requires bucketSize > 0
    requires forall j :: 0 <= j < inputs.Length ==> inputs[j] / bucketSize < numBuckets
    ensures serialResults == Tally(inputs[..], BucketOf(bucketSize), numBuckets)
  {
    serialResults := Zeros(numBuckets);
    var i := 0;
    while i < inputs.Length
      invariant 0 <= i <= inputs.Length
      invariant serialResults == Tally(inputs[..i], BucketOf(bucketSize), numBuckets)
    {
      var v := inputs[i];
      assert inputs[..i + 1][..i] == inputs[..i];
      serialResults := serialResults[v / bucketSize := serialResults[v / bucketSize] + 1];
      i := i + 1;
    }
    assert inputs[..i] == inputs[..];
  }

  /** The validation loop: the first bucket whose count differs from
      `expected`, or `None` when every bucket holds exactly `expected`. */
  method FirstWrongBucket(counts: seq<nat>, expected: nat) returns (wrong: Option<nat>)
    ensures wrong == None <==> forall k :: 0 <= k < |counts| ==> counts[k] == expected
    ensures wrong.Some? ==> wrong.value < |counts| && counts[wrong.value] != expected
    ensures wrong.Some? ==> forall k :: 0 <= k < wrong.value ==> counts[k] == expected
  {
    var i := 0;
    while i < |counts|
      invariant 0 <= i <= |counts|
      invariant forall k :: 0 <= k < i ==> counts[k] == expected
    {
      if counts[i] != expected {
        return Some(i);
      }
      i := i + 1;
    }
    return None;
  }

  /** One run of the benchmark for the given sizes: the serial count and its
      validation, then the reducer over `[0, numberOfElements)` on zeroed
      counters and its validation. Both pass: no bucket is ever wrong. */
  method RunHistogram(numberOfElements: nat, numberOfBuckets: nat)
    returns (serialWrong: Option<nat>, parallelWrong: Option<nat>)
    requires ValidShape(numberOfBuckets, numberOfElements)
    ensures serialWrong == None && parallelWrong == None
  {
    ShapeIsWholeBuckets(numberOfBuckets, numberOfElements);
    var bucketSize := BucketSize(numberOfElements, numberOfBuckets);

    var inputs := new nat[numberOfElements];
    FillInputs(inputs);

    BucketOfWithin(0, numberOfElements, bucketSize, numberOfBuckets);
    TallyOfIota(numberOfElements, BucketOf(bucketSize), numberOfBuckets);
    var serialResults := SerialCount(inputs, bucketSize, numberOfBuckets);
    AllBucketsFull(numberOfBuckets, bucketSize);
    serialWrong := FirstWrongBucket(serialResults, bucketSize);

    var results := new nat[numberOfBuckets](_ => 0);
    assert results[..] == Zeros(numberOfBuckets);
    var outputter := new TbbOutputter(inputs, results, numberOfBuckets, numberOfElements);
    outputter.Apply(0, numberOfElements);
    parallelWrong := FirstWrongBucket(outputter.result[..], bucketSize);
  }
}
