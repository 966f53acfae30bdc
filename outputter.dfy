/** The histogram reducer task: a body object that a parallel reduce drives
    over sub-ranges of `[0, size)`. Every copy shares one counter array and
    increments it in place; the per-copy `Join` therefore has nothing to do. */
module Outputter {
  import opened BucketSpec

  class TbbOutputter {
    /** The input values; the range operation never reads them. */
    var input: array<nat>
    /** The counter array, shared by reference between all copies. */
    var result: array<nat>
    var numBuckets: nat
    var size: nat

    /** The parameters under which `Apply` never leaves the counter array:
        one counter per bucket, and a size that is a whole, non-zero number
        of buckets. None of this is checked by the range operation itself. */
    ghost predicate Valid()
      reads this
    {
      ValidShape(numBuckets, size) && result.Length == numBuckets
    }

    /** The bucket width the range operation uses. */
    function BucketWidth(): (bs: nat)
      reads this
      requires Valid()
      ensures bs > 0 && size == result.Length * bs
      ensures Within(0, size, BucketOf(bs), result.Length)
    {
      ShapeIsWholeBuckets(numBuckets, size);
      BucketOfWithin(0, size, BucketSize(size, numBuckets), numBuckets);
      BucketSize(size, numBuckets)
    }

    /** The prototype task, built from the harness's arrays and sizes. */
    constructor (input: array<nat>, results: array<nat>, numBuckets: nat, size: nat)
      ensures this.input == input && this.result == results
      ensures this.numBuckets == numBuckets && this.size == size
    {
      this.input := input;
      this.result := results;
      this.numBuckets := numBuckets;
      this.size := size;
    }

    /** The split copy: every field is copied, so the copy writes into the
        very same counter array as `other`. */
    constructor Split(other: TbbOutputter)
      ensures input == other.input && result == other.result
      ensures numBuckets == other.numBuckets && size == other.size
      ensures other.Valid() ==> Valid()
    {
      input := other.input;
      result := other.result;
      numBuckets := other.numBuckets;
      size := other.size;
    }

    /** The range operation: every index `i` of `[begin, end)` increments
        counter `i / bucketSize`, one index at a time. */
    method Apply(begin: nat, end: nat)
      requires Valid()
      requires begin <= end <= size
      modifies result
      ensures result[..] == Process(old(result[..]), begin, end, BucketOf(BucketWidth()))
      ensures forall k :: 0 <= k < result.Length ==>
                result[k] == old(result[k]) + Count(begin, end, BucketOf(BucketWidth()), k)
    {
      var bucketSize := BucketWidth();
      var i := begin;
      while i != end
        invariant begin <= i <= end
        invariant result[..] == Process(old(result[..]), begin, i, BucketOf(bucketSize))
        decreases end - i
      {
        BucketIndexInRange(numBuckets, size, i);
        result[i / bucketSize] := result[i / bucketSize] + 1;
        i := i + 1;
      }
      forall k | 0 <= k < result.Length
        ensures result[k] == old(result[k]) + Count(begin, end, BucketOf(bucketSize), k)
      {
        ProcessAt(old(result[..]), begin, end, BucketOf(bucketSize), k);
      }
    }

    /** Folding another copy into this one: the counters already hold both
        copies' work, so neither task nor the counter array changes. */
    method Join(other: TbbOutputter)
      ensures unchanged(this) && unchanged(other)
      ensures unchanged(result) && unchanged(other.result)
    {
    }
  }
}
