/**
  The dataset diagnostics of `analyze_dataset_issues.py`: the range of encoded
  class ids and the ids missing from it, the buckets of examples per card, the
  distribution of examples per class, and the largest index a card-id encoder
  can decode. Only the values that the script prints are modelled; the printing
  and the file loading are not.
*/
module DatasetIssues {
  import opened Wrappers
  import opened Counting
  import opened Predictor

  // ---------------------------------------------------------------------------
  // Smallest and largest label
  // ---------------------------------------------------------------------------

  function MinOf(xs: seq<int>): (m: int)
    requires |xs| > 0
    ensures m in xs
    ensures forall x :: x in xs ==> m <= x
  {
    if |xs| == 1 then xs[0]
    else
      var rest := MinOf(xs[1..]);
      assert xs == [xs[0]] + xs[1..];
      if xs[0] <= rest then xs[0] else rest
  }

  function MaxOf(xs: seq<int>): (m: int)
    requires |xs| > 0
    ensures m in xs
    ensures forall x :: x in xs ==> x <= m
  {
    if |xs| == 1 then xs[0]
    else
      var rest := MaxOf(xs[1..]);
      assert xs == [xs[0]] + xs[1..];
      if xs[0] >= rest then xs[0] else rest
  }

  // ---------------------------------------------------------------------------
  // Class-id range and missing ids
  // ---------------------------------------------------------------------------

  /** What is printed about a column of encoded class ids. */
  datatype ClassRange = ClassRange(unique: nat, min: int, max: int, missing: set<int>)

  /** `set(range(lo, hi + 1))`. */
  function Range(lo: int, hi: int): (r: set<int>)
    ensures forall x :: x in r <==> lo <= x <= hi
    decreases hi - lo
  {
    if lo > hi then {} else Range(lo, hi - 1) + {hi}
  }

  /** The distinct values of a label column as a set. */
  function Present(labels: seq<int>): set<int>
  {
    set x | x in labels
  }

  /**
    `nunique`, `min`, `max` and `set(range(min, max + 1)) - set(labels)`. An empty
    column has no minimum (NaN in pandas, an error in numpy), and building the
    range from it fails, so there is no report.
  */
  function Summarize(labels: seq<int>): (r: Option<ClassRange>)
    ensures r.None? <==> |labels| == 0
  {
    if |labels| == 0 then None
    else
      var lo, hi := MinOf(labels), MaxOf(labels);
      Some(ClassRange(|Distinct(labels)|, lo, hi, Range(lo, hi) - Present(labels)))
  }

  /** Every id between the smallest and the largest label occurs. */
  predicate Contiguous(labels: seq<int>)
    requires |labels| > 0
  {
    forall x :: MinOf(labels) <= x <= MaxOf(labels) ==> x in labels
  }

  /** The missing ids are exactly the ids strictly inside the range that no label has. */
  lemma MissingExactly(labels: seq<int>)
    requires |labels| > 0
    ensures var r := Summarize(labels).value;
      r.min in labels && r.max in labels &&
      (forall x :: x in labels ==> r.min <= x <= r.max) &&
      (forall x :: x in r.missing <==> r.min < x < r.max && x !in labels)
  {
    var r := Summarize(labels).value;
    assert r.missing == Range(r.min, r.max) - Present(labels);
  }

  /** The "continuous numbering" message is printed iff the labels cover their range. */
  lemma MissingEmptyIff(labels: seq<int>)
    requires |labels| > 0
    ensures Summarize(labels).value.missing == {} <==> Contiguous(labels)
  {
    var r := Summarize(labels).value;
    if r.missing == {} {
      forall x | MinOf(labels) <= x <= MaxOf(labels) ensures x in labels {
        assert x !in r.missing;
      }
    } else {
      var x :| x in r.missing;
      assert !(x in labels);
    }
  }

  lemma {:induction false} RangeSize(lo: int, hi: int)
    requires lo <= hi + 1
    ensures |Range(lo, hi)| == hi - lo + 1
    decreases hi - lo
  {
    if lo <= hi {
      RangeSize(lo, hi - 1);
      assert hi !in Range(lo, hi - 1);
    }
  }

  /** A sequence without repetitions has as many elements as its set. */
  lemma {:induction false} UniqueSize(d: seq<int>)
    requires Unique(d)
    ensures |Present(d)| == |d|
  {
    if |d| > 0 {
      var p, last := d[..|d| - 1], d[|d| - 1];
      assert Present(d) == Present(p) + {last} by {
        assert d == p + [last];
      }
      assert last !in p by {
        forall i | 0 <= i < |p| ensures p[i] != last {
          assert d[i] == p[i];
        }
      }
      UniqueSize(p);
    }
  }

  /** The number of missing ids is the size of the range less the number of distinct labels. */
  lemma MissingCount(labels: seq<int>)
    requires |labels| > 0
    ensures var r := Summarize(labels).value;
      |r.missing| == (r.max - r.min + 1) - r.unique
  {
    var r := Summarize(labels).value;
    var present := Present(labels);
    assert present <= Range(r.min, r.max);
    assert Range(r.min, r.max) == r.missing + present;
    assert r.missing * present == {};
    RangeSize(r.min, r.max);
    assert Present(Distinct(labels)) == present;
    UniqueSize(Distinct(labels));
  }

  // ---------------------------------------------------------------------------
  // Examples per card: buckets and distribution
  // ---------------------------------------------------------------------------

  /**
    The classes with exactly one example, with two to five, and with more than
    five, followed by the largest and the smallest count (NaN, here `None`, for an
    empty column).
  */
  datatype Buckets = Buckets(ones: nat, few: nat, many: nat, most: Option<nat>, least: Option<nat>)

  function CountBuckets(cardIds: seq<string>): (b: Buckets)
    ensures b.most.None? <==> |cardIds| == 0
    ensures b.least.None? <==> |cardIds| == 0
    ensures b.most.Some? ==> b.least.value <= b.most.value
  {
    var counts := ValueCounts(cardIds);
    assert |cardIds| > 0 ==> |counts| > 0 by {
      if |cardIds| > 0 {
        assert cardIds[0] in cardIds;
      }
    }
    var lo, hi := MinCount(counts), MaxCount(counts);
    assert hi.Some? ==> lo.value <= hi.value by {
      if hi.Some? {
        assert lo.value <= counts[0].count <= hi.value;
      }
    }
    Buckets(|WithCount(counts, 1, Some(1))|, |WithCount(counts, 2, Some(5))|,
            |WithCount(counts, 6, None)|, hi, lo)
  }

  /** The three buckets partition the card ids: together they count each distinct id once. */
  lemma BucketsPartition(cardIds: seq<string>)
    ensures var b := CountBuckets(cardIds);
      b.ones + b.few + b.many == |Distinct(cardIds)|
  {
    var counts := ValueCounts(cardIds);
    WithCountSplit(counts, 1, 1, None);
    WithCountSplit(counts, 2, 5, None);
    WithCountAll(counts, 1);
  }

  /** `sorted(Counter(Counter(y).values()).items())`. */
  function CountDistribution(y: seq<int>): (bs: seq<Bucket>)
    ensures StrictlyBySize(bs)
  {
    Distribution(ValueCounts(y))
  }

  /**
    The classes of the distribution add up to the number of distinct labels, and
    count times classes adds up to the number of labels.
  */
  lemma CountDistributionSums(y: seq<int>)
    ensures SumClasses(CountDistribution(y)) == |Distinct(y)|
    ensures SumExamples(CountDistribution(y)) == |y|
  {
    DistributionSums(ValueCounts(y));
    ValueCountsSum(y);
  }

  /** Each line of the distribution gives the number of classes with that many examples. */
  lemma CountDistributionLookup(y: seq<int>, size: nat)
    ensures ClassesOfSize(CountDistribution(y), size) == CountWithSize(ValueCounts(y), size)
  {
    DistributionLookup(ValueCounts(y), size);
  }

  // ---------------------------------------------------------------------------
  // Label encoders
  // ---------------------------------------------------------------------------

  /**
    The largest index printed for the card-id encoder: the last index the encoder
    decodes from the front; one past it decodes to nothing.
  */
  function MaxEncoderIndex(classes: seq<string>): (i: int)
    ensures forall k :: 0 <= k <= i ==> k < |classes| && PyIndex(classes, k) == Some(classes[k])
    ensures PyIndex(classes, i + 1).None?
    ensures |classes| > 0 ==> PyIndex(classes, i) == Some(classes[|classes| - 1])
  {
    |classes| - 1
  }

  /** The first five classes printed as examples of the card-id encoder. */
  function ClassPreview(classes: seq<string>): (p: seq<string>)
    ensures |p| == if |classes| < 5 then |classes| else 5
    ensures p == classes[..|p|]
  {
    if |classes| < 5 then classes else classes[..5]
  }
}
