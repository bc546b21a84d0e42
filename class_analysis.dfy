/**
  The class-distribution report of `analyze_classes.py`: the cards of the
  augmented dataset ordered by their number of examples, the classes with a
  single example and with two, the distribution of examples per class, and the
  removal arithmetic suggested when such small classes exist. The column is a
  sequence of card ids; the mean and the percentage, which are floats, are not
  modelled.
*/
module ClassAnalysis {
  import opened Wrappers
  import opened Counting

  const SingleShown: nat := 10
  const TwoShown: nat := 5

  /** `df['card_id'].value_counts().sort_values()`: every card with its count, ascending. */
  function CardCounts<T(==,!new)>(ids: seq<T>): (cc: seq<Tally<T>>)
    ensures SortedByCount(cc, false)
    ensures multiset(cc) == multiset(ValueCounts(ids))
    ensures |cc| == |Distinct(ids)|
  {
    SortByCount(ValueCounts(ids), false)
  }

  /**
    Each entry holds the number of occurrences of its card in the column, and
    every card of the column has an entry.
  */
  predicate CountsOfColumn<T(==,!new)>(ids: seq<T>, cc: seq<Tally<T>>)
  {
    (forall i :: 0 <= i < |cc| ==> cc[i].key in ids && cc[i].count == Count(ids, cc[i].key)) &&
    (forall x :: x in ids ==> exists i :: 0 <= i < |cc| && cc[i].key == x)
  }

  /** Any reordering of `value_counts` counts the column, with positive counts only. */
  lemma ReorderedCounts<T(!new)>(ids: seq<T>, cc: seq<Tally<T>>)
    requires multiset(cc) == multiset(ValueCounts(ids))
    ensures CountsOfColumn(ids, cc)
    ensures AllTallied(cc, 1)
  {
    var vc, d := ValueCounts(ids), Distinct(ids);
    forall i | 0 <= i < |cc| ensures cc[i].key in ids && cc[i].count == Count(ids, cc[i].key) {
      assert cc[i] in multiset(vc);
      var j :| 0 <= j < |vc| && vc[j] == cc[i];
      assert vc[j] == Tally(d[j], Count(ids, d[j]));
    }
    forall x | x in ids ensures exists i :: 0 <= i < |cc| && cc[i].key == x {
      var j :| 0 <= j < |vc| && vc[j].key == x;
      assert vc[j] in multiset(cc);
      var i :| 0 <= i < |cc| && cc[i] == vc[j];
    }
  }

  /** Some card of the column has between `lo` and `hi` examples. */
  predicate HasCountIn<T(==,!new)>(ids: seq<T>, lo: nat, hi: nat)
  {
    exists x :: x in ids && lo <= Count(ids, x) <= hi
  }

  /** Selecting the entries with `lo..hi` examples selects exactly the cards with that many. */
  lemma GroupMembers<T(!new)>(ids: seq<T>, cc: seq<Tally<T>>, lo: nat, hi: nat)
    requires CountsOfColumn(ids, cc)
    ensures |WithCount(cc, lo, Some(hi))| > 0 <==> HasCountIn(ids, lo, hi)
    ensures forall i :: 0 <= i < |WithCount(cc, lo, Some(hi))| ==>
      lo <= Count(ids, WithCount(cc, lo, Some(hi))[i].key) <= hi
  {
    var g := WithCount(cc, lo, Some(hi));
    if |g| > 0 {
      assert g[0] in g;
      var i :| 0 <= i < |cc| && cc[i] == g[0];
    }
    if HasCountIn(ids, lo, hi) {
      var x :| x in ids && lo <= Count(ids, x) <= hi;
      var i :| 0 <= i < |cc| && cc[i].key == x;
      assert cc[i] in g;
    }
    forall i | 0 <= i < |g| ensures lo <= Count(ids, g[i].key) <= hi {
      assert g[i] in g;
      var j :| 0 <= j < |cc| && cc[j] == g[i];
    }
  }

  /** `card_counts[card_counts == 1]` and `card_counts[card_counts == 2]`, order kept. */
  function Singles<T(==,!new)>(cc: seq<Tally<T>>): seq<Tally<T>>
  {
    WithCount(cc, 1, Some(1))
  }

  function Twos<T(==,!new)>(cc: seq<Tally<T>>): seq<Tally<T>>
  {
    WithCount(cc, 2, Some(2))
  }

  /** The first ids printed for a group of small classes, and how many were not printed. */
  datatype Listing<T> = Listing(total: nat, shown: seq<T>, more: Option<nat>)

  /**
    The problem block for a group: nothing when the group is empty; otherwise its
    size, the ids of its first `cap` entries, and the "... and N more" line when
    the group is larger than `cap`.
  */
  function ListFirst<T(==,!new)>(group: seq<Tally<T>>, cap: nat): (l: Option<Listing<T>>)
    ensures l.None? <==> |group| == 0
    ensures l.Some? ==> l.value.total == |group|
    ensures l.Some? ==> |l.value.shown| == (if |group| < cap then |group| else cap)
    ensures l.Some? ==> forall i :: 0 <= i < |l.value.shown| ==> l.value.shown[i] == group[i].key
    ensures l.Some? ==> (l.value.more.Some? <==> |group| > cap)
    ensures l.Some? && l.value.more.Some? ==> |l.value.shown| + l.value.more.value == |group|
  {
    if |group| == 0 then None
    else
      var n := if |group| < cap then |group| else cap;
      Some(Listing(|group|, Keys(group[..n]), if |group| > cap then Some(|group| - cap) else None))
  }

  /** The values computed by `analyze_class_distribution` for a `card_id` column. */
  datatype Report<T> = Report(
    unique: nat,
    least: Option<nat>,
    most: Option<nat>,
    singles: Option<Listing<T>>,
    twos: Option<Listing<T>>,
    distribution: seq<Bucket>)

  function Analyze<T(==,!new)>(ids: seq<T>): (r: Report<T>)
    ensures r.unique == |Distinct(ids)|
    ensures r.least.None? <==> |ids| == 0
    ensures r.most.None? <==> |ids| == 0
    ensures StrictlyBySize(r.distribution)
  {
    var cc := CardCounts(ids);
    assert |ids| > 0 ==> |cc| > 0 by {
      if |ids| > 0 {
        assert ids[0] in ids;
      }
    }
    Report(|cc|, MinCount(cc), MaxCount(cc),
           ListFirst(Singles(cc), SingleShown), ListFirst(Twos(cc), TwoShown),
           Distribution(cc))
  }

  /**
    The single-example block appears iff some card has exactly one example, and it
    names only such cards, at most ten of them; likewise the two-example block
    with two examples and at most five names.
  */
  lemma AnalyzeSmallClasses<T(!new)>(ids: seq<T>)
    ensures var r := Analyze(ids);
      (r.singles.Some? <==> HasCountIn(ids, 1, 1)) &&
      (r.singles.Some? ==> |r.singles.value.shown| <= SingleShown) &&
      (r.singles.Some? ==> forall i :: 0 <= i < |r.singles.value.shown| ==> Count(ids, r.singles.value.shown[i]) == 1)
    ensures var r := Analyze(ids);
      (r.twos.Some? <==> HasCountIn(ids, 2, 2)) &&
      (r.twos.Some? ==> |r.twos.value.shown| <= TwoShown) &&
      (r.twos.Some? ==> forall i :: 0 <= i < |r.twos.value.shown| ==> Count(ids, r.twos.value.shown[i]) == 2)
  {
    SmallListing(ids, 1, SingleShown);
    SmallListing(ids, 2, TwoShown);
  }

  /** The block for the cards with exactly `k` examples, listing at most `cap` of them. */
  lemma SmallListing<T(!new)>(ids: seq<T>, k: nat, cap: nat)
    ensures var l := ListFirst(WithCount(CardCounts(ids), k, Some(k)), cap);
      (l.Some? <==> HasCountIn(ids, k, k)) &&
      (l.Some? ==> |l.value.shown| <= cap) &&
      (l.Some? ==> forall i :: 0 <= i < |l.value.shown| ==> Count(ids, l.value.shown[i]) == k)
  {
    ReorderedCounts(ids, CardCounts(ids));
    GroupMembers(ids, CardCounts(ids), k, k);
  }

  /** The distribution's class numbers add up to the number of distinct cards, its examples to the rows. */
  lemma AnalyzeDistributionSums<T(!new)>(ids: seq<T>)
    ensures SumClasses(Analyze(ids).distribution) == |Distinct(ids)|
    ensures SumExamples(Analyze(ids).distribution) == |ids|
  {
    var cc := CardCounts(ids);
    DistributionSums(cc);
    SumCountsPerm(cc, ValueCounts(ids));
    ValueCountsSum(ids);
  }

  // ---------------------------------------------------------------------------
  // suggest_solutions
  // ---------------------------------------------------------------------------

  /**
    No small classes, or the removal statistics: total samples, samples to remove
    (one per single, two per pair), samples left and classes left.
  */
  datatype Advice = NoProblems | Removal(totalSamples: nat, toRemove: nat, remainingSamples: int, remainingClasses: int)

  function Suggest<T(==,!new)>(cc: seq<Tally<T>>): (a: Advice)
    ensures a.NoProblems? <==> forall i :: 0 <= i < |cc| ==> cc[i].count != 1 && cc[i].count != 2
  {
    var singles, twos := Singles(cc), Twos(cc);
    assert (forall i :: 0 <= i < |cc| ==> cc[i].count != 1 && cc[i].count != 2) <==> |singles| == 0 && |twos| == 0 by {
      if exists i :: 0 <= i < |cc| && (cc[i].count == 1 || cc[i].count == 2) {
        var i :| 0 <= i < |cc| && (cc[i].count == 1 || cc[i].count == 2);
        assert cc[i] in cc;
        assert cc[i] in singles || cc[i] in twos;
      }
      if |singles| > 0 {
        assert singles[0] in singles;
      }
      if |twos| > 0 {
        assert twos[0] in twos;
      }
    }
    if |singles| > 0 || |twos| > 0 then
      var total := SumCounts(cc);
      var remove := |singles| + |twos| * 2;
      Removal(total, remove, total - remove, |cc| - |singles| - |twos|)
    else
      NoProblems
  }

  /**
    For the counts of a column, the total is the number of rows, the removal never
    exceeds it, and what remains is exactly the classes with at least three
    examples and their samples.
  */
  lemma SuggestRemoval<T(!new)>(ids: seq<T>)
    ensures var a := Suggest(CardCounts(ids));
      var rest := WithCount(CardCounts(ids), 3, None);
      a.Removal? ==>
        a.totalSamples == |ids| &&
        a.toRemove <= a.totalSamples &&
        a.remainingSamples == SumCounts(rest) &&
        a.remainingClasses == |rest|
  {
    var cc := CardCounts(ids);
    var singles, twos, rest := Singles(cc), Twos(cc), WithCount(cc, 3, None);
    var total := SumCounts(cc);
    assert total == |ids| by {
      SumCountsPerm(cc, ValueCounts(ids));
      ValueCountsSum(ids);
    }
    assert SumCounts(WithCount(cc, 1, None)) == total && |WithCount(cc, 1, None)| == |cc| by {
      ReorderedCounts(ids, cc);
      WithCountAll(cc, 1);
    }
    assert total == |singles| + 2 * |twos| + SumCounts(rest) by {
      SumWithCountSplit(cc, 1, 1, None);
      SumWithCountSplit(cc, 2, 2, None);
      SumWithCountExact(cc, 1);
      SumWithCountExact(cc, 2);
    }
    assert |cc| == |singles| + |twos| + |rest| by {
      WithCountSplit(cc, 1, 1, None);
      WithCountSplit(cc, 2, 2, None);
    }
  }
}
