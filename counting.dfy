/**
  Counting over label columns, as pandas' `value_counts`, `nunique`, `min`/`max`
  and `collections.Counter` do it in the analysis scripts. A column is a sequence
  of values; a tally is a sequence of (value, count) pairs with distinct values.
*/
module Counting {
  import opened Wrappers

  datatype Tally<T> = Tally(key: T, count: nat)

  /** Number of occurrences of `x` in `xs`. */
  function Count<T(==,!new)>(xs: seq<T>, x: T): (n: nat)
    ensures n <= |xs|
    ensures n > 0 <==> x in xs
  {
    if |xs| == 0 then 0
    else
      assert xs == xs[..|xs| - 1] + [xs[|xs| - 1]];
      Count(xs[..|xs| - 1], x) + (if xs[|xs| - 1] == x then 1 else 0)
  }

  lemma CountSnoc<T(!new)>(xs: seq<T>, y: T, x: T)
    ensures Count(xs + [y], x) == Count(xs, x) + (if y == x then 1 else 0)
  {
    assert (xs + [y])[..|xs|] == xs;
  }

  predicate Unique<T(==,!new)>(d: seq<T>) {
    forall i, j :: 0 <= i < j < |d| ==> d[i] != d[j]
  }

  /** The distinct values of `xs`, in order of first occurrence (`Series.unique`). */
  function Distinct<T(==,!new)>(xs: seq<T>): (d: seq<T>)
    ensures Unique(d)
    ensures forall x :: x in d <==> x in xs
  {
    if |xs| == 0 then []
    else
      var prefix := Distinct(xs[..|xs| - 1]);
      var last := xs[|xs| - 1];
      assert xs == xs[..|xs| - 1] + [last];
      if last in prefix then prefix else prefix + [last]
  }

  /** The count of every value of `d` in `xs`, in the order of `d`. */
  function TallyOf<T(==,!new)>(d: seq<T>, xs: seq<T>): (t: seq<Tally<T>>)
    ensures |t| == |d|
    ensures forall i :: 0 <= i < |d| ==> t[i] == Tally(d[i], Count(xs, d[i]))
  {
    if |d| == 0 then []
    else TallyOf(d[..|d| - 1], xs) + [Tally(d[|d| - 1], Count(xs, d[|d| - 1]))]
  }

  /** `xs.value_counts()` before ordering: each distinct value with its count. */
  function ValueCounts<T(==,!new)>(xs: seq<T>): (t: seq<Tally<T>>)
    ensures |t| == |Distinct(xs)|
    ensures forall i :: 0 <= i < |t| ==> t[i].count >= 1 && t[i].key in xs
    ensures forall x :: x in xs ==> exists i :: 0 <= i < |t| && t[i].key == x
  {
    var d := Distinct(xs);
    var t := TallyOf(d, xs);
    assert forall x :: x in xs ==> exists i :: 0 <= i < |t| && t[i].key == x by {
      forall x | x in xs ensures exists i :: 0 <= i < |t| && t[i].key == x {
        var i :| 0 <= i < |d| && d[i] == x;
        assert t[i].key == x;
      }
    }
    t
  }

  function Keys<T(==,!new)>(t: seq<Tally<T>>): (ks: seq<T>)
    ensures |ks| == |t|
    ensures forall i :: 0 <= i < |t| ==> ks[i] == t[i].key
  {
    seq(|t|, i requires 0 <= i < |t| => t[i].key)
  }

  function SumCounts<T(==,!new)>(t: seq<Tally<T>>): nat
  {
    if |t| == 0 then 0 else SumCounts(t[..|t| - 1]) + t[|t| - 1].count
  }

  lemma SumCountsAppend<T(!new)>(a: seq<Tally<T>>, b: seq<Tally<T>>)
    ensures SumCounts(a + b) == SumCounts(a) + SumCounts(b)
    decreases |b|
  {
    if |b| > 0 {
      assert (a + b)[..|a + b| - 1] == a + b[..|b| - 1];
      SumCountsAppend(a, b[..|b| - 1]);
    } else {
      assert a + b == a;
    }
  }

  lemma {:induction false} TallyOfEmpty<T(!new)>(d: seq<T>)
    ensures SumCounts(TallyOf(d, [])) == 0
  {
    if |d| > 0 {
      TallyOfEmpty(d[..|d| - 1]);
    }
  }

  lemma {:induction false} TallyOfSnoc<T(!new)>(d: seq<T>, xs: seq<T>, y: T)
    ensures SumCounts(TallyOf(d, xs + [y])) == SumCounts(TallyOf(d, xs)) + Count(d, y)
  {
    if |d| > 0 {
      TallyOfSnoc(d[..|d| - 1], xs, y);
      CountSnoc(xs, y, d[|d| - 1]);
    }
  }

  lemma {:induction false} CountInUnique<T(!new)>(d: seq<T>, y: T)
    requires Unique(d) && y in d
    ensures Count(d, y) == 1
  {
    var p := d[..|d| - 1];
    if d[|d| - 1] == y {
      assert y !in p;
    } else {
      assert y in p by {
        var i :| 0 <= i < |d| && d[i] == y;
        assert i < |d| - 1 && p[i] == y;
      }
      CountInUnique(p, y);
    }
  }

  /** The counts over a set of distinct keys covering the column add up to its length. */
  lemma {:induction false} SumOfTally<T(!new)>(d: seq<T>, xs: seq<T>)
    requires Unique(d)
    requires forall x :: x in xs ==> x in d
    ensures SumCounts(TallyOf(d, xs)) == |xs|
    decreases |xs|
  {
    if |xs| == 0 {
      TallyOfEmpty(d);
    } else {
      var prefix, y := xs[..|xs| - 1], xs[|xs| - 1];
      assert xs == prefix + [y];
      SumOfTally(d, prefix);
      TallyOfSnoc(d, prefix, y);
      CountInUnique(d, y);
    }
  }

  /** The counts of `value_counts` add up to the number of rows. */
  lemma ValueCountsSum<T(!new)>(xs: seq<T>)
    ensures SumCounts(ValueCounts(xs)) == |xs|
  {
    SumOfTally(Distinct(xs), xs);
  }

  // ---------------------------------------------------------------------------
  // Ordering a tally by count
  // ---------------------------------------------------------------------------

  predicate InOrder<T(==,!new)>(a: Tally<T>, b: Tally<T>, descending: bool) {
    if descending then a.count >= b.count else a.count <= b.count
  }

  predicate SortedByCount<T(==,!new)>(t: seq<Tally<T>>, descending: bool) {
    forall i, j :: 0 <= i < j < |t| ==> InOrder(t[i], t[j], descending)
  }

  /** Place `p` in front of the first entry it does not strictly follow. */
  function InsertByCount<T(==,!new)>(p: Tally<T>, t: seq<Tally<T>>, descending: bool): (r: seq<Tally<T>>)
    requires SortedByCount(t, descending)
    ensures SortedByCount(r, descending)
    ensures multiset(r) == multiset(t) + multiset{p}
  {
    if |t| == 0 then [p]
    else if InOrder(p, t[0], descending) then
      HeadBeforeSorted(t, descending);
      ConsSorted(p, t, descending);
      [p] + t
    else
      var rest := InsertByCount(p, t[1..], descending);
      assert t == [t[0]] + t[1..];
      HeadBeforeInserted(p, t, rest, descending);
      ConsSorted(t[0], rest, descending);
      [t[0]] + rest
  }

  /** The head of a sorted tally comes before every entry. */
  lemma HeadBeforeSorted<T(!new)>(t: seq<Tally<T>>, descending: bool)
    requires |t| > 0 && SortedByCount(t, descending)
    ensures forall x :: x in t ==> InOrder(t[0], x, descending)
  {
    forall x | x in t ensures InOrder(t[0], x, descending) {
      var k :| 0 <= k < |t| && t[k] == x;
      if k > 0 {
        assert InOrder(t[0], t[k], descending);
      }
    }
  }

  /** An entry that comes before all of a sorted tally can head it. */
  lemma ConsSorted<T(!new)>(a: Tally<T>, t: seq<Tally<T>>, descending: bool)
    requires SortedByCount(t, descending)
    requires forall x :: x in t ==> InOrder(a, x, descending)
    ensures SortedByCount([a] + t, descending)
  {
    var r := [a] + t;
    forall i, j | 0 <= i < j < |r| ensures InOrder(r[i], r[j], descending) {
      assert r[j] == t[j - 1];
      if i > 0 {
        assert r[i] == t[i - 1];
      } else {
        assert t[j - 1] in t;
      }
    }
  }

  /** When `p` goes after the head, the head still comes before everything the insertion yields. */
  lemma HeadBeforeInserted<T(!new)>(p: Tally<T>, t: seq<Tally<T>>, rest: seq<Tally<T>>, descending: bool)
    requires |t| > 0 && SortedByCount(t, descending) && !InOrder(p, t[0], descending)
    requires multiset(rest) == multiset(t[1..]) + multiset{p}
    ensures forall x :: x in rest ==> InOrder(t[0], x, descending)
  {
    HeadBeforeSorted(t, descending);
    forall x | x in rest ensures InOrder(t[0], x, descending) {
      assert x in multiset(rest);
      if x != p {
        assert x in multiset(t[1..]);
        assert x in t[1..];
        assert x in t;
      }
    }
  }

  /**
    Orders a tally by count (ascending, or descending when asked). Entries with
    equal counts keep their relative order here; pandas promises no order among them.
  */
  function SortByCount<T(==,!new)>(t: seq<Tally<T>>, descending: bool): (r: seq<Tally<T>>)
    ensures SortedByCount(r, descending)
    ensures multiset(r) == multiset(t)
    ensures |r| == |t|
  {
    if |t| == 0 then []
    else
      assert t == [t[0]] + t[1..];
      InsertByCount(t[0], SortByCount(t[1..], descending), descending)
  }

  // ---------------------------------------------------------------------------
  // Minimum and maximum count (pandas: NaN for an empty tally)
  // ---------------------------------------------------------------------------

  function MinCount<T(==,!new)>(t: seq<Tally<T>>): (r: Option<nat>)
    ensures r.None? <==> |t| == 0
    ensures r.Some? ==> exists i :: 0 <= i < |t| && t[i].count == r.value
    ensures r.Some? ==> forall i :: 0 <= i < |t| ==> r.value <= t[i].count
  {
    if |t| == 0 then None
    else
      var rest := MinCount(t[1..]);
      if rest.None? || t[0].count <= rest.value then
        Some(t[0].count)
      else
        assert forall i :: 1 <= i < |t| ==> t[1..][i - 1] == t[i];
        rest
  }

  function MaxCount<T(==,!new)>(t: seq<Tally<T>>): (r: Option<nat>)
    ensures r.None? <==> |t| == 0
    ensures r.Some? ==> exists i :: 0 <= i < |t| && t[i].count == r.value
    ensures r.Some? ==> forall i :: 0 <= i < |t| ==> t[i].count <= r.value
  {
    if |t| == 0 then None
    else
      var rest := MaxCount(t[1..]);
      if rest.None? || t[0].count >= rest.value then
        Some(t[0].count)
      else
        assert forall i :: 1 <= i < |t| ==> t[1..][i - 1] == t[i];
        rest
  }

  // ---------------------------------------------------------------------------
  // Selecting entries by count
  // ---------------------------------------------------------------------------

  /** The entries whose count lies in `lo..hi` (no upper bound when `hi` is `None`), order kept. */
  function WithCount<T(==,!new)>(t: seq<Tally<T>>, lo: nat, hi: Option<nat>): (r: seq<Tally<T>>)
    ensures |r| <= |t|
    ensures forall x :: x in r <==> x in t && lo <= x.count && (hi.Some? ==> x.count <= hi.value)
  {
    if |t| == 0 then []
    else
      var rest := WithCount(t[1..], lo, hi);
      assert t == [t[0]] + t[1..];
      if lo <= t[0].count && (hi.Some? ==> t[0].count <= hi.value) then [t[0]] + rest else rest
  }

  /** Sizes of adjacent count ranges add up. */
  lemma {:induction false} WithCountSplit<T(!new)>(t: seq<Tally<T>>, lo: nat, mid: nat, hi: Option<nat>)
    requires lo <= mid && (hi.Some? ==> mid <= hi.value)
    ensures |WithCount(t, lo, hi)| == |WithCount(t, lo, Some(mid))| + |WithCount(t, mid + 1, hi)|
  {
    if |t| > 0 {
      WithCountSplit(t[1..], lo, mid, hi);
    }
  }

  lemma SumCountsCons<T(!new)>(x: Tally<T>, t: seq<Tally<T>>)
    ensures SumCounts([x] + t) == x.count + SumCounts(t)
  {
    SumCountsAppend([x], t);
    assert [x][..0] == [];
  }

  /** The counts of adjacent count ranges add up. */
  lemma {:induction false} SumWithCountSplit<T(!new)>(t: seq<Tally<T>>, lo: nat, mid: nat, hi: Option<nat>)
    requires lo <= mid && (hi.Some? ==> mid <= hi.value)
    ensures SumCounts(WithCount(t, lo, hi)) ==
            SumCounts(WithCount(t, lo, Some(mid))) + SumCounts(WithCount(t, mid + 1, hi))
  {
    if |t| > 0 {
      SumWithCountSplit(t[1..], lo, mid, hi);
      SumCountsCons(t[0], WithCount(t[1..], lo, hi));
      SumCountsCons(t[0], WithCount(t[1..], lo, Some(mid)));
      SumCountsCons(t[0], WithCount(t[1..], mid + 1, hi));
    }
  }

  /** The entries with exactly `k` examples hold `k` examples each. */
  lemma {:induction false} SumWithCountExact<T(!new)>(t: seq<Tally<T>>, k: nat)
    ensures SumCounts(WithCount(t, k, Some(k))) == k * |WithCount(t, k, Some(k))|
  {
    if |t| > 0 {
      var rest := WithCount(t[1..], k, Some(k));
      SumWithCountExact(t[1..], k);
      if t[0].count == k {
        assert WithCount(t, k, Some(k)) == [t[0]] + rest;
        SumCountsCons(t[0], rest);
        TimesSucc(k, |rest|);
      } else {
        assert WithCount(t, k, Some(k)) == rest;
      }
    }
  }

  lemma TimesSucc(k: nat, n: nat)
    ensures k * (n + 1) == k * n + k
  {
  }

  /** Reordering a tally does not change its total. */
  lemma {:induction false} SumCountsPerm<T(!new)>(a: seq<Tally<T>>, b: seq<Tally<T>>)
    requires multiset(a) == multiset(b)
    ensures SumCounts(a) == SumCounts(b)
    decreases |a|
  {
    if |a| == 0 {
      assert |b| == |multiset(b)| == 0;
    } else {
      var init, x := a[..|a| - 1], a[|a| - 1];
      assert a == init + [x];
      assert x in multiset(b);
      var i :| 0 <= i < |b| && b[i] == x;
      var others := b[..i] + b[i + 1..];
      RemoveOne(init, x, b, i);
      SumCountsPerm(init, others);
      SumCountsWithout(b, i);
    }
  }

  /** Taking the same entry out of two reorderings of each other leaves two reorderings. */
  lemma RemoveOne<T(!new)>(init: seq<Tally<T>>, x: Tally<T>, b: seq<Tally<T>>, i: nat)
    requires i < |b| && b[i] == x
    requires multiset(init + [x]) == multiset(b)
    ensures multiset(init) == multiset(b[..i] + b[i + 1..])
  {
    var before, after := b[..i], b[i + 1..];
    assert b == before + [x] + after;
    assert multiset(b) == multiset(before) + multiset{x} + multiset(after);
    assert multiset(before + after) == multiset(before) + multiset(after);
    assert multiset(init + [x]) == multiset(init) + multiset{x};
    forall y ensures multiset(init)[y] == multiset(before + after)[y] {
      assert multiset(init + [x])[y] == multiset(init)[y] + multiset{x}[y];
      assert multiset(b)[y] == multiset(before)[y] + multiset{x}[y] + multiset(after)[y];
    }
  }

  /** The total of a tally is the total without one entry plus that entry's count. */
  lemma SumCountsWithout<T(!new)>(b: seq<Tally<T>>, i: nat)
    requires i < |b|
    ensures SumCounts(b) == SumCounts(b[..i] + b[i + 1..]) + b[i].count
  {
    var before, after := b[..i], b[i + 1..];
    assert b == before + [b[i]] + after;
    SumCountsAppend(before, after);
    SumCountsAppend(before + [b[i]], after);
    SumCountsAppend(before, [b[i]]);
    assert [b[i]][..0] == [];
  }

  predicate AllTallied<T(==,!new)>(t: seq<Tally<T>>, lo: nat)
  {
    forall i :: 0 <= i < |t| ==> t[i].count >= lo
  }

  lemma {:induction false} WithCountAll<T(!new)>(t: seq<Tally<T>>, lo: nat)
    requires AllTallied(t, lo)
    ensures WithCount(t, lo, None) == t
  {
    if |t| > 0 {
      WithCountAll(t[1..], lo);
      assert t == [t[0]] + t[1..];
    }
  }

  // ---------------------------------------------------------------------------
  // Count distribution: Counter(tally counts), sorted by count
  // ---------------------------------------------------------------------------

  /** `size` examples per class occur in `classes` classes. */
  datatype Bucket = Bucket(size: nat, classes: nat)

  predicate StrictlyBySize(bs: seq<Bucket>) {
    forall i, j :: 0 <= i < j < |bs| ==> bs[i].size < bs[j].size
  }

  /** The number of classes recorded for `size` (0 when absent). */
  function ClassesOfSize(bs: seq<Bucket>, size: nat): nat
  {
    if |bs| == 0 then 0
    else (if bs[0].size == size then bs[0].classes else 0) + ClassesOfSize(bs[1..], size)
  }

  function SumClasses(bs: seq<Bucket>): nat
  {
    if |bs| == 0 then 0 else bs[0].classes + SumClasses(bs[1..])
  }

  function SumExamples(bs: seq<Bucket>): nat
  {
    if |bs| == 0 then 0 else bs[0].size * bs[0].classes + SumExamples(bs[1..])
  }

  /** Record one more class of `size` examples. */
  function AddClass(bs: seq<Bucket>, size: nat): (r: seq<Bucket>)
    requires StrictlyBySize(bs)
    ensures StrictlyBySize(r)
    ensures |r| > 0 && (r[0].size == size || (|bs| > 0 && r[0] == bs[0]))
    ensures SumClasses(r) == SumClasses(bs) + 1
    ensures SumExamples(r) == SumExamples(bs) + size
  {
    if |bs| == 0 then [Bucket(size, 1)]
    else if bs[0].size == size then
      var r := [Bucket(size, bs[0].classes + 1)] + bs[1..];
      assert r[1..] == bs[1..];
      assert size * (bs[0].classes + 1) == size * bs[0].classes + size;
      r
    else if bs[0].size > size then
      var r := [Bucket(size, 1)] + bs;
      assert r[1..] == bs;
      r
    else
      var rest := AddClass(bs[1..], size);
      var r := [bs[0]] + rest;
      assert r[1..] == rest;
      assert forall j :: 0 < j < |r| ==> r[j] == rest[j - 1];
      r
  }

  lemma {:induction false} AddClassLookup(bs: seq<Bucket>, size: nat, s: nat)
    requires StrictlyBySize(bs)
    ensures ClassesOfSize(AddClass(bs, size), s) == ClassesOfSize(bs, s) + (if s == size then 1 else 0)
  {
    if |bs| > 0 && bs[0].size < size {
      AddClassLookup(bs[1..], size, s);
      assert ([bs[0]] + AddClass(bs[1..], size))[1..] == AddClass(bs[1..], size);
    } else if |bs| > 0 && bs[0].size > size {
      assert ([Bucket(size, 1)] + bs)[1..] == bs;
    } else if |bs| > 0 {
      assert ([Bucket(size, bs[0].classes + 1)] + bs[1..])[1..] == bs[1..];
    }
  }

  /** `sorted(Counter(t.count for t in tally).items())`. */
  function Distribution<T(==,!new)>(t: seq<Tally<T>>): (bs: seq<Bucket>)
    ensures StrictlyBySize(bs)
  {
    if |t| == 0 then [] else AddClass(Distribution(t[..|t| - 1]), t[|t| - 1].count)
  }

  function CountWithSize<T(==,!new)>(t: seq<Tally<T>>, s: nat): nat
  {
    if |t| == 0 then 0 else CountWithSize(t[..|t| - 1], s) + (if t[|t| - 1].count == s then 1 else 0)
  }

  /** Each bucket holds exactly the number of tally entries with that count. */
  lemma {:induction false} DistributionLookup<T(!new)>(t: seq<Tally<T>>, s: nat)
    ensures ClassesOfSize(Distribution(t), s) == CountWithSize(t, s)
  {
    if |t| > 0 {
      DistributionLookup(t[..|t| - 1], s);
      AddClassLookup(Distribution(t[..|t| - 1]), t[|t| - 1].count, s);
    }
  }

  /**
    The buckets' class numbers add up to the number of tally entries, and
    count x classes adds up to the sum of the counts.
  */
  lemma {:induction false} DistributionSums<T(!new)>(t: seq<Tally<T>>)
    ensures SumClasses(Distribution(t)) == |t|
    ensures SumExamples(Distribution(t)) == SumCounts(t)
  {
    if |t| > 0 {
      DistributionSums(t[..|t| - 1]);
    }
  }
}
