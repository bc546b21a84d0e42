/**
  `DataAugmentator.create_augmented_dataset`: the record list of an augmentation
  run, and the requested-count fallback of the script's `main`.

  For every card record of the source directory the run copies the original and then
  writes `n` derived images; pixel work, opening and saving images are an oracle
  telling at which step of a source, if any, the first exception is raised.
*/
module Augmentation {
  import opened Wrappers
  import opened PyStrings
  import opened CardIdentity
  import opened CardDataset

  /** `augmentation_types`. */
  const Kinds: seq<string> := ["rotate", "brightness", "contrast", "saturation", "combined"]
  const OriginalKind: string := "original"

  /** A row of `augmentation_info.csv`. */
  datatype AugRecord = AugRecord(filename: string, originalFilename: string, augmentationType: string)

  /** `augmentation_types[aug_idx % len(augmentation_types)]`. */
  function KindForSlot(i: nat): (k: string)
    ensures k in Kinds
    ensures k == Kinds[i % 5]
  {
    Kinds[i % |Kinds|]
  }

  /** `f"{os.path.splitext(filename)[0]}_aug_{aug_idx + 1}.webp"`. */
  function AugFilename(filename: string, i: nat): string {
    Stem(filename) + "_aug_" + NatToString(i + 1) + ".webp"
  }

  function OriginalRecord(filename: string): AugRecord {
    AugRecord(filename, filename, OriginalKind)
  }

  function DerivedRecord(filename: string, i: nat): AugRecord {
    AugRecord(AugFilename(filename, i), filename, KindForSlot(i))
  }

  /** `range(n)` is empty for a negative count. */
  function Slots(n: int): nat {
    if n < 0 then 0 else n
  }

  /**
    The records a source contributes when nothing goes wrong: first the copy of the
    original, then the `n` derived images in slot order, all naming the source.
  */
  function SourceRecords(filename: string, n: nat): (rs: seq<AugRecord>)
    ensures |rs| == 1 + n
    ensures rs[0] == OriginalRecord(filename)
    ensures forall i :: 0 <= i < n ==> rs[1 + i] == DerivedRecord(filename, i)
  {
    [OriginalRecord(filename)] + seq(n, i requires 0 <= i < n => DerivedRecord(filename, i))
  }

  /** The number of a source's records kept when the first exception is at step `failure`. */
  function Kept(failure: Option<nat>, total: nat): (k: nat)
    ensures k <= total
    ensures failure.None? ==> k == total
  {
    match failure
    case None => total
    case Some(step) => if step < total then step else total
  }

  /**
    The image a source is read from: `cards_dir/filepath` when the record's filepath
    is non-empty, else `cards_dir/filename`.
  */
  function OriginalPath(cardsDir: string, row: CardRecord): string {
    if row.filepath != "" then PathJoin(cardsDir, row.filepath) else PathJoin(cardsDir, row.info.filename)
  }

  /**
    The records one source contributes. Step 0 is opening and copying the original,
    step `1 + i` is slot `i`; an exception at a step abandons that step and the rest
    of the source, keeping what was appended before it.
  */
  function RowRecords(cardsDir: string, row: CardRecord, n: nat, failsAt: string -> Option<nat>): (rs: seq<AugRecord>)
  {
    SourceRecords(row.info.filename, n)[..Kept(failsAt(OriginalPath(cardsDir, row)), 1 + n)]
  }

  /** The whole `augmented_files` list for the rows `df`, source after source. */
  function AllRecords(cardsDir: string, df: seq<CardRecord>, n: nat, failsAt: string -> Option<nat>): seq<AugRecord>
  {
    if |df| == 0 then []
    else AllRecords(cardsDir, df[..|df| - 1], n, failsAt) + RowRecords(cardsDir, df[|df| - 1], n, failsAt)
  }

  datatype AugError = ZeroDivision   // the growth ratio of an empty data frame

  /**
    `create_augmented_dataset(num_augmentations_per_image)`: loads the card records of
    `cards_dir` and returns the augmentation records; an empty source data frame
    raises when the growth ratio is printed.
  */
  method CreateAugmentedDataset(cardsDir: string, listing: seq<Entry>, numAugmentations: int,
                                failsAt: string -> Option<nat>)
    returns (r: Result<seq<AugRecord>, AugError>)
    ensures r.Err? <==> |Loaded(listing)| == 0
    ensures r.Ok? ==> r.value == AllRecords(cardsDir, Loaded(listing), Slots(numAugmentations), failsAt)
  {
    var dataset := new BerserkCardDataset(cardsDir);
    var df := dataset.LoadDataset(listing);
    assert df == [] + Loaded(listing);
    assert df == Loaded(listing);
    var augmentedFiles := AugmentRows(cardsDir, df, Slots(numAugmentations), failsAt);
    if |df| == 0 {
      return Err(ZeroDivision);
    }
    return Ok(augmentedFiles);
  }

  /** The loop of `create_augmented_dataset` over the rows of the data frame. */
  method AugmentRows(cardsDir: string, df: seq<CardRecord>, n: nat, failsAt: string -> Option<nat>)
    returns (augmentedFiles: seq<AugRecord>)
    ensures augmentedFiles == AllRecords(cardsDir, df, n, failsAt)
  {
    augmentedFiles := [];
    var idx := 0;
    while idx < |df|
      invariant 0 <= idx <= |df|
      invariant augmentedFiles == AllRecords(cardsDir, df[..idx], n, failsAt)
    {
      var fromRow := AugmentSource(cardsDir, df[idx], n, failsAt);
      assert df[..idx + 1][..idx] == df[..idx];
      augmentedFiles := augmentedFiles + fromRow;
      idx := idx + 1;
    }
    assert df[..idx] == df;
  }

  /** One more slot appends one derived record. */
  lemma SourceRecordsStep(filename: string, i: nat)
    ensures SourceRecords(filename, i + 1) == SourceRecords(filename, i) + [DerivedRecord(filename, i)]
  {
    var a, b := SourceRecords(filename, i + 1), SourceRecords(filename, i) + [DerivedRecord(filename, i)];
    assert forall j :: 0 < j < |a| ==> a[j] == b[j];
  }

  /** The body of the per-row loop: the original copy, then the slots, until an exception. */
  method AugmentSource(cardsDir: string, row: CardRecord, n: nat, failsAt: string -> Option<nat>)
    returns (appended: seq<AugRecord>)
    ensures appended == RowRecords(cardsDir, row, n, failsAt)
  {
    var originalPath := OriginalPath(cardsDir, row);
    var failure := failsAt(originalPath);
    if failure == Some(0) {
      return [];
    }
    appended := AugmentSlots([OriginalRecord(row.info.filename)], row.info.filename, n, failure);
  }

  /** The slot loop of one source, after the original was copied. */
  method AugmentSlots(start: seq<AugRecord>, filename: string, n: nat, failure: Option<nat>)
    returns (appended: seq<AugRecord>)
    requires start == SourceRecords(filename, 0)
    requires failure != Some(0)
    ensures appended == SourceRecords(filename, n)[..Kept(failure, 1 + n)]
  {
    appended := start;
    var augIdx := 0;
    while augIdx < n
      invariant 0 <= augIdx <= n
      invariant failure.Some? ==> failure.value > augIdx
      invariant appended == SourceRecords(filename, augIdx)
    {
      if failure == Some(1 + augIdx) {
        break;
      }
      SourceRecordsStep(filename, augIdx);
      appended := appended + [DerivedRecord(filename, augIdx)];
      augIdx := augIdx + 1;
    }
    SourceRecordsPrefix(filename, augIdx, n);
    assert Kept(failure, 1 + n) == 1 + augIdx;
  }

  // ---------------------------------------------------------------------------
  // Properties of the records
  // ---------------------------------------------------------------------------

  /** The records of a source for a smaller count are a prefix: a slot's kind and name do not depend on the count. */
  lemma SourceRecordsPrefix(filename: string, m: nat, n: nat)
    requires m <= n
    ensures SourceRecords(filename, m) == SourceRecords(filename, n)[..1 + m]
  {
    var a, b := SourceRecords(filename, m), SourceRecords(filename, n)[..1 + m];
    assert forall i :: 0 < i < 1 + m ==> a[i] == DerivedRecord(filename, i - 1) == b[i];
  }

  /** A source that completes contributes exactly `1 + n` records, the original first. */
  lemma CompletedSource(cardsDir: string, row: CardRecord, n: nat, failsAt: string -> Option<nat>)
    requires failsAt(OriginalPath(cardsDir, row)).None? || failsAt(OriginalPath(cardsDir, row)).value > n
    ensures RowRecords(cardsDir, row, n, failsAt) == SourceRecords(row.info.filename, n)
  {
  }

  /** `Count<T>` of completed sources and the number of records all sources leave. */
  function KeptTotal(cardsDir: string, df: seq<CardRecord>, n: nat, failsAt: string -> Option<nat>): nat
  {
    if |df| == 0 then 0
    else KeptTotal(cardsDir, df[..|df| - 1], n, failsAt) + Kept(failsAt(OriginalPath(cardsDir, df[|df| - 1])), 1 + n)
  }

  /** The record count is the sum of what each source kept; at most `1 + n` per source. */
  lemma {:induction false} AllRecordsCount(cardsDir: string, df: seq<CardRecord>, n: nat, failsAt: string -> Option<nat>)
    ensures |AllRecords(cardsDir, df, n, failsAt)| == KeptTotal(cardsDir, df, n, failsAt)
    ensures KeptTotal(cardsDir, df, n, failsAt) <= |df| * (1 + n)
  {
    if |df| > 0 {
      AllRecordsCount(cardsDir, df[..|df| - 1], n, failsAt);
      assert |df| * (1 + n) == (|df| - 1) * (1 + n) + (1 + n);
    }
  }

  /** Without exceptions every source contributes `1 + n` records. */
  lemma {:induction false} AllRecordsNoFailure(cardsDir: string, df: seq<CardRecord>, n: nat, failsAt: string -> Option<nat>)
    requires forall i :: 0 <= i < |df| ==> failsAt(OriginalPath(cardsDir, df[i])).None?
    ensures |AllRecords(cardsDir, df, n, failsAt)| == |df| * (1 + n)
  {
    if |df| > 0 {
      AllRecordsNoFailure(cardsDir, df[..|df| - 1], n, failsAt);
      assert |df| * (1 + n) == (|df| - 1) * (1 + n) + (1 + n);
    }
  }

  /** Every record names a source of the data frame as its original. */
  lemma {:induction false} AllRecordsOrigin(cardsDir: string, df: seq<CardRecord>, n: nat, failsAt: string -> Option<nat>)
    ensures forall r :: r in AllRecords(cardsDir, df, n, failsAt) ==>
      exists i :: 0 <= i < |df| && r.originalFilename == df[i].info.filename
  {
    if |df| > 0 {
      var init := df[..|df| - 1];
      AllRecordsOrigin(cardsDir, init, n, failsAt);
      var last := RowRecords(cardsDir, df[|df| - 1], n, failsAt);
      forall r | r in AllRecords(cardsDir, df, n, failsAt)
        ensures exists i :: 0 <= i < |df| && r.originalFilename == df[i].info.filename
      {
        if r in last {
          var all := SourceRecords(df[|df| - 1].info.filename, n);
          var p :| 0 <= p < |last| && last[p] == r;
          assert r == all[p];
          assert p == 0 || all[p] == DerivedRecord(df[|df| - 1].info.filename, p - 1);
        } else {
          var i :| 0 <= i < |init| && r.originalFilename == init[i].info.filename;
          assert df[i] == init[i];
        }
      }
    }
  }

  // ---------------------------------------------------------------------------
  // Derived file names
  // ---------------------------------------------------------------------------

  /** Two slots of one source get different names. */
  lemma AugFilenameInjective(filename: string, i: nat, j: nat)
    requires AugFilename(filename, i) == AugFilename(filename, j)
    ensures i == j
  {
    var prefix := Stem(filename) + "_aug_";
    var a, b := NatToString(i + 1), NatToString(j + 1);
    assert AugFilename(filename, i) == prefix + (a + ".webp");
    assert AugFilename(filename, j) == prefix + (b + ".webp");
    assert a + ".webp" == b + ".webp" by {
      assert (prefix + (a + ".webp"))[|prefix|..] == a + ".webp";
      assert (prefix + (b + ".webp"))[|prefix|..] == b + ".webp";
    }
    assert |a| == |b|;
    assert a == (a + ".webp")[..|a|];
    assert b == (b + ".webp")[..|b|];
    NatToStringInjective(i + 1, j + 1);
  }

  /** No derived name equals the name of the original copy. */
  lemma AugFilenameDiffers(filename: string, i: nat)
    ensures AugFilename(filename, i) != filename
  {
    var stem := Stem(filename);
    var ext := SplitExt(filename).1;
    var tail := "_aug_" + NatToString(i + 1) + ".webp";
    var derived := AugFilename(filename, i);
    assert derived == stem + tail;
    assert filename == stem + ext;
    if |ext| == 0 {
      assert |derived| > |filename|;
    } else {
      assert derived[|stem|] == '_';
      assert filename[|stem|] == '.';
    }
  }

  /** The names of one source's records are pairwise distinct. */
  lemma SourceNamesDistinct(filename: string, n: nat, p: nat, q: nat)
    requires p < q < 1 + n
    ensures SourceRecords(filename, n)[p].filename != SourceRecords(filename, n)[q].filename
  {
    var rs := SourceRecords(filename, n);
    if p == 0 {
      AugFilenameDiffers(filename, q - 1);
    } else if rs[p].filename == rs[q].filename {
      AugFilenameInjective(filename, p - 1, q - 1);
    }
  }

  /** `Join(parts + [x])` puts one more separator before `x`. */
  lemma {:induction false} JoinSnoc(parts: seq<string>, x: string, sep: char)
    requires |parts| >= 1
    ensures Join(parts + [x], sep) == Join(parts, sep) + [sep] + x
    decreases |parts|
  {
    if |parts| == 1 {
      assert (parts + [x])[1..] == [x];
    } else {
      assert (parts + [x])[1..] == parts[1..] + [x];
      JoinSnoc(parts[1..], x, sep);
    }
  }

  /** The stem of a derived name is the source's stem with the suffix `_aug_<k>`. */
  lemma AugFilenameStem(filename: string, i: nat)
    ensures Stem(AugFilename(filename, i)) == Stem(filename) + "_aug_" + NatToString(i + 1)
  {
    var stem := Stem(filename);
    var k := NatToString(i + 1);
    var rest := "_aug_" + k;
    var x := stem + rest;
    assert '/' !in rest by {
      assert forall c :: c in k ==> IsDigit(c);
    }
    LastIndexOfAppend(stem, rest, '/');
    assert x[|stem|] == '_';
    assert HasBaseBefore(x, LastIndexOf(x, '/'), |x|);
    assert AugFilename(filename, i) == x + ".webp";
    SplitExtAppend(x, ".webp");
  }

  /** Appending `_aug_<k>` appends the parts "aug" and `k`. */
  lemma AugSuffixSplit(stem: string, k: string)
    requires '_' !in k
    ensures Split(stem + "_aug_" + k, '_') == Split(stem, '_') + [AugMarker, k]
  {
    var ps := Split(stem, '_');
    var qs := ps + [AugMarker] + [k];
    JoinSnoc(ps, AugMarker, '_');
    JoinSnoc(ps + [AugMarker], k, '_');
    assert Join(qs, '_') == stem + "_aug_" + k;
    assert forall j :: 0 <= j < |qs| ==> '_' !in qs[j] by {
      assert forall j :: 0 <= j < |qs| ==> qs[j] == (if j < |ps| then ps[j] else if j == |ps| then AugMarker else k);
    }
    SplitJoin(qs, '_');
    assert qs == ps + [AugMarker, k];
  }

  /** Two names whose stems have the same identity parts parse to the same identity. */
  lemma SameIdentityParts(f: string, g: string)
    requires |Split(Stem(f), '_')| >= 2 && |Split(Stem(g), '_')| >= 2
    requires IdentityParts(Split(Stem(f), '_')) == IdentityParts(Split(Stem(g), '_'))
    ensures ParseFilename(f).Some? && ParseFilename(g).Some?
    ensures IdentityOf(ParseFilename(f).value) == IdentityOf(ParseFilename(g).value)
  {
  }

  /**
    A derived name parses to the identity of its source, as long as the source's own
    stem does not already end with an augmentation suffix.
  */
  lemma AugFilenameIdentity(filename: string, i: nat)
    requires ParseFilename(filename).Some?
    requires !HasAugSuffix(Split(Stem(filename), '_'))
    ensures ParseFilename(AugFilename(filename, i)).Some?
    ensures IdentityOf(ParseFilename(AugFilename(filename, i)).value) == IdentityOf(ParseFilename(filename).value)
  {
    var ps := Split(Stem(filename), '_');
    AugFilenameParts(filename, i);
    assert IdentityParts(ps + [AugMarker, NatToString(i + 1)]) == ps;
    SameIdentityParts(AugFilename(filename, i), filename);
  }

  /** The parts of a derived stem: the source stem's parts, then "aug" and the ordinal. */
  lemma AugFilenameParts(filename: string, i: nat)
    ensures Split(Stem(AugFilename(filename, i)), '_') == Split(Stem(filename), '_') + [AugMarker, NatToString(i + 1)]
  {
    var k := NatToString(i + 1);
    AugFilenameStem(filename, i);
    assert '_' !in k by {
      assert forall c :: c in k ==> IsDigit(c);
    }
    AugSuffixSplit(Stem(filename), k);
  }

  /** The records of one source all carry the source's identity. */
  lemma SourceRecordsIdentity(filename: string, n: nat, p: nat)
    requires ParseFilename(filename).Some?
    requires !HasAugSuffix(Split(Stem(filename), '_'))
    requires p < 1 + n
    ensures var name := SourceRecords(filename, n)[p].filename;
      ParseFilename(name).Some? && IdentityOf(ParseFilename(name).value) == IdentityOf(ParseFilename(filename).value)
  {
    var name := SourceRecords(filename, n)[p].filename;
    if p > 0 {
      assert name == AugFilename(filename, p - 1);
      AugFilenameIdentity(filename, p - 1);
    } else {
      assert name == filename;
    }
  }

  // ---------------------------------------------------------------------------
  // The requested count in `main`
  // ---------------------------------------------------------------------------

  const DefaultAugmentations: nat := 4

  /** `int(input(...))`, falling back to 4 on a `ValueError` or a count below 1. */
  function NumAugmentations(line: string): (n: int)
    ensures n >= 1
    ensures n == DefaultAugmentations || ParseInt(line) == Some(n)
    ensures ParseInt(line).None? ==> n == DefaultAugmentations
    ensures ParseInt(line).Some? && ParseInt(line).value >= 1 ==> n == ParseInt(line).value
    ensures ParseInt(line).Some? && ParseInt(line).value < 1 ==> n == DefaultAugmentations
  {
    match ParseInt(line)
    case None => DefaultAugmentations
    case Some(v) => if v < 1 then DefaultAugmentations else v
  }

  /** A typed positive count within `int()`'s digit limit is taken as it is. */
  lemma NumAugmentationsOfCount(n: nat)
    requires n >= 1 && |NatToString(n)| <= MaxStrDigits
    ensures NumAugmentations(NatToString(n)) == n
  {
    ParseIntOfNatToString(n);
  }

  /** A count padded with `\x1c`, which `int()` does not skip, falls back to the default. */
  lemma NumAugmentationsFileSeparator()
    ensures NumAugmentations("\U{1C}7") == DefaultAugmentations
    ensures NumAugmentations(" 7\t") == 7
  {
    ParseIntSpaces();
  }

  /** A count with more digits than `int()` accepts falls back to the default. */
  lemma NumAugmentationsBeyondLimit(n: nat)
    requires |NatToString(n)| > MaxStrDigits
    ensures NumAugmentations(NatToString(n)) == DefaultAugmentations
  {
    ParseIntBeyondLimit(n);
  }
}
