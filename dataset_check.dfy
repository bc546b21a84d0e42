/**
  The pre-training checks of `check_dataset.py`: the base and augmented CSV
  checks (required columns, examples per card, files of the first rows), the
  lookup of the trained model's files, and the recommendations of the JSON
  report. A data frame is its column names and one cell per row for each column;
  file existence is a predicate on paths.
*/
module DatasetCheck {
  import opened Wrappers
  import opened PyStrings
  import opened Table
  import opened Counting
  import opened ClassAnalysis

  // ---------------------------------------------------------------------------
  // Data frames
  // ---------------------------------------------------------------------------

  /** Column names in order; per column, its cells; and the number of rows. */
  datatype Frame = Frame(columns: seq<string>, data: map<string, seq<Cell>>, length: nat)

  predicate Rectangular(f: Frame) {
    forall c :: c in f.columns ==> c in f.data && |f.data[c]| == f.length
  }

  /** What `pd.read_csv` yields: every listed column has a cell in every row. */
  type DataFrame = f: Frame | Rectangular(f) witness Frame([], map[], 0)

  /** The non-missing values of a column: `value_counts` and `nunique` skip NaN. */
  function Texts(cells: seq<Cell>): (ts: seq<string>)
    ensures |ts| <= |cells|
    ensures forall s :: s in ts <==> Text(s) in cells
  {
    if |cells| == 0 then []
    else
      var init, last := cells[..|cells| - 1], cells[|cells| - 1];
      assert cells == init + [last];
      var rest := Texts(init);
      if last.Text? then rest + [last.text] else rest
  }

  /** `df[column].value_counts()` before ordering. */
  function CountsOf(f: DataFrame, column: string): seq<Tally<string>>
    requires column in f.columns
  {
    ValueCounts(Texts(f.data[column]))
  }

  /** `df[column].value_counts().min()`; `None` stands for the NaN of a column without values. */
  function LeastExamples(f: DataFrame, column: string): (m: Option<nat>)
    requires column in f.columns
    ensures m.None? <==> |Texts(f.data[column])| == 0
  {
    var xs := Texts(f.data[column]);
    assert |xs| > 0 ==> |CountsOf(f, column)| > 0 by {
      if |xs| > 0 {
        assert xs[0] in xs;
      }
    }
    MinCount(CountsOf(f, column))
  }

  /** `m` is the number of examples of some value of `xs`, and no value has fewer. */
  predicate IsLeast(xs: seq<string>, m: nat)
  {
    (exists s :: s in xs && Count(xs, s) == m) && (forall s :: s in xs ==> m <= Count(xs, s))
  }

  lemma LeastExamplesIsLeast(f: DataFrame, column: string)
    requires column in f.columns
    ensures LeastExamples(f, column).Some? ==> IsLeast(Texts(f.data[column]), LeastExamples(f, column).value)
  {
    var xs := Texts(f.data[column]);
    var t := CountsOf(f, column);
    var d := Distinct(xs);
    var m := LeastExamples(f, column);
    if m.Some? {
      var i :| 0 <= i < |t| && t[i].count == m.value;
      assert t[i] == Tally(d[i], Count(xs, d[i]));
      assert d[i] in d;
      assert d[i] in xs && Count(xs, d[i]) == m.value;
      forall s | s in xs ensures m.value <= Count(xs, s) {
        var j :| 0 <= j < |t| && t[j].key == s;
        assert t[j] == Tally(d[j], Count(xs, d[j]));
      }
    }
  }

  // ---------------------------------------------------------------------------
  // Required columns
  // ---------------------------------------------------------------------------

  const BaseColumns: seq<string> := ["filename", "card_name", "set_name", "split"]
  const FilePathColumn: string := "filepath"

  /** The frame has the four base columns. */
  predicate HasBaseColumns(columns: seq<string>)
  {
    "filename" in columns && "card_name" in columns && "set_name" in columns && "split" in columns
  }

  /** The four base columns, and `filepath` after them when the frame has it. */
  function RequiredColumns(columns: seq<string>): (r: seq<string>)
    ensures |r| >= 4 && r[..4] == BaseColumns
    ensures FilePathColumn in r <==> FilePathColumn in columns
  {
    if FilePathColumn in columns then BaseColumns + [FilePathColumn] else BaseColumns
  }

  /** The entries of `wanted` that are not among `columns`, in order. */
  function Absent(wanted: seq<string>, columns: seq<string>): (m: seq<string>)
    ensures |m| <= |wanted|
    ensures forall c :: c in m <==> c in wanted && c !in columns
  {
    if |wanted| == 0 then []
    else
      var init, last := wanted[..|wanted| - 1], wanted[|wanted| - 1];
      assert wanted == init + [last];
      var rest := Absent(init, columns);
      if last in columns then rest else rest + [last]
  }

  /**
    The missing required columns: a base column the frame lacks; `filepath` is
    required only when present, so it is never missing.
  */
  function MissingColumns(columns: seq<string>): (m: seq<string>)
    ensures forall c :: c in m <==> c in BaseColumns && c !in columns
    ensures FilePathColumn !in m
    ensures m == [] <==> HasBaseColumns(columns)
  {
    var m := Absent(RequiredColumns(columns), columns);
    assert forall c :: c in RequiredColumns(columns) <==> c in BaseColumns || (c == FilePathColumn && c in columns);
    assert m == [] <==> HasBaseColumns(columns) by {
      if m != [] {
        assert m[0] in m;
      }
    }
    m
  }

  // ---------------------------------------------------------------------------
  // check_base_dataset: file existence over the first rows
  // ---------------------------------------------------------------------------

  const CheckedRows: nat := 20
  const CardsDir: string := "./cards"
  const LowCountLimit: nat := 5
  const LowCountShown: nat := 10

  function Min(a: nat, b: nat): nat {
    if a < b then a else b
  }

  /**
    The path checked for row `i`: under `./cards`, its `filepath` when the frame
    has that column and the cell is not NaN, else its `filename`. A NaN filename
    there makes `os.path.join` raise, so the row has no path.
  */
  function PathOf(filepath: Option<Cell>, filename: Cell): (p: Option<string>)
    ensures filepath.Some? && filepath.value.Text? ==> p == Some(PathJoin(CardsDir, filepath.value.text))
    ensures !(filepath.Some? && filepath.value.Text?) ==>
      (p.Some? <==> filename.Text?) && (p.Some? ==> p.value == PathJoin(CardsDir, filename.text))
  {
    if filepath.Some? && filepath.value.Text? then Some(PathJoin(CardsDir, filepath.value.text))
    else if filename.Text? then Some(PathJoin(CardsDir, filename.text))
    else None
  }

  /** The path checked for row `i`; the `filepath` cell takes part only when the frame has the column. */
  function CheckedPath(f: DataFrame, i: nat): Option<string>
    requires "filename" in f.columns && i < f.length
  {
    PathOf(if FilePathColumn in f.columns then Some(f.data[FilePathColumn][i]) else None, f.data["filename"][i])
  }

  /** The paths of the rows `df.head(20)` yields, in row order. */
  function CheckedPaths(f: DataFrame): (ps: seq<Option<string>>)
    requires "filename" in f.columns
    ensures |ps| == Min(CheckedRows, f.length)
    ensures forall i :: 0 <= i < |ps| ==> ps[i] == CheckedPath(f, i)
  {
    seq(Min(CheckedRows, f.length), i requires 0 <= i < Min(CheckedRows, f.length) => CheckedPath(f, i))
  }

  /** The checked paths that do not exist, in row order; `None` once a row has no path. */
  function MissingFiles(paths: seq<Option<string>>, onDisk: string -> bool): Option<seq<string>>
  {
    if |paths| == 0 then Some([])
    else
      var before := MissingFiles(paths[..|paths| - 1], onDisk);
      var p := paths[|paths| - 1];
      if before.None? || p.None? then None
      else if onDisk(p.value) then before
      else Some(before.value + [p.value])
  }

  /** The missing-file list exists iff every row has a path, and it holds exactly the checked paths that do not exist. */
  lemma {:induction false} MissingFilesExactly(paths: seq<Option<string>>, onDisk: string -> bool)
    ensures MissingFiles(paths, onDisk).None? <==> None in paths
    ensures MissingFiles(paths, onDisk).Some? ==>
      forall q :: q in MissingFiles(paths, onDisk).value <==> Some(q) in paths && !onDisk(q)
  {
    if |paths| > 0 {
      var init, p := paths[..|paths| - 1], paths[|paths| - 1];
      assert paths == init + [p];
      MissingFilesExactly(init, onDisk);
    }
  }

  method FindMissingFiles(f: DataFrame, onDisk: string -> bool) returns (r: Option<seq<string>>)
    requires "filename" in f.columns
    ensures r == MissingFiles(CheckedPaths(f), onDisk)
  {
    ghost var paths := CheckedPaths(f);
    var n := Min(CheckedRows, f.length);
    var missing: seq<string> := [];
    var i := 0;
    while i < n
      invariant 0 <= i <= n
      invariant MissingFiles(paths[..i], onDisk) == Some(missing)
    {
      var p := CheckedPath(f, i);
      assert paths[..i + 1][..i] == paths[..i];
      if p.None? {
        NoPathStays(paths, onDisk, i + 1);
        return None;
      }
      if !onDisk(p.value) {
        missing := missing + [p.value];
      }
      i := i + 1;
    }
    assert paths[..n] == paths;
    r := Some(missing);
  }

  /** Once a row has no path, no longer prefix has a missing-file list. */
  lemma {:induction false} NoPathStays(paths: seq<Option<string>>, onDisk: string -> bool, i: nat)
    requires 0 < i <= |paths|
    requires MissingFiles(paths[..i], onDisk).None?
    ensures MissingFiles(paths, onDisk).None?
    decreases |paths| - i
  {
    if i < |paths| {
      assert paths[..i + 1][..i] == paths[..i];
      NoPathStays(paths, onDisk, i + 1);
    } else {
      assert paths[..i] == paths;
    }
  }

  // ---------------------------------------------------------------------------
  // check_base_dataset and check_augmented_dataset
  // ---------------------------------------------------------------------------

  /** `(False, None)`, or `(True, df)` together with what the check computed. */
  datatype Checked<R> = Rejected | Accepted(df: DataFrame, report: R)

  /** What the base check computes before returning `(True, df)`. */
  datatype BaseReport = BaseReport(
    splits: seq<Tally<string>>,
    uniqueCards: nat,
    least: Option<nat>,
    lowCount: Option<Listing<string>>,
    missingFiles: seq<string>)

  /**
    `check_base_dataset`: the CSV must exist and load (`loaded` is `None` when
    `read_csv` raises) and have the required columns. Cards with fewer than five
    examples, in order of decreasing count, are listed ten at most, and the first
    twenty rows are checked for their files.
  */
  function CheckBase(csvExists: bool, loaded: Option<DataFrame>, onDisk: string -> bool): (r: Checked<BaseReport>)
    ensures r.Accepted? ==> loaded == Some(r.df) && HasBaseColumns(r.df.columns)
  {
    if !csvExists || loaded.None? then Rejected
    else
      var f := loaded.value;
      if MissingColumns(f.columns) != [] then Rejected
      else
        var files := MissingFiles(CheckedPaths(f), onDisk);
        if files.None? then Rejected
        else
          var cards := Texts(f.data["card_name"]);
          Accepted(f, BaseReport(
            ValueCounts(Texts(f.data["split"])),
            |Distinct(cards)|,
            LeastExamples(f, "card_name"),
            LowCount(cards),
            files.value))
  }

  /** The base check as the script runs it, with the existence loop over the first rows. */
  method CheckBaseDataset(csvExists: bool, loaded: Option<DataFrame>, onDisk: string -> bool) returns (r: Checked<BaseReport>)
    ensures r == CheckBase(csvExists, loaded, onDisk)
  {
    if !csvExists || loaded.None? {
      return Rejected;
    }
    var f := loaded.value;
    if MissingColumns(f.columns) != [] {
      return Rejected;
    }
    var files := FindMissingFiles(f, onDisk);
    if files.None? {
      return Rejected;
    }
    var cards := Texts(f.data["card_name"]);
    r := Accepted(f, BaseReport(
      ValueCounts(Texts(f.data["split"])),
      |Distinct(cards)|,
      LeastExamples(f, "card_name"),
      LowCount(cards),
      files.value));
  }

  /** The base check rejects exactly a missing or unreadable CSV, a missing column, or a first row without a path. */
  lemma CheckBaseRejects(csvExists: bool, loaded: Option<DataFrame>, onDisk: string -> bool)
    ensures CheckBase(csvExists, loaded, onDisk).Rejected? <==>
      !csvExists || loaded.None? || !HasBaseColumns(loaded.value.columns) ||
      None in CheckedPaths(loaded.value)
    ensures CheckBase(csvExists, loaded, onDisk).Accepted? ==>
      forall q :: q in CheckBase(csvExists, loaded, onDisk).report.missingFiles <==>
        Some(q) in CheckedPaths(loaded.value) && !onDisk(q)
  {
    if csvExists && loaded.Some? && MissingColumns(loaded.value.columns) == [] {
      MissingFilesExactly(CheckedPaths(loaded.value), onDisk);
    }
  }

  /** The block of cards with fewer than five examples, in order of decreasing count, ten at most. */
  function LowCount(cards: seq<string>): Option<Listing<string>>
  {
    ListFirst(WithCount(SortByCount(ValueCounts(cards), true), 0, Some(LowCountLimit - 1)), LowCountShown)
  }

  /**
    The low-count block appears iff some card has fewer than five examples; it
    names only such cards, at most ten, and says how many more there are only
    when there are more than ten.
  */
  lemma LowCountBlock(cards: seq<string>)
    ensures var low := LowCount(cards);
      (low.Some? <==> HasCountIn(cards, 0, LowCountLimit - 1)) &&
      (low.Some? ==> |low.value.shown| <= LowCountShown) &&
      (low.Some? ==> forall i :: 0 <= i < |low.value.shown| ==> Count(cards, low.value.shown[i]) < LowCountLimit) &&
      (low.Some? ==> (low.value.more.Some? <==> low.value.total > LowCountShown))
  {
    var ordered := SortByCount(ValueCounts(cards), true);
    ReorderedCounts(cards, ordered);
    GroupMembers(cards, ordered, 0, LowCountLimit - 1);
  }

  /** What the augmented check computes before returning `(True, df)`. */
  datatype AugReport = AugReport(least: Option<nat>, augmentationTypes: Option<seq<Tally<string>>>)

  const AugmentationTypeColumn: string := "augmentation_type"
  const EnoughExamples: nat := 2

  /**
    `check_augmented_dataset`: the CSV and the output folder must exist, the CSV
    must load and have the required columns, and no card may have fewer than two
    examples. A frame without card values has a NaN minimum, which compares false,
    so it passes.
  */
  function CheckAugmented(csvExists: bool, dirExists: bool, loaded: Option<DataFrame>): (r: Checked<AugReport>)
    ensures r.Accepted? ==> loaded == Some(r.df) && HasBaseColumns(r.df.columns)
  {
    if !csvExists || !dirExists || loaded.None? then Rejected
    else
      var f := loaded.value;
      if MissingColumns(f.columns) != [] then Rejected
      else
        var least := LeastExamples(f, "card_name");
        if least.Some? && least.value < EnoughExamples then Rejected
        else
          Accepted(f, AugReport(least,
            if AugmentationTypeColumn in f.columns then Some(CountsOf(f, AugmentationTypeColumn)) else None))
  }

  /** The augmented check rejects a readable frame with the required columns iff some card has a single example. */
  lemma CheckAugmentedRejects(csvExists: bool, dirExists: bool, loaded: Option<DataFrame>)
    ensures CheckAugmented(csvExists, dirExists, loaded).Rejected? <==>
      !csvExists || !dirExists || loaded.None? || !HasBaseColumns(loaded.value.columns) ||
      HasCountIn(Texts(loaded.value.data["card_name"]), 0, EnoughExamples - 1)
  {
    if csvExists && dirExists && loaded.Some? && HasBaseColumns(loaded.value.columns) {
      var f := loaded.value;
      var cards := Texts(f.data["card_name"]);
      LeastExamplesIsLeast(f, "card_name");
      var least := LeastExamples(f, "card_name");
      if HasCountIn(cards, 0, EnoughExamples - 1) {
        var x :| x in cards && Count(cards, x) <= EnoughExamples - 1;
        assert least.Some?;
      }
      if least.Some? && least.value < EnoughExamples {
        var x :| x in cards && Count(cards, x) == least.value;
      }
    }
  }

  // ---------------------------------------------------------------------------
  // check_model_files
  // ---------------------------------------------------------------------------

  const ModelFiles: seq<string> := [
    "berserk_card_model_augmented.tflite",
    "berserk_card_model_augmented.h5",
    "model_info_augmented.json",
    "training_history_augmented.png"]

  datatype ModelStatus = NoneFound | SomeMissing | AllFound

  /** The entries of `names` that exist, in order. */
  function Existing(names: seq<string>, onDisk: string -> bool): (found: seq<string>)
    ensures |found| <= |names|
    ensures forall q :: q in found <==> q in names && onDisk(q)
    ensures |found| == |names| <==> forall q :: q in names ==> onDisk(q)
    ensures |found| == 0 <==> forall q :: q in names ==> !onDisk(q)
  {
    if |names| == 0 then []
    else
      var init, last := names[..|names| - 1], names[|names| - 1];
      assert names == init + [last];
      var rest := Existing(init, onDisk);
      if onDisk(last) then rest + [last]
      else
        assert !(forall q :: q in names ==> onDisk(q));
        rest
  }

  /** `a` is `b` with some entries left out, the order kept. */
  predicate IsSubsequence(a: seq<string>, b: seq<string>)
  {
    if |a| == 0 then true
    else if |b| == 0 then false
    else if a[|a| - 1] == b[|b| - 1] then IsSubsequence(a[..|a| - 1], b[..|b| - 1])
    else IsSubsequence(a, b[..|b| - 1])
  }

  lemma {:induction false} ExistingInOrder(names: seq<string>, onDisk: string -> bool)
    ensures IsSubsequence(Existing(names, onDisk), names)
  {
    if |names| > 0 {
      var init := names[..|names| - 1];
      ExistingInOrder(init, onDisk);
      var rest := Existing(init, onDisk);
      if onDisk(names[|names| - 1]) {
        assert (rest + [names[|names| - 1]])[..|rest|] == rest;
      }
    }
  }

  function Status(found: nat, total: nat): ModelStatus
  {
    if found == 0 then NoneFound else if found < total then SomeMissing else AllFound
  }

  /** The fixed list is checked in order; the message says none, some or all were found. */
  method CheckModelFiles(onDisk: string -> bool) returns (found: seq<string>, status: ModelStatus)
    ensures found == Existing(ModelFiles, onDisk)
    ensures status == NoneFound <==> forall q :: q in ModelFiles ==> !onDisk(q)
    ensures status == AllFound <==> forall q :: q in ModelFiles ==> onDisk(q)
  {
    found := [];
    for i := 0 to |ModelFiles|
      invariant found == Existing(ModelFiles[..i], onDisk)
    {
      assert ModelFiles[..i + 1][..i] == ModelFiles[..i];
      if onDisk(ModelFiles[i]) {
        found := found + [ModelFiles[i]];
      }
    }
    assert ModelFiles[..|ModelFiles|] == ModelFiles;
    status := Status(|found|, |ModelFiles|);
  }

  // ---------------------------------------------------------------------------
  // generate_report
  // ---------------------------------------------------------------------------

  datatype Recommendation = RunAugmentation | IncreaseAugmentation | ReadyToTrain

  /**
    The totals of a frame in the report: rows, distinct cards (0 without the
    column) and the smallest number of examples per card (0 without the column,
    `None` for NaN when the column has no value).
  */
  datatype Summary = Summary(totalImages: nat, uniqueCards: nat, minExamples: Option<nat>, counts: seq<Tally<string>>)

  function Summarize(f: DataFrame, countsColumn: string): (s: Summary)
    ensures s.totalImages == f.length
    ensures "card_name" !in f.columns ==> s.uniqueCards == 0 && s.minExamples == Some(0)
    ensures "card_name" in f.columns ==> s.minExamples == LeastExamples(f, "card_name")
    ensures countsColumn !in f.columns ==> s.counts == []
  {
    Summary(
      f.length,
      if "card_name" in f.columns then |Distinct(Texts(f.data["card_name"]))| else 0,
      if "card_name" in f.columns then LeastExamples(f, "card_name") else Some(0),
      if countsColumn in f.columns then CountsOf(f, countsColumn) else [])
  }

  /** The smallest number of examples per card of a frame with a card column and values in it. */
  function CardMinimum(df: Option<DataFrame>): (m: Option<nat>)
    ensures m.None? <==> df.None? || "card_name" !in df.value.columns || |Texts(df.value.data["card_name"])| == 0
  {
    if df.Some? && "card_name" in df.value.columns then LeastExamples(df.value, "card_name") else None
  }

  /**
    The recommendations from the two minima: run the augmentation when the base
    minimum is below 2; increase the augmentation when the augmented minimum is
    below 2, else report it ready. A NaN minimum (`None`) compares false both
    times and adds neither.
  */
  function Recommendations(baseMin: Option<nat>, augMin: Option<nat>): (rs: seq<Recommendation>)
    ensures |rs| <= 2
    ensures RunAugmentation in rs <==> baseMin.Some? && baseMin.value < EnoughExamples
    ensures IncreaseAugmentation in rs <==> augMin.Some? && augMin.value < EnoughExamples
    ensures ReadyToTrain in rs <==> augMin.Some? && augMin.value >= EnoughExamples
    ensures !(IncreaseAugmentation in rs && ReadyToTrain in rs)
  {
    var first := if baseMin.Some? && baseMin.value < EnoughExamples then [RunAugmentation] else [];
    var second :=
      if augMin.Some? && augMin.value < EnoughExamples then [IncreaseAugmentation]
      else if augMin.Some? && augMin.value >= EnoughExamples then [ReadyToTrain]
      else [];
    first + second
  }

  datatype DatasetReport = DatasetReport(base: Option<Summary>, augmented: Option<Summary>, recommendations: seq<Recommendation>)

  /** `generate_report` for the frames the checks accepted (`None` for a rejected one). */
  function GenerateReport(base: Option<DataFrame>, aug: Option<DataFrame>): (r: DatasetReport)
    ensures r.base.Some? <==> base.Some?
    ensures r.augmented.Some? <==> aug.Some?
    ensures r.recommendations == Recommendations(CardMinimum(base), CardMinimum(aug))
  {
    DatasetReport(
      if base.Some? then Some(Summarize(base.value, "set")) else None,
      if aug.Some? then Some(Summarize(aug.value, AugmentationTypeColumn)) else None,
      Recommendations(CardMinimum(base), CardMinimum(aug)))
  }

  /** `json.dump` refuses numpy's `int64`, which `value_counts().min()` returns. */
  datatype ReportError = NotSerializable

  /**
    `generate_report` as written, with its `json.dump`: the minimum of a frame
    whose card column has a value is a numpy `int64`, and the dump raises
    `TypeError` on it; `main` does not catch it. A minimum of 0 (no column) or
    NaN (no value) is a Python number and is written.
  */
  function WriteReport(base: Option<DataFrame>, aug: Option<DataFrame>): (r: Result<DatasetReport, ReportError>)
    ensures r.Err? <==> CardMinimum(base).Some? || CardMinimum(aug).Some?
    ensures r.Ok? ==> r.value == GenerateReport(base, aug)
  {
    if CardMinimum(base).Some? || CardMinimum(aug).Some? then Err(NotSerializable)
    else Ok(GenerateReport(base, aug))
  }

  /**
    As written, a report that would hold a recommendation is never written:
    every recommendation needs a minimum, and a minimum makes the dump raise.
  */
  lemma WrittenReportsHaveNoAdvice(base: Option<DataFrame>, aug: Option<DataFrame>)
    ensures WriteReport(base, aug).Ok? ==> WriteReport(base, aug).value.recommendations == []
    ensures GenerateReport(base, aug).recommendations != [] ==> WriteReport(base, aug).Err?
  {
    var rs := GenerateReport(base, aug).recommendations;
    if rs != [] {
      assert rs[0] in rs;
    }
  }

  /**
    A base frame of one card `a` would be advised to run the augmentation, and
    as written its report raises instead of being written.
  */
  lemma OneCardReportRaises()
    ensures var f := Frame(["card_name"], map["card_name" := [Text("a")]], 1);
      Rectangular(f)
      && GenerateReport(Some(f), None).recommendations == [RunAugmentation]
      && WriteReport(Some(f), None) == Err(NotSerializable)
  {
    var f := Frame(["card_name"], map["card_name" := [Text("a")]], 1);
    assert Texts(f.data["card_name"]) == ["a"];
    LeastExamplesIsLeast(f, "card_name");
  }

  function AcceptedFrame<R>(c: Checked<R>): (df: Option<DataFrame>)
    ensures df.Some? <==> c.Accepted?
  {
    if c.Accepted? then Some(c.df) else None
  }

  /**
    In `main`, the report sees only accepted frames: an accepted augmented frame
    never asks for more augmentation, and it is ready exactly when it has a card value.
  */
  lemma MainRecommendations(base: Checked<BaseReport>, csvExists: bool, dirExists: bool, loaded: Option<DataFrame>)
    ensures var aug := CheckAugmented(csvExists, dirExists, loaded);
      var rs := GenerateReport(AcceptedFrame(base), AcceptedFrame(aug)).recommendations;
      IncreaseAugmentation !in rs &&
      (aug.Accepted? ==> (ReadyToTrain in rs <==> |Texts(aug.df.data["card_name"])| > 0))
  {
  }
}
