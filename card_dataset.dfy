/**
  `BerserkCardDataset`: loading card records from a cards directory
  (`load_dataset`) and collecting image/label arrays (`create_dataset_arrays`).

  The file system is a listing of the cards directory: plain files at the root and
  sub-directories with the names of their files. Image decoding is an oracle telling
  whether the image at a path loads.
*/
module CardDataset {
  import opened Wrappers
  import opened PyStrings
  import opened Table
  import opened CardIdentity

  /** One entry of `os.listdir(cards_dir)`. */
  datatype Entry = FileEntry(name: string) | DirEntry(name: string, children: seq<string>)

  /** A record of `self.data`: the parsed card plus where it was found. */
  datatype CardRecord = CardRecord(info: CardInfo, filepath: string, classFromFolder: Option<string>)

  /** `filename.lower().endswith(('.webp', '.jpg', '.jpeg', '.png'))`. */
  predicate IsImageName(name: string) {
    var lower := Lower(name);
    EndsWith(lower, ".webp") || EndsWith(lower, ".jpg") || EndsWith(lower, ".jpeg") || EndsWith(lower, ".png")
  }

  function Names(listing: seq<Entry>): (names: seq<string>)
    ensures |names| == |listing|
    ensures forall i :: 0 <= i < |listing| ==> names[i] == listing[i].name
  {
    seq(|listing|, i requires 0 <= i < |listing| => listing[i].name)
  }

  /** The sub-directories of the listing, in listing order. */
  function Subdirs(listing: seq<Entry>): (ds: seq<Entry>)
    ensures |ds| <= |listing|
    ensures forall i :: 0 <= i < |ds| ==> ds[i].DirEntry?
  {
    if |listing| == 0 then []
    else Subdirs(listing[..|listing| - 1])
         + (if listing[|listing| - 1].DirEntry? then [listing[|listing| - 1]] else [])
  }

  /** Where the loader records a file: `subdir/filename`, or the bare name at the root. */
  function FilePathFor(folder: Option<string>, filename: string): string {
    match folder
    case Some(d) => PathJoin(d, filename)
    case None => filename
  }

  /** The record a file yields, if it is an image with a parseable name. */
  function RecordOf(filename: string, folder: Option<string>): Option<CardRecord>
  {
    if IsImageName(filename) then
      match ParseFilename(filename)
      case Some(info) => Some(CardRecord(info, FilePathFor(folder, filename), folder))
      case None => None
    else None
  }

  function AsSeq<T>(o: Option<T>): seq<T> {
    match o
    case Some(v) => [v]
    case None => []
  }

  /**
    The records that the files `names` of one folder contribute, in order: exactly
    the images with parseable names, each recorded with its folder.
  */
  function FromNames(names: seq<string>, folder: Option<string>): (rs: seq<CardRecord>)
    ensures |rs| <= |names|
  {
    if |names| == 0 then []
    else FromNames(names[..|names| - 1], folder) + AsSeq(RecordOf(names[|names| - 1], folder))
  }

  /** Every record of a folder is a parsed image of that folder, recorded with its folder. */
  lemma {:induction false} FromNamesSound(names: seq<string>, folder: Option<string>)
    ensures forall r :: r in FromNames(names, folder) ==>
      && r.info.filename in names && IsImageName(r.info.filename)
      && ParseFilename(r.info.filename) == Some(r.info)
      && r.classFromFolder == folder && r.filepath == FilePathFor(folder, r.info.filename)
  {
    if |names| > 0 {
      var init := names[..|names| - 1];
      FromNamesSound(init, folder);
      assert forall n :: n in init ==> n in names;
    }
  }

  /** Every parsed image of a folder has its record. */
  lemma {:induction false} FromNamesComplete(names: seq<string>, folder: Option<string>)
    ensures forall n :: n in names && RecordOf(n, folder).Some? ==> RecordOf(n, folder).value in FromNames(names, folder)
  {
    if |names| > 0 {
      var init := names[..|names| - 1];
      FromNamesComplete(init, folder);
      assert forall n :: n in names ==> n in init || n == names[|names| - 1];
    }
  }

  /** One step of a loop that appends the records of `names` to `acc`. */
  lemma FromNamesStep(start: seq<CardRecord>, acc: seq<CardRecord>, names: seq<string>, j: nat, folder: Option<string>)
    requires j < |names|
    requires acc == start + FromNames(names[..j], folder)
    ensures acc + AsSeq(RecordOf(names[j], folder)) == start + FromNames(names[..j + 1], folder)
    ensures RecordOf(names[j], folder).Some? ==> acc + [RecordOf(names[j], folder).value] == start + FromNames(names[..j + 1], folder)
    ensures RecordOf(names[j], folder).None? ==> acc == start + FromNames(names[..j + 1], folder)
  {
    FromNamesSnoc(names, j, folder);
    AppendAssoc(start, FromNames(names[..j], folder), AsSeq(RecordOf(names[j], folder)));
  }

  lemma FromNamesSnoc(names: seq<string>, j: nat, folder: Option<string>)
    requires j < |names|
    ensures FromNames(names[..j + 1], folder) == FromNames(names[..j], folder) + AsSeq(RecordOf(names[j], folder))
  {
    assert names[..j + 1][..j] == names[..j];
  }

  /** The records of a sequence of sub-directories, folder after folder. */
  function FromDirs(dirs: seq<Entry>): seq<CardRecord> {
    if |dirs| == 0 then []
    else FromDirs(dirs[..|dirs| - 1]) + FolderRecords(dirs[|dirs| - 1])
  }

  function FolderRecords(d: Entry): seq<CardRecord> {
    if d.DirEntry? then FromNames(d.children, Some(d.name)) else []
  }

  lemma AppendAssoc<T>(a: seq<T>, b: seq<T>, c: seq<T>)
    ensures (a + b) + c == a + (b + c)
  {
  }

  lemma FromDirsSnoc(dirs: seq<Entry>, i: nat)
    requires i < |dirs|
    ensures FromDirs(dirs[..i + 1]) == FromDirs(dirs[..i]) + FolderRecords(dirs[i])
  {
    assert dirs[..i + 1][..i] == dirs[..i];
  }

  /** The records of the folders are exactly the records of each folder. */
  lemma {:induction false} FromDirsMembers(dirs: seq<Entry>)
    ensures forall r :: r in FromDirs(dirs) ==> exists d :: d in dirs && r in FolderRecords(d)
    ensures forall d, r :: d in dirs && r in FolderRecords(d) ==> r in FromDirs(dirs)
  {
    if |dirs| > 0 {
      var init := dirs[..|dirs| - 1];
      FromDirsMembers(init);
      assert forall d :: d in dirs ==> d in init || d == dirs[|dirs| - 1];
      assert forall d :: d in init ==> d in dirs;
    }
  }

  /**
    What one `load_dataset` call appends: the folders' images when the cards directory
    has a sub-directory, otherwise the root's images.
  */
  function Loaded(listing: seq<Entry>): seq<CardRecord> {
    var subdirs := Subdirs(listing);
    if |subdirs| > 0 then FromDirs(subdirs) else FromNames(Names(listing), None)
  }

  /** The sub-directories are exactly the directory entries of the listing. */
  lemma {:induction false} SubdirsMembers(listing: seq<Entry>)
    ensures forall d :: d in Subdirs(listing) <==> d in listing && d.DirEntry?
  {
    if |listing| > 0 {
      var init := listing[..|listing| - 1];
      SubdirsMembers(init);
      assert forall d :: d in listing <==> d in init || d == listing[|listing| - 1];
    }
  }

  /** Filtering the sub-directories twice changes nothing. */
  lemma {:induction false} SubdirsIdempotent(listing: seq<Entry>)
    ensures Subdirs(Subdirs(listing)) == Subdirs(listing)
  {
    if |listing| > 0 {
      var init := listing[..|listing| - 1];
      var last := listing[|listing| - 1];
      SubdirsIdempotent(init);
      var tail := if last.DirEntry? then [last] else [];
      SubdirsAppend(Subdirs(init), tail);
      assert Subdirs(tail) == tail by {
        if last.DirEntry? { assert [last][..0] == []; }
      }
    }
  }

  lemma {:induction false} SubdirsAppend(a: seq<Entry>, b: seq<Entry>)
    ensures Subdirs(a + b) == Subdirs(a) + Subdirs(b)
    decreases |b|
  {
    if |b| == 0 {
      assert a + b == a;
    } else {
      assert (a + b)[..|a + b| - 1] == a + b[..|b| - 1];
      assert (a + b)[|a + b| - 1] == b[|b| - 1];
      SubdirsAppend(a, b[..|b| - 1]);
    }
  }

  /** As soon as a sub-directory exists, root-level files make no difference. */
  lemma RootFilesIgnored(listing: seq<Entry>)
    requires |Subdirs(listing)| > 0
    ensures Loaded(listing) == Loaded(Subdirs(listing))
  {
    SubdirsIdempotent(listing);
  }

  /** Every loaded record is a parsed image; its path and class follow the mode. */
  lemma LoadedRecordShape(listing: seq<Entry>, r: CardRecord)
    requires r in Loaded(listing)
    ensures IsImageName(r.info.filename) && ParseFilename(r.info.filename) == Some(r.info)
    ensures |Subdirs(listing)| > 0 ==>
      exists d :: d in listing && d.DirEntry? && r.info.filename in d.children
        && r.classFromFolder == Some(d.name) && r.filepath == PathJoin(d.name, r.info.filename)
    ensures |Subdirs(listing)| == 0 ==>
      r.classFromFolder.None? && r.filepath == r.info.filename && r.info.filename in Names(listing)
  {
    if |Subdirs(listing)| > 0 {
      FromDirsMembers(Subdirs(listing));
      SubdirsMembers(listing);
      var d :| d in Subdirs(listing) && r in FolderRecords(d);
      FromNamesSound(d.children, Some(d.name));
    } else {
      FromNamesSound(Names(listing), None);
    }
  }

  /** Every parseable image of the mode's folders is loaded. */
  lemma LoadedComplete(listing: seq<Entry>, filename: string)
    requires IsImageName(filename) && ParseFilename(filename).Some?
    ensures |Subdirs(listing)| == 0 && filename in Names(listing) ==>
      CardRecord(ParseFilename(filename).value, filename, None) in Loaded(listing)
    ensures forall d :: d in listing && d.DirEntry? && filename in d.children ==>
      CardRecord(ParseFilename(filename).value, PathJoin(d.name, filename), Some(d.name)) in Loaded(listing)
  {
    FromNamesComplete(Names(listing), None);
    FromDirsMembers(Subdirs(listing));
    SubdirsMembers(listing);
    forall d | d in listing && d.DirEntry? && filename in d.children
      ensures CardRecord(ParseFilename(filename).value, PathJoin(d.name, filename), Some(d.name)) in Loaded(listing)
    {
      FromNamesComplete(d.children, Some(d.name));
      assert RecordOf(filename, Some(d.name)).Some?;
      assert d in Subdirs(listing);
      assert FolderRecords(d) == FromNames(d.children, Some(d.name));
    }
  }

  /** A row of the labelled frame `create_dataset_arrays` walks. */
  datatype LabelledRow = LabelledRow(filename: Cell, filepath: Option<Cell>, cardIdEncoded: int)

  /** What happened to one row: an image loaded, a path that did not load, or an exception. */
  datatype RowOutcome = LoadedImage(path: string) | FailedPath(path: string) | RowError(index: nat)

  /**
    The image path of a row: `cards_dir/filepath` when the frame has a truthy
    filepath, else `cards_dir/filename`; `None` when the chosen cell is NaN, where
    `os.path.join` raises.
  */
  function ImagePath(cardsDir: string, row: LabelledRow): Option<string> {
    if row.filepath.Some? && Truthy(row.filepath.value) then
      match row.filepath.value
      case Text(p) => Some(PathJoin(cardsDir, p))
      case Missing => None
    else
      match row.filename
      case Text(f) => Some(PathJoin(cardsDir, f))
      case Missing => None
  }

  function Outcome(cardsDir: string, row: LabelledRow, index: nat, loads: string -> bool): RowOutcome {
    match ImagePath(cardsDir, row)
    case None => RowError(index)
    case Some(p) => if loads(p) then LoadedImage(p) else FailedPath(p)
  }

  /**
    The lists the loop has built after the first `n` rows. A failure is kept as the
    outcome that caused it: the path that did not load, or the index of the row that
    raised (the loop records the text `Index <idx>: <exception>`, whose exception
    part is not modelled).
  */
  datatype Collected = Collected(images: seq<string>, labels: seq<int>, failed: seq<RowOutcome>)

  function CollectRows(cardsDir: string, rows: seq<LabelledRow>, n: nat, loads: string -> bool): (c: Collected)
    requires n <= |rows|
    ensures |c.images| == |c.labels|
    ensures |c.images| + |c.failed| == n
  {
    if n == 0 then Collected([], [], [])
    else
      var c := CollectRows(cardsDir, rows, n - 1, loads);
      match Outcome(cardsDir, rows[n - 1], n - 1, loads)
      case LoadedImage(p) => Collected(c.images + [p], c.labels + [rows[n - 1].cardIdEncoded], c.failed)
      case o => Collected(c.images, c.labels, c.failed + [o])
  }

  /** The number of rows processed before a keyboard interrupt at row `at`, if any. */
  function Processed(count: nat, interruptAt: Option<nat>): (n: nat)
    ensures n <= count
  {
    if interruptAt.Some? && interruptAt.value < count then interruptAt.value else count
  }

  /** One more row appends its path and label when its image loads, and leaves them alone otherwise. */
  lemma CollectRowsStep(cardsDir: string, rows: seq<LabelledRow>, n: nat, loads: string -> bool)
    requires 0 < n <= |rows|
    ensures var c, c', o := CollectRows(cardsDir, rows, n, loads), CollectRows(cardsDir, rows, n - 1, loads),
                            Outcome(cardsDir, rows[n - 1], n - 1, loads);
      if o.LoadedImage? then
        c.images == c'.images + [o.path] && c.labels == c'.labels + [rows[n - 1].cardIdEncoded]
      else
        c.images == c'.images && c.labels == c'.labels
  {
  }

  /** One more row keeps the images and labels already collected. */
  lemma CollectRowsKeeps(cardsDir: string, rows: seq<LabelledRow>, n: nat, loads: string -> bool, k: nat)
    requires 0 < n <= |rows|
    requires k < |CollectRows(cardsDir, rows, n - 1, loads).images|
    ensures var c, c' := CollectRows(cardsDir, rows, n, loads), CollectRows(cardsDir, rows, n - 1, loads);
      k < |c.images| && c.images[k] == c'.images[k] && c.labels[k] == c'.labels[k]
  {
    CollectRowsStep(cardsDir, rows, n, loads);
  }

  /** One more row adds an image, its own, exactly when its path exists and loads. */
  lemma CollectRowsNew(cardsDir: string, rows: seq<LabelledRow>, n: nat, loads: string -> bool)
    requires 0 < n <= |rows|
    ensures var c, c', p := CollectRows(cardsDir, rows, n, loads), CollectRows(cardsDir, rows, n - 1, loads),
                            ImagePath(cardsDir, rows[n - 1]);
      && |c'.images| <= |c.images| <= |c'.images| + 1
      && (|c'.images| < |c.images| <==> p.Some? && loads(p.value))
      && (|c'.images| < |c.images| ==>
            c.images[|c'.images|] == p.value && c.labels[|c'.images|] == rows[n - 1].cardIdEncoded)
  {
    CollectRowsStep(cardsDir, rows, n, loads);
  }

  /** Some of the first `n` rows has image path `image` and encoded label `lab`. */
  predicate FromSomeRow(cardsDir: string, rows: seq<LabelledRow>, n: nat, image: string, lab: int)
    requires n <= |rows|
  {
    exists j :: 0 <= j < n && ImagePath(cardsDir, rows[j]) == Some(image) && rows[j].cardIdEncoded == lab
  }

  /** The `i`-th image of the lists is `image` and the `i`-th label is `lab`. */
  predicate PairedAt(c: Collected, i: nat, image: string, lab: int)
  {
    i < |c.images| && i < |c.labels| && c.images[i] == image && c.labels[i] == lab
  }

  /**
    Images and labels stay paired: the i-th image is a loading path of some processed
    row and the i-th label is that row's encoded card_id.
  */
  lemma {:induction false} CollectedSound(cardsDir: string, rows: seq<LabelledRow>, n: nat, loads: string -> bool, i: nat)
    requires n <= |rows|
    requires i < |CollectRows(cardsDir, rows, n, loads).images|
    ensures var c := CollectRows(cardsDir, rows, n, loads);
      loads(c.images[i]) && FromSomeRow(cardsDir, rows, n, c.images[i], c.labels[i])
  {
    if n > 0 {
      var c, c' := CollectRows(cardsDir, rows, n, loads), CollectRows(cardsDir, rows, n - 1, loads);
      if i < |c'.images| {
        CollectedSound(cardsDir, rows, n - 1, loads, i);
        CollectRowsKeeps(cardsDir, rows, n, loads, i);
        SomeRowWidens(cardsDir, rows, n, c.images[i], c.labels[i]);
      } else {
        CollectRowsNew(cardsDir, rows, n, loads);
        assert ImagePath(cardsDir, rows[n - 1]) == Some(c.images[i]);
      }
    }
  }

  lemma SomeRowWidens(cardsDir: string, rows: seq<LabelledRow>, n: nat, image: string, lab: int)
    requires 0 < n <= |rows|
    requires FromSomeRow(cardsDir, rows, n - 1, image, lab)
    ensures FromSomeRow(cardsDir, rows, n, image, lab)
  {
    var j :| 0 <= j < n - 1 && ImagePath(cardsDir, rows[j]) == Some(image) && rows[j].cardIdEncoded == lab;
    assert 0 <= j < n;
  }

  /**
    Conversely, every processed row whose image loads contributes its path and label
    together, at the position given by the number of images loaded before it.
  */
  lemma {:induction false} CollectedComplete(cardsDir: string, rows: seq<LabelledRow>, n: nat, loads: string -> bool, j: nat)
    requires j < n <= |rows|
    requires ImagePath(cardsDir, rows[j]).Some? && loads(ImagePath(cardsDir, rows[j]).value)
    ensures PairedAt(CollectRows(cardsDir, rows, n, loads), |CollectRows(cardsDir, rows, j, loads).images|,
                     ImagePath(cardsDir, rows[j]).value, rows[j].cardIdEncoded)
  {
    var k := |CollectRows(cardsDir, rows, j, loads).images|;
    if j < n - 1 {
      CollectedComplete(cardsDir, rows, n - 1, loads, j);
      CollectRowsKeeps(cardsDir, rows, n, loads, k);
    } else {
      CollectRowsNew(cardsDir, rows, n, loads);
    }
  }

  /** The model's stand-in for the arrays: the paths of the loaded images and their labels. */
  datatype Arrays = Arrays(images: seq<string>, labels: seq<int>)

  datatype ArraysError = NoImageLoaded   // the ValueError raised when nothing loaded

  class BerserkCardDataset {
    const cardsDir: string
    var data: seq<CardRecord>

    constructor (cardsDir: string)
      ensures this.cardsDir == cardsDir && data == []
    {
      this.cardsDir := cardsDir;
      data := [];
    }

    /**
      `load_dataset`: appends the records of this listing to `self.data` and returns
      the whole of `self.data`, earlier calls included.
    */
    method LoadDataset(listing: seq<Entry>) returns (df: seq<CardRecord>)
      modifies this
      ensures data == old(data) + Loaded(listing)
      ensures df == data
    {
      var subdirs := Subdirs(listing);
      if |subdirs| > 0 {
        AppendFolders(subdirs);
      } else {
        AppendFolder(Names(listing), None);
      }
      df := data;
    }

    /** The outer loop of `load_dataset` in sub-directory mode. */
    method AppendFolders(subdirs: seq<Entry>)
      requires forall i :: 0 <= i < |subdirs| ==> subdirs[i].DirEntry?
      modifies this
      ensures data == old(data) + FromDirs(subdirs)
    {
      var i := 0;
      while i < |subdirs|
        invariant 0 <= i <= |subdirs|
        invariant data == old(data) + FromDirs(subdirs[..i])
      {
        var d := subdirs[i];
        assert d.DirEntry?;
        ghost var before := data;
        AppendFolder(d.children, Some(d.name));
        FromDirsSnoc(subdirs, i);
        assert data == old(data) + FromDirs(subdirs[..i + 1]) by {
          assert data == before + FolderRecords(d);
          assert before == old(data) + FromDirs(subdirs[..i]);
          AppendAssoc(old(data), FromDirs(subdirs[..i]), FolderRecords(d));
        }
        i := i + 1;
      }
      assert subdirs[..i] == subdirs;
    }

    /** The inner loop of `load_dataset`: appends the records of one folder's files. */
    method AppendFolder(names: seq<string>, folder: Option<string>)
      modifies this
      ensures data == old(data) + FromNames(names, folder)
    {
      var j := 0;
      while j < |names|
        invariant 0 <= j <= |names|
        invariant data == old(data) + FromNames(names[..j], folder)
      {
        var rec := RecordOf(names[j], folder);
        FromNamesStep(old(data), data, names, j, folder);
        if rec.Some? {
          data := data + [rec.value];
        }
        j := j + 1;
      }
      assert names[..j] == names;
    }

    /**
      `create_dataset_arrays`: walks the rows, appending a loaded image together with
      its label and a failed path or row index to the failure list, and stops early at
      a keyboard interrupt; raises `ValueError` when no image loaded.
    */
    method CreateDatasetArrays(rows: seq<LabelledRow>, loads: string -> bool, interruptAt: Option<nat>)
      returns (r: Result<Arrays, ArraysError>)
      ensures var c := CollectRows(cardsDir, rows, Processed(|rows|, interruptAt), loads);
        && (r.Err? <==> |c.images| == 0)
        && (r.Ok? ==> r.value == Arrays(c.images, c.labels))
    {
      var images: seq<string> := [];
      var labels: seq<int> := [];
      var failed: seq<RowOutcome> := [];
      var idx := 0;
      while idx < |rows|
        invariant 0 <= idx <= Processed(|rows|, interruptAt)
        invariant CollectRows(cardsDir, rows, idx, loads) == Collected(images, labels, failed)
        decreases |rows| - idx
      {
        if interruptAt == Some(idx) {
          break;
        }
        var row := rows[idx];
        var path := ImagePath(cardsDir, row);
        if path.None? {
          failed := failed + [RowError(idx)];
        } else if loads(path.value) {
          images := images + [path.value];
          labels := labels + [row.cardIdEncoded];
        } else {
          failed := failed + [FailedPath(path.value)];
        }
        idx := idx + 1;
      }
      if |images| == 0 {
        return Err(NoImageLoaded);
      }
      return Ok(Arrays(images, labels));
    }
  }

  /** `self.data` only grows: loading the same directory twice yields every record twice. */
  method LoadTwice(cardsDir: string, listing: seq<Entry>) returns (second: seq<CardRecord>)
    ensures second == Loaded(listing) + Loaded(listing)
  {
    var dataset := new BerserkCardDataset(cardsDir);
    var first := dataset.LoadDataset(listing);
    assert first == [] + Loaded(listing);
    assert first == Loaded(listing);
    second := dataset.LoadDataset(listing);
  }
}
