/**
  `BerserkCardPredictor`: decoding a predicted class index back into a card
  (`decode_prediction`), the bookkeeping of `test_random_images`, and the grid
  arithmetic of `visualize_predictions`.

  The network itself is an oracle from an image path to the predicted class index
  (or nothing, when preprocessing fails); `random.sample` is the list of indices it
  returned.
*/
module Predictor {
  import opened Wrappers
  import opened PyStrings
  import opened CardIdentity
  import opened CardDataset

  /** The `card_info` dictionary: the card_id and its three fields. */
  datatype Decoded = Decoded(cardId: string, setName: string, cardNumber: string, variant: string)

  const UnknownText: string := "unknown"
  const ErrorText: string := "error"

  function Uniform(text: string): Decoded {
    Decoded(text, text, text, text)
  }

  const CardIdKey: string := "card_id"

  /**
    Python list indexing `xs[k]`: a negative index counts from the end; `None` where
    an `IndexError` would be raised.
  */
  function PyIndex<T>(xs: seq<T>, k: int): (r: Option<T>)
    ensures r.Some? <==> -|xs| <= k < |xs|
    ensures 0 <= k < |xs| ==> r == Some(xs[k])
    ensures -|xs| <= k < 0 ==> r == Some(xs[|xs| + k])
  {
    if 0 <= k < |xs| then Some(xs[k])
    else if -|xs| <= k < 0 then Some(xs[|xs| + k])
    else None
  }

  /**
    `decode_prediction(predicted_class)` over the loaded encoders (encoder name to its
    `classes` list): the missing `card_id` encoder and a negative index past the start
    raise and give "error"; an index past the end or a card_id with fewer than three
    `_`-parts gives "unknown".
  */
  function DecodePrediction(encoders: map<string, seq<string>>, k: int): Decoded {
    if CardIdKey !in encoders then Uniform(ErrorText)
    else
      var cardIds := encoders[CardIdKey];
      if k < |cardIds| then
        match PyIndex(cardIds, k)
        case None => Uniform(ErrorText)
        case Some(cardId) =>
          var parts := Split(cardId, '_');
          if |parts| >= 3 then Decoded(cardId, parts[0], parts[1], parts[2])
          else Uniform(UnknownText)
      else Uniform(UnknownText)
  }

  /** A card_id of three or more parts decodes to its first three parts and keeps the whole string. */
  lemma DecodeKnown(encoders: map<string, seq<string>>, k: int)
    requires CardIdKey in encoders && 0 <= k < |encoders[CardIdKey]|
    requires |Split(encoders[CardIdKey][k], '_')| >= 3
    ensures var cardId := encoders[CardIdKey][k]; var parts := Split(cardId, '_');
      DecodePrediction(encoders, k) == Decoded(cardId, parts[0], parts[1], parts[2])
  {
  }

  /** Which inputs decode to "unknown" and which to "error". */
  lemma DecodeFallbacks(encoders: map<string, seq<string>>, k: int)
    ensures CardIdKey !in encoders ==> DecodePrediction(encoders, k) == Uniform(ErrorText)
    ensures CardIdKey in encoders && k < -|encoders[CardIdKey]| ==> DecodePrediction(encoders, k) == Uniform(ErrorText)
    ensures CardIdKey in encoders && k >= |encoders[CardIdKey]| ==> DecodePrediction(encoders, k) == Uniform(UnknownText)
    ensures CardIdKey in encoders && 0 <= k < |encoders[CardIdKey]| && |Split(encoders[CardIdKey][k], '_')| < 3 ==>
      DecodePrediction(encoders, k) == Uniform(UnknownText)
  {
  }

  /**
    Decoding the index of a card_id composed by `prepare_labels` gives back that card's
    set, number and variant.
  */
  lemma DecodeCardId(encoders: map<string, seq<string>>, k: int, info: CardInfo)
    requires CardIdKey in encoders && 0 <= k < |encoders[CardIdKey]|
    requires encoders[CardIdKey][k] == CardId(info)
    requires NoSeparator(IdentityOf(info))
    ensures DecodePrediction(encoders, k) == Decoded(CardId(info), info.setName, info.cardNumber, info.variant)
  {
    CardIdSplit(IdentityOf(info));
  }

  /** In particular for every card parsed from a file name. */
  lemma DecodeParsedCard(encoders: map<string, seq<string>>, k: int, filename: string)
    requires ParseFilename(filename).Some?
    requires CardIdKey in encoders && 0 <= k < |encoders[CardIdKey]|
    requires encoders[CardIdKey][k] == CardId(ParseFilename(filename).value)
    ensures var info := ParseFilename(filename).value;
      DecodePrediction(encoders, k) == Decoded(CardId(info), info.setName, info.cardNumber, info.variant)
  {
    ParseFilenameFields(filename);
    DecodeCardId(encoders, k, ParseFilename(filename).value);
  }

  // ---------------------------------------------------------------------------
  // test_random_images
  // ---------------------------------------------------------------------------

  /** An image found by the test: its file name and its path. */
  datatype Found = Found(file: string, path: string)

  /**
    The root entries whose names look like images (directories included, as the root
    loop does not ask), then the images inside each sub-directory.
  */
  function RootImages(cardsDir: string, listing: seq<Entry>): (fs: seq<Found>)
    ensures |fs| <= |listing|
    ensures forall f :: f in fs ==> IsImageName(f.file) && f.path == PathJoin(cardsDir, f.file)
  {
    if |listing| == 0 then []
    else
      var name := listing[|listing| - 1].name;
      RootImages(cardsDir, listing[..|listing| - 1])
      + (if IsImageName(name) then [Found(name, PathJoin(cardsDir, name))] else [])
  }

  function FolderImages(folder: string, names: seq<string>): (fs: seq<Found>)
    ensures |fs| <= |names|
    ensures forall f :: f in fs ==> IsImageName(f.file) && f.path == PathJoin(folder, f.file)
  {
    if |names| == 0 then []
    else
      var name := names[|names| - 1];
      FolderImages(folder, names[..|names| - 1])
      + (if IsImageName(name) then [Found(name, PathJoin(folder, name))] else [])
  }

  function SubdirImages(cardsDir: string, listing: seq<Entry>): seq<Found> {
    if |listing| == 0 then []
    else
      var e := listing[|listing| - 1];
      SubdirImages(cardsDir, listing[..|listing| - 1])
      + (if e.DirEntry? then FolderImages(PathJoin(cardsDir, e.name), e.children) else [])
  }

  function ImageListing(cardsDir: string, listing: seq<Entry>): seq<Found> {
    RootImages(cardsDir, listing) + SubdirImages(cardsDir, listing)
  }

  /** Every image found has an image name; sub-directory images sit inside `cards_dir`'s folder. */
  lemma {:induction false} SubdirImagesShape(cardsDir: string, listing: seq<Entry>)
    ensures forall f :: f in SubdirImages(cardsDir, listing) ==>
      IsImageName(f.file) &&
      exists e :: e in listing && e.DirEntry? && f.file in e.children && f.path == PathJoin(PathJoin(cardsDir, e.name), f.file)
  {
    if |listing| > 0 {
      var init := listing[..|listing| - 1];
      var e := listing[|listing| - 1];
      SubdirImagesShape(cardsDir, init);
      assert forall x :: x in init ==> x in listing;
      if e.DirEntry? {
        FolderImagesMembers(PathJoin(cardsDir, e.name), e.children);
      }
    }
  }

  lemma {:induction false} FolderImagesMembers(folder: string, names: seq<string>)
    ensures forall f :: f in FolderImages(folder, names) ==> f.file in names
  {
    if |names| > 0 {
      FolderImagesMembers(folder, names[..|names| - 1]);
      assert forall x :: x in names[..|names| - 1] ==> x in names;
    }
  }

  /** One row of the `results` list (the confidence, a float, is not modelled). */
  datatype TestResult = TestResult(imageFile: string, imagePath: string, trueCardId: string,
                                   predictedCardId: string, isCorrect: bool)

  datatype TestError =
    | NegativeSample             // `random.sample` with a negative size
    | UnparseableTruth(file: string)  // `true_info` is None but was subscripted

  /** `f"{set_name}_{card_number}_{variant}"` of the parsed true card. */
  function TrueCardId(file: string): Option<string> {
    match ParseFilename(file)
    case None => None
    case Some(info) => Some(CardId(info))
  }

  /**
    What testing one image adds: nothing when the prediction fails, otherwise a result
    whose `is_correct` compares the true and the predicted card_id; a prediction for
    a file whose name does not parse raises.
  */
  function TestOne(f: Found, encoders: map<string, seq<string>>, predict: string -> Option<int>): Result<seq<TestResult>, TestError>
  {
    match predict(f.path)
    case None => Ok([])
    case Some(k) =>
      match TrueCardId(f.file)
      case None => Err(UnparseableTruth(f.file))
      case Some(trueId) =>
        var predicted := DecodePrediction(encoders, k).cardId;
        Ok([TestResult(f.file, f.path, trueId, predicted, trueId == predicted)])
  }

  /** The results for the first `n` sampled indices. */
  function RunTests(images: seq<Found>, sampled: seq<nat>, n: nat, encoders: map<string, seq<string>>,
                    predict: string -> Option<int>): Result<seq<TestResult>, TestError>
    requires n <= |sampled|
    requires forall i :: 0 <= i < |sampled| ==> sampled[i] < |images|
  {
    if n == 0 then Ok([])
    else
      match RunTests(images, sampled, n - 1, encoders, predict)
      case Err(e) => Err(e)
      case Ok(rs) =>
        match TestOne(images[sampled[n - 1]], encoders, predict)
        case Err(e) => Err(e)
        case Ok(more) => Ok(rs + more)
  }

  /** `min(num_images, len(image_files))`, negative when `num_images` is. */
  function SampleSize(numImages: int, available: nat): int {
    if numImages < available then numImages else available
  }

  /** What `random.sample(range(available), size)` returns: `size` distinct indices. */
  predicate ValidSample(sampled: seq<nat>, available: nat, size: int) {
    && (size >= 0 ==> |sampled| == size)
    && (forall i :: 0 <= i < |sampled| ==> sampled[i] < available)
    && (forall i, j :: 0 <= i < j < |sampled| ==> sampled[i] != sampled[j])
  }

  /** Results stay within the sample and each one compares the card_ids it records. */
  lemma {:induction false} RunTestsShape(images: seq<Found>, sampled: seq<nat>, n: nat,
                                         encoders: map<string, seq<string>>, predict: string -> Option<int>)
    requires n <= |sampled|
    requires forall i :: 0 <= i < |sampled| ==> sampled[i] < |images|
    requires RunTests(images, sampled, n, encoders, predict).Ok?
    ensures var rs := RunTests(images, sampled, n, encoders, predict).value;
      && |rs| <= n
      && (forall r :: r in rs ==> (r.isCorrect <==> r.trueCardId == r.predictedCardId))
      && (forall r :: r in rs ==> (exists i :: 0 <= i < n && images[sampled[i]] == Found(r.imageFile, r.imagePath)))
      && (forall r :: r in rs ==> TrueCardId(r.imageFile) == Some(r.trueCardId))
  {
    if n > 0 {
      RunTestsShape(images, sampled, n - 1, encoders, predict);
    }
  }

  /** `sum(1 for r in results if r['is_correct'])`. */
  function CountCorrect(rs: seq<TestResult>): (c: nat)
    ensures c <= |rs|
    ensures c == |rs| <==> forall r :: r in rs ==> r.isCorrect
  {
    if |rs| == 0 then 0
    else
      var c := CountCorrect(rs[..|rs| - 1]);
      assert forall r :: r in rs <==> r in rs[..|rs| - 1] || r == rs[|rs| - 1];
      c + (if rs[|rs| - 1].isCorrect then 1 else 0)
  }

  /** The two parallel lists `image_files` and `image_paths` hold exactly `found`, in order. */
  predicate Pairs(files: seq<string>, paths: seq<string>, found: seq<Found>) {
    && |files| == |paths| == |found|
    && forall j :: 0 <= j < |found| ==> found[j] == Found(files[j], paths[j])
  }

  lemma PairsSnoc(files: seq<string>, paths: seq<string>, found: seq<Found>, f: string, p: string)
    requires Pairs(files, paths, found)
    ensures Pairs(files + [f], paths + [p], found + [Found(f, p)])
  {
  }

  lemma RootImagesStep(cardsDir: string, listing: seq<Entry>, i: nat)
    requires i < |listing|
    ensures RootImages(cardsDir, listing[..i + 1]) == RootImages(cardsDir, listing[..i])
      + (if IsImageName(listing[i].name) then [Found(listing[i].name, PathJoin(cardsDir, listing[i].name))] else [])
  {
    assert listing[..i + 1][..i] == listing[..i];
  }

  lemma FolderImagesStep(folder: string, names: seq<string>, i: nat)
    requires i < |names|
    ensures FolderImages(folder, names[..i + 1]) == FolderImages(folder, names[..i])
      + (if IsImageName(names[i]) then [Found(names[i], PathJoin(folder, names[i]))] else [])
  {
    assert names[..i + 1][..i] == names[..i];
  }

  lemma SubdirImagesStep(cardsDir: string, listing: seq<Entry>, i: nat)
    requires i < |listing|
    ensures SubdirImages(cardsDir, listing[..i + 1]) == SubdirImages(cardsDir, listing[..i])
      + (if listing[i].DirEntry? then FolderImages(PathJoin(cardsDir, listing[i].name), listing[i].children) else [])
  {
    assert listing[..i + 1][..i] == listing[..i];
  }

  /** The root loop of `test_random_images`: every root entry with an image name. */
  method ListRootImages(cardsDir: string, listing: seq<Entry>) returns (imageFiles: seq<string>, imagePaths: seq<string>)
    ensures Pairs(imageFiles, imagePaths, RootImages(cardsDir, listing))
  {
    imageFiles, imagePaths := [], [];
    var i := 0;
    while i < |listing|
      invariant 0 <= i <= |listing|
      invariant Pairs(imageFiles, imagePaths, RootImages(cardsDir, listing[..i]))
    {
      var f := listing[i].name;
      RootImagesStep(cardsDir, listing, i);
      if IsImageName(f) {
        PairsSnoc(imageFiles, imagePaths, RootImages(cardsDir, listing[..i]), f, PathJoin(cardsDir, f));
        imageFiles := imageFiles + [f];
        imagePaths := imagePaths + [PathJoin(cardsDir, f)];
      }
      i := i + 1;
    }
    assert listing[..i] == listing;
  }

  /** The inner loop over one sub-directory's files, appending to the lists so far. */
  method ListFolderImages(folder: string, names: seq<string>, files0: seq<string>, paths0: seq<string>, ghost found0: seq<Found>)
    returns (imageFiles: seq<string>, imagePaths: seq<string>)
    requires Pairs(files0, paths0, found0)
    ensures Pairs(imageFiles, imagePaths, found0 + FolderImages(folder, names))
  {
    imageFiles, imagePaths := files0, paths0;
    var j := 0;
    assert found0 + FolderImages(folder, names[..0]) == found0;
    while j < |names|
      invariant 0 <= j <= |names|
      invariant Pairs(imageFiles, imagePaths, found0 + FolderImages(folder, names[..j]))
    {
      var f := names[j];
      FolderImagesStep(folder, names, j);
      if IsImageName(f) {
        PairsSnoc(imageFiles, imagePaths, found0 + FolderImages(folder, names[..j]), f, PathJoin(folder, f));
        AppendAssoc(found0, FolderImages(folder, names[..j]), [Found(f, PathJoin(folder, f))]);
        imageFiles := imageFiles + [f];
        imagePaths := imagePaths + [PathJoin(folder, f)];
      } else {
        assert FolderImages(folder, names[..j + 1]) == FolderImages(folder, names[..j]);
      }
      j := j + 1;
    }
    assert names[..j] == names;
  }

  /** The loop over the sub-directories of `cards_dir`, appending to the root images. */
  method ListSubdirImages(cardsDir: string, listing: seq<Entry>, files0: seq<string>, paths0: seq<string>, ghost found0: seq<Found>)
    returns (imageFiles: seq<string>, imagePaths: seq<string>)
    requires Pairs(files0, paths0, found0)
    ensures Pairs(imageFiles, imagePaths, found0 + SubdirImages(cardsDir, listing))
  {
    imageFiles, imagePaths := files0, paths0;
    var i := 0;
    assert found0 + SubdirImages(cardsDir, listing[..0]) == found0;
    while i < |listing|
      invariant 0 <= i <= |listing|
      invariant Pairs(imageFiles, imagePaths, found0 + SubdirImages(cardsDir, listing[..i]))
    {
      var e := listing[i];
      SubdirImagesStep(cardsDir, listing, i);
      if e.DirEntry? {
        var subdirPath := PathJoin(cardsDir, e.name);
        imageFiles, imagePaths := ListFolderImages(subdirPath, e.children, imageFiles, imagePaths,
                                                   found0 + SubdirImages(cardsDir, listing[..i]));
        AppendAssoc(found0, SubdirImages(cardsDir, listing[..i]), FolderImages(subdirPath, e.children));
      } else {
        assert SubdirImages(cardsDir, listing[..i + 1]) == SubdirImages(cardsDir, listing[..i]);
      }
      i := i + 1;
    }
    assert listing[..i] == listing;
  }

  /** Both listing loops of `test_random_images`. */
  method ListImages(cardsDir: string, listing: seq<Entry>) returns (imageFiles: seq<string>, imagePaths: seq<string>)
    ensures Pairs(imageFiles, imagePaths, ImageListing(cardsDir, listing))
  {
    imageFiles, imagePaths := ListRootImages(cardsDir, listing);
    imageFiles, imagePaths := ListSubdirImages(cardsDir, listing, imageFiles, imagePaths, RootImages(cardsDir, listing));
  }

  lemma RunTestsStep(images: seq<Found>, sampled: seq<nat>, i: nat, encoders: map<string, seq<string>>,
                     predict: string -> Option<int>, rs: seq<TestResult>)
    requires i < |sampled|
    requires forall j :: 0 <= j < |sampled| ==> sampled[j] < |images|
    requires RunTests(images, sampled, i, encoders, predict) == Ok(rs)
    ensures RunTests(images, sampled, i + 1, encoders, predict)
         == match TestOne(images[sampled[i]], encoders, predict)
            case Err(e) => Err(e)
            case Ok(more) => Ok(rs + more)
  {
  }

  /** The first error raised ends the test run: later samples cannot change it. */
  lemma {:induction false} RunTestsErrorStays(images: seq<Found>, sampled: seq<nat>, m: nat, n: nat,
                                              encoders: map<string, seq<string>>, predict: string -> Option<int>)
    requires m <= n <= |sampled|
    requires forall j :: 0 <= j < |sampled| ==> sampled[j] < |images|
    requires RunTests(images, sampled, m, encoders, predict).Err?
    ensures RunTests(images, sampled, n, encoders, predict) == RunTests(images, sampled, m, encoders, predict)
  {
    if n > m {
      RunTestsErrorStays(images, sampled, m, n - 1, encoders, predict);
    }
  }

  /** The loop over the sampled indices, testing each image in turn. */
  method TestSampled(imageFiles: seq<string>, imagePaths: seq<string>, ghost images: seq<Found>, sampled: seq<nat>,
                     encoders: map<string, seq<string>>, predict: string -> Option<int>)
    returns (r: Result<seq<TestResult>, TestError>)
    requires Pairs(imageFiles, imagePaths, images)
    requires forall j :: 0 <= j < |sampled| ==> sampled[j] < |images|
    ensures r == RunTests(images, sampled, |sampled|, encoders, predict)
  {
    var results: seq<TestResult> := [];
    var i := 0;
    while i < |sampled|
      invariant 0 <= i <= |sampled|
      invariant RunTests(images, sampled, i, encoders, predict) == Ok(results)
    {
      var idx := sampled[i];
      var imageFile := imageFiles[idx];
      var imagePath := imagePaths[idx];
      RunTestsStep(images, sampled, i, encoders, predict, results);
      assert images[idx] == Found(imageFile, imagePath);
      var trueInfo := ParseFilename(imageFile);
      var prediction := predict(imagePath);
      if prediction.Some? {
        if trueInfo.None? {
          RunTestsErrorStays(images, sampled, i + 1, |sampled|, encoders, predict);
          return Err(UnparseableTruth(imageFile));
        }
        var trueCardId := CardId(trueInfo.value);
        var predictedCardId := DecodePrediction(encoders, prediction.value).cardId;
        var isCorrect := trueCardId == predictedCardId;
        results := results + [TestResult(imageFile, imagePath, trueCardId, predictedCardId, isCorrect)];
      } else {
        assert results + [] == results;
      }
      i := i + 1;
    }
    return Ok(results);
  }

  /**
    `test_random_images(cards_dir, num_images)`: an empty listing gives no results;
    a negative sample size raises; otherwise the sampled images are tested in sample
    order.
  */
  method TestRandomImages(cardsDir: string, listing: seq<Entry>, numImages: int, sampled: seq<nat>,
                          encoders: map<string, seq<string>>, predict: string -> Option<int>)
    returns (r: Result<seq<TestResult>, TestError>)
    requires var n := |ImageListing(cardsDir, listing)|; n > 0 ==> ValidSample(sampled, n, SampleSize(numImages, n))
    ensures |ImageListing(cardsDir, listing)| == 0 ==> r == Ok([])
    ensures |ImageListing(cardsDir, listing)| > 0 && numImages < 0 ==> r == Err(NegativeSample)
    ensures |ImageListing(cardsDir, listing)| > 0 && numImages >= 0 ==>
      r == RunTests(ImageListing(cardsDir, listing), sampled, |sampled|, encoders, predict)
  {
    var imageFiles, imagePaths := ListImages(cardsDir, listing);
    if |imageFiles| == 0 {
      return Ok([]);
    }
    var size := SampleSize(numImages, |imageFiles|);
    if size < 0 {
      return Err(NegativeSample);
    }
    r := TestSampled(imageFiles, imagePaths, ImageListing(cardsDir, listing), sampled, encoders, predict);
  }

  // ---------------------------------------------------------------------------
  // visualize_predictions
  // ---------------------------------------------------------------------------

  /** `cols = min(3, n)` and `rows = (n + cols - 1) // cols`; no layout for no results. */
  function GridLayout(n: nat): Option<(nat, nat)> {
    if n == 0 then None
    else
      var cols := if n < 3 then n else 3;
      Some(((n + cols - 1) / cols, cols))
  }

  /** The grid holds every result and has no empty row. */
  lemma GridLayoutFits(n: nat)
    requires n > 0
    ensures var (rows, cols) := GridLayout(n).value;
      && 1 <= cols <= 3 && rows >= 1
      && rows * cols >= n
      && (rows - 1) * cols < n
  {
    var (rows, cols) := GridLayout(n).value;
    var q, m := (n + cols - 1) / cols, (n + cols - 1) % cols;
    assert n + cols - 1 == q * cols + m;
    assert rows == q;
  }
}
