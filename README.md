# Berserk card recognition: a verified model of the dataset pipeline

Berserk is a collectible card game. This repository trains an image classifier that recognises its cards. This Dafny project models the parts of the repository that decide which card an image shows, which files enter the dataset, and what the diagnostic scripts report. The model runs from the name of an image file to the class label that training and testing use. It covers:

- **Card identity** (`card_identity.dfy`): `parse_filename` splits a stem such as `s1_042_pf` or `s1_042_pf_aug_3` at `_`. The first two parts are the set name and the card number. The third part, if present, is the variant, and `normal` otherwise. An `aug_<k>` suffix comes off before the fields are read, but only when at least four parts exist. `prepare_labels` composes the `card_id` from the three fields.
- **Dataset loading** (`card_dataset.dfy`): `BerserkCardDataset.load_dataset` walks the class sub-folders of the cards folder. Without sub-folders it walks the root instead. It keeps the `.webp`/`.jpg`/`.jpeg`/`.png` files whose names parse and appends their records to `self.data`. `create_dataset_arrays` then collects the loadable images and their labels.
- **Augmentation** (`augmentation.dfy`): `create_augmented_dataset` writes one `original` record and `n` derived records per source image. The derived records cycle through five augmentation kinds and are named `<stem>_aug_<i>.webp`. A failing image drops the rest of its own records, and an empty source folder ends in a division by zero.
- **Prediction decoding and the test run** (`predictor.dfy`): `decode_prediction` maps a class index, Python indexing included, to the card fields. `test_random_images` lists the images, samples them and compares the true and the predicted `card_id`. It also models the grid layout of `visualize_predictions`.
- **Folder organisation** (`class_patterns.dfy`, `organizer.dfy`): `extract_class_from_filename` tries a cascade of five anchored regular expressions. Otherwise it falls back to the text before the first `_` or digit, or `unknown` when that is empty. `organize_cards` groups the root images by class, creates one folder per class and moves each file into its folder. The folder is a class with its directory map as a field.
- **Diagnostics** (`counting.dfy`, `dataset_issues.dfy`, `class_analysis.dfy`, `dataset_check.dfy`): the `value_counts`, `Counter`, `min`/`max` and `nunique` figures that `analyze_dataset_issues.py`, `analyze_classes.py` and `check_dataset.py` print. It also models their accept/reject decisions and the training recommendations.

Shared Python semantics are written out in `py_strings.dfy` and `wrappers.dfy`:

- `str.split`, which keeps empty parts;
- `os.path.splitext`, where leading dots are not an extension;
- `os.path.join`;
- `pathlib` suffix and stem;
- `int()`, with the surrounding white space it skips (the space and `\t` to `\r`, not the `\x1c` to `\x1f` that `str.isspace` also accepts), `_` digit groups and the 4300-digit limit of `sys.get_int_max_str_digits()`;
- ASCII `str.lower`.

Directory listings, file existence, image decoding, model predictions and move failures are parameters of the operations that need them. Each is a sequence in the order the filesystem returns it, or a predicate on paths.

Two behaviours of the code are worth stating on their own:

- `parse_filename` (data_preparation.py:33-35) drops an augmentation suffix when the stem has at least four parts and the next-to-last is `aug`. The last part may be anything.
- `create_augmented_dataset` writes every copy and every augmented file flat into one output folder (data_augmentation.py:140,158).

## Model

| member | source | states |
|---|---|---|
| PyStrings.Lower | data_preparation.py:63 | lower-casing keeps the length and lower-cases each ASCII letter in place |
| PyStrings.Split | data_preparation.py:26 | `str.split` gives at least one part, no part holds the separator, and joining the parts with it restores the text |
| PyStrings.SplitWithoutSep | data_preparation.py:26-29 | a text without the separator splits into itself alone |
| PyStrings.SplitJoin | data_preparation.py:92 | splitting a join of separator-free parts gives back exactly those parts |
| PyStrings.LastIndexOf | data_preparation.py:23 | the index found holds the character and no later index does; -1 when it is absent |
| PyStrings.SplitExt | data_preparation.py:23 | `splitext` cuts the path into root + ext, the ext being empty or one dot-led segment with no other dot and no `/` |
| PyStrings.SplitExtAppend | data_augmentation.py:156-157 | appending an extension to a name that has a base keeps that name as the root |
| PyStrings.Stem | data_preparation.py:23 | the part of `splitext` before the extension; `SplitExt` states its shape and `SplitExtAppend` that an appended extension comes off again |
| PyStrings.PathJoinParts | data_preparation.py:146-148 | `os.path.join(a, b)` ends with `b`, and for a relative `b` starts with `a` and puts `/` between them when `a` is not empty |
| PyStrings.PathJoin | data_preparation.py:146-148 | `os.path.join` of two parts; `PathJoinParts` states where each part ends up |
| PyStrings.PathSuffix | organize_cards.py:28-29 | the `pathlib` suffix is empty or starts with a dot |
| PyStrings.PathStem | organize_cards.py:41 | stem followed by suffix is the whole name |
| PyStrings.NatToString | data_augmentation.py:157 | the decimal text of a number is non-empty, all digits, without a leading zero |
| PyStrings.NatToStringValue | data_augmentation.py:157 | the digits of the decimal text denote the number again |
| PyStrings.NatToStringInjective | data_augmentation.py:157 | distinct numbers give distinct texts |
| PyStrings.Strip | data_augmentation.py:213 | the text `int()` reads is empty only for white space alone, and neither starts nor ends with the space or `\t` to `\r` |
| PyStrings.StripSlice | data_augmentation.py:213 | that text is a slice of the input with only white space before and after it |
| PyStrings.RemoveUnderscores | data_augmentation.py:213 | dropping the digit-group underscores leaves only digits |
| PyStrings.ParseInt | data_augmentation.py:213 | `int()` of a text; `ParseIntOfNatToString` and `ParseIntBeyondLimit` state that it reads a decimal text back exactly when it has at most 4300 digits |
| PyStrings.ParseIntOfNatToString | data_augmentation.py:212-215 | `int()` reads back the decimal text of every natural number of at most 4300 digits |
| PyStrings.ParseIntSpaces | data_augmentation.py:213 | `int()` skips a leading space and a trailing tab, but raises for a leading `\x1c` or a trailing `\x1f` |
| PyStrings.ParseIntBeyondLimit | data_augmentation.py:212-217 | the decimal text of a number with more than 4300 digits makes `int()` raise `ValueError` |
| CardIdentity.IdentityParts | data_preparation.py:33-35 | dropping the augmentation suffix keeps a prefix of the parts, and at least two of them when there were two |
| CardIdentity.CardIdOf | data_preparation.py:92 | the `card_id` of set, number and variant joined by `_`; `CardIdSplit` states that it splits back into the three fields |
| CardIdentity.CardId | data_preparation.py:92 | the `card_id` of one row; `CardIds` states that the column holds it for each row and `ParsedCardIdSplit` that a parsed file's id splits back into its fields |
| CardIdentity.ParseFilename | data_preparation.py:20-47 | a name is rejected exactly when its stem has fewer than two `_`-parts; an accepted one keeps the filename and the stem as full name |
| CardIdentity.ParseFilenameFields | data_preparation.py:37-39 | set and number are the first two identity parts, the variant the third or `normal`, and no field contains `_` |
| CardIdentity.CardIds | data_preparation.py:92 | the `card_id` column has one entry per row, composed from that row's set, number and variant |
| CardIdentity.CardIdSplit | data_preparation.py:92 | a card_id of separator-free fields splits back into set, number and variant |
| CardIdentity.ParsedCardIdSplit | data_preparation.py:26-39 | the card_id of any parsed file splits back into the fields the parse found |
| CardIdentity.ParseCardIdFile | data_preparation.py:20-47 | a file named `<card_id><ext>` parses to that identity with the card_id as its full name |
| CardIdentity.ParseAugmentedFile | data_preparation.py:33-35 | a file named `<card_id>_aug_<k><ext>` parses to the same identity, its full name keeping the suffix |
| CardIdentity.ParseTwoPartFile | data_preparation.py:39 | `<set>_<number><ext>` parses with the variant `normal` |
| CardIdentity.ParseExampleShortAug | data_preparation.py:33-39 | `s1_aug_3.webp` has too few parts for a suffix: its card number is `aug` and its variant `3` |
| CardIdentity.ParseExampleNoSeparator | data_preparation.py:28-29 | `weird.webp` is rejected |
| Counting.Distinct | analyze_dataset_issues.py:76 | the distinct values have no repetition and are exactly the values occurring |
| Counting.ValueCounts | analyze_dataset_issues.py:94 | one positive tally per distinct value, every occurring value tallied |
| Counting.ValueCountsSum | analyze_classes.py:98 | the tallies of `value_counts` add up to the number of rows |
| Counting.SortByCount | analyze_classes.py:28 | `sort_values` yields the same tallies, ordered by count |
| Counting.MinCount | analyze_dataset_issues.py:99 | the minimum is a count present and at most every count; none (NaN) for no tallies |
| Counting.MaxCount | analyze_dataset_issues.py:98 | the maximum is a count present and at least every count; none (NaN) for no tallies |
| Counting.WithCount | analyze_classes.py:36 | the boolean filter keeps exactly the tallies whose count lies in the bounds |
| Counting.WithCountSplit | analyze_dataset_issues.py:95-97 | the classes in a count range are those in its lower part plus those in its upper part |
| Counting.SumWithCountSplit | analyze_classes.py:97-104 | likewise for the examples in a count range |
| Counting.SumWithCountExact | analyze_classes.py:97 | the classes with exactly k examples hold k examples each |
| Counting.SumCountsPerm | analyze_classes.py:98 | reordering tallies does not change their sum |
| Counting.AddClass | analyze_dataset_issues.py:137-138 | counting one more class of a size keeps the distribution ordered and adds one class and that many examples |
| Counting.Distribution | analyze_dataset_issues.py:137-141 | `sorted(Counter(counts).items())` lists each size once, in increasing order |
| Counting.DistributionLookup | analyze_dataset_issues.py:137-142 | each line gives the number of classes with that size |
| Counting.DistributionSums | analyze_dataset_issues.py:137-142 | the lines count every class once and, size times classes, every example |
| CardDataset.Subdirs | data_preparation.py:54-55 | the sub-folder list keeps only folders |
| CardDataset.IsImageName | data_preparation.py:63 | the lower-cased name ends with one of the four image extensions; `FromNamesSound` and `FromNamesComplete` state that exactly such names that parse become records |
| CardDataset.FromNames | data_preparation.py:62-69 | the records of one listing, at most one per name; `FromNamesSound` and `FromNamesComplete` state which names give them |
| CardDataset.FromDirs | data_preparation.py:60-69 | the records of the sub-folders in turn; `FromDirsMembers` states that they are exactly those of each sub-folder |
| CardDataset.Loaded | data_preparation.py:57-79 | the records `load_dataset` finds; `LoadedRecordShape`, `LoadedComplete` and `RootFilesIgnored` state which they are |
| CardDataset.ImagePath | data_preparation.py:146-148 | a row's `filepath` when it is set, else its `filename`, joined to the cards folder; `CollectRowsNew`, `CollectedSound` and `CollectedComplete` state that exactly the rows whose path loads give images |
| CardDataset.SubdirsMembers | data_preparation.py:54-55 | an entry is among the sub-folders iff it is a folder of the listing |
| CardDataset.FromNamesSound | data_preparation.py:62-69 | each record comes from a listed image name that parses, with its folder as class and `folder/name` as path |
| CardDataset.FromNamesComplete | data_preparation.py:62-69 | every listed image name that parses becomes a record |
| CardDataset.FromDirsMembers | data_preparation.py:60-69 | the records of all sub-folders are exactly the records of each |
| CardDataset.RootFilesIgnored | data_preparation.py:57-70 | once sub-folders exist, files at the root contribute nothing |
| CardDataset.LoadedRecordShape | data_preparation.py:57-79 | a loaded record is an image whose name parses; it lies in a sub-folder named as its class, or at the root with no class and its name as path when there are no sub-folders |
| CardDataset.LoadedComplete | data_preparation.py:57-79 | every image that parses, in any sub-folder or at a root without sub-folders, is loaded |
| CardDataset.CollectRows | data_preparation.py:142-174 | images and labels stay paired, and every processed row adds an image or a failure |
| CardDataset.Processed | data_preparation.py:167-170 | an interrupt stops the walk at or before the last row |
| CardDataset.CollectRowsStep | data_preparation.py:150-156 | a new row appends its image and label when the image loads, and its failure otherwise |
| CardDataset.CollectRowsNew | data_preparation.py:145-156 | a row adds at most one image, exactly when its path exists and loads, and that image is paired with the row's label |
| CardDataset.CollectedSound | data_preparation.py:145-154 | every collected image and label come from one processed row whose path loads |
| CardDataset.CollectedComplete | data_preparation.py:145-154 | every processed row whose image loads is collected, at its position among the loaded ones, with its label |
| CardDataset.BerserkCardDataset.constructor | data_preparation.py:11-13 | a new dataset remembers its folder and holds no records |
| CardDataset.BerserkCardDataset.LoadDataset | data_preparation.py:49-82 | `self.data` grows by the loaded records of the listing, and the frame returned is all of `self.data` |
| CardDataset.BerserkCardDataset.AppendFolders | data_preparation.py:60-69 | the records of each sub-folder are appended in listing order |
| CardDataset.BerserkCardDataset.AppendFolder | data_preparation.py:62-69 | the records of one folder's image names are appended in order |
| CardDataset.BerserkCardDataset.CreateDatasetArrays | data_preparation.py:133-186 | the arrays are the images and labels collected up to the interrupt, and a `ValueError` exactly when none loaded |
| CardDataset.LoadTwice | data_preparation.py:49-82 | loading twice into one dataset returns every record twice, since `self.data` is never cleared |
| Augmentation.KindForSlot | data_augmentation.py:149-150 | slot i uses kind i mod 5 of the five kinds |
| Augmentation.AugFilename | data_augmentation.py:156-157 | the name `<stem>_aug_<i + 1>.webp`; `AugFilenameInjective`, `AugFilenameDiffers`, `AugFilenameStem`, `AugFilenameParts` and `AugFilenameIdentity` state its properties |
| Augmentation.RowRecords | data_augmentation.py:142-171 | the records one source row keeps; `AugmentSource` and `CompletedSource` state that they are its records up to the point where it fails |
| Augmentation.AllRecords | data_augmentation.py:126-171 | the records of all rows in turn; `AllRecordsCount`, `AllRecordsNoFailure` and `AllRecordsOrigin` state their number and origin |
| Augmentation.SourceRecords | data_augmentation.py:142-167 | one original record followed by the n derived records in slot order |
| Augmentation.Kept | data_augmentation.py:169-171 | a failure keeps at most the records made so far; no failure keeps all |
| Augmentation.CreateAugmentedDataset | data_augmentation.py:112-184 | the records for the loaded source images, or the division-by-zero failure exactly when none loaded |
| Augmentation.AugmentRows | data_augmentation.py:126-171 | the augmented list is the records of each source row in turn |
| Augmentation.AugmentSource | data_augmentation.py:127-171 | one row contributes its records up to the point where its image fails |
| Augmentation.AugmentSlots | data_augmentation.py:149-167 | the inner loop appends the derived records, cut at the failing slot |
| Augmentation.SourceRecordsPrefix | data_augmentation.py:149-150 | the records for fewer slots are a prefix of those for more |
| Augmentation.CompletedSource | data_augmentation.py:142-167 | a row that never fails within its slots contributes all of its records |
| Augmentation.AllRecordsCount | data_augmentation.py:174-180 | the record count is the sum of what each row kept, at most (1 + n) per row |
| Augmentation.AllRecordsNoFailure | data_augmentation.py:142-167 | without failures there are exactly (1 + n) records per row |
| Augmentation.AllRecordsOrigin | data_augmentation.py:142-167 | every record names a source row's file as its original |
| Augmentation.AugFilenameInjective | data_augmentation.py:156-157 | different slots give different file names |
| Augmentation.AugFilenameDiffers | data_augmentation.py:140-157 | a derived name never equals its source's name |
| Augmentation.SourceNamesDistinct | data_augmentation.py:140-158 | the records of one source all have different file names |
| Augmentation.AugFilenameStem | data_augmentation.py:156-157 | the derived stem is the source stem + `_aug_` + the slot number counted from 1 |
| Augmentation.AugFilenameIdentity | data_augmentation.py:156-157 | a derived file parses to the identity of its source |
| Augmentation.AugFilenameParts | data_augmentation.py:156-157 | the derived stem's parts are the source's parts followed by `aug` and the slot number |
| Augmentation.SourceRecordsIdentity | data_augmentation.py:142-167 | every record of a source parses to the source's identity |
| Augmentation.NumAugmentations | data_augmentation.py:212-218 | the count entered, if `int()` accepts it (at most 4300 digits) and it is at least 1; otherwise the default |
| Augmentation.NumAugmentationsOfCount | data_augmentation.py:212-215 | typing a positive number of at most 4300 digits selects exactly that number |
| Augmentation.NumAugmentationsFileSeparator | data_augmentation.py:212-217 | the count `\x1c7` falls back to the default, while ` 7\t` selects 7 |
| Augmentation.NumAugmentationsBeyondLimit | data_augmentation.py:212-217 | a number typed with more than 4300 digits makes `int()` raise, so the default is used |
| Predictor.PyIndex | test_model.py:123 | Python indexing: indices from -len to len-1 select, negative ones from the end |
| Predictor.DecodeKnown | test_model.py:122-137 | a known index whose card_id has three parts decodes to those parts |
| Predictor.DecodePrediction | test_model.py:116-143 | the card fields of a class index; `DecodeKnown`, `DecodeFallbacks` and `DecodeCardId` state its results |
| Predictor.DecodeFallbacks | test_model.py:118-143 | a missing encoder or an index below -len gives the error text; an index past the end or a short card_id gives `unknown` |
| Predictor.DecodeCardId | test_model.py:126-131 | decoding the class of a card's id gives back that card's fields |
| Predictor.DecodeParsedCard | test_model.py:116-137 | decoding the class of a file's card_id gives the fields its name parses to |
| Predictor.RootImages | test_model.py:152-155 | root images are image names joined to the folder |
| Predictor.FolderImages | test_model.py:161-164 | sub-folder images are image names joined to the sub-folder |
| Predictor.SubdirImagesShape | test_model.py:158-164 | every listed sub-folder image is an image of some sub-folder, joined to its path |
| Predictor.RunTestsShape | test_model.py:177-209 | at most one result per sample, each from a sampled image, with its true card_id and `is_correct` iff the ids agree |
| Predictor.TestOne | test_model.py:184-209 | the test of one sampled image: nothing when the prediction fails, the `TypeError` of subscripting `None` for a name that does not parse, otherwise one result; `RunTestsShape` states what that result holds |
| Predictor.RunTests | test_model.py:177-211 | the tests of the first n samples in turn; `RunTestsShape`, `RunTestsErrorStays` and `TestSampled` state what they return |
| Predictor.CountCorrect | test_model.py:215 | the correct results are at most all of them, and all exactly when each is correct |
| Predictor.ListRootImages | test_model.py:152-155 | the two lists are the names and paths of the root images, paired |
| Predictor.ListFolderImages | test_model.py:161-164 | one sub-folder's images are appended to both lists, paired |
| Predictor.ListSubdirImages | test_model.py:158-164 | every sub-folder's images are appended in listing order |
| Predictor.ListImages | test_model.py:148-164 | the images listed are those of the root and its sub-folders |
| Predictor.RunTestsErrorStays | test_model.py:184-196 | once a test raises, later samples change nothing |
| Predictor.TestSampled | test_model.py:177-211 | the loop over the sample returns what the per-image tests define |
| Predictor.TestRandomImages | test_model.py:145-223 | no images gives no results, a negative size raises, otherwise the tests of the sampled images |
| Predictor.GridLayoutFits | test_model.py:227-234 | the grid has one to three columns, room for every result and no empty row |
| Predictor.GridLayout | test_model.py:227-234 | no grid for no results, else rows and columns of `visualize_predictions`; `GridLayoutFits` states that it fits the results |
| ClassPatterns.Anchored | organize_cards.py:96-111 | `$` matches at the end or before one final newline |
| ClassPatterns.LettersFrom | organize_cards.py:98 | the longest run of letters from a position |
| ClassPatterns.DigitsFrom | organize_cards.py:101 | the longest run of digits from a position |
| ClassPatterns.LettersNumberExactly | organize_cards.py:98 | `^([a-zA-Z]+)_\d+$` matches exactly letters `_` digits and captures the letters |
| ClassPatterns.MatchLettersNumber | organize_cards.py:97-98 | the first pattern; `LettersNumberExactly` states which names it matches and what it captures |
| ClassPatterns.MatchSeries | organize_cards.py:100-101 | the series pattern; `SeriesExactly`, `SeriesSound` and `SeriesComplete` state which names it matches and the class it gives |
| ClassPatterns.MatchWordLettersNumber | organize_cards.py:103-104 | the word pattern; `WordLettersNumberExactly`, `WordLettersNumberSound` and `WordLettersNumberComplete` state which names it matches and what it captures |
| ClassPatterns.MatchTwoWordsNumber | organize_cards.py:106-107 | the two-words pattern; `TwoWordsNumberExactly`, `TwoWordsNumberSound`, `TwoWordsNumberComplete` and `TwoWordsShadowed` state which names it matches |
| ClassPatterns.MatchLettersDigits | organize_cards.py:109-110 | the last pattern; `LettersDigitsExactly` states which names it matches and what it captures |
| ClassPatterns.SeriesExactly | organize_cards.py:101 | `^s(\d+)_\d+$` matches exactly `s`digits`_`digits and gives the series class |
| ClassPatterns.SeriesSound | organize_cards.py:101 | a series match cuts the name at its first digit run |
| ClassPatterns.SeriesComplete | organize_cards.py:101 | every `s<n>_<d>` matches as series n |
| ClassPatterns.WordLettersNumberExactly | organize_cards.py:104 | `^\w+_([a-zA-Z]+)_\d+$` matches exactly word `_` letters `_` digits and captures the letters |
| ClassPatterns.WordLettersNumberSound | organize_cards.py:104 | a match cuts the name at its last two underscores |
| ClassPatterns.WordLettersNumberComplete | organize_cards.py:104 | every such name matches with the middle letters |
| ClassPatterns.TwoWordsNumberExactly | organize_cards.py:107 | `^([a-zA-Z]+_[a-zA-Z]+)_\d+$` matches exactly two letter words and digits and captures both words |
| ClassPatterns.TwoWordsNumberSound | organize_cards.py:107 | a match cuts the name after its first two letter runs |
| ClassPatterns.TwoWordsNumberComplete | organize_cards.py:107 | every such name matches with both words |
| ClassPatterns.LettersDigitsExactly | organize_cards.py:110 | `^([a-zA-Z]+)\d+$` matches exactly letters then digits and captures the letters |
| ClassPatterns.TwoWordsShadowed | organize_cards.py:103-107 | every name the two-words pattern matches is already matched by the earlier word pattern |
| ClassPatterns.FirstMatchIsFirst | organize_cards.py:113-116 | the cascade returns the capture of the first pattern that matches |
| ClassPatterns.FirstMatch | organize_cards.py:113-116 | the cascade over a list of patterns; `FirstMatchIsFirst` states that it returns the capture of the first pattern that matches |
| ClassPatterns.PatternsInOrder | organize_cards.py:96-116 | the cascade tries the five patterns in the source's order |
| ClassPatterns.FirstPart | organize_cards.py:119-121 | the fallback is the prefix before the first `_` or digit |
| ClassPatterns.ExtractClass | organize_cards.py:85-124 | the class extracted is never empty |
| ClassPatterns.ExtractLettersNumber | organize_cards.py:97-98 | `<letters>_<digits>` is class `<letters>` |
| ClassPatterns.ExtractSeries | organize_cards.py:100-101 | `s<n>_<d>` is class `series_<n>` |
| ClassPatterns.ExtractWordLettersNumber | organize_cards.py:103-107 | `<word>_<letters>_<digits>` is class `<letters>` |
| ClassPatterns.ExtractLettersDigits | organize_cards.py:109-110 | `<letters><digits>` is class `<letters>` |
| ClassPatterns.ExtractFallbackExample | organize_cards.py:118-121 | the card name `s1_042_pf` matches no pattern and falls back to class `s` |
| ClassPatterns.ExtractUnknownExample | organize_cards.py:119-124 | a name starting with `_` is class `unknown` |
| ClassPatterns.PatternClassNonEmpty | organize_cards.py:113-116 | a pattern's capture is never empty |
| Organizer.RootImages | organize_cards.py:28-29 | the images picked are at most the names listed |
| Organizer.HasImageSuffix | organize_cards.py:27-29 | the lower-cased `pathlib` suffix is one of the four image extensions; `RootImagesSound` and `RootImagesComplete` state that the root images are exactly the files with it |
| Organizer.RootImagesSound | organize_cards.py:28-29 | each picked name is a listed file with an image suffix |
| Organizer.RootImagesComplete | organize_cards.py:28-29 | each listed file with an image suffix is picked |
| Organizer.ClassOf | organize_cards.py:41-44 | the class of an image is never empty |
| Organizer.AddToGroups | organize_cards.py:46-48 | adding a file keeps the groups or opens one more |
| Organizer.AddToGroupsFlatten | organize_cards.py:46-48 | adding a file adds exactly that file to the grouped files |
| Organizer.AddToGroupsNames | organize_cards.py:46-48 | a new class is appended after the known ones and a known one changes nothing in the order |
| Organizer.AddToGroupsConsistent | organize_cards.py:44-48 | a file joins the group of its own class |
| Organizer.AddToGroupsKeeps | organize_cards.py:40-48 | adding a file keeps classes distinct and every file in its class's group |
| Organizer.GroupByClassPartition | organize_cards.py:38-48 | the groups hold exactly the images, one group per class, each image in its class's group |
| Organizer.GroupByClass | organize_cards.py:38-48 | the `class_groups` dictionary as groups in insertion order; `GroupByClassPartition`, `GroupByClassFlatten`, `GroupByClassWellFormed` and `GroupOfImage` state its shape |
| Organizer.GroupByClassFlatten | organize_cards.py:38-48 | the groups hold each image as often as the listing does |
| Organizer.GroupByClassWellFormed | organize_cards.py:38-48 | classes are distinct and every grouped file has its group's class |
| Organizer.GroupOfImage | organize_cards.py:38-48 | an image lies in one group only, the group of its class |
| Organizer.GroupSizesSum | organize_cards.py:38-52 | the group sizes add up to the number of images |
| Organizer.MakeClassDir | organize_cards.py:61 | `mkdir(exist_ok=True)` succeeds iff the name is free or a folder; it leaves a folder there and nothing else changed |
| Organizer.MoveFile | organize_cards.py:64-77 | a file already in the folder is skipped; otherwise it moves iff it is in the root, is not the folder and the move succeeds, leaving the root and entering the folder; nothing else changes |
| Organizer.MoveFiles | organize_cards.py:64-77 | the files that move are exactly those movable against the entries before the loop (the name is free in the folder, the file is in the root and is not the folder, the move does not raise); they leave the root and enter the folder, each counted once, and nothing else changes |
| Organizer.MoveFileAfterPlaced | organize_cards.py:64-77 | one more file moves iff it is movable against the entries before the loop and did not move already, which keeps the loop's closed form |
| Organizer.MoveGroups | organize_cards.py:57-77 | the moves counted are at most the grouped files |
| Organizer.MoveGroupsCrashStays | organize_cards.py:57-61 | once a class folder cannot be created the run stops there |
| Organizer.MoveGroupsFrame | organize_cards.py:57-77 | names that are neither files nor classes of the groups keep their entries, and only grouped files leave the root |
| Organizer.OrganizeMissing | organize_cards.py:22-24 | a missing cards folder is reported and nothing changes |
| Organizer.OrganizeResult | organize_cards.py:13-83 | the outcome and the entries a run leaves; `OrganizeMissing`, `OrganizeNoImages`, `OrganizeFrame`, `MovedAtMostImages` and `OrganizePlacesImages` state them |
| Organizer.OrganizeNoImages | organize_cards.py:28-33 | "no images" is reported iff the root holds no image file, and then nothing changes |
| Organizer.MovedAtMostImages | organize_cards.py:55-80 | the number moved never exceeds the root images |
| Organizer.OrganizeFrame | organize_cards.py:13-83 | a name that is neither a root image nor the class of one keeps its entry, and only root images leave the root |
| Organizer.GroupedNames | organize_cards.py:38-48 | the grouped files are the images, and every class comes from some image |
| Organizer.SettleOwnGroup | organize_cards.py:59-77 | once its folder exists, a group's files that move are those whose target did not exist before the run and whose move succeeds; each file is then settled |
| Organizer.SettleEarlierFile | organize_cards.py:57-77 | a settled image of another class stays settled while a later group is moved |
| Organizer.SettleLaterGroup | organize_cards.py:57-77 | a later group's class keeps its entry and its files stay root files while an earlier group is moved |
| Organizer.SettleGroup | organize_cards.py:57-77 | after one more group the files of all groups so far are settled, the later groups are untouched, and the group's count is its moved images |
| Organizer.MoveGroupsSettles | organize_cards.py:55-77 | after the first k groups of a run without a crash, their files are settled, the later groups are untouched, and `moved_count` is the number of their images that moved |
| Organizer.MovedImagesSnoc | organize_cards.py:55-77 | the images moved by k groups are those of the first k - 1 plus those of group k - 1, counted without overlap |
| Organizer.MoveGroupsCrashAt | organize_cards.py:57-61 | a crashed run stopped at a group whose `mkdir` raised after the groups before it all went through, with their entries and count |
| Organizer.MoveGroupsAll | organize_cards.py:55-77 | a run without a crash settles every grouped image, and `moved_count` is both the number of images that moved and the number no longer a root file |
| Organizer.MoveGroupsCrashed | organize_cards.py:57-77 | a crashed run stopped at a class held by a root file; the groups before it are settled and it and the later ones are untouched |
| Organizer.RootImagesAreFiles | organize_cards.py:28-29 | every image found is a file of the root |
| Organizer.GroupedAreImages | organize_cards.py:38-48 | a name is grouped iff it is an image |
| Organizer.RootFileGroupsOf | organize_cards.py:38-48 | groups one per class whose files are images are groups of root files |
| Organizer.OrganizePlacesImages | organize_cards.py:13-83 | in a run that returns True every image is settled: its class folder exists, it stays a root file iff its target already existed or its move raised, the folder holds its name iff the target existed or the move succeeded, and `moved_count` counts the images that left the root; in a run stopped by `mkdir`, the groups before the class are settled and the rest untouched |
| Organizer.CardsFolder.constructor | organize_cards.py:20-22 | a folder model holds the given entries and presence |
| Organizer.CardsFolder.ListRootImages | organize_cards.py:28-29 | the loop over the listing collects the root images |
| Organizer.CardsFolder.MakeDir | organize_cards.py:61 | the entries become those `mkdir` leaves, unchanged on failure |
| Organizer.CardsFolder.MoveClassFiles | organize_cards.py:64-77 | the inner loop's entries and count are those of moving the class's files |
| Organizer.CardsFolder.MoveAll | organize_cards.py:57-77 | the outer loop's entries, count and crash are those the group moves define |
| Organizer.CardsFolder.Organize | organize_cards.py:13-83 | the outcome and the new entries are those `organize_cards` defines for the old entries; after a True result every root image is settled in its class folder and the count is the images that moved |
| Organizer.GroupImages | organize_cards.py:38-48 | the grouping loop builds the class groups |
| DatasetIssues.MinOf | analyze_dataset_issues.py:78 | the smallest label occurs and bounds every label from below |
| DatasetIssues.MaxOf | analyze_dataset_issues.py:77 | the largest label occurs and bounds every label from above |
| DatasetIssues.Range | analyze_dataset_issues.py:83 | `range(lo, hi + 1)` holds exactly lo..hi |
| DatasetIssues.Summarize | analyze_dataset_issues.py:75-85 | a label column has a range report iff it is not empty |
| DatasetIssues.MissingExactly | analyze_dataset_issues.py:83-85 | the missing ids are exactly the ids strictly between min and max that no label has |
| DatasetIssues.MissingEmptyIff | analyze_dataset_issues.py:87-90 | the "continuous numbering" message appears iff the labels cover their range |
| DatasetIssues.MissingCount | analyze_dataset_issues.py:83-85 | the number missing is the range size less the number of distinct labels |
| DatasetIssues.CountBuckets | analyze_dataset_issues.py:93-99 | largest and smallest count are NaN exactly for an empty column, and then nowhere the smallest exceeds the largest |
| DatasetIssues.BucketsPartition | analyze_dataset_issues.py:94-97 | the 1, 2-5 and >5 buckets together count every card once |
| DatasetIssues.CountDistribution | analyze_dataset_issues.py:137-141 | the distribution lists sizes once each, increasing |
| DatasetIssues.CountDistributionSums | analyze_dataset_issues.py:137-142 | it counts every distinct label once and every label once |
| DatasetIssues.CountDistributionLookup | analyze_dataset_issues.py:137-142 | each line gives the number of labels with that many examples |
| DatasetIssues.MaxEncoderIndex | analyze_dataset_issues.py:159-165 | the printed maximum index is the last one the card-id encoder decodes; one past it decodes nothing |
| DatasetIssues.ClassPreview | analyze_dataset_issues.py:164 | the preview is the first five classes, or all when fewer |
| ClassAnalysis.CardCounts | analyze_classes.py:28 | the counts are value_counts reordered ascending, one per distinct card |
| ClassAnalysis.ReorderedCounts | analyze_classes.py:28 | any reordering of value_counts gives each card its number of rows, with every card present |
| ClassAnalysis.GroupMembers | analyze_classes.py:36 | a count filter is non-empty iff some card has such a count, and names only such cards |
| ClassAnalysis.ListFirst | analyze_classes.py:37-42 | a problem block exists iff the group is non-empty; it shows the first `cap` ids and the "and N more" line iff more exist |
| ClassAnalysis.Analyze | analyze_classes.py:26-57 | the unique count is the number of distinct cards, min and max are NaN only for an empty column, the distribution is ordered |
| ClassAnalysis.AnalyzeSmallClasses | analyze_classes.py:36-51 | the single- and two-example blocks appear iff such cards exist, naming at most ten resp. five of them and only such cards |
| ClassAnalysis.Singles | analyze_classes.py:36 | the cards with one example; `GroupMembers`, `SmallListing` and `AnalyzeSmallClasses` state that it is non-empty iff such cards exist and names only them |
| ClassAnalysis.Twos | analyze_classes.py:45 | the cards with two examples; `GroupMembers`, `SmallListing` and `AnalyzeSmallClasses` state that it is non-empty iff such cards exist and names only them |
| ClassAnalysis.SmallListing | analyze_classes.py:36-42 | the block for count k appears iff some card has k rows and lists only such cards |
| ClassAnalysis.AnalyzeDistributionSums | analyze_classes.py:55-57 | the distribution counts every card once and every row once |
| ClassAnalysis.Suggest | analyze_classes.py:77-107 | the removal advice appears iff some class has one or two examples |
| ClassAnalysis.SuggestRemoval | analyze_classes.py:97-105 | the total is the number of rows, the removal never exceeds it, and what remains is exactly the classes with three or more examples and their samples |
| DatasetCheck.Texts | check_dataset.py:102 | value_counts skips NaN: the texts are exactly the text cells |
| DatasetCheck.LeastExamples | check_dataset.py:104 | the minimum count is NaN exactly when the column has no text |
| DatasetCheck.LeastExamplesIsLeast | check_dataset.py:102-104 | the minimum is some card's count and no card has fewer |
| DatasetCheck.RequiredColumns | check_dataset.py:76-80 | the four base columns, plus `filepath` exactly when the frame has it |
| DatasetCheck.Absent | check_dataset.py:82 | the missing columns are exactly the wanted ones the frame lacks |
| DatasetCheck.MissingColumns | check_dataset.py:76-86 | none missing iff the frame has the base columns; `filepath` is never reported missing |
| DatasetCheck.PathOf | check_dataset.py:119-123 | a text `filepath` is joined to `./cards`, otherwise the filename; a NaN filename has no path |
| DatasetCheck.CheckedPaths | check_dataset.py:118-123 | only the first twenty rows are checked, each by its own path |
| DatasetCheck.MissingFilesExactly | check_dataset.py:117-126 | a NaN path raises; otherwise the missing list is exactly the checked paths not on disk |
| DatasetCheck.MissingFiles | check_dataset.py:117-126 | the missing-file list of the checked rows; `MissingFilesExactly` states that it is `None` for a NaN path and otherwise exactly the paths not on disk |
| DatasetCheck.FindMissingFiles | check_dataset.py:117-126 | the loop over the rows reports what the missing-files definition gives |
| DatasetCheck.CheckBase | check_dataset.py:61-139 | an accepted base frame is the loaded one and has the base columns |
| DatasetCheck.CheckBaseDataset | check_dataset.py:61-139 | the check's method returns what `check_base_dataset` defines |
| DatasetCheck.CheckBaseRejects | check_dataset.py:61-139 | rejected iff no CSV, a load failure, a missing column or a NaN path in the checked rows; accepted reports exactly the absent files |
| DatasetCheck.LowCountBlock | check_dataset.py:107-114 | the low-count block appears iff some card has fewer than five examples, listing at most ten and only such cards |
| DatasetCheck.LowCount | check_dataset.py:107-114 | the low-count block; `LowCountBlock` states when it appears and which cards it lists |
| DatasetCheck.CheckAugmented | check_dataset.py:141-208 | an accepted augmented frame is the loaded one and has the base columns |
| DatasetCheck.CheckAugmentedRejects | check_dataset.py:141-208 | rejected iff the CSV or folder is missing, the load fails, a column is missing or some card has fewer than two examples |
| DatasetCheck.Existing | check_dataset.py:221-231 | the files found are exactly the listed ones on disk; all or none found are told apart |
| DatasetCheck.ExistingInOrder | check_dataset.py:221-231 | the files are reported in their listed order |
| DatasetCheck.CheckModelFiles | check_dataset.py:210-240 | the status says none found or all found exactly when that is so |
| DatasetCheck.Status | check_dataset.py:233-238 | the closing message of the model-file check; `CheckModelFiles` states that it says none or all found exactly when that is so |
| DatasetCheck.Summarize | check_dataset.py:300-315 | the report totals the rows and, without a `card_name` column, is zero cards with minimum 0 |
| DatasetCheck.CardMinimum | check_dataset.py:318-324 | there is no minimum exactly when the frame, its `card_name` column or its texts are absent |
| DatasetCheck.Recommendations | check_dataset.py:317-328 | augment the base iff its minimum is below two; augment more or train iff the augmented minimum is below two or at least two |
| DatasetCheck.GenerateReport | check_dataset.py:288-335 | the report as intended, with the minima written as numbers: each summary is present iff its frame is, with the recommendations of their minima |
| DatasetCheck.WriteReport | check_dataset.py:288-335 | as written, the report is written exactly when neither frame has a card minimum, and it is then the report `GenerateReport` builds; otherwise `json.dump` raises |
| DatasetCheck.WrittenReportsHaveNoAdvice | check_dataset.py:305-332 | as written, a report that is written holds no recommendation, and one that would hold one raises |
| DatasetCheck.OneCardReportRaises | check_dataset.py:305-332 | a base frame of one card would be advised to augment, and as written its report raises |
| DatasetCheck.AcceptedFrame | check_dataset.py:364 | only an accepted check passes its frame on |
| DatasetCheck.MainRecommendations | check_dataset.py:347-364 | after the checks the report never asks for more augmentation, and is ready exactly when the augmented frame has a card |

## Left out

- The image transforms of `data_augmentation.py:30-110` are not modelled, because they are pixel arithmetic. Rotation, brightness, contrast, saturation, noise, blur, crop and flip are represented only by which kind each slot uses and whether an image fails. The random kinds that `combined` picks are not modelled.
- Model loading, preprocessing and TensorFlow Lite inference are not modelled (`test_model.py:23-114`). A prediction is a parameter of type `string -> Option<int>`.
- `prepare_labels` fits scikit-learn `LabelEncoder`s (`data_preparation.py:87-98`), and its numeric codes are not modelled. Only the composition of `card_id` is a member. Encoded labels enter as integers.
- `save_label_encoders`, the CSV, JSON and `.npy` writes and reads, and the plots of `plot_dataset_statistics` are not modelled, because they are I/O. The same holds for `visualize_predictions` beyond its grid layout. The timestamp of the report is not modelled either.
- All printing is left out, including `get_dataset_info` and `show_current_structure`. Floating-point figures are left out too: means, percentages, growth ratio, confidence and success rate. The summaries keep the integer values that are printed.
- `random.sample` is a parameter, the sampled indices. Their validity is the precondition of `Predictor.TestRandomImages`.
- The `KeyboardInterrupt` of `create_dataset_arrays` is modelled only as stopping "at row k". Its timing is not. The failure messages are not kept either: a failure is recorded as the row outcome, not as the exception's text.
- The end-of-file and interrupt cases of `input()` in `data_augmentation.py`'s `main` are not modelled; only the line typed is.
- `Counting.SortByCount`: pandas promises no order among equal counts. Any such order is proved only to be a sorted permutation, and the model fixes one.
- `analyze_dataset_structure`, `check_directory_structure`, `check_images`, `suggest_fixes` and the CLI, web demo, training and setup scripts are not part of this model.
- The `card_id_encoded` block of `analyze_classes.py:60-69` only prints counts for another column. `ClassAnalysis.Analyze` is generic over the column type and covers that computation.
- The `__main__` of `analyze_classes.py` unpacks `None` when the CSV is missing. It reaches `card_counts` unbound when the `card_id` column is absent. This driver is not modelled.
- Paths are POSIX; Windows separators are not modelled. Characters are treated as ASCII: `lower`, `\w`, `\d` and `int()` are modelled on the ASCII range only. For non-ASCII text `int()` also skips Unicode white space, which is not modelled.
- `DatasetCheck.CheckModelFiles` models file existence. It does not model file sizes, which are only printed.
- MakeClassDir (`Organizer.MakeClassDir`): the class names `.` and `..` are treated as fresh root folders. They arise from root files named `..<ext>` and `...<ext>`. In `pathlib`, `cards/.` is the cards folder itself, so such a file's target is the file itself: it is skipped and not counted. `cards/..` is the folder's parent, which lies outside the model. `Organizer.MoveFile`, `Organizer.MoveGroups` and `Organizer.OrganizePlacesImages` inherit this.
- MoveGroups (`Organizer.MoveGroups`): its own contract only bounds the count. What happens to each file, and the exact count, are stated by `Organizer.MoveGroupsSettles`, `Organizer.MoveGroupsAll` and `Organizer.MoveGroupsCrashed`. Those lemmas hold for groups of root files with one group per class, which is what `GroupByClass` builds.
- GenerateReport (`DatasetCheck.GenerateReport`): it is the report as the code evidently intends it, with the minima written as numbers. As written, `json.dump` raises `TypeError` on the numpy `int64` minimum, and `main` ends there without printing its recommendations (check_dataset.py:364-374). `DatasetCheck.WriteReport` models that; `DatasetCheck.MainRecommendations` is about the intended report. The `set` and `augmentation_type` counts are taken to be Python integers, as `to_dict` gives them.

## Findings

| source | as written | input that shows it | evidently intended | confidence | as-written member | corrected member |
|---|---|---|---|---|---|---|
| check_dataset.py:305,313,331-332 | `min_examples_per_card` is `value_counts().min()`, a numpy `int64`, which `json.dump` refuses with `TypeError`, so no report with a card minimum is written or returned | a base frame whose `card_name` column holds one value `a` | the report is written with the minimum as a number and returned to `main` | not executed; rests on numpy's `int64` not being JSON serializable | DatasetCheck.WriteReport | DatasetCheck.GenerateReport |
