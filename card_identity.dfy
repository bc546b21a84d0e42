/**
  Card identity from a file name (`BerserkCardDataset.parse_filename`) and the
  composite `card_id` label built from it (`prepare_labels`).

  A card file is named `<set>_<number>[_<variant>]` plus an extension, possibly with
  an augmentation suffix `_aug_<k>` that the parser drops.
*/
module CardIdentity {
  import opened Wrappers
  import opened PyStrings

  /** The dictionary `parse_filename` returns. */
  datatype CardInfo = CardInfo(
    filename: string,    // the name exactly as given
    setName: string,
    cardNumber: string,
    variant: string,
    fullName: string)    // the name without its extension, augmentation suffix kept

  /** The identity-bearing triple of a card. */
  datatype Identity = Identity(setName: string, cardNumber: string, variant: string)

  const NormalVariant: string := "normal"
  const AugMarker: string := "aug"

  function IdentityOf(info: CardInfo): Identity {
    Identity(info.setName, info.cardNumber, info.variant)
  }

  predicate NoSeparator(id: Identity) {
    '_' !in id.setName && '_' !in id.cardNumber && '_' !in id.variant
  }

  /** The parts end with `aug_<k>` and at least two parts remain before it. */
  predicate HasAugSuffix(parts: seq<string>) {
    |parts| >= 4 && parts[|parts| - 2] == AugMarker
  }

  /** The parts that carry the identity: the augmentation suffix removed. */
  function IdentityParts(parts: seq<string>): (ps: seq<string>)
    ensures |parts| >= 2 ==> |ps| >= 2
    ensures |ps| <= |parts| && ps == parts[..|ps|]
  {
    if HasAugSuffix(parts) then parts[..|parts| - 2] else parts
  }

  /**
    `parse_filename(filename)`: `None` exactly when the stem has fewer than two
    `_`-separated parts; otherwise the three identity fields are parts 0, 1 and 2
    (or "normal") of the stem's parts after the augmentation suffix is dropped,
    and none of them contains `_`.
  */
  function ParseFilename(filename: string): (r: Option<CardInfo>)
    ensures r.None? <==> |Split(Stem(filename), '_')| < 2
    ensures r.Some? ==> r.value.filename == filename && r.value.fullName == Stem(filename)
  {
    var name := Stem(filename);
    var parts := Split(name, '_');
    if |parts| < 2 then None
    else
      var ps := IdentityParts(parts);
      Some(CardInfo(filename, ps[0], ps[1], if |ps| > 2 then ps[2] else NormalVariant, name))
  }

  /**
    The identity fields of a parsed name are parts 0, 1 and 2 (or "normal") of its
    stem's parts once the augmentation suffix is dropped, and none contains `_`.
  */
  lemma ParseFilenameFields(filename: string)
    requires ParseFilename(filename).Some?
    ensures var info := ParseFilename(filename).value;
      var ps := IdentityParts(Split(Stem(filename), '_'));
      && info.setName == ps[0] && info.cardNumber == ps[1]
      && info.variant == (if |ps| > 2 then ps[2] else NormalVariant)
    ensures NoSeparator(IdentityOf(ParseFilename(filename).value))
  {
  }

  /** `set_name + '_' + card_number + '_' + variant`. */
  function CardIdOf(id: Identity): string {
    id.setName + "_" + id.cardNumber + "_" + id.variant
  }

  function CardId(info: CardInfo): string {
    CardIdOf(IdentityOf(info))
  }

  /** The `card_id` column `prepare_labels` adds, one entry per row. */
  function CardIds(infos: seq<CardInfo>): (ids: seq<string>)
    ensures |ids| == |infos|
    ensures forall i :: 0 <= i < |infos| ==> ids[i] == CardId(infos[i])
  {
    seq(|infos|, i requires 0 <= i < |infos| => CardId(infos[i]))
  }

  /** A card_id splits back into exactly its three fields. */
  lemma CardIdSplit(id: Identity)
    requires NoSeparator(id)
    ensures Split(CardIdOf(id), '_') == [id.setName, id.cardNumber, id.variant]
  {
    var parts := [id.setName, id.cardNumber, id.variant];
    assert Join(parts, '_') == CardIdOf(id) by {
      assert parts[1..] == [id.cardNumber, id.variant];
      assert parts[1..][1..] == [id.variant];
      assert Join(parts[1..], '_') == id.cardNumber + ['_'] + id.variant;
      assert "_" == ['_'];
    }
    SplitJoin(parts, '_');
  }

  /** Every parsed file yields a card_id with exactly three `_`-parts, equal to its fields. */
  lemma ParsedCardIdSplit(filename: string)
    requires ParseFilename(filename).Some?
    ensures var info := ParseFilename(filename).value;
      Split(CardId(info), '_') == [info.setName, info.cardNumber, info.variant]
  {
    ParseFilenameFields(filename);
    CardIdSplit(IdentityOf(ParseFilename(filename).value));
  }

  /**
    Naming a file after a card_id and parsing it back gives the same identity,
    whatever the extension: the parser is a left inverse of the label composition.
  */
  lemma ParseCardIdFile(id: Identity, ext: string)
    requires NoSeparator(id)
    requires '/' !in id.setName && '/' !in id.cardNumber && '/' !in id.variant
    requires |ext| >= 1 && ext[0] == '.' && '.' !in ext[1..] && '/' !in ext
    ensures ParseFilename(CardIdOf(id) + ext).Some?
    ensures IdentityOf(ParseFilename(CardIdOf(id) + ext).value) == id
    ensures ParseFilename(CardIdOf(id) + ext).value.fullName == CardIdOf(id)
  {
    var x := CardIdOf(id);
    assert '/' !in x;
    assert LastIndexOf(x, '/') == -1;
    assert x[|id.setName|] == '_';
    assert HasBaseBefore(x, -1, |x|);
    SplitExtAppend(x, ext);
    CardIdSplit(id);
  }

  /** The name of an augmented copy: `<card_id>_aug_<k>`. */
  function AugmentedStem(id: Identity, k: string): string {
    CardIdOf(id) + "_aug_" + k
  }

  /**
    A file named after a card_id with an augmentation suffix `_aug_<k>` parses to the
    same identity as the card itself; its full name keeps the suffix.
  */
  lemma ParseAugmentedFile(id: Identity, k: string, ext: string)
    requires NoSeparator(id) && '_' !in k
    requires '/' !in id.setName && '/' !in id.cardNumber && '/' !in id.variant && '/' !in k
    requires |ext| >= 1 && ext[0] == '.' && '.' !in ext[1..] && '/' !in ext
    ensures ParseFilename(AugmentedStem(id, k) + ext)
         == Some(CardInfo(AugmentedStem(id, k) + ext, id.setName, id.cardNumber, id.variant, AugmentedStem(id, k)))
  {
    var x := AugmentedStem(id, k);
    assert '/' !in x;
    assert x[|id.setName|] == '_';
    StemOfPlainName(x, ext);
    AugmentedStemSplit(id, k);
    assert IdentityParts([id.setName, id.cardNumber, id.variant, AugMarker, k]) == [id.setName, id.cardNumber, id.variant];
  }

  lemma AugmentedStemSplit(id: Identity, k: string)
    requires NoSeparator(id) && '_' !in k
    ensures Split(AugmentedStem(id, k), '_') == [id.setName, id.cardNumber, id.variant, AugMarker, k]
  {
    var ps := [id.setName, id.cardNumber, id.variant, AugMarker, k];
    assert Join(ps, '_') == AugmentedStem(id, k) by {
      JoinCons(AugMarker, [k], '_');
      JoinCons(id.variant, [AugMarker, k], '_');
      JoinCons(id.cardNumber, [id.variant, AugMarker, k], '_');
      JoinCons(id.setName, [id.cardNumber, id.variant, AugMarker, k], '_');
      assert [id.setName] + [id.cardNumber, id.variant, AugMarker, k] == ps;
    }
    SplitJoin(ps, '_');
  }

  /** A two-part card name gets the variant "normal". */
  lemma ParseTwoPartFile(setName: string, cardNumber: string, ext: string)
    requires '_' !in setName && '_' !in cardNumber && '/' !in setName && '/' !in cardNumber
    requires |ext| >= 1 && ext[0] == '.' && '.' !in ext[1..] && '/' !in ext
    ensures ParseFilename(setName + "_" + cardNumber + ext)
         == Some(CardInfo(setName + "_" + cardNumber + ext, setName, cardNumber, NormalVariant, setName + "_" + cardNumber))
  {
    var x := setName + "_" + cardNumber;
    assert '/' !in x;
    assert x[|setName|] == '_';
    StemOfPlainName(x, ext);
    var ps := [setName, cardNumber];
    assert Join(ps, '_') == x by {
      JoinCons(setName, [cardNumber], '_');
      assert [setName] + [cardNumber] == ps;
    }
    SplitJoin(ps, '_');
  }

  /** The stem of a plain name (no '/', not all dots) with one extension appended. */
  lemma StemOfPlainName(x: string, ext: string)
    requires '/' !in x && HasBaseBefore(x, -1, |x|)
    requires |ext| >= 1 && ext[0] == '.' && '.' !in ext[1..] && '/' !in ext
    ensures Stem(x + ext) == x
  {
    assert LastIndexOf(x, '/') == -1;
    assert HasBaseBefore(x, -1, |x|);
    SplitExtAppend(x, ext);
  }

  /** Joining a part in front of at least one more. */
  lemma JoinCons(head: string, tail: seq<string>, sep: char)
    requires |tail| >= 1
    ensures Join([head] + tail, sep) == head + [sep] + Join(tail, sep)
  {
    assert ([head] + tail)[1..] == tail;
  }

  // Worked examples of the parsing rules.

  /** `s1_aug_3` has only three parts, so its `aug` is not a suffix: it is the card number. */
  lemma ParseExampleShortAug()
    ensures ParseFilename("s1_aug_3.webp") == Some(CardInfo("s1_aug_3.webp", "s1", "aug", "3", "s1_aug_3"))
  {
    var id := Identity("s1", AugMarker, "3");
    var name := CardIdOf(id) + ".webp";
    assert name == "s1_aug_3.webp";
    ParseCardIdFile(id, ".webp");
    var info := ParseFilename(name).value;
    assert IdentityOf(info) == id && info.fullName == CardIdOf(id) && info.filename == name;
    assert info == CardInfo(name, id.setName, id.cardNumber, id.variant, CardIdOf(id));
    assert CardIdOf(id) == "s1_aug_3";
  }

  /** A stem without `_` is not a card name. */
  lemma ParseExampleNoSeparator()
    ensures ParseFilename("weird.webp").None?
  {
    assert "weird.webp" == "weird" + ".webp";
    assert "weird"[0] != '.';
    StemOfPlainName("weird", ".webp");
    SplitWithoutSep("weird", '_');
  }
}
