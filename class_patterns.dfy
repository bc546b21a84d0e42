/**
  `extract_class_from_filename`: an ordered cascade of five regular expressions over
  a file stem, the first match giving the class name, then a fallback on the text
  before the first `_` or digit.

  Each expression is a hand-written matcher (ASCII letters and digits; `\w` is an
  ASCII letter, digit or `_`) paired with a lemma that characterises it by the
  decomposition the expression describes.
*/
module ClassPatterns {
  import opened Wrappers
  import opened PyStrings

  const UnknownClass: string := "unknown"
  const SeriesPrefix: string := "series_"

  /** A non-empty run of letters, `[a-zA-Z]+`. */
  predicate IsLetters(s: string) { |s| > 0 && AllLetters(s) }

  /** A non-empty run of digits, `\d+`. */
  predicate IsNumber(s: string) { |s| > 0 && AllDigits(s) }

  /**
    The text an expression ending in `$` must match in full: `$` also matches just
    before a final newline, and none of the expressions can match the newline itself.
  */
  function Anchored(t: string): (u: string)
    ensures u == t || (|t| >= 1 && t[|t| - 1] == '\n' && u == t[..|t| - 1])
  {
    if |t| > 0 && t[|t| - 1] == '\n' then t[..|t| - 1] else t
  }

  // ---------------------------------------------------------------------------
  // Runs of letters and digits, by position
  // ---------------------------------------------------------------------------

  /** Positions `s` to `e` of `t` hold letters. */
  predicate LettersIn(t: string, s: nat, e: nat)
    requires s <= e <= |t|
  {
    forall k :: s <= k < e ==> IsLetter(t[k])
  }

  /** Positions `s` to `e` of `t` hold digits. */
  predicate DigitsIn(t: string, s: nat, e: nat)
    requires s <= e <= |t|
  {
    forall k :: s <= k < e ==> IsDigit(t[k])
  }

  /** Where the longest run of letters starting at `s` ends: `[a-zA-Z]*` matched greedily. */
  function LettersFrom(t: string, s: nat): (e: nat)
    requires s <= |t|
    ensures s <= e <= |t| && LettersIn(t, s, e)
    ensures e < |t| ==> !IsLetter(t[e])
    decreases |t| - s
  {
    if s == |t| || !IsLetter(t[s]) then s else LettersFrom(t, s + 1)
  }

  /** Where the longest run of digits starting at `s` ends: `\d*` matched greedily. */
  function DigitsFrom(t: string, s: nat): (e: nat)
    requires s <= |t|
    ensures s <= e <= |t| && DigitsIn(t, s, e)
    ensures e < |t| ==> !IsDigit(t[e])
    decreases |t| - s
  {
    if s == |t| || !IsDigit(t[s]) then s else DigitsFrom(t, s + 1)
  }

  /** A run of letters ends at the first non-letter after it. */
  lemma {:induction false} LettersFromAt(t: string, s: nat, e: nat)
    requires s <= e < |t| && LettersIn(t, s, e) && !IsLetter(t[e])
    ensures LettersFrom(t, s) == e
    decreases e - s
  {
    if s < e {
      LettersFromAt(t, s + 1, e);
    }
  }

  lemma {:induction false} DigitsFromAt(t: string, s: nat, e: nat)
    requires s <= e < |t| && DigitsIn(t, s, e) && !IsDigit(t[e])
    ensures DigitsFrom(t, s) == e
    decreases e - s
  {
    if s < e {
      DigitsFromAt(t, s + 1, e);
    }
  }

  /** A slice is made of letters exactly when its positions are. */
  lemma LettersSlice(t: string, s: nat, e: nat)
    requires s <= e <= |t|
    ensures AllLetters(t[s..e]) <==> LettersIn(t, s, e)
    ensures s == 0 ==> (AllLetters(t[..e]) <==> LettersIn(t, s, e))
  {
    assert forall k :: 0 <= k < e - s ==> t[s..e][k] == t[s + k];
    assert t[0..e] == t[..e];
    if !LettersIn(t, s, e) {
      var k :| s <= k < e && !IsLetter(t[k]);
      assert !IsLetter(t[s..e][k - s]);
    }
  }

  /** A slice is made of digits exactly when its positions are. */
  lemma DigitsSlice(t: string, s: nat, e: nat)
    requires s <= e <= |t|
    ensures AllDigits(t[s..e]) <==> DigitsIn(t, s, e)
    ensures e == |t| ==> (AllDigits(t[s..]) <==> DigitsIn(t, s, e))
  {
    assert forall k :: 0 <= k < e - s ==> t[s..e][k] == t[s + k];
    assert t[s..|t|] == t[s..];
    if !DigitsIn(t, s, e) {
      var k :| s <= k < e && !IsDigit(t[k]);
      assert !IsDigit(t[s..e][k - s]);
    }
  }

  /** Cutting a text around one of its characters. */
  lemma CutAt(t: string, i: nat)
    requires i < |t|
    ensures t == t[..i] + [t[i]] + t[i + 1..]
  {
  }

  /** Cutting a text around two `_`. */
  lemma CutTwice(t: string, i: nat, k: nat)
    requires i < k < |t| && t[i] == '_' && t[k] == '_'
    ensures t[..k] == t[..i] + "_" + t[i + 1..k]
    ensures t == t[..k] + "_" + t[k + 1..]
  {
    assert [t[i]] == "_" && [t[k]] == "_";
    CutAt(t[..k], i);
    assert t[..k][..i] == t[..i] && t[..k][i + 1..] == t[i + 1..k];
    CutAt(t, k);
  }

  /** The pieces of `b + "_" + d`. */
  lemma JoinOnce(b: string, d: string)
    ensures var u := b + "_" + d; u[..|b|] == b && u[|b|] == '_' && u[|b| + 1..] == d
  {
  }

  /** The pieces of `a + "_" + b + "_" + d`. */
  lemma JoinTwice(a: string, b: string, d: string)
    ensures var t := a + "_" + b + "_" + d;
      && t[..|a|] == a && t[|a|] == '_' && t[|a| + 1..|a| + 1 + |b|] == b
      && t[..|a| + 1 + |b|] == a + "_" + b && t[|a| + 1 + |b|] == '_' && t[|a| + 2 + |b|..] == d
  {
    var t := a + "_" + b + "_" + d;
    assert t == a + ("_" + b + "_" + d);
    assert t == (a + "_" + b) + ("_" + d);
    assert t[|a| + 1..|a| + 1 + |b|] == (a + "_" + b)[|a| + 1..];
  }

  // ---------------------------------------------------------------------------
  // The five expressions
  // ---------------------------------------------------------------------------

  datatype Pattern =
    | LettersNumber      // ^([a-zA-Z]+)_\d+$          -> the letters
    | Series             // ^s(\d+)_\d+$               -> "series_" + the first number
    | WordLettersNumber  // ^\w+_([a-zA-Z]+)_\d+$      -> the letters before the number
    | TwoWordsNumber     // ^([a-zA-Z]+_[a-zA-Z]+)_\d+$ -> both words with their `_`
    | LettersDigits      // ^([a-zA-Z]+)\d+$            -> the letters

  /** The patterns in the order they are tried. */
  const Patterns: seq<Pattern> := [LettersNumber, Series, WordLettersNumber, TwoWordsNumber, LettersDigits]

  function MatchLettersNumber(t: string): Option<string> {
    var i := LettersFrom(t, 0);
    if 0 < i && i + 1 < |t| && t[i] == '_' && DigitsIn(t, i + 1, |t|) then Some(t[..i]) else None
  }

  function MatchSeries(t: string): Option<string> {
    if |t| >= 1 && t[0] == 's' then
      var i := DigitsFrom(t, 1);
      if 1 < i && i + 1 < |t| && t[i] == '_' && DigitsIn(t, i + 1, |t|) then Some(SeriesPrefix + t[1..i]) else None
    else None
  }

  /** `\w+` is greedy, so the two separators are the last two `_` of the text. */
  function MatchWordLettersNumber(t: string): Option<string> {
    var j := LastIndexOf(t, '_');
    if j < 0 then None
    else
      var head := t[..j];
      var i := LastIndexOf(head, '_');
      if 0 < i && IsLetters(head[i + 1..]) && AllWordChars(head[..i]) && IsNumber(t[j + 1..])
      then Some(head[i + 1..])
      else None
  }

  function MatchTwoWordsNumber(t: string): Option<string> {
    var i := LettersFrom(t, 0);
    if 0 < i < |t| && t[i] == '_' then
      var k := LettersFrom(t, i + 1);
      if i + 1 < k && k + 1 < |t| && t[k] == '_' && DigitsIn(t, k + 1, |t|) then Some(t[..k]) else None
    else None
  }

  function MatchLettersDigits(t: string): Option<string> {
    var i := LettersFrom(t, 0);
    if 0 < i < |t| && DigitsIn(t, i, |t|) then Some(t[..i]) else None
  }

  /** `re.match(pattern, t)` followed by the pattern's extractor. */
  function Apply(p: Pattern, t: string): Option<string> {
    match p
    case LettersNumber => MatchLettersNumber(Anchored(t))
    case Series => MatchSeries(Anchored(t))
    case WordLettersNumber => MatchWordLettersNumber(Anchored(t))
    case TwoWordsNumber => MatchTwoWordsNumber(Anchored(t))
    case LettersDigits => MatchLettersDigits(Anchored(t))
  }

  /** `^([a-zA-Z]+)_\d+$` matches exactly letters, `_`, digits, and yields the letters. */
  lemma LettersNumberExactly(t: string, c: string)
    ensures MatchLettersNumber(t) == Some(c) <==> exists d :: t == c + "_" + d && IsLetters(c) && IsNumber(d)
  {
    if MatchLettersNumber(t) == Some(c) {
      var i := LettersFrom(t, 0);
      var d := t[i + 1..];
      CutAt(t, i);
      assert [t[i]] == "_";
      LettersSlice(t, 0, i);
      DigitsSlice(t, i + 1, |t|);
      assert t == c + "_" + d && IsLetters(c) && IsNumber(d);
    }
    if exists d :: t == c + "_" + d && IsLetters(c) && IsNumber(d) {
      var d :| t == c + "_" + d && IsLetters(c) && IsNumber(d);
      JoinOnce(c, d);
      LettersSlice(t, 0, |c|);
      LettersFromAt(t, 0, |c|);
      DigitsSlice(t, |c| + 1, |t|);
    }
  }

  /** `^s(\d+)_\d+$` matches exactly `s`, digits, `_`, digits, and yields `series_` and the first digits. */
  lemma SeriesExactly(t: string, c: string)
    ensures MatchSeries(t) == Some(c) <==>
      exists n, d :: t == "s" + n + "_" + d && IsNumber(n) && IsNumber(d) && c == SeriesPrefix + n
  {
    if MatchSeries(t) == Some(c) {
      SeriesSound(t);
    }
    if exists n, d :: t == "s" + n + "_" + d && IsNumber(n) && IsNumber(d) && c == SeriesPrefix + n {
      var n, d :| t == "s" + n + "_" + d && IsNumber(n) && IsNumber(d) && c == SeriesPrefix + n;
      SeriesComplete(n, d);
    }
  }

  lemma SeriesSound(t: string)
    requires MatchSeries(t).Some?
    ensures var i := DigitsFrom(t, 1);
      && t == "s" + t[1..i] + "_" + t[i + 1..]
      && IsNumber(t[1..i]) && IsNumber(t[i + 1..]) && MatchSeries(t) == Some(SeriesPrefix + t[1..i])
  {
    var i := DigitsFrom(t, 1);
    CutAt(t, i);
    assert [t[i]] == "_";
    assert t[..i] == [t[0]] + t[1..i];
    assert [t[0]] == "s";
    DigitsSlice(t, 1, i);
    DigitsSlice(t, i + 1, |t|);
  }

  lemma SeriesComplete(n: string, d: string)
    requires IsNumber(n) && IsNumber(d)
    ensures MatchSeries("s" + n + "_" + d) == Some(SeriesPrefix + n)
  {
    var t := "s" + n + "_" + d;
    var i := 1 + |n|;
    JoinTwice("s", n, d);
    assert t[0] == 's';
    DigitsSlice(t, 1, i);
    DigitsFromAt(t, 1, i);
    DigitsSlice(t, i + 1, |t|);
    assert t[1..i] == n;
    assert 1 < i && i + 1 < |t| && t[i] == '_' && DigitsIn(t, i + 1, |t|);
  }

  /**
    `^\w+_([a-zA-Z]+)_\d+$` matches exactly word characters, `_`, letters, `_`,
    digits, and yields the letters.
  */
  lemma WordLettersNumberExactly(t: string, c: string)
    ensures MatchWordLettersNumber(t) == Some(c) <==>
      exists w, d :: t == w + "_" + c + "_" + d && |w| > 0 && AllWordChars(w) && IsLetters(c) && IsNumber(d)
  {
    if MatchWordLettersNumber(t) == Some(c) {
      var j := LastIndexOf(t, '_');
      var i := LastIndexOf(t[..j], '_');
      WordLettersNumberSound(t);
      assert t == t[..j][..i] + "_" + c + "_" + t[j + 1..];
    }
    if exists w, d :: t == w + "_" + c + "_" + d && |w| > 0 && AllWordChars(w) && IsLetters(c) && IsNumber(d) {
      var w, d :| t == w + "_" + c + "_" + d && |w| > 0 && AllWordChars(w) && IsLetters(c) && IsNumber(d);
      WordLettersNumberComplete(w, c, d);
    }
  }

  lemma WordLettersNumberSound(t: string)
    requires MatchWordLettersNumber(t).Some?
    ensures var j := LastIndexOf(t, '_'); var i := LastIndexOf(t[..j], '_');
      && t == t[..j][..i] + "_" + MatchWordLettersNumber(t).value + "_" + t[j + 1..]
      && |t[..j][..i]| > 0 && AllWordChars(t[..j][..i]) && IsLetters(MatchWordLettersNumber(t).value) && IsNumber(t[j + 1..])
  {
    var j := LastIndexOf(t, '_');
    var head := t[..j];
    var i := LastIndexOf(head, '_');
    assert head == head[..i] + "_" + head[i + 1..];
  }

  lemma WordLettersNumberComplete(w: string, c: string, d: string)
    requires |w| > 0 && AllWordChars(w) && IsLetters(c) && IsNumber(d)
    ensures MatchWordLettersNumber(w + "_" + c + "_" + d) == Some(c)
  {
    var t := w + "_" + c + "_" + d;
    var head := w + "_" + c;
    assert t == head + "_" + d;
    LastSeparator(head, d);
    LastSeparator(w, c);
    assert t[..|head|] == head;
    assert head[..|w|] == w;
    assert head[|w| + 1..] == c;
    assert t[|head| + 1..] == d;
  }

  /** In `a + "_" + b` with `b` free of `_`, the last `_` is the one after `a`. */
  lemma LastSeparator(a: string, b: string)
    requires forall k :: 0 <= k < |b| ==> b[k] != '_'
    ensures LastIndexOf(a + "_" + b, '_') == |a|
  {
    var t := a + "_" + b;
    assert t[|a|] == '_';
  }

  /** `^([a-zA-Z]+_[a-zA-Z]+)_\d+$` matches exactly letters, `_`, letters, `_`, digits. */
  lemma TwoWordsNumberExactly(t: string, c: string)
    ensures MatchTwoWordsNumber(t) == Some(c) <==>
      exists a, b, d :: c == a + "_" + b && t == c + "_" + d && IsLetters(a) && IsLetters(b) && IsNumber(d)
  {
    if MatchTwoWordsNumber(t) == Some(c) {
      var i := LettersFrom(t, 0);
      var k := LettersFrom(t, i + 1);
      TwoWordsNumberSound(t);
      assert c == t[..i] + "_" + t[i + 1..k] && t == c + "_" + t[k + 1..];
    }
    if exists a, b, d :: c == a + "_" + b && t == c + "_" + d && IsLetters(a) && IsLetters(b) && IsNumber(d) {
      var a, b, d :| c == a + "_" + b && t == c + "_" + d && IsLetters(a) && IsLetters(b) && IsNumber(d);
      TwoWordsNumberComplete(a, b, d);
    }
  }

  lemma TwoWordsNumberSound(t: string)
    requires MatchTwoWordsNumber(t).Some?
    ensures var i := LettersFrom(t, 0); var k := LettersFrom(t, i + 1); var c := MatchTwoWordsNumber(t).value;
      && c == t[..i] + "_" + t[i + 1..k] && t == c + "_" + t[k + 1..]
      && IsLetters(t[..i]) && IsLetters(t[i + 1..k]) && IsNumber(t[k + 1..])
  {
    var i := LettersFrom(t, 0);
    var k := LettersFrom(t, i + 1);
    CutTwice(t, i, k);
    LettersSlice(t, 0, i);
    LettersSlice(t, i + 1, k);
    DigitsSlice(t, k + 1, |t|);
  }

  lemma TwoWordsNumberComplete(a: string, b: string, d: string)
    requires IsLetters(a) && IsLetters(b) && IsNumber(d)
    ensures MatchTwoWordsNumber(a + "_" + b + "_" + d) == Some(a + "_" + b)
  {
    var t := a + "_" + b + "_" + d;
    JoinTwice(a, b, d);
    LettersSlice(t, 0, |a|);
    LettersFromAt(t, 0, |a|);
    LettersSlice(t, |a| + 1, |a| + 1 + |b|);
    LettersFromAt(t, |a| + 1, |a| + 1 + |b|);
    DigitsSlice(t, |a| + 2 + |b|, |t|);
  }

  /** `^([a-zA-Z]+)\d+$` matches exactly letters followed by digits, and yields the letters. */
  lemma LettersDigitsExactly(t: string, c: string)
    ensures MatchLettersDigits(t) == Some(c) <==> exists d :: t == c + d && IsLetters(c) && IsNumber(d)
  {
    if MatchLettersDigits(t) == Some(c) {
      var i := LettersFrom(t, 0);
      var d := t[i..];
      assert t == t[..i] + d;
      LettersSlice(t, 0, i);
      DigitsSlice(t, i, |t|);
      assert t == c + d && IsLetters(c) && IsNumber(d);
    }
    if exists d :: t == c + d && IsLetters(c) && IsNumber(d) {
      var d :| t == c + d && IsLetters(c) && IsNumber(d);
      assert t[..|c|] == c && t[|c|..] == d && t[|c|] == d[0];
      LettersSlice(t, 0, |c|);
      LettersFromAt(t, 0, |c|);
      DigitsSlice(t, |c|, |t|);
    }
  }

  /**
    Whatever `^([a-zA-Z]+_[a-zA-Z]+)_\d+$` matches, `^\w+_([a-zA-Z]+)_\d+$` matches
    too and comes first, so the fourth pattern never decides a class.
  */
  lemma TwoWordsShadowed(t: string)
    requires MatchTwoWordsNumber(t).Some?
    ensures MatchWordLettersNumber(t).Some?
  {
    var c := MatchTwoWordsNumber(t).value;
    TwoWordsNumberExactly(t, c);
    var a, b, d :| c == a + "_" + b && t == c + "_" + d && IsLetters(a) && IsLetters(b) && IsNumber(d);
    assert AllWordChars(a);
    WordLettersNumberExactly(t, b);
  }

  // ---------------------------------------------------------------------------
  // The cascade
  // ---------------------------------------------------------------------------

  /** The first pattern in `ps` that matches decides. */
  function FirstMatch(ps: seq<Pattern>, t: string): Option<string> {
    if |ps| == 0 then None
    else match Apply(ps[0], t)
      case Some(c) => Some(c)
      case None => FirstMatch(ps[1..], t)
  }

  /** `FirstMatch` yields a pattern's class exactly when no earlier pattern matches. */
  lemma {:induction false} FirstMatchIsFirst(ps: seq<Pattern>, t: string, c: string)
    ensures FirstMatch(ps, t) == Some(c) <==>
      exists i :: 0 <= i < |ps| && Apply(ps[i], t) == Some(c) && forall j :: 0 <= j < i ==> Apply(ps[j], t).None?
  {
    if |ps| > 0 {
      FirstMatchIsFirst(ps[1..], t, c);
      if Apply(ps[0], t).None? {
        if exists i :: 0 <= i < |ps| && Apply(ps[i], t) == Some(c) && forall j :: 0 <= j < i ==> Apply(ps[j], t).None? {
          var i :| 0 <= i < |ps| && Apply(ps[i], t) == Some(c) && forall j :: 0 <= j < i ==> Apply(ps[j], t).None?;
          assert Apply(ps[1..][i - 1], t) == Some(c);
          assert forall j :: 0 <= j < i - 1 ==> ps[1..][j] == ps[j + 1];
        }
        if FirstMatch(ps[1..], t) == Some(c) {
          var i :| 0 <= i < |ps[1..]| && Apply(ps[1..][i], t) == Some(c) && forall j :: 0 <= j < i ==> Apply(ps[1..][j], t).None?;
          assert forall j :: 1 <= j < i + 1 ==> ps[j] == ps[1..][j - 1];
          assert Apply(ps[i + 1], t) == Some(c);
        }
      } else {
        assert Apply(ps[0], t) == Some(Apply(ps[0], t).value);
      }
    }
  }

  /** The cascade over the five patterns, written out in order. */
  lemma PatternsInOrder(t: string)
    ensures FirstMatch(Patterns, t) ==
      if Apply(LettersNumber, t).Some? then Apply(LettersNumber, t)
      else if Apply(Series, t).Some? then Apply(Series, t)
      else if Apply(WordLettersNumber, t).Some? then Apply(WordLettersNumber, t)
      else if Apply(TwoWordsNumber, t).Some? then Apply(TwoWordsNumber, t)
      else Apply(LettersDigits, t)
  {
    var p4 := [LettersDigits];
    assert p4[1..] == [];
    assert FirstMatch(p4, t) == Apply(LettersDigits, t);
    var p3 := [TwoWordsNumber] + p4;
    assert p3[0] == TwoWordsNumber && p3[1..] == p4;
    assert FirstMatch(p3, t) == if Apply(TwoWordsNumber, t).Some? then Apply(TwoWordsNumber, t) else FirstMatch(p4, t);
    var p2 := [WordLettersNumber] + p3;
    assert p2[0] == WordLettersNumber && p2[1..] == p3;
    assert FirstMatch(p2, t) == if Apply(WordLettersNumber, t).Some? then Apply(WordLettersNumber, t) else FirstMatch(p3, t);
    var p1 := [Series] + p2;
    assert p1[0] == Series && p1[1..] == p2;
    assert FirstMatch(p1, t) == if Apply(Series, t).Some? then Apply(Series, t) else FirstMatch(p2, t);
    assert Patterns == [LettersNumber] + p1;
    assert Patterns[0] == LettersNumber && Patterns[1..] == p1;
  }

  /** `re.split(r'[_\d]', filename)[0]`: the text before the first `_` or digit. */
  function FirstPart(t: string): (p: string)
    ensures |p| <= |t| && p == t[..|p|]
    ensures forall k :: 0 <= k < |p| ==> p[k] != '_' && !IsDigit(p[k])
    ensures |p| < |t| ==> t[|p|] == '_' || IsDigit(t[|p|])
  {
    if |t| == 0 || t[0] == '_' || IsDigit(t[0]) then ""
    else
      var p := [t[0]] + FirstPart(t[1..]);
      assert forall k :: 1 <= k < |p| ==> p[k] == FirstPart(t[1..])[k - 1];
      p
  }

  /** `extract_class_from_filename(filename)`: never an empty class name. */
  function ExtractClass(filename: string): (c: string)
    ensures |c| > 0
  {
    match FirstMatch(Patterns, filename)
    case Some(c) => PatternClassNonEmpty(filename, c); c
    case None =>
      var p := FirstPart(filename);
      if |p| > 0 then p else UnknownClass
  }

  /** A text that ends in a digit is its own anchored form. */
  lemma AnchoredDigitEnd(t: string)
    requires |t| > 0 && IsDigit(t[|t| - 1])
    ensures Anchored(t) == t
  {
  }

  /** `laar_1` gives `laar`: letters, `_`, digits give the letters. */
  lemma ExtractLettersNumber(c: string, d: string)
    requires IsLetters(c) && IsNumber(d)
    ensures ExtractClass(c + "_" + d) == c
  {
    var t := c + "_" + d;
    AnchoredDigitEnd(t);
    PatternsInOrder(t);
    LettersNumberExactly(t, c);
  }

  /** `s1_1` gives `series_1`: the first pattern needs letters only before `_`. */
  lemma ExtractSeries(n: string, d: string)
    requires IsNumber(n) && IsNumber(d)
    ensures ExtractClass("s" + n + "_" + d) == SeriesPrefix + n
  {
    var t := "s" + n + "_" + d;
    AnchoredDigitEnd(t);
    PatternsInOrder(t);
    assert t[0] == 's' && t[1] == n[0];
    LettersFromAt(t, 0, 1);
    assert MatchLettersNumber(t).None?;
    SeriesComplete(n, d);
  }

  /**
    `card_warrior_1` gives `warrior`, and `warrior_fire_1` gives `fire`: word
    characters, `_`, letters, `_`, digits give the letters before the digits.
  */
  lemma ExtractWordLettersNumber(w: string, c: string, d: string)
    requires |w| > 0 && AllWordChars(w) && IsLetters(c) && IsNumber(d)
    ensures ExtractClass(w + "_" + c + "_" + d) == c
  {
    var t := w + "_" + c + "_" + d;
    var p := |w| + 1;
    AnchoredDigitEnd(t);
    PatternsInOrder(t);
    assert t[|w|] == '_' && t[p] == c[0] && !IsDigit(t[p]);
    assert MatchLettersNumber(t).None?;
    assert MatchSeries(t).None?;
    WordLettersNumberComplete(w, c, d);
  }

  /** `mage2` gives `mage`: letters directly followed by digits give the letters. */
  lemma ExtractLettersDigits(c: string, d: string)
    requires IsLetters(c) && IsNumber(d)
    ensures ExtractClass(c + d) == c
  {
    var t := c + d;
    AnchoredDigitEnd(t);
    PatternsInOrder(t);
    assert t[..|c|] == c && t[|c|] == d[0];
    LettersSlice(t, 0, |c|);
    LettersFromAt(t, 0, |c|);
    assert MatchLettersNumber(t).None?;
    if t[0] == 's' && |c| > 1 {
      assert t[1] == c[1];
      DigitsFromAt(t, 1, 1);
    }
    assert MatchSeries(t).None?;
    assert forall k :: 0 <= k < |t| ==> t[k] != '_';
    assert MatchWordLettersNumber(t).None?;
    assert MatchTwoWordsNumber(t).None?;
    LettersDigitsExactly(t, c);
  }

  /** `s1_042_pf` matches no pattern and falls back to the text before the first digit. */
  lemma ExtractFallbackExample()
    ensures ExtractClass("s1_042_pf") == "s"
  {
    var t := "s1_042_pf";
    PatternsInOrder(t);
    FallbackExampleLetterPatterns();
    FallbackExampleOtherPatterns();
    assert FirstPart(t[1..]) == "";
  }

  lemma FallbackExampleLetterPatterns()
    ensures Apply(LettersNumber, "s1_042_pf").None?
    ensures Apply(TwoWordsNumber, "s1_042_pf").None?
    ensures Apply(LettersDigits, "s1_042_pf").None?
  {
    var t := "s1_042_pf";
    assert Anchored(t) == t;
    LettersFromAt(t, 0, 1);
    assert !IsDigit(t[2]);
  }

  lemma FallbackExampleOtherPatterns()
    ensures Apply(Series, "s1_042_pf").None?
    ensures Apply(WordLettersNumber, "s1_042_pf").None?
  {
    var t := "s1_042_pf";
    assert Anchored(t) == t;
    DigitsFromAt(t, 1, 2);
    assert !IsDigit(t[6]);
    assert LastIndexOf(t, '_') == 6;
    assert !IsNumber(t[7..]) by { assert t[7..][0] == 'p'; }
  }

  /** `_x` has no text before its first `_`, so its class is `unknown`. */
  lemma ExtractUnknownExample()
    ensures ExtractClass("_x") == UnknownClass
  {
    var t := "_x";
    assert Anchored(t) == t;
    PatternsInOrder(t);
    LettersFromAt(t, 0, 0);
    assert LastIndexOf(t, '_') == 0;
    assert LastIndexOf(t[..0], '_') == -1;
  }

  /** Every pattern's class is non-empty. */
  lemma PatternClassNonEmpty(filename: string, c: string)
    requires FirstMatch(Patterns, filename) == Some(c)
    ensures |c| > 0
  {
    FirstMatchIsFirst(Patterns, filename, c);
    var i :| 0 <= i < |Patterns| && Apply(Patterns[i], filename) == Some(c);
    var t := Anchored(filename);
    match Patterns[i]
    case LettersNumber => LettersNumberExactly(t, c);
    case Series => SeriesExactly(t, c);
    case WordLettersNumber => WordLettersNumberExactly(t, c);
    case TwoWordsNumber => TwoWordsNumberExactly(t, c); var a, b, d :| c == a + "_" + b && t == c + "_" + d; assert |c| >= 1;
    case LettersDigits => LettersDigitsExactly(t, c);
  }
}
