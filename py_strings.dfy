/**
  The pieces of Python's string and path library that the card pipeline relies on,
  stated for ASCII text: `str.split(sep)`, `sep.join`, `str.lower`, `str.endswith`,
  `os.path.splitext` and `os.path.join` (POSIX), `pathlib.PurePath.suffix`/`.stem`,
  decimal formatting of a natural number and `int(text)`.
*/
module PyStrings {
  import opened Wrappers

  // ---------------------------------------------------------------------------
  // Character classes (ASCII)
  // ---------------------------------------------------------------------------

  predicate IsDigit(c: char) { '0' <= c <= '9' }

  predicate IsLetter(c: char) { ('a' <= c <= 'z') || ('A' <= c <= 'Z') }

  /** Regex `\w` restricted to ASCII: letters, digits and the underscore. */
  predicate IsWordChar(c: char) { IsLetter(c) || IsDigit(c) || c == '_' }

  /**
   * The white space `int()` skips around ASCII text: the space and `\t` to `\r`.
   * Unlike `str.isspace`, it leaves out `\x1c` to `\x1f`.
   */
  predicate IsIntSpace(c: char) {
    c == ' ' || ('\t' <= c <= '\r')
  }

  predicate AllDigits(s: string) { forall i :: 0 <= i < |s| ==> IsDigit(s[i]) }

  predicate AllLetters(s: string) { forall i :: 0 <= i < |s| ==> IsLetter(s[i]) }

  predicate AllWordChars(s: string) { forall i :: 0 <= i < |s| ==> IsWordChar(s[i]) }

  function LowerChar(c: char): char {
    if 'A' <= c <= 'Z' then (c as int + 32) as char else c
  }

  /** `str.lower()` on ASCII letters. */
  function Lower(s: string): (r: string)
    ensures |r| == |s|
    ensures forall i :: 0 <= i < |s| ==> r[i] == LowerChar(s[i])
  {
    seq(|s|, i requires 0 <= i < |s| => LowerChar(s[i]))
  }

  predicate EndsWith(s: string, suffix: string) {
    |suffix| <= |s| && s[|s| - |suffix|..] == suffix
  }

  predicate StartsWith(s: string, prefix: string) {
    |prefix| <= |s| && s[..|prefix|] == prefix
  }

  // ---------------------------------------------------------------------------
  // str.split(sep) and sep.join(parts)
  // ---------------------------------------------------------------------------

  /** `sep.join(parts)`; the join of no parts is the empty string. */
  function Join(parts: seq<string>, sep: char): string
  {
    if |parts| == 0 then ""
    else if |parts| == 1 then parts[0]
    else parts[0] + [sep] + Join(parts[1..], sep)
  }

  /**
    `s.split(sep)` with an explicit separator: it always yields at least one part,
    keeps empty parts, no part contains the separator, and joining the parts gives
    back `s`.
  */
  function Split(s: string, sep: char): (parts: seq<string>)
    ensures |parts| >= 1
    ensures forall i :: 0 <= i < |parts| ==> sep !in parts[i]
    ensures Join(parts, sep) == s
    decreases |s|
  {
    if |s| == 0 then [""]
    else
      var rest := Split(s[1..], sep);
      if s[0] == sep then
        assert Join([""] + rest, sep) == "" + [sep] + Join(rest, sep) by {
          assert ([""] + rest)[1..] == rest;
        }
        assert s == [sep] + s[1..];
        [""] + rest
      else
        var first := [s[0]] + rest[0];
        assert sep !in first;
        var parts := [first] + rest[1..];
        assert parts[1..] == rest[1..];
        assert Join(parts, sep) == [s[0]] + Join(rest, sep) by {
          if |rest| == 1 {
          } else {
            assert Join(rest, sep) == rest[0] + [sep] + Join(rest[1..], sep);
            assert Join(parts, sep) == first + [sep] + Join(rest[1..], sep);
          }
        }
        assert s == [s[0]] + s[1..];
        parts
  }

  lemma {:induction false} SplitWithoutSep(s: string, sep: char)
    requires sep !in s
    ensures Split(s, sep) == [s]
    decreases |s|
  {
    if |s| > 0 {
      assert sep !in s[1..];
      SplitWithoutSep(s[1..], sep);
      assert s == [s[0]] + s[1..];
    }
  }

  /** Splitting at a separator splits the two sides independently. */
  lemma {:induction false} SplitAppend(a: string, sep: char, b: string)
    requires sep !in a
    ensures Split(a + [sep] + b, sep) == Split(a, sep) + Split(b, sep)
    decreases |a|
  {
    if |a| == 0 {
      assert a + [sep] + b == [sep] + b;
      assert ([sep] + b)[1..] == b;
    } else {
      var s := a + [sep] + b;
      assert s[0] == a[0];
      assert s[1..] == a[1..] + [sep] + b;
      assert sep !in a[1..];
      SplitAppend(a[1..], sep, b);
      assert a[1..] == a[1..];
      assert Split(a, sep) == [[a[0]] + Split(a[1..], sep)[0]] + Split(a[1..], sep)[1..] by {
        assert a[1..] == a[1..];
      }
    }
  }

  /** `split` undoes `join` when no part contains the separator. */
  lemma {:induction false} SplitJoin(parts: seq<string>, sep: char)
    requires |parts| >= 1
    requires forall i :: 0 <= i < |parts| ==> sep !in parts[i]
    ensures Split(Join(parts, sep), sep) == parts
    decreases |parts|
  {
    if |parts| == 1 {
      SplitWithoutSep(parts[0], sep);
    } else {
      SplitWithoutSep(parts[0], sep);
      SplitJoin(parts[1..], sep);
      SplitAppend(parts[0], sep, Join(parts[1..], sep));
      assert parts == [parts[0]] + parts[1..];
    }
  }

  // ---------------------------------------------------------------------------
  // Positions
  // ---------------------------------------------------------------------------

  /** `s.rfind(c)`: the last index holding `c`, or -1. */
  function LastIndexOf(s: string, c: char): (r: int)
    ensures -1 <= r < |s|
    ensures r >= 0 ==> s[r] == c
    ensures forall j :: r < j < |s| ==> s[j] != c
  {
    if |s| == 0 then -1
    else if s[|s| - 1] == c then |s| - 1
    else LastIndexOf(s[..|s| - 1], c)
  }

  /** Appending text without `c` does not move the last `c`. */
  lemma {:induction false} LastIndexOfAppend(a: string, b: string, c: char)
    requires c !in b
    ensures LastIndexOf(a + b, c) == LastIndexOf(a, c)
    decreases |b|
  {
    if |b| == 0 {
      assert a + b == a;
    } else {
      var ab := a + b;
      assert ab[|ab| - 1] == b[|b| - 1];
      assert ab[..|ab| - 1] == a + b[..|b| - 1];
      LastIndexOfAppend(a, b[..|b| - 1], c);
    }
  }

  // ---------------------------------------------------------------------------
  // os.path.splitext and os.path.join (POSIX)
  // ---------------------------------------------------------------------------

  /** True when some character after the last '/' and before `dot` is not a '.'. */
  predicate HasBaseBefore(p: string, sepIndex: int, dot: int)
    requires -1 <= sepIndex && dot <= |p|
  {
    exists j :: sepIndex < j < dot && p[j] != '.'
  }

  /**
    `os.path.splitext(p)`: the extension starts at the last '.' of the final path
    component, unless everything before that dot in the component is dots (a
    leading-dot name such as ".webp" has no extension).
  */
  function SplitExt(p: string): (r: (string, string))
    ensures r.0 + r.1 == p
    ensures r.1 == "" || (r.1[0] == '.' && '.' !in r.1[1..] && '/' !in r.1)
  {
    var sepIndex := LastIndexOf(p, '/');
    var dotIndex := LastIndexOf(p, '.');
    if dotIndex > sepIndex && HasBaseBefore(p, sepIndex, dotIndex) then
      assert p[..dotIndex] + p[dotIndex..] == p;
      (p[..dotIndex], p[dotIndex..])
    else
      (p, "")
  }

  /** `os.path.splitext(p)[0]`. */
  function Stem(p: string): string { SplitExt(p).0 }

  /**
    A name that has a non-dot character after its last '/' keeps its own stem when
    an extension is appended: `splitext(x + ext) == (x, ext)`.
  */
  lemma SplitExtAppend(x: string, ext: string)
    requires |ext| >= 1 && ext[0] == '.' && '.' !in ext[1..] && '/' !in ext
    requires HasBaseBefore(x, LastIndexOf(x, '/'), |x|)
    ensures SplitExt(x + ext) == (x, ext)
  {
    var p := x + ext;
    AppendKeepsLast(x, ext, '/');
    AppendDotIsLast(x, ext);
    HasBaseAppend(x, ext, LastIndexOf(x, '/'));
    SplitExtAt(p, |x|);
    assert p[..|x|] == x && p[|x|..] == ext;
  }

  lemma AppendKeepsLast(x: string, ext: string, c: char)
    requires c !in ext
    ensures LastIndexOf(x + ext, c) == LastIndexOf(x, c)
  {
    LastIndexOfAppend(x, ext, c);
  }

  lemma AppendDotIsLast(x: string, ext: string)
    requires |ext| >= 1 && ext[0] == '.' && '.' !in ext[1..]
    ensures LastIndexOf(x + ext, '.') == |x|
  {
    assert x + ext == (x + ['.']) + ext[1..];
    LastIndexOfAppend(x + ['.'], ext[1..], '.');
  }

  lemma HasBaseAppend(x: string, ext: string, sepIndex: int)
    requires -1 <= sepIndex
    requires HasBaseBefore(x, sepIndex, |x|)
    ensures HasBaseBefore(x + ext, sepIndex, |x|)
  {
    var j :| sepIndex < j < |x| && x[j] != '.';
    assert (x + ext)[j] == x[j];
  }

  /** `splitext` cuts at the last dot when it lies in the final component after a non-dot. */
  lemma SplitExtAt(p: string, k: int)
    requires LastIndexOf(p, '.') == k && LastIndexOf(p, '/') < k
    requires HasBaseBefore(p, LastIndexOf(p, '/'), k)
    ensures SplitExt(p) == (p[..k], p[k..])
  {
  }

  /** `os.path.join(a, b)` for two components on POSIX. */
  function PathJoin(a: string, b: string): string
  {
    if StartsWith(b, "/") then b
    else if a == "" || EndsWith(a, "/") then a + b
    else a + "/" + b
  }

  /**
    The joined path ends with the second component; a relative component keeps the
    first as a prefix, and when the first is not empty a separator stands right
    before the second.
  */
  lemma PathJoinParts(a: string, b: string)
    ensures EndsWith(PathJoin(a, b), b)
    ensures !StartsWith(b, "/") ==> StartsWith(PathJoin(a, b), a)
    ensures !StartsWith(b, "/") && a != "" ==>
      |PathJoin(a, b)| > |b| && PathJoin(a, b)[|PathJoin(a, b)| - |b| - 1] == '/'
  {
    var r := PathJoin(a, b);
    if !StartsWith(b, "/") {
      if a == "" || EndsWith(a, "/") {
        assert r == a + b;
        assert r[..|a|] == a;
        assert r[|a|..] == b;
        if a != "" {
          assert r[|r| - |b| - 1] == a[|a| - 1];
        }
      } else {
        assert r == a + "/" + b;
        assert r[..|a|] == a;
        assert r[|a| + 1..] == b;
      }
    }
  }

  // ---------------------------------------------------------------------------
  // pathlib.PurePath.suffix and .stem (the rule of Python 3.12)
  // ---------------------------------------------------------------------------

  /** The suffix of a file name: from its last '.', when that dot is neither the first nor the last character. */
  function PathSuffix(name: string): (r: string)
    ensures r == "" || r[0] == '.'
  {
    var i := LastIndexOf(name, '.');
    if 0 < i < |name| - 1 then name[i..] else ""
  }

  /** The stem of a file name: the name without `PathSuffix`. */
  function PathStem(name: string): (r: string)
    ensures r + PathSuffix(name) == name
  {
    var i := LastIndexOf(name, '.');
    if 0 < i < |name| - 1 then
      assert name[..i] + name[i..] == name;
      name[..i]
    else name
  }

  // ---------------------------------------------------------------------------
  // Decimal text
  // ---------------------------------------------------------------------------

  function DigitChar(d: nat): (c: char)
    requires d < 10
    ensures IsDigit(c)
  {
    ('0' as int + d) as char
  }

  function DigitValue(c: char): (d: nat)
    requires IsDigit(c)
    ensures d < 10
  {
    c as int - '0' as int
  }

  /** The decimal value of a string of digits (leading zeros allowed). */
  function DigitsValue(s: string): nat
    requires AllDigits(s)
  {
    if |s| == 0 then 0
    else DigitsValue(s[..|s| - 1]) * 10 + DigitValue(s[|s| - 1])
  }

  /** `str(n)` / `f"{n}"` for a natural number: at least one digit, no leading zero. */
  function NatToString(n: nat): (s: string)
    ensures |s| >= 1 && AllDigits(s)
    ensures |s| > 1 ==> s[0] != '0'
    decreases n
  {
    if n < 10 then [DigitChar(n)]
    else
      var prefix := NatToString(n / 10);
      assert (prefix + [DigitChar(n % 10)])[0] == prefix[0];
      prefix + [DigitChar(n % 10)]
  }

  /** Reading back the decimal text of `n` gives `n`. */
  lemma {:induction false} NatToStringValue(n: nat)
    ensures DigitsValue(NatToString(n)) == n
    decreases n
  {
    if n >= 10 {
      NatToStringValue(n / 10);
      var s := NatToString(n);
      assert s[..|s| - 1] == NatToString(n / 10);
    }
  }

  lemma NatToStringInjective(m: nat, n: nat)
    requires NatToString(m) == NatToString(n)
    ensures m == n
  {
    NatToStringValue(m);
    NatToStringValue(n);
  }

  // ---------------------------------------------------------------------------
  // int(text)
  // ---------------------------------------------------------------------------

  /**
   * The text `int()` reads once the white space around it is skipped: it is
   * empty only for a text of white space alone, and does not start or end with it.
   */
  function Strip(s: string): (r: string)
    ensures |r| <= |s|
    ensures |r| > 0 ==> !IsIntSpace(r[0]) && !IsIntSpace(r[|r| - 1])
    ensures r == [] <==> forall k :: 0 <= k < |s| ==> IsIntSpace(s[k])
    decreases |s|
  {
    if |s| > 0 && IsIntSpace(s[0]) then
      assert forall k :: 1 <= k < |s| ==> s[1..][k - 1] == s[k];
      Strip(s[1..])
    else if |s| > 0 && IsIntSpace(s[|s| - 1]) then
      assert forall k :: 0 <= k < |s| - 1 ==> s[..|s| - 1][k] == s[k];
      Strip(s[..|s| - 1])
    else s
  }

  /** `r` is the slice of `s` from `i`, with only white space before and after it. */
  predicate SpaceAround(s: string, i: nat, r: string) {
    && i + |r| <= |s| && s[i..i + |r|] == r
    && (forall k :: 0 <= k < i ==> IsIntSpace(s[k]))
    && (forall k :: i + |r| <= k < |s| ==> IsIntSpace(s[k]))
  }

  lemma SpaceAroundFirst(s: string, i: nat, r: string)
    requires |s| > 0 && IsIntSpace(s[0]) && SpaceAround(s[1..], i, r)
    ensures SpaceAround(s, i + 1, r)
  {
    assert forall k :: 1 <= k < |s| ==> s[k] == s[1..][k - 1];
    assert s[i + 1..i + 1 + |r|] == s[1..][i..i + |r|];
  }

  lemma SpaceAroundLast(s: string, i: nat, r: string)
    requires |s| > 0 && IsIntSpace(s[|s| - 1]) && SpaceAround(s[..|s| - 1], i, r)
    ensures SpaceAround(s, i, r)
  {
    assert forall k :: 0 <= k < |s| - 1 ==> s[k] == s[..|s| - 1][k];
    assert s[i..i + |r|] == s[..|s| - 1][i..i + |r|];
  }

  /** The stripped text is a slice of the input with only white space around it. */
  lemma {:induction false} StripSlice(s: string) returns (i: nat)
    ensures SpaceAround(s, i, Strip(s))
    decreases |s|
  {
    if |s| > 0 && IsIntSpace(s[0]) {
      var j := StripSlice(s[1..]);
      SpaceAroundFirst(s, j, Strip(s));
      i := j + 1;
    } else if |s| > 0 && IsIntSpace(s[|s| - 1]) {
      i := StripSlice(s[..|s| - 1]);
      SpaceAroundLast(s, i, Strip(s));
    } else {
      i := 0;
      assert s[0..|s|] == s;
    }
  }

  /** Digits in groups separated by single underscores, as `int()` accepts them. */
  predicate IsDigitGroups(s: string) {
    && |s| > 0
    && IsDigit(s[0]) && IsDigit(s[|s| - 1])
    && (forall i :: 0 <= i < |s| ==> IsDigit(s[i]) || s[i] == '_')
    && (forall i :: 0 <= i < |s| - 1 ==> !(s[i] == '_' && s[i + 1] == '_'))
  }

  function RemoveUnderscores(s: string): (r: string)
    requires forall i :: 0 <= i < |s| ==> IsDigit(s[i]) || s[i] == '_'
    ensures AllDigits(r)
  {
    if |s| == 0 then ""
    else if s[0] == '_' then RemoveUnderscores(s[1..])
    else [s[0]] + RemoveUnderscores(s[1..])
  }

  lemma {:induction false} RemoveUnderscoresOfDigits(s: string)
    requires AllDigits(s)
    ensures RemoveUnderscores(s) == s
  {
    if |s| > 0 {
      RemoveUnderscoresOfDigits(s[1..]);
      assert s == [s[0]] + s[1..];
    }
  }

  /**
   * The default of `sys.get_int_max_str_digits()` (Python 3.11, and 3.10.7 and
   * 3.9.14 onward): `int()` refuses decimal text with more digits than this.
   */
  const MaxStrDigits: nat := 4300

  /**
   * `int(text)` in base 10: `None` stands for the `ValueError` Python raises,
   * also when the digits (underscores not counted) exceed `MaxStrDigits`.
   */
  function ParseInt(text: string): (r: Option<int>)
  {
    var t := Strip(text);
    if |t| > 0 && (t[0] == '+' || t[0] == '-') then
      var body := t[1..];
      if IsDigitGroups(body) && |RemoveUnderscores(body)| <= MaxStrDigits then
        var v: int := DigitsValue(RemoveUnderscores(body));
        Some(if t[0] == '-' then -v else v)
      else None
    else if IsDigitGroups(t) && |RemoveUnderscores(t)| <= MaxStrDigits then
      Some(DigitsValue(RemoveUnderscores(t)))
    else None
  }

  lemma StripOfDigits(s: string)
    requires |s| >= 1 && AllDigits(s)
    ensures Strip(s) == s
  {
    assert !IsIntSpace(s[0]) && !IsIntSpace(s[|s| - 1]);
  }

  /** `int(str(n)) == n` for every `n` within the digit limit. */
  lemma ParseIntOfNatToString(n: nat)
    requires |NatToString(n)| <= MaxStrDigits
    ensures ParseInt(NatToString(n)) == Some(n)
  {
    var s := NatToString(n);
    StripOfDigits(s);
    RemoveUnderscoresOfDigits(s);
    NatToStringValue(n);
    assert IsDigitGroups(s);
  }

  /** `int()` skips the space and `\t` to `\r`, but not `\x1c`, which `str.isspace` accepts. */
  lemma ParseIntSpaces()
    ensures ParseInt(" 7\t") == Some(7)
    ensures ParseInt("\U{1C}7") == None
    ensures ParseInt("7\U{1F}") == None
  {
    assert Strip("7") == "7";
    assert Strip(" 7\t") == "7" by { assert " 7\t"[1..] == "7\t"; assert "7\t"[..1] == "7"; }
    assert DigitsValue("7") == 7;
    RemoveUnderscoresOfDigits("7");
    assert Strip("\U{1C}7") == "\U{1C}7";
    assert Strip("7\U{1F}") == "7\U{1F}";
  }

  /** Beyond the digit limit `int(str(n))` raises `ValueError`. */
  lemma ParseIntBeyondLimit(n: nat)
    requires |NatToString(n)| > MaxStrDigits
    ensures ParseInt(NatToString(n)) == None
  {
    var s := NatToString(n);
    StripOfDigits(s);
    RemoveUnderscoresOfDigits(s);
  }
}
