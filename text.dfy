/**
 * String primitives that the frontend (JavaScript/TypeScript) and the backend
 * (Python) rely on: whitespace trimming, length, substring search, ASCII case
 * folding, splitting off the last segment, joining, and integer-to-decimal
 * conversion. Strings are sequences of Unicode scalar values.
 */
module Text {
  import opened Wrappers
  import opened Sequences

  // ---------------------------------------------------------------------
  // Whitespace
  // ---------------------------------------------------------------------

  /** The ECMAScript line terminators: LF, CR, LINE SEPARATOR, PARAGRAPH SEPARATOR. */
  predicate IsJsLineTerminator(c: char) {
    c == '\n' || c == '\r' || c == '\U{2028}' || c == '\U{2029}'
  }

  /** What `String.prototype.trim` strips: ECMAScript WhiteSpace and LineTerminator. */
  predicate IsJsWhitespace(c: char) {
    c == '\t' || c == '\U{000B}' || c == '\U{000C}' || c == ' ' || c == '\U{00A0}'
    || c == '\U{1680}' || ('\U{2000}' <= c <= '\U{200A}') || c == '\U{202F}'
    || c == '\U{205F}' || c == '\U{3000}' || c == '\U{FEFF}' || IsJsLineTerminator(c)
  }

  /** What Python's `str.strip()` strips: the characters for which `str.isspace()` holds. */
  predicate IsPyWhitespace(c: char) {
    ('\t' <= c <= '\r') || ('\U{001C}' <= c <= '\U{001F}') || c == ' ' || c == '\U{0085}'
    || c == '\U{00A0}' || c == '\U{1680}' || ('\U{2000}' <= c <= '\U{200A}')
    || c == '\U{2028}' || c == '\U{2029}' || c == '\U{202F}' || c == '\U{205F}' || c == '\U{3000}'
  }

  /** The truth value Python gives an optional string: `None` and '' are false. */
  predicate TruthyText(s: Option<string>) {
    s.Some? && s.value != ""
  }

  /** Every character of `s` satisfies `ws`. */
  predicate AllIn(s: string, ws: char -> bool) {
    forall i :: 0 <= i < |s| ==> ws(s[i])
  }

  /** Drops the leading characters that satisfy `ws`. */
  function TrimStart(s: string, ws: char -> bool): (r: string)
    ensures |r| <= |s| && r == s[|s| - |r|..]
    ensures forall i :: 0 <= i < |s| - |r| ==> ws(s[i])
    ensures r == [] || !ws(r[0])
  {
    if s != [] && ws(s[0]) then
      var r := TrimStart(s[1..], ws);
      assert s[1..][|s| - 1 - |r|..] == s[|s| - |r|..];
      assert forall i :: 1 <= i < |s| - |r| ==> s[i] == s[1..][i - 1];
      r
    else s
  }

  /** Drops the trailing characters that satisfy `ws`. */
  function TrimEnd(s: string, ws: char -> bool): (r: string)
    ensures |r| <= |s| && r == s[..|r|]
    ensures forall i :: |r| <= i < |s| ==> ws(s[i])
    ensures r == [] || !ws(r[|r| - 1])
  {
    if s != [] && ws(s[|s| - 1]) then TrimEnd(s[..|s| - 1], ws) else s
  }

  /** Drops the characters satisfying `ws` from both ends. */
  function Trim(s: string, ws: char -> bool): (r: string)
    ensures |r| <= |s|
    ensures r == [] <==> AllIn(s, ws)
    ensures r != [] ==> !ws(r[0]) && !ws(r[|r| - 1])
  {
    var t := TrimStart(s, ws);
    var r := TrimEnd(t, ws);
    r
  }

  /** A string whose ends are not whitespace is left alone by `Trim`. */
  lemma TrimFixed(s: string, ws: char -> bool)
    requires s == [] || (!ws(s[0]) && !ws(s[|s| - 1]))
    ensures Trim(s, ws) == s
  {
    assert TrimStart(s, ws) == s;
  }

  /** Trimming twice is trimming once. */
  lemma TrimIdempotent(s: string, ws: char -> bool)
    ensures Trim(Trim(s, ws), ws) == Trim(s, ws)
  {
    TrimFixed(Trim(s, ws), ws);
  }

  /** Leading characters that satisfy `ws` are skipped up to the first one that does not. */
  lemma {:induction false} TrimStartSkips(p: string, s: string, ws: char -> bool)
    requires AllIn(p, ws) && (s == [] || !ws(s[0]))
    ensures TrimStart(p + s, ws) == s
  {
    if p == [] {
      assert p + s == s;
    } else {
      assert (p + s)[1..] == p[1..] + s;
      TrimStartSkips(p[1..], s, ws);
    }
  }

  /** Trailing characters that satisfy `ws` are dropped back to the last one that does not. */
  lemma {:induction false} TrimEndSkips(s: string, p: string, ws: char -> bool)
    requires AllIn(p, ws) && (s == [] || !ws(s[|s| - 1]))
    ensures TrimEnd(s + p, ws) == s
  {
    if p == [] {
      assert s + p == s;
    } else {
      assert (s + p)[..|s + p| - 1] == s + p[..|p| - 1];
      TrimEndSkips(s, p[..|p| - 1], ws);
    }
  }

  /** Trimming removes exactly the padding around a text whose ends are not whitespace. */
  lemma TrimPadded(before: string, core: string, after: string, ws: char -> bool)
    requires AllIn(before, ws) && AllIn(after, ws)
    requires core != [] && !ws(core[0]) && !ws(core[|core| - 1])
    ensures Trim(before + core + after, ws) == core
  {
    assert before + core + after == before + (core + after);
    TrimStartSkips(before, core + after, ws);
    TrimEndSkips(core, after, ws);
  }

  /** JavaScript's `s.trim()`: ECMAScript whitespace and line terminators, U+FEFF included, go from both ends. */
  function JsTrim(s: string): (r: string)
    ensures |r| <= |s|
    ensures r == "" <==> AllIn(s, IsJsWhitespace)
    ensures r != "" ==> !IsJsWhitespace(r[0]) && !IsJsWhitespace(r[|r| - 1])
  {
    Trim(s, IsJsWhitespace)
  }

  /** Python's `s.strip()`: the `isspace()` characters, U+001C-U+001F and U+0085 included, go from both ends. */
  function PyStrip(s: string): (r: string)
    ensures |r| <= |s|
    ensures r == "" <==> AllIn(s, IsPyWhitespace)
    ensures r != "" ==> !IsPyWhitespace(r[0]) && !IsPyWhitespace(r[|r| - 1])
  {
    Trim(s, IsPyWhitespace)
  }

  // ---------------------------------------------------------------------
  // Length
  // ---------------------------------------------------------------------

  /** Whether `c` lies outside the Basic Multilingual Plane (a surrogate pair in UTF-16). */
  predicate IsAstral(c: char) {
    c as int > 0xFFFF
  }

  /**
   * A JavaScript string's `length`: the number of UTF-16 code units, so a
   * character outside the Basic Multilingual Plane counts twice. (Python's
   * `len` is the number of characters, `|s|`.)
   */
  function JsLength(s: string): (n: nat)
    ensures |s| <= n <= 2 * |s|
    ensures (forall i :: 0 <= i < |s| ==> !IsAstral(s[i])) ==> n == |s|
    ensures |s| == 1 ==> n == (if IsAstral(s[0]) then 2 else 1)
  {
    if s == [] then 0 else (if IsAstral(s[0]) then 2 else 1) + JsLength(s[1..])
  }

  /** UTF-16 counts every character once and each astral character once more. */
  lemma {:induction false} JsLengthCountsAstral(s: string)
    ensures JsLength(s) == |s| + |Filter(s, IsAstral)|
  {
    if s != [] {
      JsLengthCountsAstral(s[1..]);
    }
  }

  /** The UTF-16 length of a concatenation is the sum of the parts' lengths. */
  lemma {:induction false} JsLengthConcat(a: string, b: string)
    ensures JsLength(a + b) == JsLength(a) + JsLength(b)
  {
    if a != [] {
      assert (a + b)[0] == a[0];
      assert (a + b)[1..] == a[1..] + b;
      JsLengthConcat(a[1..], b);
    } else {
      assert a + b == b;
    }
  }

  // ---------------------------------------------------------------------
  // Substrings
  // ---------------------------------------------------------------------

  predicate StartsWith(s: string, prefix: string) {
    |prefix| <= |s| && s[..|prefix|] == prefix
  }

  /** `sub` occurs in `s` starting at offset `k`. */
  predicate OccursAt(s: string, sub: string, k: nat) {
    k + |sub| <= |s| && s[k..k + |sub|] == sub
  }

  /** An occurrence in a non-empty string is at its start or an occurrence in its tail. */
  lemma OccursStep(s: string, sub: string)
    requires s != []
    ensures (exists k: nat :: OccursAt(s, sub, k)) <==>
            StartsWith(s, sub) || exists k: nat :: OccursAt(s[1..], sub, k)
  {
    if StartsWith(s, sub) {
      assert OccursAt(s, sub, 0);
    }
    if exists k: nat :: OccursAt(s[1..], sub, k) {
      var k: nat :| OccursAt(s[1..], sub, k);
      assert s[k + 1..k + 1 + |sub|] == s[1..][k..k + |sub|];
      assert OccursAt(s, sub, k + 1);
    }
    if exists k: nat :: OccursAt(s, sub, k) {
      var k: nat :| OccursAt(s, sub, k);
      if k > 0 {
        assert s[1..][k - 1..k - 1 + |sub|] == s[k..k + |sub|];
        assert OccursAt(s[1..], sub, k - 1);
      }
    }
  }

  /** JavaScript's `s.includes(sub)`: `sub` occurs at some offset of `s`. */
  function Contains(s: string, sub: string): (b: bool)
    ensures b <==> exists k: nat :: OccursAt(s, sub, k)
    ensures b ==> |sub| <= |s|
    ensures StartsWith(s, sub) ==> b
    decreases |s|
  {
    if s == [] then
      assert sub == [] ==> OccursAt(s, sub, 0);
      StartsWith(s, sub)
    else
      OccursStep(s, sub);
      StartsWith(s, sub) || Contains(s[1..], sub)
  }

  /** An occurrence of `sub` at offset `k` makes `s` contain `sub`. */
  lemma {:induction false} ContainsAt(s: string, sub: string, k: nat)
    requires k + |sub| <= |s| && s[k..k + |sub|] == sub
    ensures Contains(s, sub)
  {
    if k == 0 {
      assert StartsWith(s, sub);
    } else {
      assert s[1..][k - 1..k - 1 + |sub|] == sub;
      ContainsAt(s[1..], sub, k - 1);
    }
  }

  /** `sub` occurs in any string that has it in the middle. */
  lemma ContainsInfix(a: string, sub: string, b: string)
    ensures Contains(a + sub + b, sub)
  {
    assert (a + sub + b)[|a|..|a| + |sub|] == sub;
    ContainsAt(a + sub + b, sub, |a|);
  }

  /** A string too short to hold `sub` does not contain it. */
  lemma {:induction false} NotContainsShort(s: string, sub: string)
    requires |s| < |sub|
    ensures !Contains(s, sub)
  {
    if s != [] {
      NotContainsShort(s[1..], sub);
    }
  }

  // ---------------------------------------------------------------------
  // Case folding and splitting
  // ---------------------------------------------------------------------

  /** Lower-cases an ASCII letter and leaves every other character alone. */
  function LowerChar(c: char): (d: char)
    ensures 'A' <= c <= 'Z' ==> d as int == c as int + 32
    ensures !('A' <= c <= 'Z') ==> d == c
  {
    if 'A' <= c <= 'Z' then (c as int + 32) as char else c
  }

  /** `s.toLowerCase()` / `s.lower()` restricted to ASCII letters. */
  function Lower(s: string): (r: string)
    ensures |r| == |s| && forall i :: 0 <= i < |s| ==> r[i] == LowerChar(s[i])
  {
    seq(|s|, i requires 0 <= i < |s| => LowerChar(s[i]))
  }

  /** Lower-casing keeps the dots where they are and commutes with dropping the first character. */
  lemma LowerDropFirst(s: string)
    requires |s| > 0
    ensures Lower(s)[0] == '.' <==> s[0] == '.'
    ensures Lower(s)[1..] == Lower(s[1..])
    ensures '.' in Lower(s) <==> '.' in s
  {
    var r := Lower(s);
    assert |r[1..]| == |Lower(s[1..])|;
    forall i | 0 <= i < |r| - 1 ensures r[1..][i] == Lower(s[1..])[i] {
      assert r[1..][i] == r[i + 1] == LowerChar(s[i + 1]);
    }
    if '.' in s {
      var i :| 0 <= i < |s| && s[i] == '.';
      assert r[i] == '.';
    }
    if '.' in r {
      var i :| 0 <= i < |r| && r[i] == '.';
      assert LowerChar(s[i]) == '.';
    }
  }

  /**
   * The last piece of `s.split(sep)`: the text after the last `sep`, or the
   * whole string when it holds no `sep`.
   */
  function LastSegment(s: string, sep: char): (r: string)
    ensures |r| <= |s| && sep !in r
    ensures forall i :: 0 <= i < |r| ==> r[i] == s[|s| - |r| + i]
    ensures forall j :: |s| - |r| <= j < |s| ==> s[j] != sep
    ensures |r| < |s| ==> s[|s| - |r| - 1] == sep
  {
    if s == [] || s[|s| - 1] == sep then [] else LastSegment(s[..|s| - 1], sep) + [s[|s| - 1]]
  }

  /** A string without `sep` is its own last segment. */
  lemma LastSegmentWhole(s: string, sep: char)
    requires sep !in s
    ensures LastSegment(s, sep) == s
  {
  }

  /** The last segment of a string is whatever follows its last separator. */
  lemma LastSegmentAfterSeparator(a: string, sep: char, b: string)
    requires sep !in b
    ensures LastSegment(a + [sep] + b, sep) == b
  {
    var s := a + [sep] + b;
    assert s[|s| - |b| - 1] == sep;
    assert s[|s| - |b|..] == b;
    LastSegmentOfSuffix(s, sep, b);
  }

  /** A separator-free tail of `s` that follows a separator is its last segment. */
  lemma {:induction false} LastSegmentOfSuffix(s: string, sep: char, b: string)
    requires sep !in b && |b| < |s| && s[|s| - |b| - 1] == sep && s[|s| - |b|..] == b
    ensures LastSegment(s, sep) == b
    decreases |b|
  {
    if b != [] {
      var last := |s| - 1;
      assert s[last] == s[|s| - |b|..][|b| - 1] == b[|b| - 1];
      assert b[|b| - 1] in b;
      var s', b' := s[..last], b[..|b| - 1];
      assert s'[|s'| - |b'| - 1] == s[|s| - |b| - 1];
      assert s'[|s'| - |b'|..] == s[|s| - |b|..][..|b| - 1];
      LastSegmentOfSuffix(s', sep, b');
      assert b == b' + [b[|b| - 1]];
    }
  }



  // ---------------------------------------------------------------------
  // Python paths
  // ---------------------------------------------------------------------

  /** `Path(p).name` for a path without trailing or repeated separators: the last '/'-segment. */
  function PathName(path: string): (name: string)
    ensures '/' !in name && |name| <= |path|
    ensures forall i :: 0 <= i < |name| ==> name[i] == path[|path| - |name| + i]
    ensures '/' !in path ==> name == path
    ensures |name| < |path| ==> path[|path| - |name| - 1] == '/'
  {
    LastSegment(path, '/')
  }

  /** The name of `dir/name` is `name`, whatever the directory. */
  lemma PathNameAfterDirectory(dir: string, name: string)
    requires '/' !in name
    ensures PathName(dir + "/" + name) == name
  {
    LastSegmentAfterSeparator(dir, '/', name);
    assert dir + "/" + name == dir + ['/'] + name;
  }

  /**
   * `PurePath.suffix` of a final path component: the text from its last dot
   * on, when that dot is neither the first nor the last character; '' otherwise.
   */
  function PathSuffix(name: string): (r: string)
    ensures r == "" || (|r| >= 2 && r[0] == '.' && '.' !in r[1..])
    ensures r != "" ==> |r| < |name| && forall i :: 0 <= i < |r| ==> r[i] == name[|name| - |r| + i]
    ensures r != "" ==> r[1..] == LastSegment(name, '.')
  {
    var tail := LastSegment(name, '.');
    if tail != "" && |tail| + 1 < |name| then "." + tail else ""
  }

  /** A lower-cased suffix is a dot followed by the lower-cased text after the last dot. */
  lemma LowerSuffixIsDotTail(name: string)
    requires PathSuffix(name) != ""
    ensures Lower(PathSuffix(name)) == "." + Lower(LastSegment(name, '.'))
  {
    var r := PathSuffix(name);
    LowerDropFirst(r);
    var l := Lower(r);
    assert l[0] == '.' && l[1..] == Lower(LastSegment(name, '.'));
    assert l == [l[0]] + l[1..];
  }

  /** A name with a suffix has a dot in it. */
  lemma SuffixDot(name: string)
    requires PathSuffix(name) != ""
    ensures '.' in name
  {
    assert name[|name| - |PathSuffix(name)|] == '.';
  }

  /** A non-empty stem followed by a dot and a dotless, non-empty extension has that suffix. */
  lemma PathSuffixAfterStem(stem: string, ext: string)
    requires stem != "" && ext != "" && '.' !in ext
    ensures PathSuffix(stem + "." + ext) == "." + ext
  {
    assert stem + "." + ext == stem + ['.'] + ext;
    LastSegmentAfterSeparator(stem, '.', ext);
  }

  /** A name whose only dot leads it (a hidden file such as '.md') has no suffix. */
  lemma LeadingDotIsNoSuffix(ext: string)
    requires '.' !in ext
    ensures PathSuffix("." + ext) == ""
  {
    assert "." + ext == [] + ['.'] + ext;
    LastSegmentAfterSeparator([], '.', ext);
  }

  /** A name ending in a dot has no suffix. */
  lemma TrailingDotIsNoSuffix(stem: string)
    ensures PathSuffix(stem + ".") == ""
  {
    assert LastSegment(stem + ".", '.') == [];
  }

  /** `parts.join(sep)` / `sep.join(parts)`. */
  function Join(parts: seq<string>, sep: string): (r: string)
    ensures |parts| == 0 ==> r == ""
    ensures |parts| == 1 ==> r == parts[0]
    ensures |parts| > 0 ==> StartsWith(r, parts[0])
  {
    if |parts| == 0 then ""
    else if |parts| == 1 then parts[0]
    else parts[0] + sep + Join(parts[1..], sep)
  }

  /** Joining one more part appends the separator and that part. */
  lemma {:induction false} JoinAppend(parts: seq<string>, p: string, sep: string)
    requires |parts| > 0
    ensures Join(parts + [p], sep) == Join(parts, sep) + sep + p
    decreases |parts|
  {
    var all := parts + [p];
    if |parts| > 1 {
      assert all[1..] == parts[1..] + [p];
      JoinAppend(parts[1..], p, sep);
    } else {
      assert all[1..] == [p];
    }
  }

  // ---------------------------------------------------------------------
  // Decimal rendering of integers
  // ---------------------------------------------------------------------

  predicate IsDigit(c: char) {
    '0' as int <= c as int <= '9' as int
  }

  function DigitChar(d: nat): (c: char)
    requires d < 10
    ensures IsDigit(c)
  {
    ('0' as int + d) as char
  }

  /** The decimal digits of `n`, without leading zeros. */
  function NatToDecimal(n: nat): (r: string)
    ensures r != [] && forall i :: 0 <= i < |r| ==> IsDigit(r[i])
    ensures r[0] == '0' <==> n == 0
    decreases n
  {
    if n < 10 then [DigitChar(n)] else NatToDecimal(n / 10) + [DigitChar(n % 10)]
  }

  /** `String(n)` in JavaScript and `str(n)` in Python for an integer `n`. */
  function IntToDecimal(n: int): (r: string)
    ensures r != []
    ensures r[0] == '-' <==> n < 0
  {
    if n < 0 then "-" + NatToDecimal(-n) else NatToDecimal(n)
  }

  /** Only zero is written "0". */
  lemma IntToDecimalZero(n: int)
    ensures IntToDecimal(n) == "0" <==> n == 0
  {
    if n > 0 {
      assert NatToDecimal(n)[0] != '0';
    }
  }

  /** The number a string of decimal digits denotes. */
  function DecimalValue(s: string): nat
    requires forall i :: 0 <= i < |s| ==> IsDigit(s[i])
  {
    if s == [] then 0
    else
      assert IsDigit(s[|s| - 1]);
      10 * DecimalValue(s[..|s| - 1]) + (s[|s| - 1] as int - '0' as int)
  }

  /** Reading back the digits of `n` gives `n`. */
  lemma {:induction false} DecimalRoundTrip(n: nat)
    ensures DecimalValue(NatToDecimal(n)) == n
  {
    if n >= 10 {
      var r := NatToDecimal(n);
      assert r[..|r| - 1] == NatToDecimal(n / 10);
      DecimalRoundTrip(n / 10);
    }
  }
}
