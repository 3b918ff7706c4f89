/**
 * Display formatting of the frontend (frontend/src/utils/formatters.ts): the
 * bold/newline rewrite of answer text and the one-line rendering of a citation.
 */
module Formatters {
  import opened Wrappers
  import opened Text
  import opened Models

  // ---------------------------------------------------------------------
  // formatMarkdownToHtml
  // ---------------------------------------------------------------------

  predicate IsMarker(s: string, k: int) {
    0 <= k && k + 1 < |s| && s[k] == '*' && s[k + 1] == '*'
  }

  /**
   * The lazy run and closing stars of the bold pattern, tried from position `j`:
   * the first `**` at or after `j` that is reached without crossing a line
   * terminator (the regular expression's `.` matches no line terminator).
   */
  function FindClose(s: string, j: nat): (k: Option<nat>)
    requires j <= |s|
    ensures k.Some? ==> j <= k.value && IsMarker(s, k.value)
    ensures k.Some? ==> forall i :: j <= i < k.value ==> !IsJsLineTerminator(s[i]) && !IsMarker(s, i)
    decreases |s| - j
  {
    if IsMarker(s, j) then Some(j)
    else if j < |s| && !IsJsLineTerminator(s[j]) then FindClose(s, j + 1)
    else None
  }

  /**
   * The global bold replacement (two stars, a lazy run, two stars, as `<strong>$1</strong>`): scanning left to
   * right, a `**` that has a closing `**` on the same line starts a bold span
   * up to the nearest such closing marker; any other character is copied.
   */
  function Bold(s: string): (r: string)
    ensures r == [] <==> s == []
    decreases |s|
  {
    if s == [] then []
    else if IsMarker(s, 0) && FindClose(s, 2).Some? then
      var k := FindClose(s, 2).value;
      "<strong>" + s[2..k] + "</strong>" + Bold(s[k + 2..])
    else [s[0]] + Bold(s[1..])
  }

  /** What one character becomes under the newline replacement. */
  function BreakChar(c: char): string {
    if c == '\n' then "<br />" else [c]
  }

  /** The global replacement of every newline by `<br />`. */
  function BreakLines(s: string): (r: string)
    ensures '\n' !in r
  {
    if s == [] then [] else BreakChar(s[0]) + BreakLines(s[1..])
  }

  /** `formatMarkdownToHtml`: bold spans first, then line breaks. */
  function FormatMarkdownToHtml(text: string): (r: string)
    ensures '\n' !in r
  {
    BreakLines(Bold(text))
  }

  // Properties of BreakLines.

  lemma {:induction false} BreakLinesAppend(a: string, b: string)
    ensures BreakLines(a + b) == BreakLines(a) + BreakLines(b)
  {
    if a == [] {
      assert a + b == b;
    } else {
      calc {
        BreakLines(a + b);
      == { assert (a + b)[0] == a[0] && (a + b)[1..] == a[1..] + b; }
        BreakChar(a[0]) + BreakLines(a[1..] + b);
      == { BreakLinesAppend(a[1..], b); }
        BreakChar(a[0]) + (BreakLines(a[1..]) + BreakLines(b));
      ==
        (BreakChar(a[0]) + BreakLines(a[1..])) + BreakLines(b);
      }
    }
  }

  lemma {:induction false} BreakLinesPlain(s: string)
    requires '\n' !in s
    ensures BreakLines(s) == s
  {
    if s != [] {
      BreakLinesPlain(s[1..]);
    }
  }

  // Properties of FindClose.

  /** The nearest marker is found when nothing before it is a marker or a line terminator. */
  lemma {:induction false} FindCloseReaches(s: string, j: nat, k: nat)
    requires j <= k && IsMarker(s, k)
    requires forall i :: j <= i < k ==> !IsJsLineTerminator(s[i]) && !IsMarker(s, i)
    ensures FindClose(s, j) == Some(k)
    decreases k - j
  {
    if j < k {
      FindCloseReaches(s, j + 1, k);
    }
  }

  /** Text without '*' holds no marker. */
  lemma {:induction false} FindCloseNoStar(s: string, j: nat)
    requires j <= |s|
    requires forall i :: j <= i < |s| ==> s[i] != '*'
    ensures FindClose(s, j) == None
    decreases |s| - j
  {
    if j < |s| && !IsJsLineTerminator(s[j]) {
      FindCloseNoStar(s, j + 1);
    }
  }

  /** A line terminator ends the search: what follows it is never consulted. */
  lemma {:induction false} FindCloseStopsAtLine(a: string, c: char, b: string, j: nat)
    requires IsJsLineTerminator(c) && j <= |a|
    ensures FindClose(a + [c] + b, j) == FindClose(a, j)
    decreases |a| - j
  {
    var s := a + [c] + b;
    assert s[|a|] == c;
    if j + 1 < |a| {
      assert s[j] == a[j] && s[j + 1] == a[j + 1];
      FindCloseStopsAtLine(a, c, b, j + 1);
    } else if j + 1 == |a| {
      assert s[j] == a[j];
      if !IsJsLineTerminator(a[j]) {
        FindCloseStopsAtLine(a, c, b, j + 1);
      }
    }
  }

  // Properties of Bold.

  /** Text between which no bold can start is copied unchanged in front of the rest. */
  lemma {:induction false} BoldPlainPrefix(p: string, t: string)
    requires '*' !in p
    ensures Bold(p + t) == p + Bold(t)
  {
    if p != [] {
      assert p[0] in p;
      assert (p + t)[0] == p[0];
      assert !IsMarker(p + t, 0);
      assert (p + t)[1..] == p[1..] + t;
      BoldPlainPrefix(p[1..], t);
    } else {
      assert p + t == t;
    }
  }

  /** Text with no '*' is unchanged. */
  lemma BoldPlain(s: string)
    requires '*' !in s
    ensures Bold(s) == s
  {
    BoldPlainPrefix(s, []);
    assert s + [] == s;
  }

  /** `**x**` with a star-free, single-line `x` becomes one `<strong>` span. */
  lemma BoldSpan(x: string, rest: string)
    requires '*' !in x
    requires forall i :: 0 <= i < |x| ==> !IsJsLineTerminator(x[i])
    ensures Bold("**" + x + "**" + rest) == "<strong>" + x + "</strong>" + Bold(rest)
  {
    var s := "**" + x + "**" + rest;
    var k := 2 + |x|;
    forall i | 2 <= i < k ensures !IsJsLineTerminator(s[i]) && !IsMarker(s, i) {
      assert s[i] == x[i - 2];
    }
    FindCloseReaches(s, 2, k);
    assert s[2..k] == x;
    assert s[k + 2..] == rest;
  }

  /** An opening `**` with no closing marker is copied literally. */
  lemma BoldUnmatched(x: string)
    requires '*' !in x
    ensures Bold("**" + x) == "**" + x
  {
    var s := "**" + x;
    FindCloseNoStar(s, 2);
    assert s[1..] == "*" + x;
    assert ("*" + x)[1..] == x;
    if x != [] {
      assert !IsMarker("*" + x, 0) by { assert ("*" + x)[1] == x[0]; }
    }
    BoldPlain(x);
  }

  /** Bold never spans a line terminator: the two sides are formatted independently. */
  lemma {:induction false} BoldSplitsAtLine(a: string, c: char, b: string)
    requires IsJsLineTerminator(c)
    ensures Bold(a + [c] + b) == Bold(a) + [c] + Bold(b)
    decreases |a|
  {
    var s := a + [c] + b;
    if a == [] {
      assert s == [c] + b;
      assert !IsMarker(s, 0);
      assert s[1..] == b;
    } else {
      assert s[0] == a[0];
      FindCloseStopsAtLine(a, c, b, if |a| >= 2 then 2 else |a|);
      if IsMarker(a, 0) && FindClose(a, 2).Some? {
        var k := FindClose(a, 2).value;
        assert IsMarker(s, 0);
        assert s[2..k] == a[2..k];
        assert s[k + 2..] == a[k + 2..] + [c] + b;
        BoldSplitsAtLine(a[k + 2..], c, b);
      } else {
        assert !(IsMarker(s, 0) && FindClose(s, 2).Some?) by {
          if |a| == 1 {
            assert s[1] == c;
          }
        }
        assert s[1..] == a[1..] + [c] + b;
        BoldSplitsAtLine(a[1..], c, b);
      }
    }
  }

  // Properties of FormatMarkdownToHtml.

  /** Each newline becomes exactly `<br />`, and no bold span crosses it. */
  lemma FormatSplitsAtNewline(a: string, b: string)
    ensures FormatMarkdownToHtml(a + "\n" + b)
         == FormatMarkdownToHtml(a) + "<br />" + FormatMarkdownToHtml(b)
  {
    BoldSplitsAtLine(a, '\n', b);
    BreakLinesAppend(Bold(a) + ['\n'], Bold(b));
    BreakLinesAppend(Bold(a), ['\n']);
  }

  /** Text containing neither '*' nor '\n' is returned unchanged. */
  lemma FormatPlain(s: string)
    requires '*' !in s && '\n' !in s
    ensures FormatMarkdownToHtml(s) == s
  {
    BoldPlain(s);
    BreakLinesPlain(s);
  }

  predicate SingleLine(s: string) {
    forall i :: 0 <= i < |s| ==> !IsJsLineTerminator(s[i])
  }

  /** A single-line text without '*' holds no newline. */
  lemma SingleLineHasNoNewline(x: string)
    requires SingleLine(x)
    ensures '\n' !in x
  {
    assert forall i :: 0 <= i < |x| ==> x[i] != '\n';
  }

  /** Regrouping two wrapped spans and the text between them. */
  lemma RegroupSpans(p: string, x: string, q: string, mid: string, y: string)
    ensures p + x + q + mid + p + y + q == (p + x + q) + (mid + (p + y + q))
  {
  }

  /** `**x**` alone, with a star-free single-line `x`, is one `<strong>` span. */
  lemma BoldWholeSpan(x: string)
    requires '*' !in x && SingleLine(x)
    ensures Bold("**" + x + "**") == "<strong>" + x + "</strong>"
  {
    assert "**" + x + "**" + "" == "**" + x + "**";
    BoldSpan(x, "");
    assert Bold("") == "";
    assert "<strong>" + x + "</strong>" + "" == "<strong>" + x + "</strong>";
  }

  /** The bold pass over two spans separated by star-free text. */
  lemma BoldTwoSpans(x: string, mid: string, y: string)
    requires '*' !in x && '*' !in mid && '*' !in y
    requires SingleLine(x) && SingleLine(y)
    ensures Bold("**" + x + "**" + mid + "**" + y + "**")
         == "<strong>" + x + "</strong>" + mid + "<strong>" + y + "</strong>"
  {
    BoldWholeSpan(y);
    BoldPlainPrefix(mid, "**" + y + "**");
    BoldSpan(x, mid + ("**" + y + "**"));
    RegroupSpans("**", x, "**", mid, y);
    RegroupSpans("<strong>", x, "</strong>", mid, y);
  }

  /** A `<strong>` span holds no newline when its text holds none. */
  lemma SpanHasNoNewline(x: string)
    requires '\n' !in x
    ensures '\n' !in "<strong>" + x + "</strong>"
  {
    assert '\n' !in "<strong>" && '\n' !in "</strong>";
  }

  /** Output of the bold pass without newlines is the formatter's whole output. */
  lemma FormatOfBold(t: string, r: string)
    requires Bold(t) == r && '\n' !in r
    ensures FormatMarkdownToHtml(t) == r
  {
    BreakLinesPlain(r);
  }

  /**
   * Two marked spans on one line become two `<strong>` elements: each
   * opening `**` pairs with the nearest closing one.
   */
  lemma FormatTwoSpans(x: string, mid: string, y: string)
    requires '*' !in x && '*' !in mid && '*' !in y
    requires SingleLine(x) && SingleLine(y) && '\n' !in mid
    ensures FormatMarkdownToHtml("**" + x + "**" + mid + "**" + y + "**")
         == "<strong>" + x + "</strong>" + mid + "<strong>" + y + "</strong>"
  {
    BoldTwoSpans(x, mid, y);
    SingleLineHasNoNewline(x);
    SingleLineHasNoNewline(y);
    SpanHasNoNewline(x);
    SpanHasNoNewline(y);
    FormatOfBold("**" + x + "**" + mid + "**" + y + "**",
                 "<strong>" + x + "</strong>" + mid + "<strong>" + y + "</strong>");
  }

  /** The example's source and rendering, cut into their spans. */
  lemma TwoSpansExamplePieces()
    ensures "**a** and **b**" == "**" + "a" + "**" + " and " + "**" + "b" + "**"
    ensures "<strong>a</strong> and <strong>b</strong>"
         == "<strong>" + "a" + "</strong>" + " and " + "<strong>" + "b" + "</strong>"
  {
  }

  /** `**a** and **b**` gives two spans. */
  lemma FormatTwoSpansExample()
    ensures FormatMarkdownToHtml("**a** and **b**") == "<strong>a</strong> and <strong>b</strong>"
  {
    TwoSpansExamplePieces();
    assert SingleLine("a") && SingleLine("b");
    FormatTwoSpans("a", " and ", "b");
  }

  /** The source `**x**` newline `y`, cut at the newline. */
  lemma BoldThenLinePieces(x: string, y: string)
    ensures "**" + x + "**\n" + y == ("**" + x + "**") + "\n" + y
    ensures ("<strong>" + x + "</strong>") + "<br />" + y == "<strong>" + x + "</strong><br />" + y
  {
  }

  /** A bold line followed by a plain line: `**x**` newline `y`. */
  lemma FormatBoldThenLine(x: string, y: string)
    requires '*' !in x && SingleLine(x) && '*' !in y && '\n' !in y
    ensures FormatMarkdownToHtml("**" + x + "**\n" + y) == "<strong>" + x + "</strong><br />" + y
  {
    BoldThenLinePieces(x, y);
    FormatSplitsAtNewline("**" + x + "**", y);
    BoldWholeSpan(x);
    SingleLineHasNoNewline(x);
    SpanHasNoNewline(x);
    FormatOfBold("**" + x + "**", "<strong>" + x + "</strong>");
    FormatPlain(y);
  }

  /** Markers on different lines are not paired and stay literal: `**x` newline `y**`. */
  lemma FormatMarkersOnTwoLines(x: string, y: string)
    requires '*' !in x && '*' !in y && '\n' !in x && '\n' !in y
    ensures FormatMarkdownToHtml("**" + x + "\n" + y + "**") == "**" + x + "<br />" + y + "**"
  {
    assert "**" + x + "\n" + y + "**" == ("**" + x) + "\n" + (y + "**");
    FormatSplitsAtNewline("**" + x, y + "**");
    BoldUnmatched(x);
    BreakLinesPlain("**" + x);
    BoldPlainPrefix(y, "**");
    assert Bold("**") == "**" by {
      BoldUnmatched("");
      assert "**" + "" == "**";
    }
    BreakLinesPlain(y + "**");
  }

  // ---------------------------------------------------------------------
  // formatCitation
  // ---------------------------------------------------------------------

  /** JavaScript truthiness of `citation.chunk_id`: present and non-empty. */
  function HasChunk(c: Citation): (b: bool)
    ensures b <==> TruthyText(c.chunkId)
  {
    c.chunkId.Some? && c.chunkId.value != ""
  }

  /** JavaScript truthiness of `citation.page`: present and non-zero. */
  function HasPage(c: Citation): (b: bool)
    ensures b <==> c.page.Some? && IntToDecimal(c.page.value) != "0"
  {
    if c.page.Some? then IntToDecimalZero(c.page.value); c.page.value != 0 else false
  }

  /** The `parts` array: the file, then `(chunk ID)`, then `- page N`, each only when truthy. */
  function CitationParts(c: Citation): (parts: seq<string>)
    ensures 1 <= |parts| <= 3 && parts[0] == c.file
    ensures |parts| == 1 + (if HasChunk(c) then 1 else 0) + (if HasPage(c) then 1 else 0)
  {
    [c.file]
    + (if HasChunk(c) then ["(chunk " + c.chunkId.value + ")"] else [])
    + (if HasPage(c) then ["- page " + IntToDecimal(c.page.value)] else [])
  }

  /** `formatCitation`: the parts joined by single spaces. */
  function FormatCitation(c: Citation): (r: string)
    ensures StartsWith(r, c.file)
  {
    Join(CitationParts(c), " ")
  }

  /** The rendered citation, spelled out part by part in file, chunk, page order. */
  lemma FormatCitationShape(c: Citation)
    ensures FormatCitation(c)
         == c.file
          + (if HasChunk(c) then " (chunk " + c.chunkId.value + ")" else "")
          + (if HasPage(c) then " - page " + IntToDecimal(c.page.value) else "")
  {
    var p := CitationParts(c);
    if |p| == 3 {
      assert p[1..][1..] == [p[2]];
      assert Join(p[1..], " ") == p[1] + " " + p[2];
      assert Join(p, " ") == p[0] + " " + (p[1] + " " + p[2]);
    } else if |p| == 2 {
      assert Join(p, " ") == p[0] + " " + p[1];
    }
  }

  /** `{file: 'a.pdf', page: 3}` renders as `a.pdf - page 3`. */
  lemma FormatCitationWithPage()
    ensures FormatCitation(Citation("a.pdf", None, Some(3))) == "a.pdf - page 3"
  {
    FormatCitationShape(Citation("a.pdf", None, Some(3)));
  }

  /** A citation with only a file renders as the file name; page 0 and an empty chunk id count as absent. */
  lemma FormatCitationFileOnly(file: string)
    ensures FormatCitation(Citation(file, None, None)) == file
    ensures FormatCitation(Citation(file, Some(""), Some(0))) == file
  {
  }
}
