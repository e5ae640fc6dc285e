/** The insight card: the markdown-to-HTML rewrite, the relative time in
    the footer, and which of the four views is shown. */
module InsightCard {
  import opened Wrappers
  import opened Decimal
  import opened Strings
  import opened FirebaseService

  const BoldMark: string := "**"
  const ItalicMark: string := "*"
  const BlankLine: string := "\n\n"
  const ParagraphBreak: string := "</p><p>"

  /** No occurrence of `d` starts anywhere in `s`. */
  predicate Absent(s: string, d: string) {
    forall m :: 0 <= m <= |s| ==> !StartsWith(s[m..], d)
  }

  /** No two line feeds in a row. */
  predicate NoBlankLine(s: string) {
    forall i :: 0 <= i < |s| - 1 ==> !(s[i] == '\n' && s[i + 1] == '\n')
  }

  predicate NoLineTerminator(s: string) {
    forall i :: 0 <= i < |s| ==> !IsLineTerminator(s[i])
  }

  /** Where the lazy `(.*?)` of a delimited pattern ends when matching
      resumes at `k` of `t`: the first position holding the closing
      delimiter, provided no line terminator comes before it. */
  function CloseAt(t: string, d: string, k: nat): (j: Option<nat>)
    requires |d| > 0 && k <= |t|
    ensures j.Some? ==> k <= j.value && j.value + |d| <= |t| && t[j.value..j.value + |d|] == d
    decreases |t| - k
  {
    if StartsWith(t[k..], d) then
      assert t[k..][..|d|] == t[k..k + |d|];
      Some(k)
    else if k == |t| || IsLineTerminator(t[k]) then None
    else CloseAt(t, d, k + 1)
  }

  /** The match is the shortest one: no earlier position holds the
      delimiter, and the span crosses no line terminator. */
  lemma {:induction false} CloseAtShortest(t: string, d: string, k: nat)
    requires |d| > 0 && k <= |t| && CloseAt(t, d, k).Some?
    ensures forall m :: k <= m < CloseAt(t, d, k).value ==> !IsLineTerminator(t[m]) && !StartsWith(t[m..], d)
    decreases |t| - k
  {
    if !StartsWith(t[k..], d) {
      CloseAtShortest(t, d, k + 1);
    }
  }

  /** `s.replace(/D(.*?)D/g, open + '$1' + close)` for the delimiter `d`:
      at each position try a match, else keep one character and move on. */
  function ReplaceDelimited(s: string, d: string, openTag: string, closeTag: string): string
    requires |d| > 0
    decreases |s|
  {
    if s == [] then []
    else if StartsWith(s, d) && CloseAt(s[|d|..], d, 0).Some? then
      var k := CloseAt(s[|d|..], d, 0).value;
      openTag + s[|d|..|d| + k] + closeTag + ReplaceDelimited(s[|d| + k + |d|..], d, openTag, closeTag)
    else [s[0]] + ReplaceDelimited(s[1..], d, openTag, closeTag)
  }

  /** `s.replace(/P/g, rep)` for a literal pattern. */
  function ReplaceAll(s: string, pat: string, rep: string): string
    requires |pat| > 0
    decreases |s|
  {
    if s == [] then []
    else if StartsWith(s, pat) then rep + ReplaceAll(s[|pat|..], pat, rep)
    else [s[0]] + ReplaceAll(s[1..], pat, rep)
  }

  /** `formatMarkdown`: bold, then italic, then paragraph breaks, then the
      opening and closing paragraph tags. */
  function FormatMarkdown(text: string): (html: string)
    ensures |html| >= 7 && html[..3] == "<p>" && html[|html| - 4..] == "</p>"
  {
    var bold := ReplaceDelimited(text, BoldMark, "<strong>", "</strong>");
    var italic := ReplaceDelimited(bold, ItalicMark, "<em>", "</em>");
    "<p>" + ReplaceAll(italic, BlankLine, ParagraphBreak) + "</p>"
  }

  lemma AbsentWhenFirstMissing(s: string, d: string)
    requires |d| > 0 && d[0] !in s
    ensures Absent(s, d)
  {
    forall m | 0 <= m <= |s| ensures !StartsWith(s[m..], d) {
      if m < |s| {
        assert s[m..][0] == s[m];
      }
    }
  }

  lemma {:induction false} ReplaceDelimitedIdentity(s: string, d: string, openTag: string, closeTag: string)
    requires |d| > 0 && Absent(s, d)
    ensures ReplaceDelimited(s, d, openTag, closeTag) == s
    decreases |s|
  {
    if s != [] {
      assert s[0..] == s;
      forall m | 0 <= m <= |s[1..]| ensures !StartsWith(s[1..][m..], d) {
        assert s[1..][m..] == s[m + 1..];
      }
      ReplaceDelimitedIdentity(s[1..], d, openTag, closeTag);
    }
  }

  lemma {:induction false} ReplaceAllIdentity(s: string, pat: string, rep: string)
    requires |pat| > 0 && Absent(s, pat)
    ensures ReplaceAll(s, pat, rep) == s
    decreases |s|
  {
    if s != [] {
      assert s[0..] == s;
      forall m | 0 <= m <= |s[1..]| ensures !StartsWith(s[1..][m..], pat) {
        assert s[1..][m..] == s[m + 1..];
      }
      ReplaceAllIdentity(s[1..], pat, rep);
    }
  }

  lemma NoBlankLineAbsent(s: string)
    requires NoBlankLine(s)
    ensures Absent(s, BlankLine)
  {
    forall m | 0 <= m <= |s| ensures !StartsWith(s[m..], BlankLine) {
      if m + 2 <= |s| {
        assert s[m..][..2] == [s[m], s[m + 1]];
      }
    }
  }

  lemma NoLineFeed(s: string)
    requires NoLineTerminator(s)
    ensures '\n' !in s
  {
  }

  /** `FormatMarkdown` from the results of its three rewrites. */
  lemma FormatSteps(text: string, bold: string, italic: string, body: string)
    requires ReplaceDelimited(text, BoldMark, "<strong>", "</strong>") == bold
    requires ReplaceDelimited(bold, ItalicMark, "<em>", "</em>") == italic
    requires ReplaceAll(italic, BlankLine, ParagraphBreak) == body
    ensures FormatMarkdown(text) == "<p>" + body + "</p>"
  {
  }

  /** Text with no asterisk and no blank line is only wrapped. */
  lemma PlainText(text: string)
    requires '*' !in text && NoBlankLine(text)
    ensures FormatMarkdown(text) == "<p>" + text + "</p>"
  {
    AbsentWhenFirstMissing(text, BoldMark);
    ReplaceDelimitedIdentity(text, BoldMark, "<strong>", "</strong>");
    AbsentWhenFirstMissing(text, ItalicMark);
    ReplaceDelimitedIdentity(text, ItalicMark, "<em>", "</em>");
    NoBlankLineAbsent(text);
    ReplaceAllIdentity(text, BlankLine, ParagraphBreak);
    FormatSteps(text, text, text, text);
  }

  /** The lazy match stops at the first closing delimiter after a span
      free of the delimiter's first character and of line terminators. */
  lemma {:induction false} CloseAtSpan(w: string, d: string, rest: string, k: nat)
    requires |d| > 0 && d[0] !in w && NoLineTerminator(w) && k <= |w|
    ensures CloseAt(w + d + rest, d, k) == Some(|w|)
    decreases |w| - k
  {
    var t := w + d + rest;
    if k == |w| {
      assert t[k..][..|d|] == d;
    } else {
      assert t[k..][0] == w[k];
      CloseAtSpan(w, d, rest, k + 1);
    }
  }

  /** One step of the delimited rewrite where a match starts: the tags
      around the span, then the rewrite of what follows the match. */
  lemma MatchStep(s: string, d: string, openTag: string, closeTag: string, k: nat, inner: string, after: string)
    requires |d| > 0 && StartsWith(s, d) && CloseAt(s[|d|..], d, 0) == Some(k)
    requires |d| + k + |d| <= |s| && s[|d|..|d| + k] == inner && s[|d| + k + |d|..] == after
    ensures ReplaceDelimited(s, d, openTag, closeTag) == openTag + inner + closeTag + ReplaceDelimited(after, d, openTag, closeTag)
  {
  }

  /** One delimited span is rewritten to its tags, and rewriting goes on
      after the closing delimiter. */
  lemma DelimitedSpan(w: string, d: string, rest: string, openTag: string, closeTag: string)
    requires |d| > 0 && d[0] !in w && NoLineTerminator(w)
    ensures ReplaceDelimited(d + w + d + rest, d, openTag, closeTag)
      == openTag + w + closeTag + ReplaceDelimited(rest, d, openTag, closeTag)
  {
    SpanSlices(d, w, rest);
    CloseAtSpan(w, d, rest, 0);
    MatchStep(d + w + d + rest, d, openTag, closeTag, |w|, w, rest);
  }

  lemma SpanSlices(d: string, w: string, rest: string)
    ensures var s := d + w + d + rest;
      && StartsWith(s, d) && s[|d|..] == w + d + rest
      && s[|d|..|d| + |w|] == w && s[|d| + |w| + |d|..] == rest
  {
    var s := d + w + d + rest;
    assert s[..|d|] == d;
  }

  /** A whole text that is one delimited span. */
  lemma SpanOnly(w: string, d: string, openTag: string, closeTag: string)
    requires |d| > 0 && d[0] !in w && NoLineTerminator(w)
    ensures ReplaceDelimited(d + w + d, d, openTag, closeTag) == openTag + w + closeTag
  {
    DelimitedSpan(w, d, [], openTag, closeTag);
    assert d + w + d + [] == d + w + d;
    assert openTag + w + closeTag + [] == openTag + w + closeTag;
  }

  /** Text with neither an asterisk nor a line feed passes the italic and
      paragraph rewrites unchanged. */
  lemma LaterPassesIdentity(x: string)
    requires '*' !in x && '\n' !in x
    ensures ReplaceDelimited(x, ItalicMark, "<em>", "</em>") == x
    ensures ReplaceAll(x, BlankLine, ParagraphBreak) == x
  {
    AbsentWhenFirstMissing(x, ItalicMark);
    ReplaceDelimitedIdentity(x, ItalicMark, "<em>", "</em>");
    AbsentWhenFirstMissing(x, BlankLine);
    ReplaceAllIdentity(x, BlankLine, ParagraphBreak);
  }

  /** `**w**` becomes a strong span, not two empty emphasis spans: the
      bold rule runs first. */
  lemma BoldText(w: string)
    requires '*' !in w && NoLineTerminator(w)
    ensures FormatMarkdown(BoldMark + w + BoldMark) == "<p>" + ("<strong>" + w + "</strong>") + "</p>"
  {
    var bold := "<strong>" + w + "</strong>";
    SpanOnly(w, BoldMark, "<strong>", "</strong>");
    NoLineFeed(w);
    LaterPassesIdentity(bold);
    FormatSteps(BoldMark + w + BoldMark, bold, bold, bold);
  }

  /** The bold rewrite leaves `*w*` alone. */
  lemma BoldPassSkipsEmphasis(w: string)
    requires '*' !in w
    ensures ReplaceDelimited(ItalicMark + w + ItalicMark, BoldMark, "<strong>", "</strong>") == ItalicMark + w + ItalicMark
  {
    if w == [] {
      // "**" opens a bold match, but nothing follows to close it.
      var s := ItalicMark + w + ItalicMark;
      assert s == "**" && s[|BoldMark|..] == [];
      assert CloseAt(s[|BoldMark|..], BoldMark, 0).None?;
      assert ReplaceDelimited(s[1..], BoldMark, "<strong>", "</strong>") == "*";
    } else {
      SingleStars(w);
      ReplaceDelimitedIdentity(ItalicMark + w + ItalicMark, BoldMark, "<strong>", "</strong>");
    }
  }

  lemma EmphasisParagraphPass(w: string)
    requires NoLineTerminator(w)
    ensures ReplaceAll("<em>" + w + "</em>", BlankLine, ParagraphBreak) == "<em>" + w + "</em>"
  {
    NoLineFeed(w);
    assert '\n' !in "<em>" + w + "</em>";
    AbsentWhenFirstMissing("<em>" + w + "</em>", BlankLine);
    ReplaceAllIdentity("<em>" + w + "</em>", BlankLine, ParagraphBreak);
  }

  /** `*w*` holds no `**` when `w` is non-empty and star-free. */
  lemma SingleStars(w: string)
    requires w != [] && '*' !in w
    ensures Absent(ItalicMark + w + ItalicMark, BoldMark)
  {
    var text := ItalicMark + w + ItalicMark;
    forall m | 0 <= m <= |text| ensures !StartsWith(text[m..], BoldMark) {
      if m + 2 <= |text| {
        assert text[m..][..2] == [text[m], text[m + 1]];
        if m == 0 {
          assert text[1] == w[0];
        } else {
          assert text[m] == w[m - 1];
        }
      }
    }
  }

  lemma ItalicText(w: string)
    requires '*' !in w && NoLineTerminator(w)
    ensures FormatMarkdown(ItalicMark + w + ItalicMark) == "<p>" + ("<em>" + w + "</em>") + "</p>"
  {
    BoldPassSkipsEmphasis(w);
    SpanOnly(w, ItalicMark, "<em>", "</em>");
    EmphasisParagraphPass(w);
    FormatSteps(ItalicMark + w + ItalicMark, ItalicMark + w + ItalicMark, "<em>" + w + "</em>", "<em>" + w + "</em>");
  }

  /** Scanning passes over a prefix in which no match starts. */
  lemma {:induction false} ReplaceAllPrefix(a: string, t: string, pat: string, rep: string)
    requires |pat| > 0
    requires forall m :: 0 <= m < |a| ==> !StartsWith((a + t)[m..], pat)
    ensures ReplaceAll(a + t, pat, rep) == a + ReplaceAll(t, pat, rep)
    decreases |a|
  {
    if a != [] {
      assert (a + t)[0..] == a + t;
      assert (a + t)[1..] == a[1..] + t;
      assert (a + t)[0] == a[0];
      assert a + ReplaceAll(t, pat, rep) == [a[0]] + (a[1..] + ReplaceAll(t, pat, rep));
      forall m | 0 <= m < |a[1..]| ensures !StartsWith((a[1..] + t)[m..], pat) {
        assert (a[1..] + t)[m..] == (a + t)[m + 1..];
      }
      ReplaceAllPrefix(a[1..], t, pat, rep);
    }
  }

  /** A blank line between two plain paragraphs becomes a paragraph
      break. */
  lemma NoMatchInFirstParagraph(a: string, b: string)
    requires NoBlankLine(a) && (a == [] || a[|a| - 1] != '\n')
    ensures forall m :: 0 <= m < |a| ==> !StartsWith((a + (BlankLine + b))[m..], BlankLine)
  {
    var text := a + (BlankLine + b);
    forall m | 0 <= m < |a| ensures !StartsWith(text[m..], BlankLine) {
      assert text[m] == a[m];
      if m + 1 < |a| {
        assert text[m..][..2] == [a[m], a[m + 1]];
      } else {
        assert text[m + 1] == (BlankLine + b)[0] == '\n';
        assert text[m..][..2] == [a[m], '\n'];
      }
    }
  }

  lemma TwoParagraphs(a: string, b: string)
    requires '*' !in a && '*' !in b && NoBlankLine(a) && NoBlankLine(b)
    requires a == [] || a[|a| - 1] != '\n'
    ensures FormatMarkdown(a + BlankLine + b) == "<p>" + (a + ParagraphBreak + b) + "</p>"
  {
    var text := a + BlankLine + b;
    StarPassesIdentity(text);
    ParagraphPass(a, b);
    FormatSteps(text, text, text, a + ParagraphBreak + b);
  }

  /** Star-free text passes both emphasis rewrites unchanged. */
  lemma StarPassesIdentity(text: string)
    requires '*' !in text
    ensures ReplaceDelimited(text, BoldMark, "<strong>", "</strong>") == text
    ensures ReplaceDelimited(text, ItalicMark, "<em>", "</em>") == text
  {
    AbsentWhenFirstMissing(text, BoldMark);
    ReplaceDelimitedIdentity(text, BoldMark, "<strong>", "</strong>");
    AbsentWhenFirstMissing(text, ItalicMark);
    ReplaceDelimitedIdentity(text, ItalicMark, "<em>", "</em>");
  }

  lemma ParagraphPass(a: string, b: string)
    requires NoBlankLine(a) && NoBlankLine(b)
    requires a == [] || a[|a| - 1] != '\n'
    ensures ReplaceAll(a + BlankLine + b, BlankLine, ParagraphBreak) == a + ParagraphBreak + b
  {
    var tail := BlankLine + b;
    assert a + BlankLine + b == a + tail;
    NoMatchInFirstParagraph(a, b);
    ReplaceAllPrefix(a, tail, BlankLine, ParagraphBreak);
    assert tail[..2] == BlankLine && tail[2..] == b;
    NoBlankLineAbsent(b);
    ReplaceAllIdentity(b, BlankLine, ParagraphBreak);
  }

  /** After the paragraph rewrite no blank line is left. */
  lemma {:induction false} BlankLinesReplaced(s: string)
    ensures NoBlankLine(ReplaceAll(s, BlankLine, ParagraphBreak))
    decreases |s|
  {
    if s != [] {
      var r := ReplaceAll(s, BlankLine, ParagraphBreak);
      if StartsWith(s, BlankLine) {
        BlankLinesReplaced(s[2..]);
        var rest := ReplaceAll(s[2..], BlankLine, ParagraphBreak);
        assert r == ParagraphBreak + rest;
        forall i | 0 <= i < |r| - 1 ensures !(r[i] == '\n' && r[i + 1] == '\n') {
          if i >= |ParagraphBreak| {
            assert r[i] == rest[i - |ParagraphBreak|] && r[i + 1] == rest[i + 1 - |ParagraphBreak|];
          } else {
            assert r[i] == ParagraphBreak[i];
          }
        }
      } else {
        BlankLinesReplaced(s[1..]);
        var rest := ReplaceAll(s[1..], BlankLine, ParagraphBreak);
        assert r == [s[0]] + rest;
        if s[0] == '\n' && rest != [] {
          assert s[1..] != [];
          assert s[..2] == [s[0], s[1]];
          assert s[1..][0] == s[1];
          assert rest[0] == s[1];
        }
        forall i | 0 <= i < |r| - 1 ensures !(r[i] == '\n' && r[i + 1] == '\n') {
          if i >= 1 {
            assert r[i] == rest[i - 1] && r[i + 1] == rest[i];
          }
        }
      }
    }
  }

  /** `formatRelativeTime` over the difference `now - date` in
      milliseconds; `localeDate` is the date's `toLocaleDateString()`. */
  function FormatRelativeTime(diffMs: int, localeDate: string): string {
    var diffMins := diffMs / 60000;
    var diffHours := diffMs / 3600000;
    var diffDays := diffMs / 86400000;
    if diffMins < 1 then "just now"
    else if diffMins < 60 then NatToString(diffMins) + " min ago"
    else if diffHours < 24 then NatToString(diffHours) + " hr ago"
    else if diffDays < 7 then NatToString(diffDays) + " day" + (if diffDays > 1 then "s" else "") + " ago"
    else localeDate
  }

  /** The five bands by elapsed milliseconds; each count shown is the
      whole number of units elapsed, within its band's range, and a single
      day is "day". */
  lemma RelativeTimeBands(diffMs: int, localeDate: string)
    ensures diffMs < 60000 ==> FormatRelativeTime(diffMs, localeDate) == "just now"
    ensures 60000 <= diffMs < 3600000 ==>
      var m := diffMs / 60000;
      && 1 <= m <= 59 && m * 60000 <= diffMs < (m + 1) * 60000
      && FormatRelativeTime(diffMs, localeDate) == NatToString(m) + " min ago"
    ensures 3600000 <= diffMs < 86400000 ==>
      var h := diffMs / 3600000;
      && 1 <= h <= 23 && h * 3600000 <= diffMs < (h + 1) * 3600000
      && FormatRelativeTime(diffMs, localeDate) == NatToString(h) + " hr ago"
    ensures 86400000 <= diffMs < 604800000 ==>
      var d := diffMs / 86400000;
      && 1 <= d <= 6 && d * 86400000 <= diffMs < (d + 1) * 86400000
      && FormatRelativeTime(diffMs, localeDate) == NatToString(d) + (if d == 1 then " day ago" else " days ago")
    ensures 604800000 <= diffMs ==> FormatRelativeTime(diffMs, localeDate) == localeDate
  {
    var m, h, d := diffMs / 60000, diffMs / 3600000, diffMs / 86400000;
    assert m * 60000 <= diffMs < (m + 1) * 60000;
    assert h * 3600000 <= diffMs < (h + 1) * 3600000;
    assert d * 86400000 <= diffMs < (d + 1) * 86400000;
    if 86400000 <= diffMs < 604800000 {
      assert NatToString(d) + " day" + (if d > 1 then "s" else "") + " ago"
        == NatToString(d) + (if d == 1 then " day ago" else " days ago");
    }
  }

  /** The footer noun, also used for the month's entry count. */
  function EntryWord(count: int): (w: string)
    ensures w == "entry" <==> count == 1
  {
    if count == 1 then "entry" else "entries"
  }

  datatype CardView =
    | Spinner
    | Nothing
    | GeneratePrompt
    | Populated(html: string, staleNote: bool, generated: string, count: int, noun: string)

  /** Which view the card renders; `localeDate` is `toLocaleDateString`
      over the generation time in milliseconds. */
  function View(insight: Option<Insight>, loading: bool, isStale: bool, hasAccomplishments: bool,
                nowMillis: int, localeDate: int -> string): CardView
  {
    if loading then Spinner
    else if insight.None? then (if hasAccomplishments then GeneratePrompt else Nothing)
    else
      var i := insight.value;
      Populated(FormatMarkdown(i.content), isStale,
        FormatRelativeTime(nowMillis - i.generatedAt, localeDate(i.generatedAt)),
        i.accomplishmentCount, EntryWord(i.accomplishmentCount))
  }

  /** Each view in terms of the props, both ways: loading wins, the
      prompt needs entries, and only the populated card can carry the
      stale note. */
  lemma ViewChoice(insight: Option<Insight>, loading: bool, isStale: bool, hasAccomplishments: bool,
                   nowMillis: int, localeDate: int -> string)
    ensures var v := View(insight, loading, isStale, hasAccomplishments, nowMillis, localeDate);
      && (v.Spinner? <==> loading)
      && (v.Nothing? <==> !loading && insight.None? && !hasAccomplishments)
      && (v.GeneratePrompt? <==> !loading && insight.None? && hasAccomplishments)
      && (v.Populated? <==> !loading && insight.Some?)
      && (v.Populated? && v.staleNote <==> !loading && insight.Some? && isStale)
      && (v.Populated? ==>
            v.html[..3] == "<p>" && v.count == insight.value.accomplishmentCount &&
            (v.noun == "entry" <==> v.count == 1))
  {
  }
}
