/** The JavaScript string operations the modelled code calls: `split` on a
    one-character separator, `includes`, `join`, `padStart` and `trim`. */
module Strings {

  /** `s.split(sep)` for a one-character separator. */
  function Split(s: string, sep: char): (parts: seq<string>)
    ensures |parts| >= 1
  {
    if s == [] then [""]
    else
      var rest := Split(s[1..], sep);
      if s[0] == sep then [""] + rest else [[s[0]] + rest[0]] + rest[1..]
  }

  lemma {:induction false} SplitNoSeparator(s: string, sep: char)
    requires sep !in s
    ensures Split(s, sep) == [s]
  {
    if s != [] {
      SplitNoSeparator(s[1..], sep);
      assert [s[0]] + s[1..] == s;
    }
  }

  /** Splitting at the first separator yields the part before it, then the
      split of the rest. */
  lemma {:induction false} SplitFirst(a: string, sep: char, b: string)
    requires sep !in a
    ensures Split(a + [sep] + b, sep) == [a] + Split(b, sep)
  {
    if a == [] {
      assert a + [sep] + b == [sep] + b;
      assert ([sep] + b)[1..] == b;
    } else {
      assert (a + [sep] + b)[1..] == a[1..] + [sep] + b;
      SplitFirst(a[1..], sep, b);
      assert [a[0]] + a[1..] == a;
    }
  }

  predicate StartsWith(s: string, prefix: string) {
    |prefix| <= |s| && s[..|prefix|] == prefix
  }

  /** `s.includes(sub)`. */
  predicate Contains(s: string, sub: string)
  {
    StartsWith(s, sub) || (s != [] && Contains(s[1..], sub))
  }

  /** `sub` occurs in `s` starting at position `i`. */
  predicate OccursAt(s: string, sub: string, i: nat) {
    i + |sub| <= |s| && s[i..i + |sub|] == sub
  }

  /** `includes` holds exactly when `sub` occurs at some position of `s`. */
  lemma {:induction false} ContainsAt(s: string, sub: string)
    ensures Contains(s, sub) <==> exists i: nat :: OccursAt(s, sub, i)
  {
    if StartsWith(s, sub) {
      assert OccursAt(s, sub, 0);
    } else if s != [] {
      ContainsAt(s[1..], sub);
      if Contains(s[1..], sub) {
        var i: nat :| OccursAt(s[1..], sub, i);
        assert s[i + 1..i + 1 + |sub|] == s[1..][i..i + |sub|];
        assert OccursAt(s, sub, i + 1);
      }
      if exists i: nat :: OccursAt(s, sub, i) {
        var i: nat :| OccursAt(s, sub, i);
        assert s[..|sub|] != sub;
        assert i != 0;
        assert s[1..][i - 1..i - 1 + |sub|] == s[i..i + |sub|];
        assert OccursAt(s[1..], sub, i - 1);
      }
    }
  }

  /** `parts.join(sep)`. */
  function Join(parts: seq<string>, sep: string): string {
    if parts == [] then ""
    else if |parts| == 1 then parts[0]
    else parts[0] + sep + Join(parts[1..], sep)
  }

  /** Splitting a join on a separator no part contains gives back the
      parts. */
  lemma {:induction false} SplitJoin(parts: seq<string>, sep: char)
    requires parts != []
    requires forall k :: 0 <= k < |parts| ==> sep !in parts[k]
    ensures Split(Join(parts, [sep]), sep) == parts
  {
    if |parts| == 1 {
      SplitNoSeparator(parts[0], sep);
    } else {
      SplitJoin(parts[1..], sep);
      SplitFirst(parts[0], sep, Join(parts[1..], [sep]));
      assert [parts[0]] + parts[1..] == parts;
    }
  }

  function Repeat(c: char, k: nat): (r: string)
    ensures |r| == k && forall i :: 0 <= i < k ==> r[i] == c
  {
    if k == 0 then "" else [c] + Repeat(c, k - 1)
  }

  /** `s.padStart(width, fill)` with a one-character fill. */
  function PadStart(s: string, width: nat, fill: char): string {
    if |s| >= width then s else Repeat(fill, width - |s|) + s
  }

  /** The padded string is at least `width` long, ends with `s`, and is
      filled in front only. */
  lemma PadStartShape(s: string, width: nat, fill: char)
    ensures var r := PadStart(s, width, fill);
      && |r| == (if |s| >= width then |s| else width)
      && r[|r| - |s|..] == s
      && forall k :: 0 <= k < |r| - |s| ==> r[k] == fill
  {
  }

  /** The white space and line terminators `String.prototype.trim` removes. */
  predicate IsTrimSpace(c: char) {
    var n := c as int;
    n == 0x09 || n == 0x0A || n == 0x0B || n == 0x0C || n == 0x0D || n == 0x20 ||
    n == 0xA0 || n == 0x1680 || (0x2000 <= n <= 0x200A) || n == 0x2028 ||
    n == 0x2029 || n == 0x202F || n == 0x205F || n == 0x3000 || n == 0xFEFF
  }

  /** The characters a regular expression `.` does not match. */
  predicate IsLineTerminator(c: char) {
    var n := c as int;
    n == 0x0A || n == 0x0D || n == 0x2028 || n == 0x2029
  }

  /** How many white-space characters `s` starts with. */
  function LeadingSpace(s: string): (i: nat)
    ensures i <= |s|
    ensures forall k :: 0 <= k < i ==> IsTrimSpace(s[k])
    ensures i < |s| ==> !IsTrimSpace(s[i])
  {
    if s != [] && IsTrimSpace(s[0]) then 1 + LeadingSpace(s[1..]) else 0
  }

  /** Where the content of `s` ends when only white space follows, looking
      no further left than `lo`. */
  function ContentEnd(s: string, lo: nat): (j: nat)
    requires lo <= |s|
    ensures lo <= j <= |s|
    ensures forall k :: j <= k < |s| ==> IsTrimSpace(s[k])
    ensures j > lo ==> !IsTrimSpace(s[j - 1])
  {
    if |s| > lo && IsTrimSpace(s[|s| - 1]) then ContentEnd(s[..|s| - 1], lo) else |s|
  }

  /** `s.trim()`. */
  function Trim(s: string): string {
    var i := LeadingSpace(s);
    var j := ContentEnd(s, i);
    s[i..j]
  }

  /** `s.trim()` is a contiguous piece of `s` with white space at neither
      end, obtained by dropping only white space; it is empty exactly when
      `s` is all white space. */
  lemma TrimSpec(s: string)
    ensures var r := Trim(s);
      && (exists i, j ::
        && 0 <= i <= j <= |s| && r == s[i..j]
        && (forall k :: 0 <= k < i ==> IsTrimSpace(s[k]))
        && (forall k :: j <= k < |s| ==> IsTrimSpace(s[k])))
      && (r != [] ==> !IsTrimSpace(r[0]) && !IsTrimSpace(r[|r| - 1]))
      && (r == [] <==> forall k :: 0 <= k < |s| ==> IsTrimSpace(s[k]))
  {
    var i := LeadingSpace(s);
    var j := ContentEnd(s, i);
    assert Trim(s) == s[i..j];
  }

  /** White space in front of a non-space character is exactly what
      `LeadingSpace` counts. */
  lemma {:induction false} LeadingSpacePadded(a: string, t: string)
    requires forall k :: 0 <= k < |a| ==> IsTrimSpace(a[k])
    requires t != [] && !IsTrimSpace(t[0])
    ensures LeadingSpace(a + t) == |a|
  {
    if a == [] {
      assert a + t == t;
    } else {
      assert (a + t)[0] == a[0];
      assert (a + t)[1..] == a[1..] + t;
      LeadingSpacePadded(a[1..], t);
    }
  }

  /** White space after a non-space character is exactly what `ContentEnd`
      drops. */
  lemma {:induction false} ContentEndPadded(p: string, b: string, lo: nat)
    requires lo <= |p|
    requires |p| > lo ==> !IsTrimSpace(p[|p| - 1])
    requires forall k :: 0 <= k < |b| ==> IsTrimSpace(b[k])
    ensures ContentEnd(p + b, lo) == |p|
  {
    if b == [] {
      assert p + b == p;
    } else {
      var x := p + b;
      assert x[|x| - 1] == b[|b| - 1];
      assert x[..|x| - 1] == p + b[..|b| - 1];
      ContentEndPadded(p, b[..|b| - 1], lo);
    }
  }

  /** White space around a string with non-space ends is exactly what
      `trim()` removes. */
  lemma TrimPadded(a: string, s: string, b: string)
    requires forall k :: 0 <= k < |a| ==> IsTrimSpace(a[k])
    requires forall k :: 0 <= k < |b| ==> IsTrimSpace(b[k])
    requires s != [] && !IsTrimSpace(s[0]) && !IsTrimSpace(s[|s| - 1])
    ensures Trim(a + s + b) == s
  {
    var x := a + s + b;
    assert x == a + (s + b) && (s + b)[0] == s[0];
    LeadingSpacePadded(a, s + b);
    assert (a + s)[|a + s| - 1] == s[|s| - 1];
    ContentEndPadded(a + s, b, |a|);
    assert x[|a|..|a| + |s|] == s;
  }
}
