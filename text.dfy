/**
  The string operations the pipeline applies to model replies and spreadsheet
  cells, with Python's semantics: whitespace as `str.isspace` defines it,
  `str.strip`, `str.upper` (ASCII letters only), `str.startswith`,
  `str.find` / `in` on substrings, and slicing `s[a:b]`.
*/
module Text {
  import opened Wrappers

  /** Python's whitespace characters: those `str.isspace` accepts and `str.strip` removes. */
  predicate IsSpace(c: char) {
    var n := c as int;
    (0x09 <= n <= 0x0D) || (0x1C <= n <= 0x20) || n == 0x85 || n == 0xA0 || n == 0x1680
    || (0x2000 <= n <= 0x200A) || n == 0x2028 || n == 0x2029 || n == 0x202F
    || n == 0x205F || n == 0x3000
  }

  predicate AllSpace(s: string) {
    forall k :: 0 <= k < |s| ==> IsSpace(s[k])
  }

  /** A string with no leading and no trailing whitespace: what `str.strip` leaves. */
  predicate IsStripped(s: string) {
    s == [] || (!IsSpace(s[0]) && !IsSpace(s[|s| - 1]))
  }

  /**
    `str.strip()`: drops whitespace from both ends. A leading blank goes first,
    then a trailing one, until both ends hold a non-space character or nothing
    is left. The result has no surrounding whitespace, and it is empty exactly
    when `s` is all whitespace.
  */
  function Strip(s: string): (r: string)
    ensures IsStripped(r)
    ensures |r| <= |s|
    ensures r == [] <==> AllSpace(s)
    decreases |s|
  {
    if s != [] && IsSpace(s[0]) then
      assert forall k :: 1 <= k < |s| ==> s[1..][k - 1] == s[k];
      Strip(s[1..])
    else if s != [] && IsSpace(s[|s| - 1]) then
      assert forall k :: 0 <= k < |s| - 1 ==> s[..|s| - 1][k] == s[k];
      Strip(s[..|s| - 1])
    else
      s
  }

  /** `s.strip()` is falsy in Python: the string is empty or all whitespace. */
  predicate IsBlank(s: string) {
    Strip(s) == []
  }

  /** Stripping removes exactly the surrounding whitespace: a stripped core is recovered intact. */
  lemma {:induction false} StripAround(a: string, b: string, c: string)
    requires AllSpace(a) && IsStripped(b) && AllSpace(c)
    ensures Strip(a + b + c) == b
    decreases |a| + |c|
  {
    var s := a + b + c;
    if a != [] {
      assert s[0] == a[0] && s[1..] == a[1..] + b + c;
      StripAround(a[1..], b, c);
    } else if b == [] && c != [] {
      assert s == c && s[1..] == [] + [] + c[1..];
      StripAround([], [], c[1..]);
    } else if c != [] {
      assert s[0] == b[0] && s[|s| - 1] == c[|c| - 1];
      assert s[..|s| - 1] == [] + b + c[..|c| - 1];
      StripAround([], b, c[..|c| - 1]);
    } else {
      assert s == b;
    }
  }

  /** A stripped string on a line of its own comes back intact when the line is stripped. */
  lemma StripLine(field: string)
    requires IsStripped(field)
    ensures Strip("\n" + field + "\n") == field
  {
    assert IsSpace('\n');
    StripAround("\n", field, "\n");
  }

  /** A stripped string is left as it is, so stripping twice is stripping once. */
  lemma StripFixesStripped(s: string)
    requires IsStripped(s)
    ensures Strip(s) == s
  {
    StripAround([], s, []);
    assert [] + s + [] == s;
  }

  lemma StripIdempotent(s: string)
    ensures Strip(Strip(s)) == Strip(s)
  {
    StripFixesStripped(Strip(s));
  }

  /** Stripping a string that starts with `n` non-space characters keeps those `n` characters in front. */
  lemma {:induction false} StripKeepsFront(s: string, n: nat)
    requires 0 < n <= |s| && forall i :: 0 <= i < n ==> !IsSpace(s[i])
    ensures n <= |Strip(s)| && Strip(s)[..n] == s[..n]
    decreases |s|
  {
    if IsSpace(s[|s| - 1]) {
      var t := s[..|s| - 1];
      assert n <= |t| && t[..n] == s[..n];
      assert forall i :: 0 <= i < n ==> t[i] == s[i];
      StripKeepsFront(t, n);
    }
  }

  /** A string that starts with a non-space character keeps that first character when stripped. */
  lemma StripKeepsFirst(s: string)
    requires s != [] && !IsSpace(s[0])
    ensures Strip(s) != [] && Strip(s)[0] == s[0]
  {
    StripKeepsFront(s, 1);
    assert Strip(s)[0] == Strip(s)[..1][0];
  }

  /** `str.upper()` on one character, for ASCII letters. */
  function UpperChar(c: char): char {
    if 'a' <= c <= 'z' then (c as int - 32) as char else c
  }

  /** `str.upper()`, mapping each character on its own. */
  function Upper(s: string): (r: string)
    ensures |r| == |s|
  {
    seq(|s|, i requires 0 <= i < |s| => UpperChar(s[i]))
  }

  /**
    What upper-casing does: no lower-case ASCII letter is left, each one
    becomes its capital, and every other character stays.
  */
  lemma UpperCases(s: string)
    ensures forall i :: 0 <= i < |s| ==> !('a' <= Upper(s)[i] <= 'z')
    ensures forall i :: 0 <= i < |s| && 'a' <= s[i] <= 'z' ==> Upper(s)[i] as int == s[i] as int - 32
    ensures forall i :: 0 <= i < |s| && !('a' <= s[i] <= 'z') ==> Upper(s)[i] == s[i]
  {
  }

  /** `s.startswith(prefix)`. */
  predicate StartsWith(s: string, prefix: string) {
    |prefix| <= |s| && s[..|prefix|] == prefix
  }

  /** `pat` occurs in `s` starting at index `i`. */
  predicate OccursAt(s: string, pat: string, i: int) {
    0 <= i && i + |pat| <= |s| && s[i..i + |pat|] == pat
  }

  /** `i` is where `pat` first occurs in `s`. */
  predicate IsFirstOccurrence(s: string, pat: string, i: int) {
    OccursAt(s, pat, i) && forall j :: 0 <= j < i ==> !OccursAt(s, pat, j)
  }

  function FindFrom(s: string, pat: string, k: nat): (r: Option<nat>)
    requires k <= |s|
    ensures r.Some? ==> k <= r.value && OccursAt(s, pat, r.value)
    ensures r.Some? ==> forall j :: k <= j < r.value ==> !OccursAt(s, pat, j)
    ensures r.None? ==> forall j :: k <= j ==> !OccursAt(s, pat, j)
    decreases |s| - k
  {
    if OccursAt(s, pat, k) then Some(k)
    else if k + |pat| >= |s| then None
    else FindFrom(s, pat, k + 1)
  }

  /** `s.find(pat)`, with `None` standing for Python's -1: the index of the first occurrence. */
  function Find(s: string, pat: string): (r: Option<nat>)
    ensures r.Some? ==> IsFirstOccurrence(s, pat, r.value)
    ensures r.None? ==> forall j :: !OccursAt(s, pat, j)
  {
    FindFrom(s, pat, 0)
  }

  /** `pat in s`. */
  predicate Contains(s: string, pat: string) {
    Find(s, pat).Some?
  }

  /** Python's `s[a:b]` for indices within the string: empty when `b` comes before `a`. */
  function Slice(s: string, a: nat, b: nat): (r: string)
    requires a <= |s| && b <= |s|
    ensures a <= b ==> r == s[a..b]
    ensures b < a ==> r == []
  {
    if a <= b then s[a..b] else []
  }

  /** Any occurrence of `pat` is its first one, provided nothing earlier matches. */
  lemma FindFirst(s: string, pat: string, p: nat)
    requires IsFirstOccurrence(s, pat, p)
    ensures Find(s, pat) == Some(p)
  {
  }

  lemma FindAtStart(pat: string, rest: string)
    ensures Find(pat + rest, pat) == Some(0)
  {
    assert (pat + rest)[0..|pat|] == pat;
    FindFirst(pat + rest, pat, 0);
  }

  lemma FindSelf(pat: string)
    ensures Find(pat, pat) == Some(0)
  {
    FindAtStart(pat, []);
    assert pat + [] == pat;
  }

  /** An occurrence in `a + "\n" + b` that starts inside `a` lies within `a`, or `pat` holds a newline. */
  lemma OccurrenceBeforeNewline(a: string, b: string, pat: string, j: nat)
    requires j <= |a|
    requires OccursAt(a + "\n" + b, pat, j)
    ensures OccursAt(a, pat, j) || '\n' in pat
  {
    var f := a + "\n" + b;
    if j + |pat| <= |a| {
      assert f[j..j + |pat|] == a[j..j + |pat|];
    } else {
      assert f[j..j + |pat|][|a| - j] == f[|a|] == '\n';
    }
  }

  lemma OccurrenceAfterNewline(a: string, b: string, pat: string, k: nat)
    ensures OccursAt(a + "\n" + b, pat, |a| + 1 + k) <==> OccursAt(b, pat, k)
  {
    var f := a + "\n" + b;
    if |a| + 1 + k + |pat| <= |f| {
      assert f[|a| + 1 + k..|a| + 1 + k + |pat|] == b[k..k + |pat|];
    }
  }

  /**
    Searching for a newline-free pattern across a line break: when the first
    line does not contain it, the first occurrence is the one in the rest,
    shifted past the line.
  */
  lemma FindAfterLine(a: string, b: string, pat: string)
    requires '\n' !in pat
    requires !Contains(a, pat)
    ensures Find(a + "\n" + b, pat) ==
              if Contains(b, pat) then Some(|a| + 1 + Find(b, pat).value) else None
  {
    var f := a + "\n" + b;
    forall j: nat | j <= |a| ensures !OccursAt(f, pat, j) {
      if OccursAt(f, pat, j) {
        OccurrenceBeforeNewline(a, b, pat, j);
      }
    }
    forall k: nat ensures OccursAt(f, pat, |a| + 1 + k) <==> OccursAt(b, pat, k) {
      OccurrenceAfterNewline(a, b, pat, k);
    }
    if Contains(b, pat) {
      var k := Find(b, pat).value;
      forall j | 0 <= j < |a| + 1 + k ensures !OccursAt(f, pat, j) {
        if j > |a| {
          assert !OccursAt(b, pat, j - |a| - 1);
        }
      }
      FindFirst(f, pat, |a| + 1 + k);
    } else {
      forall j | 0 <= j ensures !OccursAt(f, pat, j) {
        if j > |a| {
          assert !OccursAt(b, pat, j - |a| - 1);
        }
      }
    }
  }

  /** The case of `FindAfterLine` where the rest of the string does contain the pattern. */
  lemma FindPastLine(a: string, b: string, pat: string, k: nat)
    requires '\n' !in pat && !Contains(a, pat) && Find(b, pat) == Some(k)
    ensures Find(a + "\n" + b, pat) == Some(|a| + 1 + k)
  {
    FindAfterLine(a, b, pat);
  }

  /** Lines joined with newlines: `"\\n".join(lines)` for a non-empty list. */
  function JoinLines(lines: seq<string>): string
    requires |lines| > 0
  {
    if |lines| == 1 then lines[0] else lines[0] + "\n" + JoinLines(lines[1..])
  }

  /** Where line `i` starts in the joined text: every earlier line and its newline come first. */
  function LineStart(lines: seq<string>, i: nat): (r: nat)
    requires i <= |lines|
  {
    if i == 0 then 0 else |lines[0]| + 1 + LineStart(lines[1..], i - 1)
  }

  /** A pattern found at the start of `s` is still found there once `s` is extended. */
  lemma FindAtStartOfLonger(s: string, t: string, pat: string)
    requires Find(s, pat) == Some(0)
    ensures Find(s + t, pat) == Some(0)
  {
    assert (s + t)[0..|pat|] == s[0..|pat|];
    FindFirst(s + t, pat, 0);
  }

  /**
    Searching joined lines for a newline-free pattern that no earlier line
    contains and that line `i` starts with finds it at the start of line `i`.
  */
  lemma {:induction false} FindInLines(lines: seq<string>, pat: string, i: nat)
    requires i < |lines| && '\n' !in pat
    requires forall k :: 0 <= k < i ==> !Contains(lines[k], pat)
    requires Find(lines[i], pat) == Some(0)
    ensures Find(JoinLines(lines), pat) == Some(LineStart(lines, i))
  {
    if i == 0 {
      if |lines| > 1 {
        FindAtStartOfLonger(lines[0], "\n" + JoinLines(lines[1..]), pat);
        assert lines[0] + "\n" + JoinLines(lines[1..]) == lines[0] + ("\n" + JoinLines(lines[1..]));
      }
    } else {
      assert !Contains(lines[0], pat);
      forall k | 0 <= k < i - 1 ensures !Contains(lines[1..][k], pat) {
        assert lines[1..][k] == lines[k + 1];
      }
      FindInLines(lines[1..], pat, i - 1);
      FindPastLine(lines[0], JoinLines(lines[1..]), pat, LineStart(lines[1..], i - 1));
    }
  }

  /** A marker: three dashes, a name without dashes, three dashes. */
  predicate IsMarker(m: string) {
    && 7 <= |m| && m[..3] == "---" && m[|m| - 3..] == "---"
    && forall i :: 3 <= i < |m| - 3 ==> m[i] != '-'
  }

  /**
    Two markers of the form "---NAME---", whose names hold no dash, that
    already differ where they are laid over each other at the start: the
    shorter one occurs nowhere in the longer.
  */
  lemma MarkerNotInMarker(outer: string, inner: string, k0: nat)
    requires IsMarker(outer) && IsMarker(inner) && |inner| <= |outer|
    requires k0 < |inner| && outer[k0] != inner[k0]
    ensures !Contains(outer, inner)
  {
    forall j | 0 <= j ensures !OccursAt(outer, inner, j) {
      if j + |inner| <= |outer| {
        var k := if j == 0 then k0 else if j <= 3 then 3 - j else 0;
        assert outer[j..j + |inner|][k] == outer[j + k];
      }
    }
  }
}
