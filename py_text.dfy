/**
 * The few Python string and sequence primitives the bot's text handling is
 * built from, with the behaviour CPython gives them: `str.strip`,
 * `str.splitlines`, `str.split(sep)`, the slice `s[:n]` and `int(s)`.
 */
module PyText {
  import opened Wrappers

  /** Characters for which Python's `str.isspace()` holds; `str.strip()` removes these. */
  const Whitespace: set<char> := {
    '\t', '\n', '\U{B}', '\U{C}', '\r', '\U{1C}', '\U{1D}', '\U{1E}', '\U{1F}', ' ',
    '\U{85}', '\U{A0}', '\U{1680}',
    '\U{2000}', '\U{2001}', '\U{2002}', '\U{2003}', '\U{2004}', '\U{2005}', '\U{2006}',
    '\U{2007}', '\U{2008}', '\U{2009}', '\U{200A}',
    '\U{2028}', '\U{2029}', '\U{202F}', '\U{205F}', '\U{3000}'
  }

  /** Line boundaries recognised by `str.splitlines()` (`\r\n` counts as one). */
  const LineBreaks: set<char> := {
    '\n', '\r', '\U{B}', '\U{C}', '\U{1C}', '\U{1D}', '\U{1E}', '\U{85}', '\U{2028}', '\U{2029}'
  }

  // ---------------------------------------------------------------- strip

  /** How many characters at the front of `s` belong to `cs`. */
  function LeadingCount(s: string, cs: set<char>): (n: nat)
    ensures n <= |s|
    ensures forall i :: 0 <= i < n ==> s[i] in cs
    ensures n == |s| || s[n] !in cs
  {
    if s != [] && s[0] in cs then 1 + LeadingCount(s[1..], cs) else 0
  }

  /** How many characters at the back of `s` belong to `cs`. */
  function TrailingCount(s: string, cs: set<char>): (n: nat)
    ensures n <= |s|
    ensures forall i :: |s| - n <= i < |s| ==> s[i] in cs
    ensures n == |s| || s[|s| - 1 - n] !in cs
  {
    if s != [] && s[|s| - 1] in cs then 1 + TrailingCount(s[..|s| - 1], cs) else 0
  }

  /**
   * `s.strip(chars)`: the longest middle part of `s` obtained by dropping
   * characters of `cs` from both ends.
   */
  function StripChars(s: string, cs: set<char>): (r: string)
    ensures |r| <= |s|
    ensures r == [] || (r[0] !in cs && r[|r| - 1] !in cs)
    ensures r == [] <==> forall i :: 0 <= i < |s| ==> s[i] in cs
    ensures LeadingCount(s, cs) + |r| <= |s|
    ensures r == s[LeadingCount(s, cs)..LeadingCount(s, cs) + |r|]
    ensures forall i :: 0 <= i < LeadingCount(s, cs) ==> s[i] in cs
    ensures forall i :: LeadingCount(s, cs) + |r| <= i < |s| ==> s[i] in cs
  {
    var t := s[LeadingCount(s, cs)..];
    t[..|t| - TrailingCount(t, cs)]
  }

  /** `s.strip()`. */
  function Strip(s: string): string {
    StripChars(s, Whitespace)
  }

  /** True when `s.strip()` is empty, i.e. the line is blank. */
  predicate IsBlank(s: string) {
    Strip(s) == []
  }

  lemma StripCharsIdempotent(s: string, cs: set<char>)
    ensures StripChars(StripChars(s, cs), cs) == StripChars(s, cs)
  {
    var r := StripChars(s, cs);
    if r != [] {
      assert LeadingCount(r, cs) == 0;
      assert TrailingCount(r, cs) == 0;
    }
  }

  /** A string that starts and ends outside `cs` is left as it is. */
  lemma StripCharsOfClean(s: string, cs: set<char>)
    requires s == [] || (s[0] !in cs && s[|s| - 1] !in cs)
    ensures StripChars(s, cs) == s
  {
    if s != [] {
      assert LeadingCount(s, cs) == 0;
      assert TrailingCount(s, cs) == 0;
    }
  }

  // ---------------------------------------------------------- splitting

  /** The index of the first character of `s` in `cs`, or `|s|` when there is none. */
  function FirstIn(s: string, cs: set<char>): (i: nat)
    ensures i <= |s|
    ensures forall k :: 0 <= k < i ==> s[k] !in cs
    ensures i == |s| || s[i] in cs
  {
    if s == [] || s[0] in cs then 0 else 1 + FirstIn(s[1..], cs)
  }

  /** No character of `s` is a line boundary. */
  predicate NoBreak(s: string) {
    forall k :: 0 <= k < |s| ==> s[k] !in LineBreaks
  }

  /**
   * `s.splitlines()`: the lines of `s` without their boundaries; a final
   * boundary does not start another line, and `"".splitlines() == []`.
   */
  function SplitLines(s: string): (lines: seq<string>)
    ensures forall j :: 0 <= j < |lines| ==> NoBreak(lines[j])
    ensures |lines| <= |s|
    decreases |s|
  {
    if s == [] then []
    else
      var i := FirstIn(s, LineBreaks);
      if i == |s| then [s]
      else
        var next := if s[i] == '\r' && i + 1 < |s| && s[i + 1] == '\n' then i + 2 else i + 1;
        [s[..i]] + SplitLines(s[next..])
  }

  /** The text made of each line followed by `"\n"`. */
  function Terminated(lines: seq<string>): string {
    if lines == [] then [] else lines[0] + "\n" + Terminated(lines[1..])
  }

  /** Splitting newline-terminated lines gives the lines back. */
  lemma {:induction false} SplitLinesTerminated(lines: seq<string>)
    requires forall j :: 0 <= j < |lines| ==> NoBreak(lines[j])
    ensures SplitLines(Terminated(lines)) == lines
  {
    if lines != [] {
      var l, s := lines[0], Terminated(lines);
      assert s == l + "\n" + Terminated(lines[1..]);
      assert s[..|l|] == l;
      assert s[|l|] == '\n';
      assert forall k :: 0 <= k < |l| ==> s[k] == l[k] && s[k] !in LineBreaks;
      assert FirstIn(s, LineBreaks) == |l|;
      assert s[|l| + 1..] == Terminated(lines[1..]);
      SplitLinesTerminated(lines[1..]);
    }
  }

  /** `s.split(sep)` for a one-character separator: never empty, `"".split(",") == [""]`. */
  function SplitOn(s: string, sep: char): (parts: seq<string>)
    ensures |parts| >= 1
    ensures forall j :: 0 <= j < |parts| ==> sep !in parts[j]
    decreases |s|
  {
    var i := FirstIn(s, {sep});
    if i == |s| then [s] else [s[..i]] + SplitOn(s[i + 1..], sep)
  }

  /** `sep.join(parts)`. */
  function JoinWith(parts: seq<string>, sep: char): string {
    if parts == [] then []
    else if |parts| == 1 then parts[0]
    else parts[0] + [sep] + JoinWith(parts[1..], sep)
  }

  /** Joining the pieces of a split restores the string. */
  lemma {:induction false} JoinSplitOn(s: string, sep: char)
    ensures JoinWith(SplitOn(s, sep), sep) == s
    decreases |s|
  {
    var i := FirstIn(s, {sep});
    if i < |s| {
      JoinSplitOn(s[i + 1..], sep);
      assert s == s[..i] + [sep] + s[i + 1..];
    }
  }

  /** Splitting a join of separator-free pieces gives the pieces back. */
  lemma {:induction false} SplitOnJoin(parts: seq<string>, sep: char)
    requires |parts| >= 1
    requires forall j :: 0 <= j < |parts| ==> sep !in parts[j]
    ensures SplitOn(JoinWith(parts, sep), sep) == parts
  {
    var p, s := parts[0], JoinWith(parts, sep);
    if |parts| == 1 {
      FirstSeparator(p, [], sep);
      assert p + [] == s;
    } else {
      var rest := JoinWith(parts[1..], sep);
      assert s == p + ([sep] + rest);
      FirstSeparator(p, [sep] + rest, sep);
      assert s[..|p|] == p;
      assert s[|p| + 1..] == rest;
      SplitOnJoin(parts[1..], sep);
    }
  }

  /** In `p + tail` with no separator in `p`, the first separator is at `|p|` or beyond. */
  lemma FirstSeparator(p: string, tail: string, sep: char)
    requires sep !in p
    requires tail == [] || tail[0] == sep
    ensures FirstIn(p + tail, {sep}) == |p|
  {
    var s := p + tail;
    var i := FirstIn(s, {sep});
    assert forall k :: 0 <= k < |p| ==> s[k] == p[k] && s[k] !in {sep};
    if tail != [] {
      assert s[|p|] == sep;
    }
  }

  // ------------------------------------------------------ comprehensions

  /** `[y for x in xs for y in f(x)]`: each element's results, in element order. */
  function FlatMap<A, B>(f: A -> seq<B>, xs: seq<A>): seq<B> {
    if xs == [] then [] else f(xs[0]) + FlatMap(f, xs[1..])
  }

  /** A comprehension over a concatenation is the concatenation of the comprehensions. */
  lemma {:induction false} FlatMapAppend<A, B>(f: A -> seq<B>, a: seq<A>, b: seq<A>)
    ensures FlatMap(f, a + b) == FlatMap(f, a) + FlatMap(f, b)
  {
    if a == [] {
      assert a + b == b;
    } else {
      assert (a + b)[0] == a[0];
      assert (a + b)[1..] == a[1..] + b;
      FlatMapAppend(f, a[1..], b);
    }
  }

  // -------------------------------------------------------------- slices

  /** `s[:n]`: a negative `n` counts from the end, and both ends are clamped. */
  function SliceTo<T>(s: seq<T>, n: int): (r: seq<T>)
    ensures n >= 0 ==> |r| == (if n <= |s| then n else |s|)
    ensures n < 0 ==> |r| == (if -n <= |s| then |s| + n else 0)
    ensures r == s[..|r|]
  {
    if n >= 0 then (if n <= |s| then s[..n] else s)
    else (if -n <= |s| then s[..|s| + n] else [])
  }

  // ------------------------------------------------------------- int(s)

  predicate IsDigit(c: char) {
    '0' <= c <= '9'
  }

  /** Every character of `d` is an ASCII digit or `_`. */
  predicate DigitChars(d: string) {
    forall k :: 0 <= k < |d| ==> IsDigit(d[k]) || d[k] == '_'
  }

  /** ASCII decimal digits in which each `_` stands between two digits, as `int()` accepts. */
  predicate WellFormedDigits(d: string) {
    && DigitChars(d)
    && |d| > 0
    && IsDigit(d[0])
    && forall k :: 0 <= k < |d| && d[k] == '_' ==> 0 < k && k + 1 < |d| && IsDigit(d[k + 1])
  }

  /** The number the digits of `d` spell, underscores ignored. */
  function DigitsValue(d: string): nat
    requires DigitChars(d)
  {
    if d == [] then 0
    else
      var last := d[|d| - 1];
      if last == '_' then DigitsValue(d[..|d| - 1])
      else 10 * DigitsValue(d[..|d| - 1]) + ((last as int) - ('0' as int))
  }

  /** `int()` on text with no surrounding whitespace: an optional sign, then well-formed digits. */
  function ParseStripped(t: string): Option<int> {
    if |t| > 0 && (t[0] == '-' || t[0] == '+') then
      if WellFormedDigits(t[1..]) then
        var v: int := DigitsValue(t[1..]);
        Some(if t[0] == '-' then -v else v)
      else None
    else if WellFormedDigits(t) then Some(DigitsValue(t))
    else None
  }

  /** `int(s)` on a string: `None` where Python raises `ValueError`. */
  function ParseInt(s: string): Option<int> {
    ParseStripped(Strip(s))
  }

  /** The decimal digits of `n`, most significant first, no leading zero. */
  function Decimal(n: nat): (d: string)
    ensures |d| > 0 && IsDigit(d[0]) && IsDigit(d[|d| - 1])
    ensures forall k :: 0 <= k < |d| ==> IsDigit(d[k])
  {
    var c := ('0' as int + n % 10) as char;
    if n < 10 then [c] else Decimal(n / 10) + [c]
  }

  /** `str(n)`. */
  function IntToString(n: int): string {
    if n < 0 then "-" + Decimal(-n) else Decimal(n)
  }

  lemma {:induction false} DecimalValue(n: nat)
    ensures DigitsValue(Decimal(n)) == n
  {
    var d := Decimal(n);
    if n >= 10 {
      DecimalValue(n / 10);
      assert d[..|d| - 1] == Decimal(n / 10);
    }
  }

  lemma NotWhitespace(c: char)
    requires IsDigit(c) || c == '-'
    ensures c !in Whitespace
  {
  }

  /** A string of well-formed digits, possibly signed, parses to its value. */
  lemma ParseSigned(s: string, d: string, negative: bool)
    requires WellFormedDigits(d)
    requires s == (if negative then "-" + d else d)
    ensures ParseInt(s) == Some(if negative then -(DigitsValue(d) as int) else DigitsValue(d))
  {
    assert Strip(s) == s by {
      assert IsDigit(s[|s| - 1]) by {
        assert s[|s| - 1] == d[|d| - 1];
        assert d[|d| - 1] != '_';
      }
      NotWhitespace(s[0]);
      NotWhitespace(s[|s| - 1]);
      StripCharsOfClean(s, Whitespace);
    }
    if negative {
      assert s[0] == '-' && s[1..] == d;
    } else {
      assert s[0] != '-' && s[0] != '+';
    }
  }

  /** `int(str(n)) == n`. */
  lemma ParseIntToString(n: int)
    ensures ParseInt(IntToString(n)) == Some(n)
  {
    var m: nat := if n < 0 then -n else n;
    DecimalValue(m);
    ParseSigned(IntToString(n), Decimal(m), n < 0);
  }
}
