/** The string primitives the jury relies on: Python's `str.splitlines`,
    `str.strip`, `str.lower` and `str.startswith`, and the position of the
    first occurrence of a character (what `str.split(sep, 1)` cuts at). */
module Text {
  import opened Outcomes

  /** Python's `str.isspace()`: the characters `strip()` removes. */
  predicate IsSpace(c: char) {
    var n := c as int;
    (0x09 <= n <= 0x0D) || (0x1C <= n <= 0x20) || n == 0x85 || n == 0xA0 || n == 0x1680
    || (0x2000 <= n <= 0x200A) || n == 0x2028 || n == 0x2029 || n == 0x202F || n == 0x205F
    || n == 0x3000
  }

  /** The line boundaries of Python's `str.splitlines()`; "\r\n" counts as one boundary. */
  predicate IsLineBreak(c: char) {
    var n := c as int;
    (0x0A <= n <= 0x0D) || (0x1C <= n <= 0x1E) || n == 0x85 || n == 0x2028 || n == 0x2029
  }

  predicate NoLineBreak(s: string) {
    forall k :: 0 <= k < |s| ==> !IsLineBreak(s[k])
  }

  predicate AllSpace(s: string) {
    forall k :: 0 <= k < |s| ==> IsSpace(s[k])
  }

  /** Neither end of `s` is whitespace. */
  predicate Trimmed(s: string) {
    s == [] || (!IsSpace(s[0]) && !IsSpace(s[|s| - 1]))
  }

  // ---------------------------------------------------------------------------
  // str.splitlines()
  // ---------------------------------------------------------------------------

  /** Index of the first line boundary in `s`, or `|s|` when there is none. */
  function LineEnd(s: string): (j: nat)
    ensures j <= |s|
    ensures NoLineBreak(s[..j])
    ensures j < |s| ==> IsLineBreak(s[j])
  {
    if s == [] || IsLineBreak(s[0]) then 0 else 1 + LineEnd(s[1..])
  }

  /** Length of the boundary that starts at `s[j]`: two for "\r\n", one otherwise. */
  function BreakLength(s: string, j: nat): nat
    requires j < |s|
  {
    if s[j] == '\r' && j + 1 < |s| && s[j + 1] == '\n' then 2 else 1
  }

  /** Python's `s.splitlines()`: the lines of `s` without their boundaries; a final
      boundary does not open an extra empty line, and the empty string has no lines. */
  function SplitLines(s: string): (lines: seq<string>)
    ensures forall i :: 0 <= i < |lines| ==> NoLineBreak(lines[i])
    ensures s == [] <==> lines == []
    decreases |s|
  {
    if s == [] then []
    else
      var j := LineEnd(s);
      if j == |s| then [s]
      else [s[..j]] + SplitLines(s[j + BreakLength(s, j)..])
  }

  /** Every line followed by "\n": the text whose lines are `lines`. */
  function JoinTerminated(lines: seq<string>): string {
    if lines == [] then [] else lines[0] + "\n" + JoinTerminated(lines[1..])
  }

  lemma {:induction false} LineEndAt(line: string, rest: string)
    requires NoLineBreak(line)
    requires rest != [] && IsLineBreak(rest[0])
    ensures LineEnd(line + rest) == |line|
  {
    if line != [] {
      assert (line + rest)[1..] == line[1..] + rest;
      LineEndAt(line[1..], rest);
    }
  }

  /** A line without boundaries followed by one boundary character is split off
      as the first line; a "\r" counts alone unless a "\n" follows it. */
  lemma SplitLinesBreak(line: string, c: char, rest: string)
    requires NoLineBreak(line) && IsLineBreak(c)
    requires !(c == '\r' && rest != [] && rest[0] == '\n')
    ensures SplitLines(line + [c] + rest) == [line] + SplitLines(rest)
  {
    var s := line + [c] + rest;
    var j := |line|;
    assert s == line + ([c] + rest);
    LineEndAt(line, [c] + rest);
    assert BreakLength(s, j) == 1 by {
      assert s[j] == c;
      if rest != [] { assert s[j + 1] == rest[0]; }
    }
    assert s[..j] == line && s[j + 1..] == rest;
    assert SplitLines(s) == [s[..j]] + SplitLines(s[j + BreakLength(s, j)..]);
  }

  /** A line without boundaries followed by "\r\n" is split off as the first line:
      the pair is one boundary and opens no empty line between them. */
  lemma SplitLinesCrLf(line: string, rest: string)
    requires NoLineBreak(line)
    ensures SplitLines(line + "\r\n" + rest) == [line] + SplitLines(rest)
  {
    var s := line + "\r\n" + rest;
    LineEndAt(line, "\r\n" + rest);
    assert s == line + ("\r\n" + rest);
    assert s[|line|] == '\r' && s[|line| + 1] == '\n';
    assert s[..|line|] == line;
    assert s[|line| + 2..] == rest;
  }

  /** A non-empty text without boundaries is one line. */
  lemma SplitLinesSingle(line: string)
    requires line != [] && NoLineBreak(line)
    ensures SplitLines(line) == [line]
  {

  }

  /** Round trip: splitting a text built by terminating each line with "\n"
      gives back exactly those lines. */
  lemma {:induction false} SplitJoinTerminated(lines: seq<string>)
    requires forall i :: 0 <= i < |lines| ==> NoLineBreak(lines[i])
    ensures SplitLines(JoinTerminated(lines)) == lines
  {
    if lines != [] {
      var rest := JoinTerminated(lines[1..]);
      assert JoinTerminated(lines) == lines[0] + "\n" + rest;
      SplitLinesBreak(lines[0], '\n', rest);
      SplitJoinTerminated(lines[1..]);
      assert lines == [lines[0]] + lines[1..];
    }
  }

  // ---------------------------------------------------------------------------
  // str.strip()
  // ---------------------------------------------------------------------------

  /** The first index from `i` on that does not hold whitespace, or `|s|`. */
  function SpaceEnd(s: string, i: nat): (j: nat)
    requires i <= |s|
    ensures i <= j <= |s|
    ensures forall k :: i <= k < j ==> IsSpace(s[k])
    ensures j < |s| ==> !IsSpace(s[j])
    decreases |s| - i
  {
    if i < |s| && IsSpace(s[i]) then SpaceEnd(s, i + 1) else i
  }

  /** The start of the whitespace run that ends at index `j`: the smallest `i`
      such that `s[i..j]` is all whitespace. */
  function SpaceStart(s: string, j: nat): (i: nat)
    requires j <= |s|
    ensures i <= j
    ensures forall k :: i <= k < j ==> IsSpace(s[k])
    ensures 0 < i ==> !IsSpace(s[i - 1])
  {
    if 0 < j && IsSpace(s[j - 1]) then SpaceStart(s, j - 1) else j
  }

  /** `s` without its leading whitespace. */
  function StripLeft(s: string): string {
    s[SpaceEnd(s, 0)..]
  }

  /** `s` without its trailing whitespace. */
  function StripRight(s: string): string {
    s[..SpaceStart(s, |s|)]
  }

  /** Python's `s.strip()`. */
  function Strip(s: string): (r: string)
    ensures Trimmed(r)
    ensures |r| <= |s|
  {
    StripRight(StripLeft(s))
  }

  lemma StripLeftOf(pad: string, s: string)
    requires AllSpace(pad)
    requires s == [] || !IsSpace(s[0])
    ensures StripLeft(pad + s) == s
  {
    var t := pad + s;
    assert t[|pad|..] == s;
  }

  lemma StripRightOf(s: string, pad: string)
    requires AllSpace(pad)
    requires s == [] || !IsSpace(s[|s| - 1])
    ensures StripRight(s + pad) == s
  {
    var t := s + pad;
    assert t[..|s|] == s;
  }

  /** `strip` removes exactly the surrounding whitespace: whatever trimmed text is
      padded with whitespace on both sides, stripping gives that text back. */
  lemma StripOf(lead: string, s: string, trail: string)
    requires AllSpace(lead) && AllSpace(trail)
    requires Trimmed(s)
    ensures Strip(lead + s + trail) == s
  {
    if s == [] {
      assert lead + s + trail == [] + (lead + trail);
      StripLeftOf(lead + trail, []);
      StripRightOf([], []);
    } else {
      assert lead + s + trail == lead + (s + trail);
      StripLeftOf(lead, s + trail);
      StripRightOf(s, trail);
    }
  }

  /** Stripping twice is stripping once. */
  lemma StripIdempotent(s: string)
    ensures Strip(Strip(s)) == Strip(s)
  {
    var r := Strip(s);
    assert [] + r + [] == r;
    StripOf([], r, []);
  }

  // ---------------------------------------------------------------------------
  // str.lower(), str.startswith(), first occurrence
  // ---------------------------------------------------------------------------

  /** Lower-casing of one character, for the ASCII letters. */
  function LowerChar(c: char): char {
    if 'A' <= c <= 'Z' then (c as int - 'A' as int + 'a' as int) as char else c
  }

  /** `s.lower()`, character by character. */
  function Lower(s: string): (r: string)
    ensures |r| == |s|
  {
    seq(|s|, i requires 0 <= i < |s| => LowerChar(s[i]))
  }

  predicate StartsWith(s: string, prefix: string) {
    |prefix| <= |s| && s[..|prefix|] == prefix
  }

  /** The first position of `c` in `s`: what `s.split(c, 1)` cuts at. */
  function IndexOf(s: string, c: char): (r: Option<nat>)
    ensures r.None? <==> c !in s
    ensures r.Some? ==> r.value < |s| && s[r.value] == c && c !in s[..r.value]
  {
    if s == [] then None
    else if s[0] == c then Some(0)
    else match IndexOf(s[1..], c)
      case None => None
      case Some(k) => Some(k + 1)
  }
}
