/** `parse_verdict`: pull the verdict out of an agent's free-form reply.
    The reply is scanned line by line; the first line whose lower-cased form
    starts with "verdict" decides, and what follows its first colon, stripped,
    is the verdict. Without such a line the verdict is "Unclear". A deciding
    line without a colon raises IndexError. */
module VerdictParser {
  import opened Outcomes
  import opened Text

  /** The label a verdict line starts with, compared after lower-casing. */
  const Label: string := "verdict"

  /** The verdict when no line carries one. */
  const NoVerdict: string := "Unclear"

  /** The line test: a case-insensitive prefix test on the untrimmed line. */
  predicate IsVerdictLine(line: string) {
    StartsWith(Lower(line), Label)
  }

  /** `line.split(":", 1)[1].strip()`: the stripped text after the first colon,
      or IndexError when the line has no colon. */
  function AfterColon(line: string): (r: Result<string>)
    ensures r.Err? <==> ':' !in line
    ensures r.Ok? ==> Trimmed(r.value)
  {
    match IndexOf(line, ':')
    case None => Err(IndexError)
    case Some(i) => Ok(Strip(line[i + 1..]))
  }

  /** The scan over the lines, returning at the first verdict line. A verdict it
      returns, "Unclear" included, has no surrounding whitespace. */
  function ParseLines(lines: seq<string>): (r: Result<string>)
    ensures r.Ok? ==> Trimmed(r.value)
  {
    if lines == [] then Ok(NoVerdict)
    else if IsVerdictLine(lines[0]) then AfterColon(lines[0])
    else ParseLines(lines[1..])
  }

  /** `parse_verdict(text)`: a reply without lines is "Unclear", and any verdict
      has no surrounding whitespace. */
  function ParseVerdict(text: string): (r: Result<string>)
    ensures text == [] ==> r == Ok(NoVerdict)
    ensures r.Ok? ==> Trimmed(r.value)
  {
    ParseLines(SplitLines(text))
  }

  /** Line `k` is the first verdict line of `lines`. */
  ghost predicate IsFirstVerdictLine(lines: seq<string>, k: int) {
    0 <= k < |lines| && IsVerdictLine(lines[k])
    && forall j :: 0 <= j < k ==> !IsVerdictLine(lines[j])
  }

  /** The label in capitals: the other spelling each of its letters may take. */
  const UpperLabel: string := "VERDICT"

  /** The line test compares the lower-cased first characters with the label. */
  lemma VerdictLineLower(line: string)
    ensures IsVerdictLine(line) <==>
      |line| >= |Label| && forall i :: 0 <= i < |Label| ==> LowerChar(line[i]) == Label[i]
  {
    if |line| >= |Label| {
      var low := Lower(line)[..|Label|];
      if forall i :: 0 <= i < |Label| ==> LowerChar(line[i]) == Label[i] {
        assert low == Label;
      }
    }
  }

  /** A character lower-cases to the label's `i`-th letter exactly when it is
      that letter in lower case or in capitals. */
  lemma LowerCharIsLabelLetter(c: char, i: nat)
    requires i < |Label|
    ensures LowerChar(c) == Label[i] <==> c == Label[i] || c == UpperLabel[i]
  {
    assert 'a' <= Label[i] <= 'z' && UpperLabel[i] as int == Label[i] as int - 32;
  }

  /** A line is a verdict line exactly when each of its first seven characters is
      the matching letter of "verdict" in either case, capitals and lower case
      mixed freely: "VERDICT:", "Verdict:" and "vErDiCt" match, and so does a
      longer word such as "Verdicts"; a leading space, or any other character in
      front, keeps a line from matching. */
  lemma VerdictLineIff(line: string)
    ensures IsVerdictLine(line) <==>
      |line| >= |Label| && forall i :: 0 <= i < |Label| ==> line[i] == Label[i] || line[i] == UpperLabel[i]
  {
    VerdictLineLower(line);
    forall i | 0 <= i < |Label| && i < |line|
      ensures LowerChar(line[i]) == Label[i] <==> line[i] == Label[i] || line[i] == UpperLabel[i]
    {
      LowerCharIsLabelLetter(line[i], i);
    }
  }

  /** No line, once lower-cased, starts with "verdict": the verdict is "Unclear". */
  lemma {:induction false} ParseLinesNone(lines: seq<string>)
    requires forall j :: 0 <= j < |lines| ==> !IsVerdictLine(lines[j])
    ensures ParseLines(lines) == Ok(NoVerdict)
  {
    if lines != [] {
      ParseLinesNone(lines[1..]);
    }
  }

  /** The first verdict line decides; later verdict lines are never looked at. */
  lemma {:induction false} ParseLinesFirst(lines: seq<string>, k: int)
    requires IsFirstVerdictLine(lines, k)
    ensures ParseLines(lines) == AfterColon(lines[k])
  {
    if k > 0 {
      assert !IsVerdictLine(lines[0]);
      ParseLinesFirst(lines[1..], k - 1);
    }
  }

  /** Either no line is a verdict line, or there is a first one. */
  lemma {:induction false} FirstVerdictLineExists(lines: seq<string>)
    ensures (forall j :: 0 <= j < |lines| ==> !IsVerdictLine(lines[j]))
            || exists k :: IsFirstVerdictLine(lines, k)
  {
    if lines != [] && !IsVerdictLine(lines[0]) {
      FirstVerdictLineExists(lines[1..]);
      if exists k :: IsFirstVerdictLine(lines[1..], k) {
        var k :| IsFirstVerdictLine(lines[1..], k);
        assert IsFirstVerdictLine(lines, k + 1);
      }
    } else if lines != [] {
      assert IsFirstVerdictLine(lines, 0);
    }
  }

  /** Raising is decided by the first verdict line alone. */
  lemma ParseLinesRaises(lines: seq<string>)
    ensures ParseLines(lines).Err? <==> exists k :: IsFirstVerdictLine(lines, k) && ':' !in lines[k]
  {
    FirstVerdictLineExists(lines);
    if exists k :: IsFirstVerdictLine(lines, k) {
      var k :| IsFirstVerdictLine(lines, k);
      ParseLinesFirst(lines, k);
      forall k' | IsFirstVerdictLine(lines, k') ensures k' == k {
      }
    } else {
      ParseLinesNone(lines);
    }
  }

  /** What the scan returns, for every sequence of lines:
      - "Unclear" when no line is a verdict line;
      - otherwise the outcome of `split(":", 1)[1].strip()` on the first verdict line;
      - and it raises exactly when that first verdict line has no colon. */
  lemma {:induction false} ParseLinesSpec(lines: seq<string>)
    ensures (forall j :: 0 <= j < |lines| ==> !IsVerdictLine(lines[j])) ==> ParseLines(lines) == Ok(NoVerdict)
    ensures forall k :: IsFirstVerdictLine(lines, k) ==> ParseLines(lines) == AfterColon(lines[k])
    ensures ParseLines(lines).Err? <==> exists k :: IsFirstVerdictLine(lines, k) && ':' !in lines[k]
  {
    if forall j :: 0 <= j < |lines| ==> !IsVerdictLine(lines[j]) {
      ParseLinesNone(lines);
    }
    forall k | IsFirstVerdictLine(lines, k)
      ensures ParseLines(lines) == AfterColon(lines[k])
    {
      ParseLinesFirst(lines, k);
    }
    ParseLinesRaises(lines);
  }

  /** On a verdict line the verdict is the text after the first colon with the
      surrounding whitespace removed, whatever later colons it contains. */
  lemma AfterColonOf(head: string, lead: string, verdict: string, trail: string)
    requires ':' !in head
    requires AllSpace(lead) && AllSpace(trail) && Trimmed(verdict)
    ensures AfterColon(head + ":" + lead + verdict + trail) == Ok(verdict)
  {
    var line := head + ":" + lead + verdict + trail;
    assert line[|head|] == ':';
    assert line[..|head|] == head;
    assert IndexOf(line, ':') == Some(|head|);
    assert line[|head| + 1..] == lead + verdict + trail;
    StripOf(lead, verdict, trail);
  }

  /** The label as the requested reply shape spells it. */
  const RequestedLabel: string := "Verdict"

  /** A line that starts with the label, spelled as requested, is a verdict line. */
  lemma VerdictWordStartsVerdictLine(line: string)
    requires StartsWith(line, RequestedLabel)
    ensures IsVerdictLine(line)
  {
    VerdictLineIff(line);
  }

  lemma {:induction false} NoLineBreakConcat(a: string, b: string)
    requires NoLineBreak(a) && NoLineBreak(b)
    ensures NoLineBreak(a + b)
  {
    forall k | 0 <= k < |a + b| ensures !IsLineBreak((a + b)[k]) {
      if k >= |a| { assert (a + b)[k] == b[k - |a|]; }
    }
  }

  /** A verdict line stays one whatever is appended to it. */
  lemma VerdictLineExtend(head: string, tail: string)
    requires IsVerdictLine(head)
    ensures IsVerdictLine(head + tail)
  {
    VerdictLineLower(head);
    VerdictLineLower(head + tail);
  }

  /** When the first line is a verdict line it alone decides, whatever follows:
      the parse raises exactly when that line has no colon. */
  lemma ParseFirstLine(line: string, rest: string)
    requires NoLineBreak(line) && IsVerdictLine(line)
    ensures ParseVerdict(line + "\n" + rest) == AfterColon(line)
  {
    SplitLinesBreak(line, '\n', rest);
  }

  /** The first line of the requested reply shape, "Verdict: <v>", is a verdict
      line without line breaks ... */
  lemma RequestedFirstLineMatches(verdict: string)
    requires NoLineBreak(verdict)
    ensures NoLineBreak("Verdict: " + verdict) && IsVerdictLine("Verdict: " + verdict)
  {
    var head := RequestedLabel;
    assert "Verdict: " + verdict == head + (": " + verdict);
    NoLineBreakConcat(head + ": ", verdict);
    VerdictWordStartsVerdictLine(head);
    VerdictLineExtend(head, ": " + verdict);
  }

  /** ... whose verdict is `v`. */
  lemma RequestedFirstLineVerdict(verdict: string)
    requires Trimmed(verdict)
    ensures AfterColon("Verdict: " + verdict) == Ok(verdict)
  {
    var head, pad := RequestedLabel, " ";
    assert "Verdict: " + verdict == head + ":" + pad + verdict + [];
    AfterColonOf(head, pad, verdict, []);
  }

  /** The requested reply shape, "Verdict: <v>" on the first line and anything
      after it, parses back to exactly `v`. */
  lemma ParseRequestedFormat(verdict: string, rest: string)
    requires Trimmed(verdict) && NoLineBreak(verdict)
    ensures ParseVerdict("Verdict: " + verdict + "\n" + rest) == Ok(verdict)
  {
    RequestedFirstLineMatches(verdict);
    RequestedFirstLineVerdict(verdict);
    ParseFirstLine("Verdict: " + verdict, rest);
  }

  /** A stripped one-line reply in the requested shape, "Verdict: <v>" alone,
      parses back to exactly `v`. */
  lemma ParseRequestedLine(verdict: string)
    requires Trimmed(verdict) && NoLineBreak(verdict)
    ensures ParseVerdict("Verdict: " + verdict) == Ok(verdict)
  {
    var line := "Verdict: " + verdict;
    RequestedFirstLineMatches(verdict);
    RequestedFirstLineVerdict(verdict);
    SplitLinesSingle(line);
    assert [line][1..] == [];
  }

  /** A line that starts with whitespace is never a verdict line. */
  lemma IndentedLineIsNotVerdictLine(line: string)
    requires line != [] && IsSpace(line[0])
    ensures !IsVerdictLine(line)
  {
    VerdictLineLower(line);
    assert LowerChar(line[0]) == line[0];
  }
}
