/** The jury's deliberation over one case, and the run over all cases.
    Round 1 asks every role, in roster order, without context. The round-1
    replies are gathered into one confrontation transcript. Round 2 asks every
    role again with that transcript attached. The round-2 verdicts alone are
    aggregated into the case's decision. */
module Deliberation {
  import opened Outcomes
  import opened Text
  import opened VerdictParser
  import opened Aggregator
  import opened AgentRoster

  // ---------------------------------------------------------------------------
  // Asking an agent
  // ---------------------------------------------------------------------------

  /** The chat-completion service as the jury sees it: a system prompt and a
      user message in, the reply's content out. */
  type Oracle = (string, string) -> string

  /** The reply shape every request asks for. */
  const OutputFormat: string :=
    "\nRespond using exactly this format:\n\nVerdict: Faithful | Mutated | Unclear\n"
    + "Confidence: Low | Medium | High\nKey Arguments:\n- bullet point\n- bullet point\n"

  /** The user message of a request: the fact, the claim, the extra context
      (empty in round 1) and the reply shape. */
  function UserMessage(fact: string, claim: string, extra: string): string {
    "\nInternal Fact:\n" + fact + "\n\nExternal Claim:\n" + claim + "\n\n" + extra + "\n\n"
    + OutputFormat + "\n"
  }

  /** `ask_agent`: one request with the role's instructions as system prompt;
      the reply comes back stripped. */
  function AskAgent(ask: Oracle, instructions: string, fact: string, claim: string, extra: string): (reply: string)
    ensures Trimmed(reply)
  {
    Strip(ask(instructions, UserMessage(fact, claim, extra)))
  }

  // ---------------------------------------------------------------------------
  // The confrontation transcript
  // ---------------------------------------------------------------------------

  const ConfrontationHeader: string := "Other agents said:\n"

  /** One role's labelled section of the transcript: the name in brackets on a
      line of its own, then the reply, each line framed by line feeds. */
  function Section(name: string, reply: string): (s: string)
    ensures |s| == |name| + |reply| + 5
  {
    "\n[" + name + "]\n" + reply + "\n"
  }

  /** The sections of all (role, reply) entries, in order. */
  function Sections(entries: seq<(string, string)>): string {
    if entries == [] then [] else Section(entries[0].0, entries[0].1) + Sections(entries[1..])
  }

  /** The confrontation context built from the round-1 replies: it opens with
      the header. */
  function ConfrontationContext(entries: seq<(string, string)>): (c: string)
    ensures |ConfrontationHeader| <= |c| && c[..|ConfrontationHeader|] == ConfrontationHeader
  {
    ConfrontationHeader + Sections(entries)
  }

  /** The sections of two runs of entries are the sections of each, one after the other. */
  lemma {:induction false} SectionsAppend(a: seq<(string, string)>, b: seq<(string, string)>)
    ensures Sections(a + b) == Sections(a) + Sections(b)
  {
    if a != [] {
      var first := Section(a[0].0, a[0].1);
      assert (a + b)[0] == a[0];
      assert (a + b)[1..] == a[1..] + b;
      SectionsAppend(a[1..], b);
      assert Sections(a + b) == first + (Sections(a[1..]) + Sections(b));
      assert first + (Sections(a[1..]) + Sections(b)) == (first + Sections(a[1..])) + Sections(b);
    } else {
      assert a + b == b;
    }
  }

  /** The transcript holds one section per entry, in entry order: the header,
      then the sections of the entries before `k`, then entry `k`'s own section,
      then the sections of the entries after it. */
  lemma ContextSectionAt(entries: seq<(string, string)>, k: nat)
    requires k < |entries|
    ensures ConfrontationContext(entries)
      == ConfrontationHeader + Sections(entries[..k]) + Section(entries[k].0, entries[k].1)
         + Sections(entries[k + 1..])
  {
    assert entries == entries[..k] + ([entries[k]] + entries[k + 1..]);
    SectionsAppend(entries[..k], [entries[k]] + entries[k + 1..]);
    assert ([entries[k]] + entries[k + 1..])[1..] == entries[k + 1..];
  }

  /** The transcript's length: the header and, per entry, its name, its reply and
      five characters of framing; nothing else is added. */
  lemma {:induction false} SectionsLength(entries: seq<(string, string)>)
    ensures |Sections(entries)| == 5 * |entries| + SumLengths(entries)
  {
    if entries != [] {
      SectionsLength(entries[1..]);
    }
  }

  function SumLengths(entries: seq<(string, string)>): nat {
    if entries == [] then 0 else |entries[0].0| + |entries[0].1| + SumLengths(entries[1..])
  }

  // ---------------------------------------------------------------------------
  // A round, and the deliberation over one case
  // ---------------------------------------------------------------------------

  /** The replies of a round: each role asked once, in roster order, with the same extra context. */
  function Answers(roster: seq<Role>, ask: Oracle, fact: string, claim: string, extra: string): (replies: seq<string>)
    ensures |replies| == |roster|
  {
    seq(|roster|, i requires 0 <= i < |roster| => AskAgent(ask, roster[i].1, fact, claim, extra))
  }

  /** Each role's name paired with its reply: the `round1_outputs` dictionary in insertion order. */
  function Transcript(roster: seq<Role>, replies: seq<string>): (entries: seq<(string, string)>)
    requires |replies| == |roster|
    ensures |entries| == |roster|
    ensures DistinctNames(roster) ==> DistinctNames(entries)
  {
    seq(|roster|, i requires 0 <= i < |roster| => (roster[i].0, replies[i]))
  }

  /** The transcript grows by one entry per role asked. */
  lemma TranscriptPrefix(roster: seq<Role>, replies: seq<string>, i: nat)
    requires |replies| == |roster| && i < |roster|
    ensures Transcript(roster, replies)[..i + 1] == Transcript(roster, replies)[..i] + [(roster[i].0, replies[i])]
  {
  }

  /** The verdicts of a round's replies, or the IndexError of the first reply whose parse raises. */
  function ParseAll(replies: seq<string>): (r: Result<seq<string>>)
    ensures r.Ok? ==> |r.value| == |replies|
  {
    if replies == [] then Ok([])
    else match ParseVerdict(replies[0])
      case Err(e) => Err(e)
      case Ok(v) =>
        match ParseAll(replies[1..])
        case Err(e) => Err(e)
        case Ok(vs) => Ok([v] + vs)
  }

  /** A round's verdicts are one per reply, in order, each the parse of that
      reply; the round raises exactly when some reply's parse raises. */
  lemma {:induction false} ParseAllSpec(replies: seq<string>)
    ensures ParseAll(replies).Ok? <==> forall i :: 0 <= i < |replies| ==> ParseVerdict(replies[i]).Ok?
    ensures ParseAll(replies).Ok? ==>
      forall i :: 0 <= i < |replies| ==> ParseVerdict(replies[i]) == Ok(ParseAll(replies).value[i])
  {
    if replies != [] {
      ParseAllSpec(replies[1..]);
      forall i | 0 < i < |replies| ensures replies[i] == replies[1..][i - 1] {
      }
    }
  }

  /** Parsing one more reply extends the round's verdicts by that reply's verdict. */
  lemma {:induction false} ParseAllSnoc(replies: seq<string>, verdicts: seq<string>, reply: string, verdict: string)
    requires ParseAll(replies) == Ok(verdicts) && ParseVerdict(reply) == Ok(verdict)
    ensures ParseAll(replies + [reply]) == Ok(verdicts + [verdict])
  {
    if replies == [] {
      assert replies + [reply] == [reply] && [reply][1..] == [];
      assert verdicts + [verdict] == [verdict] + [];
    } else {
      var first, rest := ParseVerdict(replies[0]), ParseAll(replies[1..]);
      assert first.Ok? && rest.Ok? && verdicts == [first.value] + rest.value;
      ParseAllSnoc(replies[1..], rest.value, reply, verdict);
      assert (replies + [reply])[0] == replies[0];
      assert (replies + [reply])[1..] == replies[1..] + [reply];
      assert verdicts + [verdict] == [first.value] + (rest.value + [verdict]);
    }
  }

  /** One reply whose parse raises makes the whole round raise. */
  lemma ParseAllErr(replies: seq<string>, k: nat)
    requires k < |replies| && ParseVerdict(replies[k]).Err?
    ensures ParseAll(replies) == Err(IndexError)
  {
    ParseAllSpec(replies);
  }

  /** What one case's deliberation records. */
  datatype CaseRecord = CaseRecord(
    round1Outputs: seq<(string, string)>,
    round1Verdicts: seq<string>,
    context: string,
    round2Outputs: seq<string>,
    round2Verdicts: seq<string>,
    decision: string)

  /** The deliberation over one case: both rounds, the transcript between them,
      and the decision; IndexError when any reply's parse raises. */
  function Deliberate(roster: Roster, ask: Oracle, fact: string, claim: string): Result<CaseRecord> {
    var replies1 := Answers(roster, ask, fact, claim, "");
    match ParseAll(replies1)
    case Err(e) => Err(e)
    case Ok(verdicts1) =>
      var entries := Transcript(roster, replies1);
      var context := ConfrontationContext(entries);
      var replies2 := Answers(roster, ask, fact, claim, context);
      match ParseAll(replies2)
      case Err(e) => Err(e)
      case Ok(verdicts2) =>
        Ok(CaseRecord(entries, verdicts1, context, replies2, verdicts2, FinalDecision(verdicts2)))
  }

  /** What a completed deliberation records, stated per role:
      - the round-1 entries are the roles' names with their context-free
        replies, in roster order;
      - the context is the transcript of every round-1 entry, each role's own included;
      - round 2 has one verdict per role, in roster order, each the parse of that
        role's reply to the request carrying the context;
      - the decision is the aggregate of the round-2 verdicts; the round-1
        verdicts take no part in it. */
  lemma DeliberationRecord(roster: Roster, ask: Oracle, fact: string, claim: string, rec: CaseRecord)
    requires Deliberate(roster, ask, fact, claim) == Ok(rec)
    ensures |rec.round1Outputs| == |roster|
    ensures forall i :: 0 <= i < |roster| ==>
      rec.round1Outputs[i] == (roster[i].0, AskAgent(ask, roster[i].1, fact, claim, ""))
    ensures |rec.round1Verdicts| == |roster|
    ensures forall i :: 0 <= i < |roster| ==>
      ParseVerdict(AskAgent(ask, roster[i].1, fact, claim, "")) == Ok(rec.round1Verdicts[i])
    ensures rec.context == ConfrontationContext(rec.round1Outputs)
    ensures |rec.round2Outputs| == |roster|
    ensures forall i :: 0 <= i < |roster| ==>
      rec.round2Outputs[i] == AskAgent(ask, roster[i].1, fact, claim, rec.context)
    ensures |rec.round2Verdicts| == |roster|
    ensures forall i :: 0 <= i < |roster| ==>
      ParseVerdict(AskAgent(ask, roster[i].1, fact, claim, rec.context)) == Ok(rec.round2Verdicts[i])
    ensures rec.decision == FinalDecision(rec.round2Verdicts)
  {
    var replies1 := Answers(roster, ask, fact, claim, "");
    var context := ConfrontationContext(Transcript(roster, replies1));
    var replies2 := Answers(roster, ask, fact, claim, context);
    ParseAllSpec(replies1);
    ParseAllSpec(replies2);
    assert ParseAll(replies1).Ok? && ParseAll(replies2).Ok?;
    assert rec.round1Verdicts == ParseAll(replies1).value;
    assert rec.context == context && rec.round2Verdicts == ParseAll(replies2).value;
    assert rec.round2Outputs == replies2;
    forall i | 0 <= i < |roster|
      ensures ParseVerdict(AskAgent(ask, roster[i].1, fact, claim, "")) == Ok(rec.round1Verdicts[i])
    {
      assert replies1[i] == AskAgent(ask, roster[i].1, fact, claim, "");
    }
    forall i | 0 <= i < |roster|
      ensures ParseVerdict(AskAgent(ask, roster[i].1, fact, claim, rec.context)) == Ok(rec.round2Verdicts[i])
    {
      assert replies2[i] == AskAgent(ask, roster[i].1, fact, claim, rec.context);
    }
  }

  /** A deliberation fails exactly when some role's round-1 reply, or some role's
      reply to the confrontation, has a first verdict line without a colon. */
  lemma DeliberationFails(roster: Roster, ask: Oracle, fact: string, claim: string)
    ensures var replies1 := Answers(roster, ask, fact, claim, "");
      var replies2 := Answers(roster, ask, fact, claim, ConfrontationContext(Transcript(roster, replies1)));
      Deliberate(roster, ask, fact, claim).Err? <==>
        (exists i :: 0 <= i < |roster| && ParseVerdict(replies1[i]).Err?)
        || (exists i :: 0 <= i < |roster| && ParseVerdict(replies2[i]).Err?)
  {
    var replies1 := Answers(roster, ask, fact, claim, "");
    ParseAllSpec(replies1);
    ParseAllSpec(Answers(roster, ask, fact, claim, ConfrontationContext(Transcript(roster, replies1))));
  }

  /** Two round-2 votes for "Mutated" decide the case, whatever the other roles say. */
  lemma TwoMutatedVotesDecide(roster: Roster, ask: Oracle, fact: string, claim: string, rec: CaseRecord, i: nat, j: nat)
    requires Deliberate(roster, ask, fact, claim) == Ok(rec)
    requires i < j < |rec.round2Verdicts|
    requires rec.round2Verdicts[i] == Mutated && rec.round2Verdicts[j] == Mutated
    ensures rec.decision == Mutated
  {
    DeliberationRecord(roster, ask, fact, claim, rec);
    MutatedPairDecides(rec.round2Verdicts, i, j);
  }

  /** A single round-2 vote that is not "Faithful" keeps the case from being decided "Faithful". */
  lemma DissentBlocksFaithful(roster: Roster, ask: Oracle, fact: string, claim: string, rec: CaseRecord, i: nat)
    requires Deliberate(roster, ask, fact, claim) == Ok(rec)
    requires i < |rec.round2Verdicts| && rec.round2Verdicts[i] != Faithful
    ensures rec.decision != Faithful
  {
    DeliberationRecord(roster, ask, fact, claim, rec);
    FinalDecisionSpec(rec.round2Verdicts);
  }

  // ---------------------------------------------------------------------------
  // The per-case loop and the run
  // ---------------------------------------------------------------------------

  /** Round 1: each role, in roster order, asked without context; its reply is
      recorded under its name and parsed. */
  method RoundOne(roster: Roster, ask: Oracle, fact: string, claim: string)
    returns (round1Outputs: seq<(string, string)>, verdicts: Result<seq<string>>)
    ensures verdicts == ParseAll(Answers(roster, ask, fact, claim, ""))
    ensures verdicts.Ok? ==> round1Outputs == Transcript(roster, Answers(roster, ask, fact, claim, ""))
  {
    ghost var replies := Answers(roster, ask, fact, claim, "");
    round1Outputs := [];
    var parsed: seq<string> := [];
    var i := 0;
    while i < |roster|
      invariant 0 <= i <= |roster|
      invariant round1Outputs == Transcript(roster, replies)[..i]
      invariant ParseAll(replies[..i]) == Ok(parsed)
    {
      var output := AskAgent(ask, roster[i].1, fact, claim, "");
      TranscriptPrefix(roster, replies, i);
      round1Outputs := round1Outputs + [(roster[i].0, output)];
      var verdict := ParseVerdict(output);
      if verdict.Err? {
        ParseAllErr(replies, i);
        return round1Outputs, Err(verdict.error);
      }
      assert replies[..i + 1] == replies[..i] + [output];
      ParseAllSnoc(replies[..i], parsed, output, verdict.value);
      parsed := parsed + [verdict.value];
      i := i + 1;
    }
    assert replies[..i] == replies;
    assert Transcript(roster, replies)[..i] == Transcript(roster, replies);
    verdicts := Ok(parsed);
  }

  /** The confrontation context, one section appended per round-1 entry; the
      entries are keyed by distinct role names, as a dictionary's are. */
  method BuildContext(round1Outputs: seq<(string, string)>) returns (context: string)
    requires DistinctNames(round1Outputs)
    ensures context == ConfrontationContext(round1Outputs)
  {
    context := ConfrontationHeader;
    var k := 0;
    while k < |round1Outputs|
      invariant 0 <= k <= |round1Outputs|
      invariant context == ConfrontationHeader + Sections(round1Outputs[..k])
    {
      assert round1Outputs[..k + 1] == round1Outputs[..k] + [round1Outputs[k]];
      SectionsAppend(round1Outputs[..k], [round1Outputs[k]]);
      context := context + Section(round1Outputs[k].0, round1Outputs[k].1);
      k := k + 1;
    }
    assert round1Outputs[..k] == round1Outputs;
  }

  /** Round 2: each role, in roster order, asked again with the context attached. */
  method RoundTwo(roster: Roster, ask: Oracle, fact: string, claim: string, context: string)
    returns (round2Outputs: seq<string>, verdicts: Result<seq<string>>)
    ensures verdicts == ParseAll(Answers(roster, ask, fact, claim, context))
    ensures verdicts.Ok? ==> round2Outputs == Answers(roster, ask, fact, claim, context)
  {
    ghost var replies := Answers(roster, ask, fact, claim, context);
    round2Outputs := [];
    var parsed: seq<string> := [];
    var j := 0;
    while j < |roster|
      invariant 0 <= j <= |roster|
      invariant round2Outputs == replies[..j]
      invariant ParseAll(replies[..j]) == Ok(parsed)
    {
      var output := AskAgent(ask, roster[j].1, fact, claim, context);
      round2Outputs := round2Outputs + [output];
      var verdict := ParseVerdict(output);
      if verdict.Err? {
        ParseAllErr(replies, j);
        return round2Outputs, Err(verdict.error);
      }
      assert replies[..j + 1] == replies[..j] + [output];
      ParseAllSnoc(replies[..j], parsed, output, verdict.value);
      parsed := parsed + [verdict.value];
      j := j + 1;
    }
    assert replies[..j] == replies;
    verdicts := Ok(parsed);
  }

  /** One case: round 1, the confrontation context, round 2, the decision. */
  method DeliberateCase(roster: Roster, ask: Oracle, fact: string, claim: string) returns (r: Result<CaseRecord>)
    ensures r == Deliberate(roster, ask, fact, claim)
  {
    var round1Outputs, verdicts := RoundOne(roster, ask, fact, claim);
    if verdicts.Err? {
      return Err(verdicts.error);
    }
    var context := BuildContext(round1Outputs);
    var round2Outputs, round2Verdicts := RoundTwo(roster, ask, fact, claim, context);
    if round2Verdicts.Err? {
      return Err(round2Verdicts.error);
    }
    var decision := FinalDecision(round2Verdicts.value);
    r := Ok(CaseRecord(round1Outputs, verdicts.value, context, round2Outputs, round2Verdicts.value, decision));
  }

  /** A selected row of the dataset: its index label (only ever printed, as the
      case's heading), the internal fact and the external claim. */
  datatype Case = Case(id: int, fact: string, claim: string)

  /** The loop over the selected cases, in order, with the roles of `roster`. An
      IndexError ends the run: the cases before it are decided, none after it is. */
  method RunCases(roster: Roster, ask: Oracle, cases: seq<Case>) returns (records: seq<CaseRecord>, failure: Option<Error>)
    ensures |records| <= |cases|
    ensures forall n :: 0 <= n < |records| ==>
      Deliberate(roster, ask, cases[n].fact, cases[n].claim) == Ok(records[n])
    ensures failure.None? <==> |records| == |cases|
    ensures failure.Some? ==>
      Deliberate(roster, ask, cases[|records|].fact, cases[|records|].claim) == Err(failure.value)
  {
    records := [];
    var n := 0;
    while n < |cases|
      invariant 0 <= n <= |cases| && |records| == n
      invariant forall m :: 0 <= m < n ==>
        Deliberate(roster, ask, cases[m].fact, cases[m].claim) == Ok(records[m])
    {
      var outcome := DeliberateCase(roster, ask, cases[n].fact, cases[n].claim);
      if outcome.Err? {
        return records, Some(outcome.error);
      }
      records := records + [outcome.value];
      n := n + 1;
    }
    failure := None;
  }

  /** The jury's run: every selected case deliberated by the three agents. */
  method RunJury(ask: Oracle, cases: seq<Case>) returns (records: seq<CaseRecord>, failure: Option<Error>)
    ensures |records| <= |cases|
    ensures forall n :: 0 <= n < |records| ==>
      Deliberate(Agents, ask, cases[n].fact, cases[n].claim) == Ok(records[n])
    ensures failure.None? <==> |records| == |cases|
    ensures failure.Some? ==>
      Deliberate(Agents, ask, cases[|records|].fact, cases[|records|].claim) == Err(failure.value)
  {
    records, failure := RunCases(Agents, ask, cases);
  }
}
