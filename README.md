# FactTrace jury: a Dafny model of the deliberation core

FactTrace's jury decides whether an external claim faithfully represents an
internal fact. Three agent roles (a pedantic fact-checker, a context guardian
and a common-sense judge) each judge the pair in two rounds:

- In round 1, each role is asked without extra context.
- Every role's round-1 reply is then collected into one confrontation
  transcript.
- In round 2, each role is asked again with that transcript attached.

A verdict is pulled out of each free-form reply. The round-2 verdicts are
collapsed into one decision: "Mutated", "Faithful" or "Ambiguous".

The project models that core of `facttrace_jury.py`:

- `verdict_parser.dfy` models `parse_verdict`. It is the line scan, as
  recursive functions.
- `aggregator.dfy` models `final_decision`, as pure functions.
- `agent_roster.dfy` models `AGENTS`, the ordered roster of distinct roles.
- `deliberation.dfy` models the per-case loop and the run over the cases.
  They are methods with loops, proved against the function `Deliberate`.
  The chat-completion service is an oracle parameter:
  `Oracle = (system prompt, user message) -> reply`.
- `text.dfy` models the Python string operations these rely on:
  `splitlines`, `strip`, `lower`, `startswith` and the cut made by
  `split(":", 1)`.
- `outcomes.dfy` holds the `Option` and `Result` types.

`parse_verdict` raises `IndexError` on a first verdict line without a colon. The
model returns `Err(IndexError)` there. In the per-case loop this error ends
the run, as the uncaught exception does.

Behaviours of the code that the model keeps as they are:

- Parsing is not total: a first verdict line without a colon, such as
  `"Verdicts are below"`, raises `IndexError` (facttrace_jury.py:110). A raise
  in round 1 also aborts the case, even though the round-1 verdicts never feed
  the decision.
- A verdict can be the empty string: the line `"Verdict:"` gives `""`. Verdicts
  are arbitrary strings, not an enumeration.
- The "Mutated" threshold is the constant 2 (`Aggregator.MutationThreshold`),
  whatever the roster size (facttrace_jury.py:118).

## Model

| member | source | states |
|---|---|---|
| `Text.SplitJoinTerminated` | facttrace_jury.py:108 | `splitlines` round trip: a text made of lines, each ended by "\n", splits back into exactly those lines |
| `Text.SplitLinesBreak` | facttrace_jury.py:108 | a line without boundaries followed by any one boundary character (a "\r" only when no "\n" follows it) is split off as the first line, and the rest is split on its own |
| `Text.SplitLinesCrLf` | facttrace_jury.py:108 | a line without boundaries followed by "\r\n" is split off as the first line: the pair is a single boundary, with no empty line between, and the rest is split on its own |
| `Text.LineEnd` | facttrace_jury.py:108 | a line ends at the first line-boundary character, or at the end of the text |
| `Text.SplitLinesSingle` | facttrace_jury.py:108 | a non-empty text without line boundaries is exactly one line |
| `Text.SplitLines` | facttrace_jury.py:108 | `splitlines`: no line holds a boundary, and only the empty text has no lines; `SplitLinesBreak`, `SplitLinesCrLf` and `SplitJoinTerminated` say where it cuts |
| `Text.StripOf` | facttrace_jury.py:110 | `strip` removes exactly the surrounding whitespace: a trimmed text padded with any whitespace strips back to itself |
| `Text.Strip` | facttrace_jury.py:104 | `strip`: the result has no whitespace at either end and is no longer than the input; `StripOf` pins down exactly what is removed |
| `Text.StripIdempotent` | facttrace_jury.py:110 | stripping twice is stripping once |
| `Text.IndexOf` | facttrace_jury.py:110 | `split(":", 1)` cuts at the first colon: the index holds a colon, no colon comes before it, and there is none exactly when the line has no colon |
| `Text.Lower` | facttrace_jury.py:109 | `lower` maps each character on its own and keeps the length; ASCII letters only (see "## Left out") |
| `VerdictParser.IsVerdictLine` | facttrace_jury.py:109 | the line test, lower-casing the untrimmed line and testing for the prefix "verdict"; `VerdictLineIff` characterises it |
| `VerdictParser.AfterColon` | facttrace_jury.py:110 | `split(":", 1)[1].strip()` raises exactly when the line has no colon; otherwise its result has no surrounding whitespace |
| `VerdictParser.AfterColonOf` | facttrace_jury.py:110 | the verdict is the text after the FIRST colon with surrounding whitespace removed; later colons stay in it |
| `VerdictParser.ParseLines` | facttrace_jury.py:108-111 | the scan returns at the first verdict line; any verdict it returns, "Unclear" included, has no surrounding whitespace; `ParseLinesSpec` characterises it |
| `VerdictParser.ParseVerdict` | facttrace_jury.py:107-111 | `parse_verdict`: an empty reply is "Unclear", and any verdict has no surrounding whitespace; it is the scan over `SplitLines`, which `ParseLinesSpec` characterises |
| `VerdictParser.VerdictLineIff` | facttrace_jury.py:109 | a line matches exactly when each of its first seven characters is the matching letter of "verdict" in lower case or in capitals, mixed freely; fewer than seven characters never match |
| `VerdictParser.VerdictLineExtend` | facttrace_jury.py:109 | the test is on a prefix: a verdict line stays one whatever follows, so "Verdicts are below" matches |
| `VerdictParser.IndentedLineIsNotVerdictLine` | facttrace_jury.py:109 | a line that starts with whitespace never matches, because the test runs on the untrimmed line |
| `VerdictParser.ParseLinesSpec` | facttrace_jury.py:107-111 | with no verdict line the result is exactly "Unclear"; otherwise the first verdict line alone decides, and the parse raises exactly when that line has no colon |
| `VerdictParser.ParseFirstLine` | facttrace_jury.py:108-110 | when the first line is a verdict line, later lines are ignored, including a later well-formed verdict line |
| `VerdictParser.ParseRequestedFormat` | facttrace_jury.py:64-72 | a reply whose first line is "Verdict: v", followed by "\n" and any further lines, parses back to exactly v |
| `VerdictParser.ParseRequestedLine` | facttrace_jury.py:64-72 | a one-line reply "Verdict: v", with nothing after it, parses back to exactly v |
| `Aggregator.CountIsMultiplicity` | facttrace_jury.py:115-116 | `count` is the multiplicity of the value in the votes |
| `Aggregator.CountAll` | facttrace_jury.py:120 | `count(x) == len(votes)` exactly when every vote is x |
| `Aggregator.Count` | facttrace_jury.py:115-116 | `votes.count(x)` never exceeds the number of votes; `CountIsMultiplicity` and `CountAll` say what it counts |
| `Aggregator.FinalDecision` | facttrace_jury.py:114-122 | the decision is always one of "Mutated", "Faithful" or "Ambiguous" |
| `Aggregator.FinalDecisionSpec` | facttrace_jury.py:114-122 | "Mutated" iff at least two votes are "Mutated"; "Faithful" iff every vote is "Faithful", including the empty list; "Ambiguous" iff fewer than two votes are "Mutated" and some vote is not "Faithful" |
| `Aggregator.MutatedPairDecides` | facttrace_jury.py:118-119 | any two "Mutated" votes decide "Mutated", whatever the other votes are |
| `Aggregator.FinalDecisionPermutation` | facttrace_jury.py:114-122 | the decision does not depend on the order of the votes |
| `Aggregator.ThreeRolePanel` | facttrace_jury.py:114-122 | the decision table of a three-role panel, for any third verdict `other` that is neither "Mutated" nor "Faithful" (such as "Unclear"): two "Mutated" decide "Mutated" whatever the third vote; three "Faithful" decide "Faithful"; a single "Mutated" beside `other` is "Ambiguous" |
| `AgentRoster.AgentsOrder` | facttrace_jury.py:29-61 | the roster is three distinct roles in a fixed order |
| `Deliberation.AskAgent` | facttrace_jury.py:79-104 | one request, with the role's instructions as the system prompt; the reply comes back with no surrounding whitespace |
| `Deliberation.UserMessage` | facttrace_jury.py:84-94 | the user message: fact, claim, extra context and `OutputFormat` (the reply shape of lines 64-72), laid out as the f-string does; the request `AskAgent` sends |
| `Deliberation.Section` | facttrace_jury.py:180 | one role's section is its name and its reply plus exactly five framing characters |
| `Deliberation.Sections` | facttrace_jury.py:179-180 | the sections of the entries, in order; `SectionsAppend` and `SectionsLength` characterise it |
| `Deliberation.ConfrontationContext` | facttrace_jury.py:178-180 | the context opens with the header "Other agents said:"; `ContextSectionAt` places every entry's section after it |
| `Deliberation.SectionsAppend` | facttrace_jury.py:178-180 | building the transcript section by section is the same as building it over the whole list of entries |
| `Deliberation.ContextSectionAt` | facttrace_jury.py:178-180 | the context is the header followed by one labelled section per round-1 entry, in roster order; entry k's section comes after those of entries 0..k-1 |
| `Deliberation.SectionsLength` | facttrace_jury.py:180 | each section adds its name, its reply and five framing characters, and nothing else |
| `Deliberation.ParseAllSpec` | facttrace_jury.py:166-170 | a round's verdicts are one per reply, in order, each the parse of that reply; the round raises iff some reply's parse raises |
| `Deliberation.ParseAll` | facttrace_jury.py:169-170 | a round's verdicts, one per reply; `ParseAllSpec` states which |
| `Deliberation.Answers` | facttrace_jury.py:166-167 | the replies of a round, one per role, in roster order, all with the same extra context |
| `Deliberation.Transcript` | facttrace_jury.py:163-168 | `round1_outputs`: one (name, reply) entry per role, in insertion order, with names as distinct as the roster's |
| `Deliberation.RoundOne` | facttrace_jury.py:163-170 | round 1 asks each role once, without context, in roster order; it records (name, reply) entries and the verdicts, or the IndexError |
| `Deliberation.BuildContext` | facttrace_jury.py:178-180 | the `+=` loop builds exactly the confrontation context of the round-1 entries |
| `Deliberation.RoundTwo` | facttrace_jury.py:182-194 | round 2 asks each role once, with the context, in roster order; it returns the replies and their verdicts, or the IndexError |
| `Deliberation.DeliberateCase` | facttrace_jury.py:160-200 | one case's loop computes exactly `Deliberate`: both rounds, the transcript and the decision, or the IndexError |
| `Deliberation.Deliberate` | facttrace_jury.py:160-200 | the reference definition of one case, which `DeliberateCase` is proved to compute; `DeliberationRecord` and `DeliberationFails` characterise it |
| `Deliberation.DeliberationRecord` | facttrace_jury.py:160-200 | every field of a completed case: the round-1 entries are (name, reply) per role, in order; the round-1 verdicts are the parses of those replies; the context includes every round-1 reply, each role's own too; the round-2 replies are per role, in order, each asked with the context; the round-2 verdicts are their parses; the decision is `final_decision` of the round-2 verdicts alone |
| `Deliberation.DeliberationFails` | facttrace_jury.py:166-194 | a case fails iff some round-1 reply, or some round-2 reply, has a first verdict line without a colon |
| `Deliberation.TwoMutatedVotesDecide` | facttrace_jury.py:200 | two round-2 "Mutated" votes decide the case "Mutated" |
| `Deliberation.DissentBlocksFaithful` | facttrace_jury.py:200 | one round-2 vote other than "Faithful" keeps the case from being decided "Faithful" |
| `Deliberation.RunCases` | facttrace_jury.py:146-204 | the loop over the cases, in order; the run stops at the first IndexError, with every earlier case decided and no later case attempted |
| `Deliberation.RunJury` | facttrace_jury.py:146-204 | the run over the cases is `RunCases` with the roles of `AGENTS` (`AgentRoster.Agents`, iterated at lines 166 and 184, whose names and order `AgentsOrder` states) for every case |

## Left out

- Environment and client setup at facttrace_jury.py:11-14: the API key, the
  client object and the model name. This is configuration, not logic.
- The network call of `ask_agent` at facttrace_jury.py:98-102 and the read
  of `response.choices[0].message.content` at facttrace_jury.py:104. Together
  they are the `Oracle` parameter. The `.strip()` on line 104 is modelled in
  `AskAgent`. The model builds the request the way the source does, with the
  instructions as system prompt and the user message `UserMessage`. An empty
  `choices` list or a `None` content, both of which raise at line 104, count
  as service failures: the model's oracle always returns a string.
- Deliberation.AskAgent: a pure function of the request. The real service
  samples at temperature 0.3, so two identical requests may get different
  replies. The model fixes one reply per request, which makes two runs of a
  case with the same oracle produce the same record.
- The `role` argument of `ask_agent` is not passed to the oracle: the source
  never uses it in the request. `extra_context or ""` makes `None` and `""`
  the same request, so round 1 passes `""`.
- CSV loading and row selection (`read_csv`, `dropna`, `iloc[[3, 7, 10, 12, 14]]`)
  at facttrace_jury.py:129-137. This is I/O and library behaviour. `RunJury`
  takes the already selected cases.
- All printing and `textwrap.indent` formatting. This is console output only.
  The record keeps the round-2 replies that the source prints.
- Exceptions from the API, such as network failures or rejected requests.
  The source neither catches nor retries them. The model has no failing oracle.
- `str.lower` is modelled over ASCII letters only. For the "verdict" prefix
  test this matches Python's Unicode lowering. The only non-ASCII characters
  whose lowercase begins with an ASCII letter are KELVIN SIGN, which becomes
  "k", and LATIN CAPITAL LETTER I WITH DOT ABOVE, which becomes "i" plus a
  combining dot. Neither can complete the prefix "verdict".
- `str.splitlines` and `str.strip` use Python's full sets of line boundaries
  and whitespace characters. Python's `str` holds code points and Dafny's
  `char` holds Unicode scalar values, so lone surrogates are not modelled.
