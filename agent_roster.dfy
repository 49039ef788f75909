/** `AGENTS`: the jury's roles, an insertion-ordered dictionary from role
    name to the instructions sent as that role's system prompt. The order
    fixes the order of every round and of the confrontation transcript. */
module AgentRoster {

  /** A role: its name and its instructions. */
  type Role = (string, string)

  /** Dictionary keys are distinct. */
  predicate DistinctNames(roles: seq<Role>) {
    forall i, j :: 0 <= i < j < |roles| ==> roles[i].0 != roles[j].0
  }

  /** An ordered dictionary of roles, as a sequence in insertion order. */
  type Roster = roles: seq<Role> | DistinctNames(roles) witness []

  const PedanticFactChecker: string := "Pedantic Fact-Checker"
  const ContextGuardian: string := "Context Guardian"
  const CommonSenseJudge: string := "Common-Sense Judge"

  // The instruction texts, character for character (each opens and ends with a
  // line break). The deliberation passes them through to the oracle unread.
  const PedanticInstructions: string :=
    "\nYou are a strict, pedantic fact-checker.\nYour job is to assess literal factual faithfulness.\n\nFocus on:\n- Exact numbers\n- Precise wording\n- Logical equivalence\n\nDo NOT consider whether simplification is reasonable.\n"
  const ContextInstructions: string :=
    "\nYou are a context-focused analyst.\nYour job is to identify missing qualifiers or scope shifts.\n\nFocus on:\n- Population, timeframe, geography\n- Correlation vs causation\n- What is omitted but important\n"
  const CommonSenseInstructions: string :=
    "\nYou represent an average, reasonable reader.\nYour job is to judge whether the external claim would mislead most people.\n\nFocus on:\n- Practical interpretation\n- Overall meaning\n- Reader takeaway\n"

  /** The jury's three roles, in the order they speak. */
  const Agents: Roster := [
    (PedanticFactChecker, PedanticInstructions),
    (ContextGuardian, ContextInstructions),
    (CommonSenseJudge, CommonSenseInstructions)
  ]

  /** The role names of a roster, in order. */
  function Names(roles: seq<Role>): (names: seq<string>)
    ensures |names| == |roles|
  {
    seq(|roles|, i requires 0 <= i < |roles| => roles[i].0)
  }

  /** The jury is three distinct roles in a fixed order. */
  lemma AgentsOrder()
    ensures Names(Agents) == [PedanticFactChecker, ContextGuardian, CommonSenseJudge]
    ensures forall i, j :: 0 <= i < j < |Names(Agents)| ==> Names(Agents)[i] != Names(Agents)[j]
  {
    assert DistinctNames(Agents);
  }
}
