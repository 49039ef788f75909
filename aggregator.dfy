/** `final_decision`: collapse the round-2 verdicts into one decision.
    Two or more "Mutated" votes decide "Mutated"; otherwise a unanimous
    "Faithful" (which the empty list is) decides "Faithful"; anything else
    is "Ambiguous". Verdicts are compared as exact strings. */
module Aggregator {

  const Mutated: string := "Mutated"
  const Faithful: string := "Faithful"
  const Ambiguous: string := "Ambiguous"

  /** The number of votes needed to decide "Mutated". */
  const MutationThreshold: nat := 2

  /** `votes.count(x)`. */
  function Count(votes: seq<string>, x: string): (n: nat)
    ensures n <= |votes|
  {
    if votes == [] then 0 else (if votes[0] == x then 1 else 0) + Count(votes[1..], x)
  }

  /** `final_decision(votes)`. */
  function FinalDecision(votes: seq<string>): (d: string)
    ensures d == Mutated || d == Faithful || d == Ambiguous
  {
    if Count(votes, Mutated) >= MutationThreshold then Mutated
    else if Count(votes, Faithful) == |votes| then Faithful
    else Ambiguous
  }

  /** Counting is multiplicity: `count` sees the votes as a multiset. */
  lemma {:induction false} CountIsMultiplicity(votes: seq<string>, x: string)
    ensures Count(votes, x) == multiset(votes)[x]
  {
    if votes != [] {
      assert votes == [votes[0]] + votes[1..];
      assert multiset(votes) == multiset([votes[0]]) + multiset(votes[1..]);
      CountIsMultiplicity(votes[1..], x);
    }
  }

  /** Every vote is `x` exactly when `x` is counted once per vote. */
  lemma {:induction false} CountAll(votes: seq<string>, x: string)
    ensures Count(votes, x) == |votes| <==> forall i :: 0 <= i < |votes| ==> votes[i] == x
  {
    if votes != [] {
      CountAll(votes[1..], x);
      if Count(votes, x) == |votes| {
        assert votes[0] == x;
        forall i | 0 <= i < |votes| ensures votes[i] == x {
          if i > 0 { assert votes[i] == votes[1..][i - 1]; }
        }
      }
    }
  }

  /** The decision rule, read as a specification:
      - "Mutated" exactly when at least two votes are "Mutated" (one never suffices);
      - "Faithful" exactly when every vote is "Faithful", the empty panel included;
      - "Ambiguous" in every other case: fewer than two "Mutated" votes and some
        vote that is not "Faithful" ("Unclear", empty, or anything unrecognised). */
  lemma FinalDecisionSpec(votes: seq<string>)
    ensures FinalDecision(votes) == Mutated <==> multiset(votes)[Mutated] >= 2
    ensures FinalDecision(votes) == Faithful <==> forall i :: 0 <= i < |votes| ==> votes[i] == Faithful
    ensures FinalDecision(votes) == Ambiguous <==>
      multiset(votes)[Mutated] < 2 && exists i :: 0 <= i < |votes| && votes[i] != Faithful
  {
    CountIsMultiplicity(votes, Mutated);
    CountAll(votes, Faithful);
    if forall i :: 0 <= i < |votes| ==> votes[i] == Faithful {
      CountIsMultiplicity(votes, Faithful);
      assert Mutated !in multiset(votes);
    }
  }

  /** Any two "Mutated" votes decide "Mutated". */
  lemma MutatedPairDecides(votes: seq<string>, i: nat, j: nat)
    requires i < j < |votes| && votes[i] == Mutated && votes[j] == Mutated
    ensures FinalDecision(votes) == Mutated
  {
    assert votes == votes[..i] + [votes[i]] + (votes[i + 1..j] + [votes[j]] + votes[j + 1..]);
    assert votes[i + 1..] == votes[i + 1..j] + [votes[j]] + votes[j + 1..];
    FinalDecisionSpec(votes);
  }

  /** The decision depends on the votes, not on the order the roles cast them. */
  lemma FinalDecisionPermutation(votes: seq<string>, shuffled: seq<string>)
    requires multiset(votes) == multiset(shuffled)
    ensures FinalDecision(votes) == FinalDecision(shuffled)
  {
    CountIsMultiplicity(votes, Mutated);
    CountIsMultiplicity(shuffled, Mutated);
    CountIsMultiplicity(votes, Faithful);
    CountIsMultiplicity(shuffled, Faithful);
    assert |votes| == |multiset(votes)| == |shuffled|;
  }

  /** The count over three votes, vote by vote. */
  lemma CountThree(a: string, b: string, c: string, x: string)
    ensures Count([a, b, c], x) == (if a == x then 1 else 0) + (if b == x then 1 else 0) + (if c == x then 1 else 0)
  {
    assert [a, b, c][1..] == [b, c] && [b, c][1..] == [c] && [c][1..] == [];
    assert Count([c], x) == if c == x then 1 else 0;
    assert Count([b, c], x) == (if b == x then 1 else 0) + Count([c], x);
  }

  /** The decision table of a three-role panel, where `other` is any verdict
      that is neither "Mutated" nor "Faithful" ("Unclear", say). */
  lemma ThreeRolePanel(other: string)
    requires other != Mutated && other != Faithful
    ensures FinalDecision([Mutated, Mutated, Faithful]) == Mutated
    ensures FinalDecision([Mutated, Mutated, other]) == Mutated
    ensures FinalDecision([Faithful, Faithful, Faithful]) == Faithful
    ensures FinalDecision([Faithful, other, Mutated]) == Ambiguous
    ensures FinalDecision([Mutated, other, other]) == Ambiguous
  {
    assert Mutated != Faithful by {
      assert |Mutated| != |Faithful|;
    }
    CountThree(Mutated, Mutated, Faithful, Mutated);
    CountThree(Mutated, Mutated, other, Mutated);
    CountThree(Faithful, Faithful, Faithful, Mutated);
    CountThree(Faithful, Faithful, Faithful, Faithful);
    CountThree(Faithful, other, Mutated, Mutated);
    CountThree(Faithful, other, Mutated, Faithful);
    CountThree(Mutated, other, other, Mutated);
    CountThree(Mutated, other, other, Faithful);
  }
}
