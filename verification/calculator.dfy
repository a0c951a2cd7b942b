/** `CompatibilityCalculator.calculate_compatibility_score`: the seven-role
    compatibility total, three pair lookups and four triple lookups. */
module Calculator {
  import opened GroupIndex
  import opened Compatibility

  /** The seven roles of the formula: the target, its two parents, and two
      grandparents per parent. */
  datatype SevenRoles = SevenRoles(
    target: string,
    parent1: string, parent2: string,
    grandparent1: string, grandparent2: string,
    grandparent3: string, grandparent4: string)

  /** The documented formula: (t,p1) + (t,p2) + (p1,p2) + (t,p1,g1) +
      (t,p1,g2) + (t,p2,g3) + (t,p2,g4), each term a lookup that defaults
      to 0. */
  function Total(data: CompatibilityData, r: SevenRoles): int
  {
    GetPairCompatibility(data, r.target, r.parent1)
    + GetPairCompatibility(data, r.target, r.parent2)
    + GetPairCompatibility(data, r.parent1, r.parent2)
    + GetTripleCompatibility(data, r.target, r.parent1, r.grandparent1)
    + GetTripleCompatibility(data, r.target, r.parent1, r.grandparent2)
    + GetTripleCompatibility(data, r.target, r.parent2, r.grandparent3)
    + GetTripleCompatibility(data, r.target, r.parent2, r.grandparent4)
  }

  /** The `pair_scores` list the method walks. */
  function PairTerms(r: SevenRoles): seq<PairKey>
  {
    [(r.target, r.parent1), (r.target, r.parent2), (r.parent1, r.parent2)]
  }

  /** The `triple_scores` list the method walks. */
  function TripleTerms(r: SevenRoles): seq<TripleKey>
  {
    [(r.target, r.parent1, r.grandparent1), (r.target, r.parent1, r.grandparent2),
     (r.target, r.parent2, r.grandparent3), (r.target, r.parent2, r.grandparent4)]
  }

  /** The looked-up scores of a list of pairs, added up. */
  function SumPairs(data: CompatibilityData, ps: seq<PairKey>): int
  {
    if ps == [] then 0
    else SumPairs(data, ps[..|ps| - 1]) + GetPairCompatibility(data, ps[|ps| - 1].0, ps[|ps| - 1].1)
  }

  /** The looked-up scores of a list of triples, added up. */
  function SumTriples(data: CompatibilityData, ts: seq<TripleKey>): int
  {
    if ts == [] then 0
    else
      var t := ts[|ts| - 1];
      SumTriples(data, ts[..|ts| - 1]) + GetTripleCompatibility(data, t.0, t.1, t.2)
  }

  /** The two lists together make up the formula. */
  lemma TermsMakeTotal(data: CompatibilityData, r: SevenRoles)
    ensures SumPairs(data, PairTerms(r)) + SumTriples(data, TripleTerms(r)) == Total(data, r)
  {
    var ps := PairTerms(r);
    var ts := TripleTerms(r);
    assert ps[..3] == ps && ps[..3][..2] == ps[..2] && ps[..2][..1] == ps[..1] && ps[..1][..0] == [];
    assert SumPairs(data, ps[..1]) == GetPairCompatibility(data, r.target, r.parent1);
    assert SumPairs(data, ps[..2]) == SumPairs(data, ps[..1]) + GetPairCompatibility(data, r.target, r.parent2);
    assert ts[..4] == ts && ts[..4][..3] == ts[..3] && ts[..3][..2] == ts[..2];
    assert ts[..2][..1] == ts[..1] && ts[..1][..0] == [];
    assert SumTriples(data, ts[..1]) == GetTripleCompatibility(data, r.target, r.parent1, r.grandparent1);
    assert SumTriples(data, ts[..2]) == SumTriples(data, ts[..1])
                                         + GetTripleCompatibility(data, r.target, r.parent1, r.grandparent2);
    assert SumTriples(data, ts[..3]) == SumTriples(data, ts[..2])
                                         + GetTripleCompatibility(data, r.target, r.parent2, r.grandparent3);
  }

  /** `calculate_compatibility_score`: accumulates the three pair lookups,
      then the four triple lookups. `verbose` only selects printing, so the
      total does not depend on it. */
  method CalculateCompatibilityScore(data: CompatibilityData, r: SevenRoles, verbose: bool)
    returns (totalScore: int)
    ensures totalScore == Total(data, r)
  {
    totalScore := 0;
    var pairScores := PairTerms(r);
    for i := 0 to |pairScores|
      invariant totalScore == SumPairs(data, pairScores[..i])
    {
      var (uma1, uma2) := pairScores[i];
      var score := GetPairCompatibility(data, uma1, uma2);
      assert pairScores[..i + 1][..i] == pairScores[..i];
      totalScore := totalScore + score;
    }
    assert pairScores[..|pairScores|] == pairScores;
    var tripleScores := TripleTerms(r);
    for i := 0 to |tripleScores|
      invariant totalScore == SumPairs(data, pairScores) + SumTriples(data, tripleScores[..i])
    {
      var (uma1, uma2, uma3) := tripleScores[i];
      var score := GetTripleCompatibility(data, uma1, uma2, uma3);
      assert tripleScores[..i + 1][..i] == tripleScores[..i];
      totalScore := totalScore + score;
    }
    assert tripleScores[..|tripleScores|] == tripleScores;
    TermsMakeTotal(data, r);
  }

  /** A pair score as the tables give it: the groups shared by two distinct
      known entities, 0 otherwise. */
  function PairTerm(data: CompatibilityData, a: string, b: string): int
  {
    if a != b && a in data.allUmas && b in data.allUmas then PairScoreOf(data.rows, data.umaToGroups, a, b) else 0
  }

  /** A triple score as the tables give it. */
  function TripleTerm(data: CompatibilityData, a: string, b: string, c: string): int
  {
    if a != b && a != c && b != c && a in data.allUmas && b in data.allUmas && c in data.allUmas
    then TripleScoreOf(data.rows, data.umaToGroups, a, b, c) else 0
  }

  /** With tables built from group rows, the total is the formula over the
      group scores themselves: every term is the sum of the groups its
      entities share, or 0 for a repeated or unknown entity. */
  lemma TotalFromGroups(data: CompatibilityData, r: SevenRoles)
    requires Consistent(data)
    ensures Total(data, r) ==
              PairTerm(data, r.target, r.parent1) + PairTerm(data, r.target, r.parent2)
              + PairTerm(data, r.parent1, r.parent2)
              + TripleTerm(data, r.target, r.parent1, r.grandparent1)
              + TripleTerm(data, r.target, r.parent1, r.grandparent2)
              + TripleTerm(data, r.target, r.parent2, r.grandparent3)
              + TripleTerm(data, r.target, r.parent2, r.grandparent4)
  {
    PairLookup(data, r.target, r.parent1);
    PairLookup(data, r.target, r.parent2);
    PairLookup(data, r.parent1, r.parent2);
    TripleLookup(data, r.target, r.parent1, r.grandparent1);
    TripleLookup(data, r.target, r.parent1, r.grandparent2);
    TripleLookup(data, r.target, r.parent2, r.grandparent3);
    TripleLookup(data, r.target, r.parent2, r.grandparent4);
  }

  /** Swapping the two grandparents of one parent leaves the total
      unchanged. */
  lemma GrandparentSwap(data: CompatibilityData, r: SevenRoles)
    ensures Total(data, r.(grandparent1 := r.grandparent2, grandparent2 := r.grandparent1)) == Total(data, r)
    ensures Total(data, r.(grandparent3 := r.grandparent4, grandparent4 := r.grandparent3)) == Total(data, r)
  {
  }

  /** Swapping the two parents together with their grandparents leaves the
      total of tables built from group rows unchanged: the parent pair is
      looked up in the other order, which the symmetric pair table answers
      the same way. */
  lemma ParentSwap(data: CompatibilityData, r: SevenRoles)
    requires Consistent(data)
    ensures Total(data, SevenRoles(r.target, r.parent2, r.parent1,
                                   r.grandparent3, r.grandparent4, r.grandparent1, r.grandparent2))
            == Total(data, r)
  {
    PairLookup(data, r.parent1, r.parent2);
  }

  /** An unknown target contributes nothing: every term it takes part in
      is an absent key and counts 0, which leaves only the parents' pair. */
  lemma UnknownTargetScoresParentsOnly(data: CompatibilityData, r: SevenRoles)
    requires Consistent(data)
    requires r.target !in data.allUmas
    ensures Total(data, r) == GetPairCompatibility(data, r.parent1, r.parent2)
  {
    TotalFromGroups(data, r);
    PairLookup(data, r.parent1, r.parent2);
  }
}
