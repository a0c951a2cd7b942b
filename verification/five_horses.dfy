/** `FiveHorsesCalculator`: the exhaustive search over five-role line-ups.
    A line-up fixes `parent` and picks four other entities, as a
    4-combination of the remaining universe, for grandparent1,
    grandparent2, chromo1 and chromo2; it is scored by the seven-role
    formula through a fixed slot mapping. */
module FiveHorses {
  import opened Wrappers
  import opened Combinatorics
  import opened Compatibility
  import opened Calculator
  import opened TopN
  import opened BestSoFar

  /** The combination dictionary of a five-role line-up. */
  datatype FiveRoles = FiveRoles(
    parent: string,
    grandparent1: string, grandparent2: string,
    chromo1: string, chromo2: string)

  /** The slot mapping onto the seven roles: parent is the target,
      grandparent1 fills parent1 and grandparent4, grandparent2 fills
      parent2, chromo1 fills grandparent1, chromo2 fills grandparent2 and
      grandparent3. */
  function SevenOf(f: FiveRoles): SevenRoles
  {
    SevenRoles(f.parent, f.grandparent1, f.grandparent2, f.chromo1, f.chromo2, f.chromo2, f.grandparent1)
  }

  /** The score of a line-up. */
  function FiveScore(data: CompatibilityData, f: FiveRoles): int
  {
    Total(data, SevenOf(f))
  }

  /** Why a search or a single evaluation is refused (the `ValueError`s). */
  datatype SearchError = UnknownUma(name: string) | TooFewUmas(available: nat) | DuplicateUmas

  /** The calculator: the data and `list(compatibility_data.get_all_umas())`. */
  datatype FiveHorsesCalculator = FiveHorsesCalculator(data: CompatibilityData, allUmas: seq<string>)

  /** `FiveHorsesCalculator.__init__`: lists the entities of the data once,
      in an order the model leaves open. */
  method NewFiveHorsesCalculator(data: CompatibilityData) returns (calculator: FiveHorsesCalculator)
    ensures calculator.data == data
    ensures Distinct(calculator.allUmas) && forall u :: u in calculator.allUmas <==> u in data.allUmas
  {
    var umas := ListOf(data.allUmas);
    calculator := FiveHorsesCalculator(data, umas);
  }

  // ---------------------------------------------------------------------
  // Candidates

  /** `[uma for uma in all_umas if uma != parent]`. */
  function Others(universe: seq<string>, parent: string): (r: seq<string>)
    ensures forall u :: u in r <==> u in universe && u != parent
    ensures parent !in universe ==> r == universe
    ensures Distinct(universe) ==> Distinct(r)
    ensures Distinct(universe) && parent in universe ==> |r| == |universe| - 1
  {
    if universe == [] then []
    else
      var rest := Others(universe[1..], parent);
      assert Distinct(universe) ==> Distinct(universe[1..]) && universe[0] !in universe[1..];
      assert universe == [universe[0]] + universe[1..];
      if universe[0] != parent then [universe[0]] + rest else rest
  }

  /** Every sequence in `cs` has four elements. */
  predicate Fours(cs: seq<seq<string>>)
  {
    forall c :: c in cs ==> |c| == 4
  }

  /** `grandparent1, grandparent2, chromo1, chromo2 = four_horses`. */
  function RolesOf(parent: string, c: seq<string>): FiveRoles
    requires |c| == 4
  {
    FiveRoles(parent, c[0], c[1], c[2], c[3])
  }

  /** Every candidate with its score, in candidate order. */
  function Scored(data: CompatibilityData, parent: string, cs: seq<seq<string>>): (r: seq<Ranked<FiveRoles>>)
    requires Fours(cs)
    ensures |r| == |cs|
    ensures forall i :: 0 <= i < |cs| ==>
              r[i] == Ranked(RolesOf(parent, cs[i]), FiveScore(data, RolesOf(parent, cs[i])))
  {
    seq(|cs|, i requires 0 <= i < |cs| => Ranked(RolesOf(parent, cs[i]), FiveScore(data, RolesOf(parent, cs[i]))))
  }

  /** The candidates of a search: `list(combinations(other_umas, 4))`. */
  function Candidates(calculator: FiveHorsesCalculator, parent: string): seq<seq<string>>
  {
    Combinations(Others(calculator.allUmas, parent), 4)
  }

  /** Every candidate has four entities. */
  lemma CandidatesAreFours(s: seq<string>)
    ensures Fours(Combinations(s, 4))
  {
    forall c | c in Combinations(s, 4) ensures |c| == 4 {
      CombinationElements(s, 4, c);
    }
  }

  /** The candidates are exactly the four-element selections, in order, of
      the entities other than `parent`; there are C(U - 1, 4) of them, and
      each one fills five distinct roles with entities of the universe. */
  lemma CandidatesExactly(calculator: FiveHorsesCalculator, parent: string, c: seq<string>)
    requires Distinct(calculator.allUmas) && parent in calculator.allUmas
    ensures |Candidates(calculator, parent)| == Binom(|calculator.allUmas| - 1, 4)
    ensures c in Candidates(calculator, parent) <==> |c| == 4 && IsSubsequence(c, Others(calculator.allUmas, parent))
    ensures c in Candidates(calculator, parent) ==>
              var f := RolesOf(parent, c);
              && (forall h :: h in Horses(f) ==> h in calculator.allUmas)
              && Distinct(Horses(f))
  {
    var others := Others(calculator.allUmas, parent);
    CombinationsCount(others, 4);
    CombinationsMembership(others, 4, c);
    if c in Candidates(calculator, parent) {
      CombinationElements(others, 4, c);
      CandidateHorses(calculator, parent, c);
    }
  }

  /** A candidate together with `parent` names five distinct entities of
      the universe. */
  lemma CandidateHorses(calculator: FiveHorsesCalculator, parent: string, c: seq<string>)
    requires Distinct(calculator.allUmas) && parent in calculator.allUmas
    requires |c| == 4 && c in Combinations(Others(calculator.allUmas, parent), 4)
    ensures var f := RolesOf(parent, c);
            && (forall h :: h in Horses(f) ==> h in calculator.allUmas)
            && Distinct(Horses(f))
  {
    var others := Others(calculator.allUmas, parent);
    CombinationElements(others, 4, c);
    var f := RolesOf(parent, c);
    assert Horses(f) == [parent] + c;
    forall i, j | 0 <= i < j < 5 ensures Horses(f)[i] != Horses(f)[j] {
      if i == 0 {
        assert Horses(f)[j] == c[j - 1] && c[j - 1] in others;
      } else {
        assert Horses(f)[i] == c[i - 1] && Horses(f)[j] == c[j - 1];
      }
    }
  }

  // ---------------------------------------------------------------------
  // calculate_best_combination

  /** `calculate_best_combination`: validates `parent`, then walks every
      candidate in order, keeping the first one whose score is strictly
      greater than the best so far (which starts at -1). */
  method CalculateBestCombination(calculator: FiveHorsesCalculator, parent: string)
    returns (r: Result<Best<FiveRoles>, SearchError>)
    requires Distinct(calculator.allUmas)
    ensures parent !in calculator.allUmas ==> r == Failure(UnknownUma(parent))
    ensures parent in calculator.allUmas && |calculator.allUmas| < 5 ==> r == Failure(TooFewUmas(|calculator.allUmas| - 1))
    ensures parent in calculator.allUmas && |calculator.allUmas| >= 5 ==>
              Fours(Candidates(calculator, parent))
              && r == Success(RunningBest(Scored(calculator.data, parent, Candidates(calculator, parent))))
  {
    if parent !in calculator.allUmas {
      return Failure(UnknownUma(parent));
    }
    var otherUmas := Others(calculator.allUmas, parent);
    if |otherUmas| < 4 {
      return Failure(TooFewUmas(|otherUmas|));
    }
    var candidates := Combinations(otherUmas, 4);
    CandidatesAreFours(otherUmas);
    ghost var scored := Scored(calculator.data, parent, candidates);
    var best: Best<FiveRoles> := Start();
    for i := 0 to |candidates|
      invariant best == RunningBest(scored[..i])
    {
      var f := RolesOf(parent, candidates[i]);
      var score := CalculateCompatibilityScore(calculator.data, SevenOf(f), false);
      assert scored[..i + 1][..i] == scored[..i];
      if score > best.score {
        best := Best(Some(f), score);
      }
    }
    assert scored[..|candidates|] == scored;
    return Success(best);
  }

  // ---------------------------------------------------------------------
  // calculate_specific_combination

  /** `[parent, grandparent1, grandparent2, chromo1, chromo2]`. */
  function Horses(f: FiveRoles): seq<string>
  {
    [f.parent, f.grandparent1, f.grandparent2, f.chromo1, f.chromo2]
  }

  /** `calculate_specific_combination`: the first of the five (in role
      order) that is not a known entity is reported, then a repeated
      entity, and otherwise the line-up's score. */
  method CalculateSpecificCombination(calculator: FiveHorsesCalculator, f: FiveRoles)
    returns (r: Result<int, SearchError>)
    ensures (exists k :: 0 <= k < 5 && Horses(f)[k] !in calculator.allUmas) ==>
              exists k :: 0 <= k < 5 && r == Failure(UnknownUma(Horses(f)[k])) && Horses(f)[k] !in calculator.allUmas
                          && forall j :: 0 <= j < k ==> Horses(f)[j] in calculator.allUmas
    ensures (forall h :: h in Horses(f) ==> h in calculator.allUmas) && !Distinct(Horses(f)) ==>
              r == Failure(DuplicateUmas)
    ensures (forall h :: h in Horses(f) ==> h in calculator.allUmas) && Distinct(Horses(f)) ==>
              r == Success(FiveScore(calculator.data, f))
  {
    var horses := Horses(f);
    for k := 0 to 5
      invariant forall j :: 0 <= j < k ==> horses[j] in calculator.allUmas
    {
      if horses[k] !in calculator.allUmas {
        return Failure(UnknownUma(horses[k]));
      }
    }
    if !Distinct(horses) {
      return Failure(DuplicateUmas);
    }
    var score := CalculateCompatibilityScore(calculator.data, SevenOf(f), true);
    return Success(score);
  }

  // ---------------------------------------------------------------------
  // process_five_horses_chunk

  /** The dictionary a chunk worker returns: its best, its top list and the
      chunk itself. */
  datatype ChunkResult = ChunkResult(best: Best<FiveRoles>, top: seq<Ranked<FiveRoles>>, chunk: seq<seq<string>>)

  /** What a chunk worker promises about its result. */
  ghost predicate ChunkResultFor(data: CompatibilityData, parent: string, chunk: seq<seq<string>>, topN: nat,
                                 res: ChunkResult)
    requires Fours(chunk)
  {
    var scored := Scored(data, parent, chunk);
    && res.best == RunningBest(scored)
    && IsTop(Scores(res.top), Scores(scored), topN)
    && NonIncreasing(res.top)
    && (forall x :: x in res.top ==> x in scored)
    && res.chunk == chunk
  }

  /** `calculate_compatibility_score` on the seven roles a line-up fills. */
  method ScoreLineUp(data: CompatibilityData, f: FiveRoles) returns (score: int)
    ensures score == FiveScore(data, f)
  {
    score := CalculateCompatibilityScore(data, SevenOf(f), false);
  }

  /** A prefix one element longer. */
  lemma TakeOneMore<T>(s: seq<T>, i: nat)
    requires i < |s|
    ensures s[..i + 1] == s[..i] + [s[i]] && s[..i + 1][..i] == s[..i]
  {
  }

  /** The loop of `process_five_horses_chunk`: scores every line-up of the
      chunk in order, keeping the running best and offering each pair to a
      fresh bounded min-heap of `topN` entries. */
  method ScoreChunk(data: CompatibilityData, parent: string, chunk: seq<seq<string>>, topN: nat)
    returns (best: Best<FiveRoles>, minHeap: BoundedHeap<FiveRoles>)
    requires topN >= 1 && Fours(chunk)
    ensures fresh(minHeap) && minHeap.Valid() && minHeap.capacity == topN
    ensures minHeap.offered == Scored(data, parent, chunk)
    ensures best == RunningBest(Scored(data, parent, chunk))
  {
    ghost var scored := Scored(data, parent, chunk);
    best := Start();
    minHeap := new BoundedHeap<FiveRoles>(topN);
    for i := 0 to |chunk|
      invariant best == RunningBest(scored[..i])
      invariant minHeap.Valid() && minHeap.capacity == topN
      invariant minHeap.offered == scored[..i]
    {
      var f := RolesOf(parent, chunk[i]);
      TakeOneMore(scored, i);
      RunningBestStep(scored, i);
      best := ScoreOne(data, f, best, minHeap);
    }
    assert scored[..|chunk|] == scored;
  }

  /** One pass of that loop: scores a line-up, keeps it as the best when
      its score is strictly greater, and offers it to the heap. */
  method ScoreOne(data: CompatibilityData, f: FiveRoles, best: Best<FiveRoles>, minHeap: BoundedHeap<FiveRoles>)
    returns (newBest: Best<FiveRoles>)
    requires minHeap.Valid()
    modifies minHeap
    ensures newBest == Step(best, Ranked(f, FiveScore(data, f)))
    ensures minHeap.Valid()
    ensures minHeap.offered == old(minHeap.offered) + [Ranked(f, FiveScore(data, f))]
  {
    var score := ScoreLineUp(data, f);
    newBest := best;
    if score > best.score {
      newBest := Best(Some(f), score);
    }
    minHeap.Offer(f, score);
  }

  /** `process_five_horses_chunk`: scores every line-up of the chunk,
      keeping the running best and a bounded min-heap of the `top_n` best,
      then sorts the heap by descending score. */
  method ProcessFiveHorsesChunk(data: CompatibilityData, parent: string, chunk: seq<seq<string>>, topN: nat)
    returns (result: ChunkResult)
    requires topN >= 1 && Fours(chunk)
    ensures result.best == RunningBest(Scored(data, parent, chunk))
    ensures IsTop(Scores(result.top), Scores(Scored(data, parent, chunk)), topN)
    ensures NonIncreasing(result.top)
    ensures forall x :: x in result.top ==> x in Scored(data, parent, chunk)
    ensures multiset(result.top) <= multiset(Scored(data, parent, chunk))
    ensures result.chunk == chunk
  {
    var best, minHeap := ScoreChunk(data, parent, chunk, topN);
    var contents := minHeap.Contents();
    var topResults := SortDescending(contents);
    SortedTop(contents, minHeap.offered, topN);
    result := ChunkResult(best, topResults, chunk);
  }

  // ---------------------------------------------------------------------
  // get_top_combinations

  /** Every chunk of a list of four-element candidates holds four-element
      candidates. */
  lemma ChunksOfFours(chunks: seq<seq<seq<string>>>)
    requires Fours(Flatten(chunks))
    ensures forall q :: 0 <= q < |chunks| ==> Fours(chunks[q])
  {
    forall q, c | 0 <= q < |chunks| && c in chunks[q] ensures |c| == 4 {
      FlattenMembership(chunks, c);
    }
  }

  /** The pool's bookkeeping for results that arrive in any order: every
      chunk is either pending or has arrived, and none arrives twice. */
  ghost predicate Delivery(n: nat, pending: set<int>, arrived: seq<nat>)
  {
    && Progress(n, pending, arrived)
    && Distinct(arrived)
    && (forall t :: 0 <= t < |arrived| ==> arrived[t] !in pending)
  }

  lemma DeliveryStep(n: nat, pending: set<int>, arrived: seq<nat>, q: int)
    requires Delivery(n, pending, arrived) && q in pending
    ensures 0 <= q < n && Delivery(n, pending - {q}, arrived + [q])
  {
    ProgressStep(n, pending, arrived, q);
  }

  /** Each top list received so far is the top of the chunk it came from,
      made of that chunk's scored line-ups, each at most once per
      occurrence in the chunk. */
  ghost predicate Received(data: CompatibilityData, parent: string, chunks: seq<seq<seq<string>>>, topN: nat,
                           arrived: seq<nat>, received: seq<seq<Ranked<FiveRoles>>>)
  {
    && |received| == |arrived|
    && forall k :: 0 <= k < |received| ==>
         && arrived[k] < |chunks|
         && Fours(chunks[arrived[k]])
         && IsTop(Scores(received[k]), Scores(Scored(data, parent, chunks[arrived[k]])), topN)
         && multiset(received[k]) <= multiset(Scored(data, parent, chunks[arrived[k]]))
  }

  lemma ReceivedStep(data: CompatibilityData, parent: string, chunks: seq<seq<seq<string>>>, topN: nat,
                     arrived: seq<nat>, received: seq<seq<Ranked<FiveRoles>>>, q: nat, res: ChunkResult)
    requires Received(data, parent, chunks, topN, arrived, received)
    requires q < |chunks| && Fours(chunks[q])
    requires IsTop(Scores(res.top), Scores(Scored(data, parent, chunks[q])), topN)
    requires multiset(res.top) <= multiset(Scored(data, parent, chunks[q]))
    ensures Received(data, parent, chunks, topN, arrived + [q], received + [res.top])
  {
  }

  /** The score of every chunk, in chunk order. */
  function ScoredChunks(data: CompatibilityData, parent: string, chunks: seq<seq<seq<string>>>)
    : (r: seq<seq<Ranked<FiveRoles>>>)
    requires forall q :: 0 <= q < |chunks| ==> Fours(chunks[q])
    ensures |r| == |chunks| && forall q :: 0 <= q < |chunks| ==> r[q] == Scored(data, parent, chunks[q])
  {
    seq(|chunks|, q requires 0 <= q < |chunks| => Scored(data, parent, chunks[q]))
  }

  /** Scoring a concatenation scores each part in turn. */
  lemma ScoredAppend(data: CompatibilityData, parent: string, a: seq<seq<string>>, b: seq<seq<string>>)
    requires Fours(a) && Fours(b)
    ensures Fours(a + b)
    ensures Scored(data, parent, a + b) == Scored(data, parent, a) + Scored(data, parent, b)
  {
    assert Fours(a + b);
    var lhs, rhs := Scored(data, parent, a + b), Scored(data, parent, a) + Scored(data, parent, b);
    forall i | 0 <= i < |lhs| ensures lhs[i] == rhs[i] {
      if i < |a| {
        assert (a + b)[i] == a[i];
      } else {
        assert (a + b)[i] == b[i - |a|];
      }
    }
  }

  /** A concatenation of chunks of four-element candidates holds
      four-element candidates. */
  lemma FlattenOfFours(chunks: seq<seq<seq<string>>>)
    requires forall q :: 0 <= q < |chunks| ==> Fours(chunks[q])
    ensures Fours(Flatten(chunks))
  {
    forall c | c in Flatten(chunks) ensures |c| == 4 {
      FlattenMembership(chunks, c);
    }
  }

  /** Scoring a concatenation of chunks scores each chunk in turn. */
  lemma {:induction false} ScoredFlatten(data: CompatibilityData, parent: string, chunks: seq<seq<seq<string>>>)
    requires forall q :: 0 <= q < |chunks| ==> Fours(chunks[q])
    ensures Fours(Flatten(chunks))
    ensures Scored(data, parent, Flatten(chunks)) == Flatten(ScoredChunks(data, parent, chunks))
  {
    FlattenOfFours(chunks);
    if chunks != [] {
      ScoredFlatten(data, parent, chunks[1..]);
      ScoredAppend(data, parent, chunks[0], Flatten(chunks[1..]));
      assert ScoredChunks(data, parent, chunks)[1..] == ScoredChunks(data, parent, chunks[1..]);
    }
  }

  /** The scores of all candidates, chunk by chunk. */
  function ChunkScores(data: CompatibilityData, parent: string, chunks: seq<seq<seq<string>>>): seq<multiset<int>>
    requires forall q :: 0 <= q < |chunks| ==> Fours(chunks[q])
  {
    ScoresOf(ScoredChunks(data, parent, chunks))
  }

  /** The scores of all candidates are the sum of the chunks' scores. */
  lemma AllScoresAsSum(data: CompatibilityData, parent: string, chunks: seq<seq<seq<string>>>)
    requires forall q :: 0 <= q < |chunks| ==> Fours(chunks[q])
    ensures Fours(Flatten(chunks))
    ensures Scores(Scored(data, parent, Flatten(chunks))) == BagSum(ChunkScores(data, parent, chunks))
  {
    ScoresFlatten(ScoredChunks(data, parent, chunks));
    ScoredFlatten(data, parent, chunks);
  }

  /** The heap's scores are the top of the received chunks' scores, in
      arrival order. */
  lemma ArrivedTop(data: CompatibilityData, parent: string, chunks: seq<seq<seq<string>>>, topN: nat,
                   arrived: seq<nat>, received: seq<seq<Ranked<FiveRoles>>>, g: multiset<int>)
    requires forall q :: 0 <= q < |chunks| ==> Fours(chunks[q])
    requires Received(data, parent, chunks, topN, arrived, received)
    requires IsTop(g, Scores(Flatten(received)), topN)
    ensures forall k :: 0 <= k < |arrived| ==> arrived[k] < |chunks|
    ensures IsTop(g, BagSum(Pick(ChunkScores(data, parent, chunks), arrived)), topN)
  {
    var ts := ScoresOf(received);
    var ms := Pick(ChunkScores(data, parent, chunks), arrived);
    ScoresFlatten(received);
    forall k | 0 <= k < |ts| ensures IsTop(ts[k], ms[k], topN) {
      ReceivedAt(data, parent, chunks, topN, arrived, received, k);
    }
    TopOfAllParts(g, ts, ms, topN);
  }

  /** One received top list is the top of its chunk. */
  lemma ReceivedAt(data: CompatibilityData, parent: string, chunks: seq<seq<seq<string>>>, topN: nat,
                   arrived: seq<nat>, received: seq<seq<Ranked<FiveRoles>>>, k: nat)
    requires forall q :: 0 <= q < |chunks| ==> Fours(chunks[q])
    requires Received(data, parent, chunks, topN, arrived, received)
    requires k < |received|
    ensures arrived[k] < |chunks|
    ensures IsTop(ScoresOf(received)[k], Pick(ChunkScores(data, parent, chunks), arrived)[k], topN)
  {
  }

  /** The coordinator's heap ends up with the top scores of every
      candidate, whatever the order in which the chunk results arrived:
      each chunk's own top is enough, and the sum of the chunks' scores
      does not depend on their order. */
  lemma CoordinatorTop(data: CompatibilityData, parent: string, chunks: seq<seq<seq<string>>>, topN: nat,
                       arrived: seq<nat>, received: seq<seq<Ranked<FiveRoles>>>, g: multiset<int>)
    requires forall q :: 0 <= q < |chunks| ==> Fours(chunks[q])
    requires Delivery(|chunks|, {}, arrived)
    requires Received(data, parent, chunks, topN, arrived, received)
    requires IsTop(g, Scores(Flatten(received)), topN)
    ensures Fours(Flatten(chunks))
    ensures IsTop(g, Scores(Scored(data, parent, Flatten(chunks))), topN)
  {
    ArrivedTop(data, parent, chunks, topN, arrived, received, g);
    BagSumPermutation(ChunkScores(data, parent, chunks), arrived);
    AllScoresAsSum(data, parent, chunks);
  }

  /** Every pair the coordinator received is a candidate with its score. */
  lemma ReceivedAreCandidates(data: CompatibilityData, parent: string, chunks: seq<seq<seq<string>>>, topN: nat,
                              arrived: seq<nat>, received: seq<seq<Ranked<FiveRoles>>>, x: Ranked<FiveRoles>)
    requires forall q :: 0 <= q < |chunks| ==> Fours(chunks[q])
    requires Received(data, parent, chunks, topN, arrived, received)
    requires x in Flatten(received)
    ensures Fours(Flatten(chunks))
    ensures x in Scored(data, parent, Flatten(chunks))
  {
    FlattenMembership(received, x);
    var k :| 0 <= k < |received| && x in received[k];
    assert x in multiset(Scored(data, parent, chunks[arrived[k]]));
    ScoredFlatten(data, parent, chunks);
    FlattenMembership(ScoredChunks(data, parent, chunks), x);
    assert x in ScoredChunks(data, parent, chunks)[arrived[k]];
  }

  /** Once every chunk has arrived, the received line-ups are among the
      candidates, counted with multiplicity: each chunk arrives once and
      contributes only its own line-ups. */
  lemma ReceivedBag(data: CompatibilityData, parent: string, chunks: seq<seq<seq<string>>>, topN: nat,
                    arrived: seq<nat>, received: seq<seq<Ranked<FiveRoles>>>)
    requires forall q :: 0 <= q < |chunks| ==> Fours(chunks[q])
    requires Delivery(|chunks|, {}, arrived)
    requires Received(data, parent, chunks, topN, arrived, received)
    ensures Fours(Flatten(chunks))
    ensures multiset(Flatten(received)) <= multiset(Scored(data, parent, Flatten(chunks)))
  {
    var scoredChunks := ScoredChunks(data, parent, chunks);
    var parts := Bags(scoredChunks);
    BagsFlatten(received);
    BagSumMonotone(Bags(received), Pick(parts, arrived));
    BagSumPermutation(parts, arrived);
    BagsFlatten(scoredChunks);
    ScoredFlatten(data, parent, chunks);
  }

  /** The coordinator's inner loop: every pair of one chunk's top list is
      offered to the heap, in list order. */
  method OfferAll(minHeap: BoundedHeap<FiveRoles>, xs: seq<Ranked<FiveRoles>>)
    requires minHeap.Valid()
    modifies minHeap
    ensures minHeap.Valid()
    ensures minHeap.offered == old(minHeap.offered) + xs
  {
    for j := 0 to |xs|
      invariant minHeap.Valid()
      invariant minHeap.offered == old(minHeap.offered) + xs[..j]
    {
      TakeOneMore(xs, j);
      minHeap.Offer(xs[j].item, xs[j].score);
    }
    assert xs[..|xs|] == xs;
  }

  /** The coordinator's sorted heap holds the top scores of all
      candidates, each of them a candidate with its own score. */
  lemma CoordinatorSorted(data: CompatibilityData, parent: string, chunks: seq<seq<seq<string>>>, topN: nat,
                          arrived: seq<nat>, received: seq<seq<Ranked<FiveRoles>>>,
                          contents: seq<Ranked<FiveRoles>>, results: seq<Ranked<FiveRoles>>)
    requires forall q :: 0 <= q < |chunks| ==> Fours(chunks[q])
    requires Delivery(|chunks|, {}, arrived)
    requires Received(data, parent, chunks, topN, arrived, received)
    requires IsTop(Scores(contents), Scores(Flatten(received)), topN)
    requires forall x :: x in contents ==> x in Flatten(received)
    requires multiset(contents) <= multiset(Flatten(received))
    requires results == SortDescending(contents)
    ensures Fours(Flatten(chunks))
    ensures IsTop(Scores(results), Scores(Scored(data, parent, Flatten(chunks))), topN)
    ensures forall x :: x in results ==> x in Scored(data, parent, Flatten(chunks))
    ensures multiset(results) <= multiset(Scored(data, parent, Flatten(chunks)))
  {
    ReceivedBag(data, parent, chunks, topN, arrived, received);
    SortKeepsScores(contents);
    CoordinatorTop(data, parent, chunks, topN, arrived, received, Scores(contents));
    forall x | x in results ensures x in Scored(data, parent, Flatten(chunks)) {
      SortedFrom(contents, x);
      ReceivedAreCandidates(data, parent, chunks, topN, arrived, received, x);
    }
  }

  /** The pool half of `get_top_combinations`: each chunk is handed to a
      worker, the workers' top lists arrive in any order and are folded
      into a second bounded heap, and the heap is sorted by descending
      score. */
  method CollectTop(data: CompatibilityData, parent: string, chunks: seq<seq<seq<string>>>, topN: nat)
    returns (results: seq<Ranked<FiveRoles>>)
    requires topN >= 1
    requires forall q :: 0 <= q < |chunks| ==> Fours(chunks[q])
    ensures Fours(Flatten(chunks))
    ensures IsTop(Scores(results), Scores(Scored(data, parent, Flatten(chunks))), topN)
    ensures NonIncreasing(results)
    ensures forall x :: x in results ==> x in Scored(data, parent, Flatten(chunks))
    ensures multiset(results) <= multiset(Scored(data, parent, Flatten(chunks)))
  {
    var minHeap := new BoundedHeap<FiveRoles>(topN);
    var pending: set<int> := IndexSet(|chunks|);
    ghost var arrived: seq<nat> := [];
    ghost var received: seq<seq<Ranked<FiveRoles>>> := [];
    while pending != {}
      invariant Delivery(|chunks|, pending, arrived)
      invariant Received(data, parent, chunks, topN, arrived, received)
      invariant minHeap.Valid() && minHeap.capacity == topN
      invariant minHeap.offered == Flatten(received)
      decreases pending
    {
      var q :| q in pending;
      DeliveryStep(|chunks|, pending, arrived, q);
      pending := pending - {q};
      var chunkResult := ProcessFiveHorsesChunk(data, parent, chunks[q], topN);
      OfferAll(minHeap, chunkResult.top);
      FlattenSnoc(received, chunkResult.top);
      ReceivedStep(data, parent, chunks, topN, arrived, received, q, chunkResult);
      received := received + [chunkResult.top];
      arrived := arrived + [q];
    }
    var contents := minHeap.Contents();
    results := SortDescending(contents);
    CoordinatorSorted(data, parent, chunks, topN, arrived, received, contents, results);
  }

  /** `get_top_combinations`: validates `parent`, cuts the candidates into
      contiguous chunks of `ceil(len / num_processes)`, lets each chunk
      keep its own top list, folds the chunk lists into a second bounded
      heap in whatever order they arrive, and sorts that heap by
      descending score. `numProcesses == 0` stands for `None` (use
      `cpuCount`). */
  method GetTopCombinations(calculator: FiveHorsesCalculator, parent: string, topN: nat, numProcesses: nat, cpuCount: nat)
    returns (r: Result<seq<Ranked<FiveRoles>>, SearchError>)
    requires Distinct(calculator.allUmas) && topN >= 1 && cpuCount >= 1
    ensures parent !in calculator.allUmas ==> r == Failure(UnknownUma(parent))
    ensures parent in calculator.allUmas && |calculator.allUmas| < 5 ==> r == Failure(TooFewUmas(|calculator.allUmas| - 1))
    ensures parent in calculator.allUmas && |calculator.allUmas| >= 5 ==> r.Success?
    ensures r.Success? ==>
              && Fours(Candidates(calculator, parent))
              && var all := Scored(calculator.data, parent, Candidates(calculator, parent));
              && IsTop(Scores(r.value), Scores(all), topN)
              && |r.value| == Min(topN, Binom(|calculator.allUmas| - 1, 4))
              && NonIncreasing(r.value)
              && (forall x :: x in r.value ==> x in all)
              && multiset(r.value) <= multiset(all)
              && Distinct(r.value)
  {
    if parent !in calculator.allUmas {
      return Failure(UnknownUma(parent));
    }
    var otherUmas := Others(calculator.allUmas, parent);
    if |otherUmas| < 4 {
      return Failure(TooFewUmas(|otherUmas|));
    }
    var workers := if numProcesses == 0 then cpuCount else numProcesses;
    var allCombinations := Combinations(otherUmas, 4);
    CandidatesAreFours(otherUmas);
    var chunks := Partition(allCombinations, workers);
    ChunksOfFours(chunks);
    var results := CollectTop(calculator.data, parent, chunks, topN);
    CombinationsCount(otherUmas, 4);
    CombinationsDistinct(otherUmas, 4);
    ScoredDistinct(calculator.data, parent, allCombinations);
    SubBagDistinct(results, Scored(calculator.data, parent, allCombinations));
    return Success(results);
  }

  /** Distinct candidates give distinct scored line-ups: a line-up
      determines its four entities. */
  lemma ScoredDistinct(data: CompatibilityData, parent: string, cs: seq<seq<string>>)
    requires Fours(cs) && Distinct(cs)
    ensures Distinct(Scored(data, parent, cs))
  {
    var r := Scored(data, parent, cs);
    forall i, j | 0 <= i < j < |r| ensures r[i] != r[j] {
      assert cs[i] != cs[j];
      var m :| 0 <= m < 4 && cs[i][m] != cs[j][m];
      assert RolesOf(parent, cs[i]) != RolesOf(parent, cs[j]);
    }
  }

  // ---------------------------------------------------------------------
  // merge_chunk_results

  /** The `'best'` entry of every chunk result. */
  function BestsOfResults(results: seq<ChunkResult>): (r: seq<Best<FiveRoles>>)
    ensures |r| == |results| && forall q :: 0 <= q < |results| ==> r[q] == results[q].best
  {
    seq(|results|, q requires 0 <= q < |results| => results[q].best)
  }

  /** The `'top_n'` entry of every chunk result. */
  function TopsOfResults(results: seq<ChunkResult>): (r: seq<seq<Ranked<FiveRoles>>>)
    ensures |r| == |results| && forall q :: 0 <= q < |results| ==> r[q] == results[q].top
  {
    seq(|results|, q requires 0 <= q < |results| => results[q].top)
  }

  /** `merge_chunk_results`: the first chunk best with the greatest score,
      and the first `top_n` pairs of all chunk top lists sorted by
      descending score. */
  method MergeChunkResults(chunkResults: seq<ChunkResult>, topN: nat)
    returns (best: Best<FiveRoles>, topNResults: seq<Ranked<FiveRoles>>)
    ensures best == MergeBest(BestsOfResults(chunkResults))
    ensures IsTop(Scores(topNResults), Scores(Flatten(TopsOfResults(chunkResults))), topN)
    ensures NonIncreasing(topNResults)
    ensures forall x :: x in topNResults ==> x in Flatten(TopsOfResults(chunkResults))
    ensures multiset(topNResults) <= multiset(Flatten(TopsOfResults(chunkResults)))
  {
    best := Start();
    var allTopResults: seq<Ranked<FiveRoles>> := [];
    for i := 0 to |chunkResults|
      invariant best == MergeBest(BestsOfResults(chunkResults)[..i])
      invariant allTopResults == Flatten(TopsOfResults(chunkResults)[..i])
    {
      var result := chunkResults[i];
      assert BestsOfResults(chunkResults)[..i + 1][..i] == BestsOfResults(chunkResults)[..i];
      if result.best.score > best.score {
        best := result.best;
      }
      assert TopsOfResults(chunkResults)[..i + 1] == TopsOfResults(chunkResults)[..i] + [result.top];
      FlattenAppend(TopsOfResults(chunkResults)[..i], [result.top]);
      assert Flatten([result.top]) == result.top by { assert [result.top][1..] == []; }
      allTopResults := allTopResults + result.top;
    }
    assert BestsOfResults(chunkResults)[..|chunkResults|] == BestsOfResults(chunkResults);
    assert TopsOfResults(chunkResults)[..|chunkResults|] == TopsOfResults(chunkResults);
    var sorted := SortDescending(allTopResults);
    SortKeepsScores(allTopResults);
    topNResults := sorted[..Min(topN, |sorted|)];
    PrefixOfSortedIsTop(sorted, topN);
    forall x | x in topNResults ensures x in allTopResults {
      assert x in multiset(topNResults);
    }
  }

  /** Merging the bests of chunk workers over contiguous chunks of the
      candidates keeps the first best of one pass over all candidates. */
  lemma MergeBestMatches(data: CompatibilityData, parent: string, chunks: seq<seq<seq<string>>>, topN: nat,
                         results: seq<ChunkResult>)
    requires forall q :: 0 <= q < |chunks| ==> Fours(chunks[q])
    requires |results| == |chunks|
    requires forall q :: 0 <= q < |chunks| ==> ChunkResultFor(data, parent, chunks[q], topN, results[q])
    ensures Fours(Flatten(chunks))
    ensures MergeBest(BestsOfResults(results)) == RunningBest(Scored(data, parent, Flatten(chunks)))
  {
    var scoredChunks := ScoredChunks(data, parent, chunks);
    ScoredFlatten(data, parent, chunks);
    assert BestsOfResults(results) == BestsOf(scoredChunks);
    MergeOfChunks(scoredChunks);
  }

  /** The top of the chunk workers' top lists is the top of all
      candidates. */
  lemma MergeTopMatches(data: CompatibilityData, parent: string, chunks: seq<seq<seq<string>>>, topN: nat,
                        results: seq<ChunkResult>, top: seq<Ranked<FiveRoles>>)
    requires forall q :: 0 <= q < |chunks| ==> Fours(chunks[q])
    requires |results| == |chunks|
    requires forall q :: 0 <= q < |chunks| ==> ChunkResultFor(data, parent, chunks[q], topN, results[q])
    requires IsTop(Scores(top), Scores(Flatten(TopsOfResults(results))), topN)
    ensures Fours(Flatten(chunks))
    ensures IsTop(Scores(top), Scores(Scored(data, parent, Flatten(chunks))), topN)
  {
    var ts := ScoresOf(TopsOfResults(results));
    var ms := ChunkScores(data, parent, chunks);
    forall k | 0 <= k < |ts| ensures IsTop(ts[k], ms[k], topN) {
      assert ChunkResultFor(data, parent, chunks[k], topN, results[k]);
    }
    ScoresFlatten(TopsOfResults(results));
    TopOfAllParts(Scores(top), ts, ms, topN);
    AllScoresAsSum(data, parent, chunks);
  }
}
