/** `CompatibilityData`: the pair and triple score tables built from the
    group table, their lookups with a default of 0, and the per-entity
    compatibility map. */
module Compatibility {
  import opened Combinatorics
  import opened GroupIndex

  /** The key `(uma1, uma2)` of the pair table. */
  type PairKey = (string, string)

  /** The key `(uma1, uma2, uma3)` of the triple table. */
  type TripleKey = (string, string, string)

  type PairTable = map<PairKey, int>

  type TripleTable = map<TripleKey, int>

  /** The ordered pairs of distinct entities. */
  function PairKeys(universe: set<string>): set<PairKey>
  {
    set a, b | a in universe && b in universe && a != b :: (a, b)
  }

  /** The ordered triples of pairwise distinct entities. */
  function TripleKeys(universe: set<string>): set<TripleKey>
  {
    set a, b, c | a in universe && b in universe && c in universe
                  && a != b && a != c && b != c :: (a, b, c)
  }

  /** The pair table the constructor is meant to build: every ordered pair of
      distinct indexed entities mapped to its pair score. */
  function PairTableOf(rows: seq<GroupRow>, index: map<string, set<int>>): PairTable
  {
    map k | k in PairKeys(index.Keys) :: PairScoreOf(rows, index, k.0, k.1)
  }

  /** The triple table: every ordered triple of distinct indexed entities
      mapped to its triple score. */
  function TripleTableOf(rows: seq<GroupRow>, index: map<string, set<int>>): TripleTable
  {
    map k | k in TripleKeys(index.Keys) :: TripleScoreOf(rows, index, k.0, k.1, k.2)
  }

  lemma PairScoreSymmetric(rows: seq<GroupRow>, index: map<string, set<int>>, a: string, b: string)
    ensures PairScoreOf(rows, index, a, b) == PairScoreOf(rows, index, b, a)
  {
    assert GroupIds(index, a) * GroupIds(index, b) == GroupIds(index, b) * GroupIds(index, a);
  }

  /** The six orders of a triple, as `process_chunk` lists them. */
  function Perms3(a: string, b: string, c: string): (r: seq<TripleKey>)
    ensures |r| == 6 && r[0] == (a, b, c)
  {
    [(a, b, c), (a, c, b), (b, a, c), (b, c, a), (c, a, b), (c, b, a)]
  }

  /** An order of a triple holds the same three entities. */
  lemma PermFacts(a: string, b: string, c: string, k: TripleKey)
    requires k in Perms3(a, b, c)
    ensures (k.0 == a || k.0 == b || k.0 == c) && (k.1 == a || k.1 == b || k.1 == c)
            && (k.2 == a || k.2 == b || k.2 == c)
    ensures (a == k.0 || a == k.1 || a == k.2) && (b == k.0 || b == k.1 || b == k.2)
            && (c == k.0 || c == k.1 || c == k.2)
    ensures (a != b && a != c && b != c) <==> (k.0 != k.1 && k.0 != k.2 && k.1 != k.2)
  {
  }

  lemma TripleScorePermuted(rows: seq<GroupRow>, index: map<string, set<int>>, a: string, b: string, c: string, k: TripleKey)
    requires k in Perms3(a, b, c)
    ensures TripleScoreOf(rows, index, k.0, k.1, k.2) == TripleScoreOf(rows, index, a, b, c)
  {
    var x, y, z := GroupIds(index, a), GroupIds(index, b), GroupIds(index, c);
    if k == (a, b, c) {
    } else if k == (a, c, b) {
      assert x * z * y == x * y * z;
    } else if k == (b, a, c) {
      assert y * x * z == x * y * z;
    } else if k == (b, c, a) {
      assert y * z * x == x * y * z;
    } else if k == (c, a, b) {
      assert z * x * y == x * y * z;
    } else {
      assert z * y * x == x * y * z;
    }
  }

  // ---------------------------------------------------------------------
  // The pair table

  /** Both orders of a two-element combination. */
  function BothOrders(c: seq<string>): set<PairKey>
  {
    if |c| == 2 then {(c[0], c[1]), (c[1], c[0])} else {}
  }

  /** The keys stored once the first `n` combinations are entered. */
  ghost function PairCover(combos: seq<seq<string>>, n: nat): set<PairKey>
    requires n <= |combos|
  {
    if n == 0 then {} else PairCover(combos, n - 1) + BothOrders(combos[n - 1])
  }

  lemma {:induction false} PairCoverMembership(combos: seq<seq<string>>, n: nat, k: PairKey)
    requires n <= |combos|
    ensures k in PairCover(combos, n) <==> exists t :: 0 <= t < n && k in BothOrders(combos[t])
  {
    if n > 0 {
      PairCoverMembership(combos, n - 1, k);
    }
  }

  /** Every stored pair score is the pair score of its key. */
  ghost predicate PairsScored(rows: seq<GroupRow>, index: map<string, set<int>>, table: PairTable)
  {
    forall k :: k in table ==> table[k] == PairScoreOf(rows, index, k.0, k.1)
  }

  /** `combinations(order, 2)` as `_calculate_compatibility` walks it: each
      pair is scored once and stored under both orders. */
  method BuildPairTable(rows: seq<GroupRow>, index: map<string, set<int>>, order: seq<string>)
    returns (table: PairTable)
    requires Distinct(order)
    requires forall u :: u in order <==> u in index
    ensures table == PairTableOf(rows, index)
  {
    table := map[];
    var pairCombinations := Combinations(order, 2);
    for i := 0 to |pairCombinations|
      invariant table.Keys == PairCover(pairCombinations, i)
      invariant PairsScored(rows, index, table)
    {
      var combo := pairCombinations[i];
      CombinationElements(order, 2, combo);
      var uma1, uma2 := combo[0], combo[1];
      var score := CalculatePairScore(rows, index, uma1, uma2);
      StorePair(rows, index, table, uma1, uma2, score);
      PairCoverStep(pairCombinations, i);
      table := table[(uma1, uma2) := score];
      table := table[(uma2, uma1) := score];
    }
    PairTableComplete(rows, index, order, pairCombinations, table);
  }

  /** Storing a pair score under both orders keeps every stored score
      right and adds both orders as keys. */
  lemma StorePair(rows: seq<GroupRow>, index: map<string, set<int>>, table: PairTable, a: string, b: string, score: int)
    requires PairsScored(rows, index, table)
    requires score == PairScoreOf(rows, index, a, b)
    ensures PairsScored(rows, index, table[(a, b) := score][(b, a) := score])
    ensures table[(a, b) := score][(b, a) := score].Keys == table.Keys + BothOrders([a, b])
  {
    PairScoreSymmetric(rows, index, a, b);
  }

  lemma PairCoverStep(combos: seq<seq<string>>, i: nat)
    requires i < |combos|
    ensures PairCover(combos, i + 1) == PairCover(combos, i) + BothOrders(combos[i])
  {
  }

  lemma PairTableComplete(rows: seq<GroupRow>, index: map<string, set<int>>, order: seq<string>,
                          combos: seq<seq<string>>, table: PairTable)
    requires Distinct(order) && combos == Combinations(order, 2)
    requires forall u :: u in order <==> u in index
    requires table.Keys == PairCover(combos, |combos|)
    requires PairsScored(rows, index, table)
    ensures table == PairTableOf(rows, index)
  {
    PairTableKeys(order, combos, index.Keys, table.Keys);
    PairTableFromScores(rows, index, table);
  }

  /** A table with the right keys and the right scores is the pair
      table. */
  lemma PairTableFromScores(rows: seq<GroupRow>, index: map<string, set<int>>, table: PairTable)
    requires table.Keys == PairKeys(index.Keys)
    requires PairsScored(rows, index, table)
    ensures table == PairTableOf(rows, index)
  {
    var expected := PairTableOf(rows, index);
    assert table.Keys == expected.Keys;
    forall k | k in table ensures table[k] == expected[k] {
    }
  }

  /** The keys stored are exactly the ordered pairs of distinct entities. */
  lemma PairTableKeys(order: seq<string>, combos: seq<seq<string>>, universe: set<string>, keys: set<PairKey>)
    requires Distinct(order) && combos == Combinations(order, 2)
    requires forall u :: u in order <==> u in universe
    requires keys == PairCover(combos, |combos|)
    ensures keys == PairKeys(universe)
  {
    forall k | k in keys ensures k in PairKeys(universe) {
      StoredPairIsKey(order, combos, universe, k);
    }
    forall k | k in PairKeys(universe) ensures k in keys {
      PairKeyIsStored(order, combos, universe, k);
    }
  }

  lemma StoredPairIsKey(order: seq<string>, combos: seq<seq<string>>, universe: set<string>, k: PairKey)
    requires Distinct(order) && combos == Combinations(order, 2)
    requires forall u :: u in order <==> u in universe
    requires k in PairCover(combos, |combos|)
    ensures k in PairKeys(universe)
  {
    PairCoverMembership(combos, |combos|, k);
    var t :| 0 <= t < |combos| && k in BothOrders(combos[t]);
    var c := combos[t];
    CombinationElements(order, 2, c);
    var a, b := c[0], c[1];
    assert a in c && b in c;
    assert a in universe && b in universe && a != b;
    PairKeysIntro(universe, a, b);
    PairKeysIntro(universe, b, a);
  }

  lemma PairKeysIntro(universe: set<string>, a: string, b: string)
    requires a in universe && b in universe && a != b
    ensures (a, b) in PairKeys(universe)
  {
  }

  lemma PairKeyIsStored(order: seq<string>, combos: seq<seq<string>>, universe: set<string>, k: PairKey)
    requires Distinct(order) && combos == Combinations(order, 2)
    requires forall u :: u in order <==> u in universe
    requires k in PairKeys(universe)
    ensures k in PairCover(combos, |combos|)
  {
    PairCoverMembership(combos, |combos|, k);
    var i :| 0 <= i < |order| && order[i] == k.0;
    var j :| 0 <= j < |order| && order[j] == k.1;
    if i < j {
      PairIsCombination(order, i, j);
      var t :| 0 <= t < |combos| && combos[t] == [k.0, k.1];
      assert k in BothOrders(combos[t]);
    } else {
      PairIsCombination(order, j, i);
      var t :| 0 <= t < |combos| && combos[t] == [k.1, k.0];
      assert k in BothOrders(combos[t]);
    }
  }

  // ---------------------------------------------------------------------
  // The triple table

  /** The six orders of a three-element combination. */
  function PermSet(c: seq<string>): set<TripleKey>
  {
    if |c| == 3
    then {(c[0], c[1], c[2]), (c[0], c[2], c[1]), (c[1], c[0], c[2]),
          (c[1], c[2], c[0]), (c[2], c[0], c[1]), (c[2], c[1], c[0])}
    else {}
  }

  /** The keys the first `n` triples of a chunk contribute. */
  ghost function ChunkKeysUpTo(chunk: seq<seq<string>>, n: nat): set<TripleKey>
    requires n <= |chunk|
  {
    if n == 0 then {} else ChunkKeysUpTo(chunk, n - 1) + PermSet(chunk[n - 1])
  }

  /** The keys a chunk contributes: all orders of each of its triples. */
  ghost function ChunkKeys(chunk: seq<seq<string>>): set<TripleKey>
  {
    ChunkKeysUpTo(chunk, |chunk|)
  }

  lemma {:induction false} ChunkKeysUpToMembership(chunk: seq<seq<string>>, n: nat, k: TripleKey)
    requires n <= |chunk|
    ensures k in ChunkKeysUpTo(chunk, n) <==> exists t :: 0 <= t < n && k in PermSet(chunk[t])
  {
    if n > 0 {
      ChunkKeysUpToMembership(chunk, n - 1, k);
    }
  }

  lemma ChunkKeysMembership(chunk: seq<seq<string>>, k: TripleKey)
    ensures k in ChunkKeys(chunk) <==> exists c :: c in chunk && k in PermSet(c)
  {
    ChunkKeysUpToMembership(chunk, |chunk|, k);
  }

  /** Every stored triple score is the triple score of its key. */
  ghost predicate TriplesScored(rows: seq<GroupRow>, index: map<string, set<int>>, table: TripleTable)
  {
    forall k {:trigger table[k]} :: k in table ==> table[k] == TripleScoreOf(rows, index, k.0, k.1, k.2)
  }

  /** The first `n` entries of a list of keys, as a set. */
  ghost function KeysUpTo(perms: seq<TripleKey>, n: nat): set<TripleKey>
    requires n <= |perms|
  {
    if n == 0 then {} else KeysUpTo(perms, n - 1) + {perms[n - 1]}
  }

  lemma {:induction false} KeysUpToMembership(perms: seq<TripleKey>, n: nat, k: TripleKey)
    requires n <= |perms|
    ensures k in KeysUpTo(perms, n) <==> k in perms[..n]
  {
    if n > 0 {
      KeysUpToMembership(perms, n - 1, k);
      assert perms[..n] == perms[..n - 1] + [perms[n - 1]];
    }
  }

  lemma AllPermsStored(triple: seq<string>)
    requires |triple| == 3
    ensures KeysUpTo(Perms3(triple[0], triple[1], triple[2]), 6) == PermSet(triple)
  {
    var perms := Perms3(triple[0], triple[1], triple[2]);
    assert perms[..6] == perms;
    forall k ensures k in KeysUpTo(perms, 6) <==> k in PermSet(triple) {
      KeysUpToMembership(perms, 6, k);
    }
  }

  lemma KeysUpToStep(perms: seq<TripleKey>, p: nat)
    requires p < |perms|
    ensures KeysUpTo(perms, p + 1) == KeysUpTo(perms, p) + {perms[p]}
  {
  }

  lemma ChunkKeysUpToStep(chunk: seq<seq<string>>, i: nat, before: TripleTable, after: TripleTable)
    requires i < |chunk|
    requires before.Keys == ChunkKeysUpTo(chunk, i)
    requires after.Keys == before.Keys + PermSet(chunk[i])
    ensures after.Keys == ChunkKeysUpTo(chunk, i + 1)
  {
  }

  /** Storing the triple score of a key keeps every stored score right. */
  lemma StoreScored(rows: seq<GroupRow>, index: map<string, set<int>>, table: TripleTable, k: TripleKey, score: int)
    requires TriplesScored(rows, index, table)
    requires score == TripleScoreOf(rows, index, k.0, k.1, k.2)
    ensures TriplesScored(rows, index, table[k := score])
  {
  }

  /** The inner loop of `process_chunk`: stores one triple's score under
      all six orders of the triple. */
  method StoreAllOrders(rows: seq<GroupRow>, index: map<string, set<int>>, table: TripleTable,
                        triple: seq<string>, score: int)
    returns (stored: TripleTable)
    requires |triple| == 3
    requires TriplesScored(rows, index, table)
    requires score == TripleScoreOf(rows, index, triple[0], triple[1], triple[2])
    ensures stored.Keys == table.Keys + PermSet(triple)
    ensures TriplesScored(rows, index, stored)
  {
    stored := table;
    var uma1, uma2, uma3 := triple[0], triple[1], triple[2];
    var perms := Perms3(uma1, uma2, uma3);
    for p := 0 to |perms|
      invariant stored.Keys == table.Keys + KeysUpTo(perms, p)
      invariant TriplesScored(rows, index, stored)
    {
      StorePerm(rows, index, table, stored, triple, score, p);
      stored := stored[perms[p] := score];
    }
    AllPermsStored(triple);
  }

  /** One step of the inner loop of `process_chunk`. */
  lemma StorePerm(rows: seq<GroupRow>, index: map<string, set<int>>, table: TripleTable, stored: TripleTable,
                  triple: seq<string>, score: int, p: nat)
    requires |triple| == 3 && p < 6
    requires score == TripleScoreOf(rows, index, triple[0], triple[1], triple[2])
    requires stored.Keys == table.Keys + KeysUpTo(Perms3(triple[0], triple[1], triple[2]), p)
    requires TriplesScored(rows, index, stored)
    ensures var k := Perms3(triple[0], triple[1], triple[2])[p];
            && stored[k := score].Keys == table.Keys + KeysUpTo(Perms3(triple[0], triple[1], triple[2]), p + 1)
            && TriplesScored(rows, index, stored[k := score])
  {
    var perms := Perms3(triple[0], triple[1], triple[2]);
    TripleScorePermuted(rows, index, triple[0], triple[1], triple[2], perms[p]);
    StoreScored(rows, index, stored, perms[p], score);
    KeysUpToStep(perms, p);
  }

  /** `process_chunk`: scores every triple of the chunk once and stores the
      score under all six orders of the triple. */
  method ProcessChunk(rows: seq<GroupRow>, index: map<string, set<int>>, chunk: seq<seq<string>>)
    returns (chunkResults: TripleTable)
    requires forall c :: c in chunk ==> |c| == 3
    ensures chunkResults.Keys == ChunkKeys(chunk)
    ensures forall k :: k in chunkResults ==> chunkResults[k] == TripleScoreOf(rows, index, k.0, k.1, k.2)
  {
    chunkResults := map[];
    for i := 0 to |chunk|
      invariant chunkResults.Keys == ChunkKeysUpTo(chunk, i)
      invariant TriplesScored(rows, index, chunkResults)
    {
      var triple := chunk[i];
      var uma1, uma2, uma3 := triple[0], triple[1], triple[2];
      var score := CalculateTripleScore(rows, index, uma1, uma2, uma3);
      ghost var before := chunkResults;
      chunkResults := StoreAllOrders(rows, index, chunkResults, triple, score);
      ChunkKeysUpToStep(chunk, i, before, chunkResults);
    }
  }

  /** The keys of the chunks processed so far, in the order they arrived. */
  ghost function ArrivedKeys(chunks: seq<seq<seq<string>>>, arrived: seq<nat>): set<TripleKey>
  {
    if arrived == [] then {}
    else
      var q := arrived[|arrived| - 1];
      ArrivedKeys(chunks, arrived[..|arrived| - 1]) + (if q < |chunks| then ChunkKeys(chunks[q]) else {})
  }

  lemma ArrivedKeysStep(chunks: seq<seq<seq<string>>>, arrived: seq<nat>, q: nat)
    requires q < |chunks|
    ensures ArrivedKeys(chunks, arrived + [q]) == ArrivedKeys(chunks, arrived) + ChunkKeys(chunks[q])
  {
    assert (arrived + [q])[..|arrived|] == arrived;
  }

  /** Merging the results of one more chunk keeps the table's keys those
      of the arrived chunks and every stored score right. */
  lemma MergeChunk(rows: seq<GroupRow>, index: map<string, set<int>>, chunks: seq<seq<seq<string>>>,
                   arrived: seq<nat>, q: nat, table: TripleTable, chunkResults: TripleTable)
    requires q < |chunks|
    requires table.Keys == ArrivedKeys(chunks, arrived)
    requires TriplesScored(rows, index, table)
    requires chunkResults.Keys == ChunkKeys(chunks[q])
    requires TriplesScored(rows, index, chunkResults)
    ensures (table + chunkResults).Keys == ArrivedKeys(chunks, arrived + [q])
    ensures TriplesScored(rows, index, table + chunkResults)
  {
    ArrivedKeysStep(chunks, arrived, q);
  }

  lemma {:induction false} ArrivedKeysMembership(chunks: seq<seq<seq<string>>>, arrived: seq<nat>, k: TripleKey)
    requires forall t :: 0 <= t < |arrived| ==> arrived[t] < |chunks|
    ensures k in ArrivedKeys(chunks, arrived) <==> exists q :: q in arrived && k in ChunkKeys(chunks[q])
  {
    if arrived != [] {
      var init := arrived[..|arrived| - 1];
      ArrivedKeysMembership(chunks, init, k);
      assert arrived == init + [arrived[|arrived| - 1]];
    }
  }

  /** The triples `combinations(order, 3)` split into `ceil(n / workers)`
      sized chunks, each scored by `ProcessChunk` and merged into the table. */
  method BuildTripleTable(rows: seq<GroupRow>, index: map<string, set<int>>, order: seq<string>, workers: nat)
    returns (table: TripleTable)
    requires workers >= 1
    requires Distinct(order)
    requires forall u :: u in order <==> u in index
    ensures table == TripleTableOf(rows, index)
  {
    var tripleCombinations := Combinations(order, 3);
    var chunks := Partition(tripleCombinations, workers);
    ChunkedTriples(order, chunks);
    table := CollectChunkResults(rows, index, chunks);
    TripleTableComplete(rows, index, order, chunks, table);
  }

  /** The worker pool: each chunk is processed by `ProcessChunk` and its
      results merged with `dict.update`, in whatever order the pool
      delivers them (`imap_unordered`); the table is the same for every
      delivery order. */
  method CollectChunkResults(rows: seq<GroupRow>, index: map<string, set<int>>, chunks: seq<seq<seq<string>>>)
    returns (table: TripleTable)
    requires TripleChunks(chunks)
    ensures forall k :: k in table <==> exists q :: 0 <= q < |chunks| && k in ChunkKeys(chunks[q])
    ensures TriplesScored(rows, index, table)
  {
    table := map[];
    var pending: set<int> := IndexSet(|chunks|);
    ghost var arrived: seq<nat> := [];
    while pending != {}
      invariant Progress(|chunks|, pending, arrived)
      invariant table.Keys == ArrivedKeys(chunks, arrived)
      invariant TriplesScored(rows, index, table)
      decreases pending
    {
      var q :| q in pending;
      ProgressStep(|chunks|, pending, arrived, q);
      pending := pending - {q};
      var chunkResults := ProcessChunk(rows, index, chunks[q]);
      MergeChunk(rows, index, chunks, arrived, q, table, chunkResults);
      table := table + chunkResults;
      arrived := arrived + [q];
    }
    AllArrived(chunks, arrived, table);
  }

  /** The pool's bookkeeping: every chunk index is either still pending or
      has arrived, and nothing else is. */
  ghost predicate Progress(n: nat, pending: set<int>, arrived: seq<nat>)
  {
    && (forall q :: q in pending ==> 0 <= q < n)
    && (forall t :: 0 <= t < |arrived| ==> arrived[t] < n)
    && (forall q :: 0 <= q < n ==> q in pending || q in arrived)
  }

  lemma ProgressStep(n: nat, pending: set<int>, arrived: seq<nat>, q: int)
    requires Progress(n, pending, arrived) && q in pending
    ensures 0 <= q < n && Progress(n, pending - {q}, arrived + [q])
  {
  }

  lemma AllArrived(chunks: seq<seq<seq<string>>>, arrived: seq<nat>, table: TripleTable)
    requires Progress(|chunks|, {}, arrived)
    requires table.Keys == ArrivedKeys(chunks, arrived)
    ensures forall k :: k in table <==> exists q :: 0 <= q < |chunks| && k in ChunkKeys(chunks[q])
  {
    forall k ensures k in table <==> exists q :: 0 <= q < |chunks| && k in ChunkKeys(chunks[q]) {
      ArrivedKeysMembership(chunks, arrived, k);
    }
  }

  /** Every chunk holds only three-element combinations. */
  ghost predicate TripleChunks(chunks: seq<seq<seq<string>>>)
  {
    forall q, c :: 0 <= q < |chunks| && c in chunks[q] ==> |c| == 3
  }

  lemma ChunkedTriples(order: seq<string>, chunks: seq<seq<seq<string>>>)
    requires Flatten(chunks) == Combinations(order, 3)
    ensures TripleChunks(chunks)
  {
    forall q, c | 0 <= q < |chunks| && c in chunks[q] ensures |c| == 3 {
      FlattenMembership(chunks, c);
      CombinationElements(order, 3, c);
    }
  }

  lemma TripleTableComplete(rows: seq<GroupRow>, index: map<string, set<int>>, order: seq<string>,
                            chunks: seq<seq<seq<string>>>, table: TripleTable)
    requires Distinct(order) && Flatten(chunks) == Combinations(order, 3)
    requires forall u :: u in order <==> u in index
    requires forall k :: k in table <==> exists q :: 0 <= q < |chunks| && k in ChunkKeys(chunks[q])
    requires TriplesScored(rows, index, table)
    ensures table == TripleTableOf(rows, index)
  {
    StoredTriplesAreKeys(order, chunks, index.Keys, table);
    TripleKeysAreStored(order, chunks, index.Keys, table);
    ScoredTripleTable(rows, index, table);
  }

  lemma ScoredTripleTable(rows: seq<GroupRow>, index: map<string, set<int>>, table: TripleTable)
    requires table.Keys == TripleKeys(index.Keys)
    requires TriplesScored(rows, index, table)
    ensures table == TripleTableOf(rows, index)
  {
  }

  lemma StoredTriplesAreKeys(order: seq<string>, chunks: seq<seq<seq<string>>>, universe: set<string>, table: TripleTable)
    requires Distinct(order) && Flatten(chunks) == Combinations(order, 3)
    requires forall u :: u in order <==> u in universe
    requires forall k :: k in table <==> exists q :: 0 <= q < |chunks| && k in ChunkKeys(chunks[q])
    ensures table.Keys <= TripleKeys(universe)
  {
    forall k | k in table ensures k in TripleKeys(universe) {
      var q :| 0 <= q < |chunks| && k in ChunkKeys(chunks[q]);
      StoredTripleIsKey(order, chunks, universe, q, k);
    }
  }

  lemma TripleKeysAreStored(order: seq<string>, chunks: seq<seq<seq<string>>>, universe: set<string>, table: TripleTable)
    requires Distinct(order) && Flatten(chunks) == Combinations(order, 3)
    requires forall u :: u in order <==> u in universe
    requires forall k :: k in table <==> exists q :: 0 <= q < |chunks| && k in ChunkKeys(chunks[q])
    ensures TripleKeys(universe) <= table.Keys
  {
    forall k | k in TripleKeys(universe) ensures k in table {
      var q := TripleKeyIsStored(order, chunks, universe, k);
    }
  }

  /** Sorting three distinct positions: the entities at them, in any order,
      are an order of a triple of `combinations(order, 3)`. */
  lemma TripleKeyFromCombination(order: seq<string>, x: nat, y: nat, z: nat) returns (t: seq<string>)
    requires x < |order| && y < |order| && z < |order| && x != y && x != z && y != z
    ensures t in Combinations(order, 3) && (order[x], order[y], order[z]) in PermSet(t)
  {
    var a, b, c := order[x], order[y], order[z];
    if x < y < z {
      TripleIsCombination(order, x, y, z);
      t := [a, b, c];
    } else if x < z < y {
      TripleIsCombination(order, x, z, y);
      t := [a, c, b];
    } else if y < x < z {
      TripleIsCombination(order, y, x, z);
      t := [b, a, c];
    } else if y < z < x {
      TripleIsCombination(order, y, z, x);
      t := [b, c, a];
    } else if z < x < y {
      TripleIsCombination(order, z, x, y);
      t := [c, a, b];
    } else {
      TripleIsCombination(order, z, y, x);
      t := [c, b, a];
    }
    assert (a, b, c) in Perms3(t[0], t[1], t[2]);
  }

  lemma TripleKeysIntro(universe: set<string>, a: string, b: string, c: string)
    requires a in universe && b in universe && c in universe && a != b && a != c && b != c
    ensures (a, b, c) in TripleKeys(universe)
  {
  }

  lemma StoredTripleIsKey(order: seq<string>, chunks: seq<seq<seq<string>>>, universe: set<string>, q: nat, k: TripleKey)
    requires Distinct(order) && Flatten(chunks) == Combinations(order, 3)
    requires forall u :: u in order <==> u in universe
    requires q < |chunks| && k in ChunkKeys(chunks[q])
    ensures k in TripleKeys(universe)
  {
    ChunkKeysMembership(chunks[q], k);
    var c :| c in chunks[q] && k in PermSet(c);
    FlattenMembership(chunks, c);
    CombinationElements(order, 3, c);
    var a, b, d := c[0], c[1], c[2];
    assert a in c && b in c && d in c;
    assert a != b && a != d && b != d;
    PermFacts(a, b, d, k);
    TripleKeysIntro(universe, k.0, k.1, k.2);
  }

  lemma TripleKeyIsStored(order: seq<string>, chunks: seq<seq<seq<string>>>, universe: set<string>, k: TripleKey)
    returns (q: nat)
    requires Distinct(order) && Flatten(chunks) == Combinations(order, 3)
    requires forall u :: u in order <==> u in universe
    requires k in TripleKeys(universe)
    ensures q < |chunks| && k in ChunkKeys(chunks[q])
  {
    var x :| 0 <= x < |order| && order[x] == k.0;
    var y :| 0 <= y < |order| && order[y] == k.1;
    var z :| 0 <= z < |order| && order[z] == k.2;
    var t := TripleKeyFromCombination(order, x, y, z);
    FlattenMembership(chunks, t);
    var q' :| 0 <= q' < |chunks| && t in chunks[q'];
    q := q';
    ChunkKeysMembership(chunks[q], k);
  }

  /** A duplicate-free listing of a set of names, in an order the model
      leaves open. */
  method ListOf(names: set<string>) returns (order: seq<string>)
    ensures Distinct(order)
    ensures forall u :: u in order <==> u in names
  {
    order := [];
    var rest := names;
    while rest != {}
      invariant Distinct(order)
      invariant forall u :: u in order ==> u in names && u !in rest
      invariant forall u :: u in names ==> u in order || u in rest
      invariant rest <= names
      decreases |rest|
    {
      var u :| u in rest;
      order := order + [u];
      rest := rest - {u};
    }
  }

  // ---------------------------------------------------------------------
  // The data object

  /** The fields of a `CompatibilityData` built from a group table. */
  datatype CompatibilityData = CompatibilityData(
    rows: seq<GroupRow>,
    umaToGroups: map<string, set<int>>,
    allUmas: set<string>,
    pairCompatibility: PairTable,
    tripleCompatibility: TripleTable)

  /** The relation between the fields that the constructor establishes. */
  ghost predicate Consistent(data: CompatibilityData)
  {
    && data.umaToGroups == IndexOf(data.rows)
    && data.allUmas == data.umaToGroups.Keys
    && data.pairCompatibility == PairTableOf(data.rows, data.umaToGroups)
    && data.tripleCompatibility == TripleTableOf(data.rows, data.umaToGroups)
  }

  /** `CompatibilityData.__init__` on a cache miss followed by
      `_calculate_compatibility`; `numProcesses == 0` stands for the
      absent argument, replaced by the CPU count. */
  method NewCompatibilityData(raw: seq<RawRow>, numProcesses: nat, cpuCount: nat)
    returns (data: CompatibilityData)
    requires cpuCount >= 1
    ensures Consistent(data)
    ensures data.rows == ParseRows(raw)
  {
    var workers := if numProcesses == 0 then cpuCount else numProcesses;
    var rows := ParseRows(raw);
    var umaToGroups := BuildIndex(rows);
    var allUmas := umaToGroups.Keys;
    var sortedUmas := ListOf(allUmas);
    var pairs := BuildPairTable(rows, umaToGroups, sortedUmas);
    var triples := BuildTripleTable(rows, umaToGroups, sortedUmas, workers);
    data := CompatibilityData(rows, umaToGroups, allUmas, pairs, triples);
  }

  /** `get_pair_compatibility`: the stored score, 0 when the key is absent. */
  function GetPairCompatibility(data: CompatibilityData, uma1: string, uma2: string): int
  {
    if (uma1, uma2) in data.pairCompatibility then data.pairCompatibility[(uma1, uma2)] else 0
  }

  /** `get_triple_compatibility`: the stored score, 0 when the key is absent. */
  function GetTripleCompatibility(data: CompatibilityData, uma1: string, uma2: string, uma3: string): int
  {
    if (uma1, uma2, uma3) in data.tripleCompatibility
    then data.tripleCompatibility[(uma1, uma2, uma3)] else 0
  }

  /** A pair lookup gives the pair score of two distinct known entities, 0
      otherwise (an entity with itself included), and does not depend on
      the order of its arguments. */
  lemma PairLookup(data: CompatibilityData, a: string, b: string)
    requires Consistent(data)
    ensures GetPairCompatibility(data, a, b) ==
              if a != b && a in data.allUmas && b in data.allUmas
              then PairScoreOf(data.rows, data.umaToGroups, a, b) else 0
    ensures GetPairCompatibility(data, a, b) == GetPairCompatibility(data, b, a)
  {
    PairScoreSymmetric(data.rows, data.umaToGroups, a, b);
    if a != b && a in data.allUmas && b in data.allUmas {
      PairKeysIntro(data.allUmas, a, b);
      PairKeysIntro(data.allUmas, b, a);
    }
  }

  lemma TripleLookupOne(data: CompatibilityData, a: string, b: string, c: string)
    requires Consistent(data)
    ensures GetTripleCompatibility(data, a, b, c) ==
              if a != b && a != c && b != c && a in data.allUmas && b in data.allUmas && c in data.allUmas
              then TripleScoreOf(data.rows, data.umaToGroups, a, b, c) else 0
  {
    if a != b && a != c && b != c && a in data.allUmas && b in data.allUmas && c in data.allUmas {
      TripleKeysIntro(data.allUmas, a, b, c);
    }
  }

  /** A triple lookup gives the triple score of three distinct known
      entities, 0 otherwise, and is the same for all six argument orders. */
  lemma TripleLookup(data: CompatibilityData, a: string, b: string, c: string)
    requires Consistent(data)
    ensures GetTripleCompatibility(data, a, b, c) ==
              if a != b && a != c && b != c && a in data.allUmas && b in data.allUmas && c in data.allUmas
              then TripleScoreOf(data.rows, data.umaToGroups, a, b, c) else 0
    ensures forall k :: k in Perms3(a, b, c) ==>
              GetTripleCompatibility(data, k.0, k.1, k.2) == GetTripleCompatibility(data, a, b, c)
  {
    forall k | k in Perms3(a, b, c)
      ensures GetTripleCompatibility(data, k.0, k.1, k.2) == GetTripleCompatibility(data, a, b, c)
    {
      PermFacts(a, b, c, k);
      TripleScorePermuted(data.rows, data.umaToGroups, a, b, c, k);
      TripleLookupOne(data, k.0, k.1, k.2);
      TripleLookupOne(data, a, b, c);
    }
    TripleLookupOne(data, a, b, c);
  }

  /** With non-negative group scores every stored score is non-negative. */
  lemma TablesNonNegative(data: CompatibilityData)
    requires Consistent(data)
    requires forall i :: 0 <= i < |data.rows| ==> data.rows[i].score >= 0
    ensures forall k :: k in data.pairCompatibility ==> data.pairCompatibility[k] >= 0
    ensures forall k :: k in data.tripleCompatibility ==> data.tripleCompatibility[k] >= 0
  {
    var index := data.umaToGroups;
    forall k | k in data.pairCompatibility ensures data.pairCompatibility[k] >= 0 {
      SumInNonNegative(data.rows, GroupIds(index, k.0) * GroupIds(index, k.1));
    }
    forall k | k in data.tripleCompatibility ensures data.tripleCompatibility[k] >= 0 {
      SumInNonNegative(data.rows, GroupIds(index, k.0) * GroupIds(index, k.1) * GroupIds(index, k.2));
    }
  }

  // ---------------------------------------------------------------------
  // get_uma_compatibility

  /** The tokens of a member list other than `name`. */
  function OthersIn(members: seq<string>, name: string): set<string>
  {
    if members == [] then {}
    else
      var m := members[|members| - 1];
      OthersIn(members[..|members| - 1], name) + (if m != name then {m} else {})
  }

  /** What one group adds for `other`: its score once per occurrence of
      `other` in the member list, nothing when `other` is `name` itself. */
  function OccurrenceScore(members: seq<string>, score: int, name: string, other: string): int
  {
    if members == [] then 0
    else
      OccurrenceScore(members[..|members| - 1], score, name, other)
      + (if members[|members| - 1] == other && other != name then score else 0)
  }

  /** The tokens other than `name` in any of `groups`. */
  function CoMembers(groups: seq<GroupRow>, name: string): set<string>
  {
    if groups == [] then {}
    else CoMembers(groups[..|groups| - 1], name) + OthersIn(groups[|groups| - 1].members, name)
  }

  /** The summed scores `groups` contribute for `other`. */
  function CoScore(groups: seq<GroupRow>, name: string, other: string): int
  {
    if groups == [] then 0
    else
      var last := groups[|groups| - 1];
      CoScore(groups[..|groups| - 1], name, other) + OccurrenceScore(last.members, last.score, name, other)
  }

  lemma {:induction false} OccurrenceScoreAbsent(members: seq<string>, score: int, name: string, other: string)
    requires other !in OthersIn(members, name)
    ensures OccurrenceScore(members, score, name, other) == 0
  {
    if members != [] {
      OccurrenceScoreAbsent(members[..|members| - 1], score, name, other);
    }
  }

  lemma {:induction false} CoScoreAbsent(groups: seq<GroupRow>, name: string, other: string)
    requires other !in CoMembers(groups, name)
    ensures CoScore(groups, name, other) == 0
  {
    if groups != [] {
      var last := groups[|groups| - 1];
      CoScoreAbsent(groups[..|groups| - 1], name, other);
      OccurrenceScoreAbsent(last.members, last.score, name, other);
    }
  }

  /** The map after the groups `done` and the first tokens `members` of the
      current group (score `score`) have been tallied. */
  ghost predicate Tallied(compat: map<string, int>, done: seq<GroupRow>, members: seq<string>, score: int, name: string)
  {
    && compat.Keys == CoMembers(done, name) + OthersIn(members, name)
    && forall other :: other in compat ==>
         compat[other] == CoScore(done, name, other) + OccurrenceScore(members, score, name, other)
  }

  /** Tallying one more token. */
  lemma TallyToken(compat: map<string, int>, done: seq<GroupRow>, members: seq<string>, m: string, score: int, name: string)
    requires Tallied(compat, done, members, score, name)
    ensures m != name ==>
              Tallied(compat[m := (if m in compat then compat[m] else 0) + score], done, members + [m], score, name)
    ensures m == name ==> Tallied(compat, done, members + [m], score, name)
  {
    assert (members + [m])[..|members|] == members;
    if m !in compat {
      CoScoreAbsent(done, name, m);
      OccurrenceScoreAbsent(members, score, name, m);
    }
  }

  /** Finishing one group. */
  lemma TallyGroup(compat: map<string, int>, groups: seq<GroupRow>, i: nat, name: string)
    requires i < |groups|
    requires Tallied(compat, groups[..i], groups[i].members, groups[i].score, name)
    ensures Tallied(compat, groups[..i + 1], [], 0, name)
  {
    assert groups[..i + 1][..i] == groups[..i];
  }

  /** `get_uma_compatibility`: for every other token of every group of
      `name` (the placeholder included), the summed group scores. */
  method GetUmaCompatibility(data: CompatibilityData, umaName: string) returns (compatibility: map<string, int>)
    ensures var groups := GetUmaGroups(data.rows, data.umaToGroups, umaName);
            && compatibility.Keys == CoMembers(groups, umaName)
            && forall other :: other in compatibility ==>
                 compatibility[other] == CoScore(groups, umaName, other)
  {
    compatibility := map[];
    var groups := GetUmaGroups(data.rows, data.umaToGroups, umaName);
    for i := 0 to |groups|
      invariant Tallied(compatibility, groups[..i], [], 0, umaName)
    {
      var group := groups[i];
      var score := group.score;
      var members := group.members;
      for j := 0 to |members|
        invariant Tallied(compatibility, groups[..i], members[..j], score, umaName)
      {
        var otherUma := members[j];
        TallyToken(compatibility, groups[..i], members[..j], otherUma, score, umaName);
        assert members[..j + 1] == members[..j] + [otherUma];
        if otherUma != umaName {
          if otherUma !in compatibility {
            compatibility := compatibility[otherUma := 0];
          }
          compatibility := compatibility[otherUma := compatibility[otherUma] + score];
        }
      }
      assert members[..|members|] == members;
      TallyGroup(compatibility, groups, i, umaName);
    }
    assert groups[..|groups|] == groups;
  }

  /** The compatibility reported for another entity is the pair score of
      the two, when group ids are unique and no member list repeats a
      name. */
  lemma UmaCompatibilityIsPairScore(rows: seq<GroupRow>, a: string, b: string)
    requires UniqueIds(rows)
    requires forall i :: 0 <= i < |rows| ==> Distinct(rows[i].members)
    requires a != Placeholder && b != Placeholder && a != b
    ensures CoScore(GetUmaGroups(rows, IndexOf(rows), a), a, b) == PairScoreOf(rows, IndexOf(rows), a, b)
  {
    var index := IndexOf(rows);
    GetUmaGroupsFilters(rows, index, a);
    PairScoreCountsSharedGroups(rows, a, b);
    var s := GroupIds(index, a);
    forall i | 0 <= i < |rows| ensures rows[i].id in s <==> a in rows[i].members {
      IndexedRow(rows, a, i);
    }
    CoScoreOfFiltered(rows, s, a, b);
  }

  lemma CoScoreAppend(groups: seq<GroupRow>, g: GroupRow, name: string, other: string)
    ensures CoScore(groups + [g], name, other) == CoScore(groups, name, other) + OccurrenceScore(g.members, g.score, name, other)
  {
    assert (groups + [g])[..|groups|] == groups;
  }

  lemma {:induction false} CoScoreOfFiltered(rows: seq<GroupRow>, s: set<int>, a: string, b: string)
    requires forall i :: 0 <= i < |rows| ==> Distinct(rows[i].members)
    requires forall i :: 0 <= i < |rows| ==> (rows[i].id in s <==> a in rows[i].members)
    requires a != b
    ensures CoScore(RowsWithIds(rows, s), a, b) == SumContaining(rows, {a, b})
  {
    if rows != [] {
      var last := rows[|rows| - 1];
      var init := rows[..|rows| - 1];
      forall i | 0 <= i < |init| ensures Distinct(init[i].members) && (init[i].id in s <==> a in init[i].members) {
        assert init[i] == rows[i];
      }
      CoScoreOfFiltered(init, s, a, b);
      var f := RowsWithIds(init, s);
      assert SumContaining(rows, {a, b}) == SumContaining(init, {a, b}) + (if HasAll(last, {a, b}) then last.score else 0);
      assert HasAll(last, {a, b}) <==> a in last.members && b in last.members;
      if last.id in s {
        assert RowsWithIds(rows, s) == f + [last];
        CoScoreAppend(f, last, a, b);
        OccurrenceScoreOnce(last.members, last.score, a, b);
      } else {
        assert RowsWithIds(rows, s) == f;
      }
    }
  }

  /** In a duplicate-free member list, `other` is counted once if present. */
  lemma {:induction false} OccurrenceScoreOnce(members: seq<string>, score: int, name: string, other: string)
    requires Distinct(members) && other != name
    ensures OccurrenceScore(members, score, name, other) == if other in members then score else 0
  {
    if members != [] {
      var init := members[..|members| - 1];
      assert Distinct(init) by {
        forall i, j | 0 <= i < j < |init| ensures init[i] != init[j] {
          assert init[i] == members[i] && init[j] == members[j];
        }
      }
      OccurrenceScoreOnce(init, score, name, other);
      assert members == init + [members[|members| - 1]];
      if members[|members| - 1] == other {
        assert other !in init by {
          forall i | 0 <= i < |init| ensures init[i] != other {
            assert init[i] == members[i];
          }
        }
      }
    }
  }
}
