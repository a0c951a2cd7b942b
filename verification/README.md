# UmamusumeCalculator scoring core in Dafny

This project models the scoring engine of UmamusumeCalculator and its
exhaustive five-role optimiser.

**Compatibility tables.** Group rows come from the compatibility CSV. Each
row has a group id (`组号`), a score (`分数`) and a comma-separated member
list (`成员`). From them `CompatibilityData` builds:

- an entity → group-id index, skipping the exact placeholder token `"无"`;
- the universe of entities (the index keys);
- a symmetric pair table, where each score is the sum of the scores of the groups two entities share;
- a triple table, where each sorted triple is scored once, stored under all six orderings, and computed chunk by chunk by a worker pool whose results arrive in any order.

Lookups default to 0. `get_uma_compatibility` tallies, for one entity, the group scores it shares with every co-member. The tables are saved to a cache under comma-joined keys and loaded back with `split(",")`.

**Seven-role formula.** `CompatibilityCalculator.calculate_compatibility_score`
adds three pair lookups and four triple lookups for a target, two parents
and four grandparents.

**Five-role search.** `FiveHorsesCalculator` fixes a `parent` and enumerates
the 4-combinations of the remaining universe. It maps each one onto the
seven roles (grandparent1 → parent1 and grandparent4, grandparent2 →
parent2, chromo1 → grandparent1, chromo2 → grandparent2 and grandparent3)
and scores it. It then does one of three things:

- keeps the first maximum (`calculate_best_combination`);
- scores one given line-up (`calculate_specific_combination`);
- finds the N best line-ups (`get_top_combinations`). The candidates are split into contiguous chunks. Each chunk keeps a bounded min-heap of N entries. A coordinator folds the chunk results into a second bounded heap, in any arrival order, and sorts them by score, descending.

`merge_chunk_results` merges chunk results as a pure function.

Modules:

| module | file | what it holds |
|---|---|---|
| `Wrappers` | `wrappers.dfy` | `Option`, `Result` |
| `Text` | `text.dfy` | `str.split`, `str.strip` |
| `Combinatorics` | `combinatorics.dfy` | `itertools.combinations`, contiguous chunking |
| `GroupIndex` | `groups.dfy` | member parsing, the entity → group index, group filtering, pair/triple group scores |
| `Compatibility` | `compatibility.dfy` | the pair and triple tables, the chunked worker pool, lookups, `get_uma_compatibility` |
| `ScoreCache` | `score_cache.dfy` | the cache key encoding and decoding |
| `Calculator` | `calculator.dfy` | the seven-role formula |
| `TopN` | `top_n.dfy` | "the N largest" as a multiset relation, the bounded min-heap class, sorting by score |
| `BestSoFar` | `best.dfy` | the running maximum with a strict `>` and its merge over chunks |
| `FiveHorses` | `five_horses.dfy` | the five-role search, the chunk worker, the coordinator, `merge_chunk_results` |

**Conventions used throughout.**

- The universe of entities is a caller-supplied sequence of distinct names. The code takes it from `list(set)`, whose order is not fixed.
- The worker pool's `imap_unordered` is an arbitrary choice among the chunks still pending, so every result holds for every arrival order.
- `TopN.IsTop(t, m, n)` says that the multiset of scores `t` is exactly the `min(n, |m|)` largest scores of `m`, counted with multiplicity.

## Model

| member | source | states |
|---|---|---|
| Text.Split | src/compatibility.py:69 | `split(',')` gives one more piece than there are commas, and no piece contains a comma |
| Text.JoinSplit | src/compatibility.py:204 | joining the pieces of a split with the separator gives back the original string |
| Text.SplitJoin | src/compatibility.py:204 | splitting a join of comma-free pieces gives back the pieces |
| Text.SplitWithoutSeparator | src/compatibility.py:204 | a string without the separator splits into itself alone |
| Text.SplitAtSeparator | src/compatibility.py:204 | a split cuts at the first separator and continues on the rest |
| Text.TrimStart | src/compatibility.py:69 | the result is a suffix of the input; everything removed is whitespace; it does not start with whitespace |
| Text.TrimEnd | src/compatibility.py:69 | the result is a prefix of the input; everything removed is whitespace; it does not end with whitespace |
| Text.Strip | src/compatibility.py:69 | a stripped name neither starts nor ends with whitespace, and a name already without edge whitespace is unchanged |
| Text.StripIsInfix | src/compatibility.py:69 | the stripped name is a contiguous slice of the input with only whitespace before and after it |
| GroupIndex.ParseMembers | src/compatibility.py:69 | a member list gives one name per comma-separated piece, each stripped and comma-free |
| GroupIndex.StripPiecesAreNames | src/compatibility.py:69 | stripping comma-free pieces gives comma-free names without edge whitespace |
| GroupIndex.StripKeepsName | src/compatibility.py:69 | stripping a name that has no edge whitespace leaves it unchanged |
| GroupIndex.ParseJoinedMembers | src/compatibility.py:69 | parsing the comma-join of such names gives back the names: member parsing loses nothing |
| GroupIndex.ParseRows | src/compatibility.py:68-69 | every raw row becomes a group row with the same id and score and the parsed member list |
| GroupIndex.IndexWithAppend | src/compatibility.py:76-82 | one more member token: the placeholder `"无"` leaves the index unchanged; any other token gets the row's id added to its set, created empty if missing |
| GroupIndex.IndexWithComplete | src/compatibility.py:74-82 | finishing a row's members extends the index of the preceding rows to the index of one more row |
| GroupIndex.BuildIndex | src/compatibility.py:73-82 | the nested loop over rows and members builds exactly the entity → group-id index |
| GroupIndex.MemberNamesExactly | src/compatibility.py:76-85 | an entity is in the universe iff it is a member of some row and is not exactly `"无"` |
| GroupIndex.GroupIdsOfExactly | src/compatibility.py:73-82 | a group id is indexed under an entity iff some row with that id lists the entity |
| GroupIndex.PlaceholderSkippedExactly | src/compatibility.py:77-79 | `"无"` is skipped while a name that merely contains `无` is kept |
| GroupIndex.RowsWithIds | src/compatibility.py:45 | the `isin(group_ids)` filter keeps exactly the rows whose id is in the set |
| GroupIndex.GetUmaGroups | src/compatibility.py:237-242 | the groups of an entity are the rows carrying one of its indexed ids; an unknown entity has none |
| GroupIndex.GetUmaGroupsFilters | src/compatibility.py:39-46 | the worker's copy `get_uma_groups_internal` filters the same rows as `get_uma_groups` |
| GroupIndex.PairFromGroups | src/compatibility.py:140-147 | summing the first entity's groups over the intersection of both entities' group ids gives the pair score |
| GroupIndex.TripleFromGroups | src/compatibility.py:159-167 | the same with the three-way intersection gives the triple score |
| GroupIndex.CalculatePairScore | src/compatibility.py:133-149 | the accumulation loop computes the pair score |
| GroupIndex.CalculateTripleScore | src/compatibility.py:151-169 | the accumulation loop computes the triple score |
| GroupIndex.PairScoreCountsSharedGroups | src/compatibility.py:133-149 | for an index built from rows with unique ids, a pair score is the sum of the scores of the rows listing both entities |
| GroupIndex.TripleScoreCountsSharedGroups | src/compatibility.py:151-169 | likewise, a triple score is the sum of the scores of the rows listing all three entities |
| Compatibility.PairScoreSymmetric | src/compatibility.py:140-147 | the pair score does not depend on the order of the two entities |
| Compatibility.Perms3 | src/compatibility.py:33-35 | the six orderings of a triple, starting with the triple itself |
| Compatibility.PermFacts | src/compatibility.py:33-35 | every ordering uses exactly the three entities, and is repetition-free iff the triple is |
| Compatibility.TripleScorePermuted | src/compatibility.py:33-36 | every ordering of a triple has the triple's own score |
| Compatibility.StorePair | src/compatibility.py:103-105 | storing a pair score under both orders adds exactly those two keys, each holding the pair's score |
| Compatibility.PairCoverStep | src/compatibility.py:102-105 | each pair of the loop adds its two orders to the stored keys |
| Compatibility.BuildPairTable | src/compatibility.py:100-105 | the loop over the sorted 2-combinations builds the whole pair table |
| Compatibility.PairTableComplete | src/compatibility.py:100-105 | after the loop, the stored keys and scores are exactly the pair table |
| Compatibility.PairTableFromScores | src/compatibility.py:100-105 | a table keyed by every ordered pair of distinct entities, and holding pair scores, is the pair table |
| Compatibility.PairTableKeys | src/compatibility.py:101-105 | both orders of all 2-combinations of the universe are exactly the ordered pairs of distinct entities |
| Compatibility.StorePerm | src/compatibility.py:33-36 | storing one more ordering adds that key with the triple's score and keeps every stored score correct |
| Compatibility.StoreAllOrders | src/compatibility.py:33-36 | the permutation loop adds exactly the six orderings, each with the triple's score |
| Compatibility.ProcessChunk | src/compatibility.py:11-37 | a chunk's results are keyed by exactly the orderings of its triples, each holding its triple score |
| Compatibility.MergeChunk | src/compatibility.py:128-129 | `update` with one more chunk's results adds that chunk's keys and keeps every score correct |
| Compatibility.ProgressStep | src/compatibility.py:128 | taking any pending chunk keeps the delivery bookkeeping consistent |
| Compatibility.AllArrived | src/compatibility.py:128-129 | once every chunk has arrived, the table holds exactly the keys of all chunks |
| Compatibility.CollectChunkResults | src/compatibility.py:121-131 | whatever order the chunks arrive in, the merged table has exactly the keys of all chunks, all correctly scored |
| Compatibility.ChunkedTriples | src/compatibility.py:110-114 | the chunks of the 3-combinations consist of triples |
| Compatibility.StoredTriplesAreKeys | src/compatibility.py:110-114 | every stored key is an ordered triple of distinct entities |
| Compatibility.TripleKeysAreStored | src/compatibility.py:110-114 | every ordered triple of distinct entities is stored by some chunk |
| Compatibility.TripleTableComplete | src/compatibility.py:109-129 | the merged chunk results are exactly the triple table |
| Compatibility.ScoredTripleTable | src/compatibility.py:109-114 | a table keyed by every ordered triple of distinct entities, and holding triple scores, is the triple table |
| Compatibility.BuildTripleTable | src/compatibility.py:109-129 | chunking, the worker pool and the merge build exactly the triple table; the chunking is the intended one, so fewer than three entities give an empty table (see Findings) |
| Compatibility.ListOf | src/compatibility.py:101 | listing a set gives each element once |
| Compatibility.NewCompatibilityData | src/compatibility.py:59-94 | construction parses the rows and builds the index, universe, pair table and triple table consistently; the triple table is built with the intended chunking (see Findings) |
| Compatibility.PairLookup | src/compatibility.py:219-221 | a pair lookup gives the pair score of two distinct known entities and 0 otherwise (repeated or unknown entity); it is symmetric |
| Compatibility.TripleLookupOne | src/compatibility.py:223-225 | a triple lookup gives the triple score of three distinct known entities and 0 otherwise |
| Compatibility.TripleLookup | src/compatibility.py:223-225 | triple lookups are also invariant under all six orderings of the arguments |
| Compatibility.TablesNonNegative | src/compatibility.py:145-147 | with non-negative group scores every stored score is non-negative |
| Compatibility.OccurrenceScoreAbsent | src/compatibility.py:259-263 | a group adds nothing for an entity that is not a co-member |
| Compatibility.CoScoreAbsent | src/compatibility.py:257-263 | the tally is 0 for an entity that shares no group |
| Compatibility.TallyToken | src/compatibility.py:259-263 | one member token adds the group score to every co-member other than the queried entity, creating its entry at 0 first |
| Compatibility.TallyGroup | src/compatibility.py:257-263 | one group of the loop is fully tallied once its members are done |
| Compatibility.GetUmaCompatibility | src/compatibility.py:244-265 | the dictionary has exactly the co-members, the placeholder included, each holding the sum of the shared group scores |
| Compatibility.UmaCompatibilityIsPairScore | src/compatibility.py:254-265 | for rows with unique ids and no repeated member, the tally for another entity equals the pair score |
| ScoreCache.PairKeyRoundTrip | src/compatibility.py:175-204 | decoding an encoded comma-free pair key gives back its two names |
| ScoreCache.TripleKeyRoundTrip | src/compatibility.py:180-209 | decoding an encoded comma-free triple key gives back its three names |
| ScoreCache.CommaBreaksRoundTrip | src/compatibility.py:175-204 | a name with a comma in it does not round-trip |
| ScoreCache.DecodeInjective | src/compatibility.py:204-209 | distinct cache keys decode to distinct tuples |
| ScoreCache.SavePairs | src/compatibility.py:175 | the saved pair cache has exactly the encoded keys of the table, with the table's values |
| ScoreCache.SaveTriples | src/compatibility.py:180 | the saved triple cache has exactly the encoded keys of the table, with the table's values |
| ScoreCache.LoadTable | src/compatibility.py:204-209 | the loaded table has exactly the decoded keys of the cache, with the cache's values |
| ScoreCache.SavedPairLookup | src/compatibility.py:175-221 | a lookup in a saved-then-loaded pair table matches the defaulting lookup in the original |
| ScoreCache.SavedTripleLookup | src/compatibility.py:180-225 | a lookup in a saved-then-loaded triple table matches the defaulting lookup in the original |
| ScoreCache.SaveToCache | src/compatibility.py:171-187 | the saved entity list holds exactly the universe |
| ScoreCache.LoadFromCache | src/compatibility.py:191-217 | the loaded universe holds exactly the saved list |
| ScoreCache.BuiltTablesCommaFree | src/compatibility.py:69 | tables built from parsed rows have comma-free key components |
| ScoreCache.SavedLookups | src/compatibility.py:171-225 | after a save and a load, every pair and triple lookup gives the original answer |
| ScoreCache.SavedUmas | src/compatibility.py:185-214 | after a save and a load, the universe is unchanged |
| ScoreCache.CacheRoundTrip | src/compatibility.py:171-225 | for data built from the CSV, a cache round trip keeps the universe and every lookup |
| Calculator.TermsMakeTotal | src/calculator.py:46-70 | the three pair terms and four triple terms the method walks add up to the documented formula |
| Calculator.CalculateCompatibilityScore | src/calculator.py:43-74 | the accumulation loops return the formula's total, whatever `verbose` is, and the tables are only read |
| Calculator.TotalFromGroups | src/calculator.py:26-28 | over built tables, the total is the formula over shared-group sums, with 0 for every repeated or unknown entity |
| Calculator.GrandparentSwap | src/calculator.py:59-64 | swapping grandparent1 with grandparent2, or grandparent3 with grandparent4, leaves the total unchanged |
| Calculator.ParentSwap | src/calculator.py:46-64 | swapping the parents together with their grandparents leaves the total unchanged |
| Calculator.UnknownTargetScoresParentsOnly | src/calculator.py:53-67 | an unknown target contributes 0 to every term it is in, leaving only the parents' pair |
| Combinatorics.CombinationsCount | src/five_horses_calculator.py:50 | there are C(n, k) k-combinations |
| Combinatorics.CombinationsMembership | src/five_horses_calculator.py:201 | a sequence is a k-combination iff it has length k and is a subsequence of the input |
| Combinatorics.CombinationElements | src/five_horses_calculator.py:201 | a combination has k elements, all from the input, and is repetition-free when the input is |
| Combinatorics.SubBagDistinct | src/five_horses_calculator.py:226-247 | a sub-multiset of a repetition-free list is repetition-free |
| Combinatorics.CombinationsDistinct | src/compatibility.py:101-110 | a repetition-free input gives a repetition-free list of combinations |
| Combinatorics.FlattenAppend | src/five_horses_calculator.py:205 | concatenating chunk lists concatenates their contents |
| Combinatorics.FlattenMembership | src/five_horses_calculator.py:205 | an element is in the concatenation iff it is in some chunk |
| Combinatorics.Chunks | src/five_horses_calculator.py:205 | contiguous slices of the given size concatenate back to the list; all are non-empty, all but the last have that size, and their number is ceil(len / size) |
| Combinatorics.ChunkSize | src/five_horses_calculator.py:204 | `ceil(total / workers)`: the smallest size with size × workers ≥ total |
| Combinatorics.ChunkCountBound | src/five_horses_calculator.py:204-205 | that size gives at most one chunk per worker |
| Combinatorics.ChunksAsWritten | src/compatibility.py:113-114 | the slicing as written fails exactly on an empty list |
| Combinatorics.Partition | src/compatibility.py:113-114 | the intended slicing concatenates back to the list in at most one non-empty chunk per worker |
| Combinatorics.PartitionAgrees | src/compatibility.py:113-114 | the two slicings agree exactly on non-empty lists |
| Combinatorics.EmptyTripleListRaises | src/compatibility.py:110-114 | fewer than three entities make the slicing as written fail, while the intended one gives no chunks |
| TopN.Scores | src/five_horses_calculator.py:246-247 | the score multiset of a list of scored line-ups has one score per entry |
| TopN.TopUnique | src/five_horses_calculator.py:226-249 | the N largest scores of a multiset are unique |
| TopN.OfferBelowCapacity | src/five_horses_calculator.py:229-232 | pushing onto a heap that is not full keeps it the top N of all items offered |
| TopN.OfferReplaces | src/five_horses_calculator.py:233-236 | replacing the minimum with a strictly greater score keeps it the top N |
| TopN.OfferSkips | src/five_horses_calculator.py:233 | dropping a score not above the minimum of a full heap keeps it the top N |
| TopN.TopOfParts | src/five_horses_calculator.py:226-236 | the top N of the chunks' top-N lists, together with other scores, is the top N of the chunks' full contents with those scores |
| TopN.TopOfAllParts | src/five_horses_calculator.py:226-236 | the top N of the chunk top-N lists is the top N of all candidates |
| TopN.BagSumPermutation | src/five_horses_calculator.py:226 | the union of the chunk score multisets does not depend on the order they arrive in |
| TopN.BagsFlatten | src/five_horses_calculator.py:205 | the multiset of a concatenation of lists is the union of their multisets |
| TopN.BagSumMonotone | src/five_horses_calculator.py:226-236 | element-wise sub-multisets have a sub-multiset union |
| TopN.SortDescending | src/five_horses_calculator.py:247 | sorting by score gives a non-increasing permutation |
| TopN.SortKeepsScores | src/five_horses_calculator.py:247 | sorting keeps the score multiset |
| TopN.SortedTop | src/five_horses_calculator.py:246-247 | sorting the heap contents keeps them the top N |
| TopN.PrefixOfSortedIsTop | src/five_horses_calculator.py:343-344 | the first N entries of a list sorted by descending score are its top N, taken from the list with multiplicity |
| TopN.MinIndex | src/five_horses_calculator.py:233 | finds an entry of least score, the `min_heap[0]` of a non-empty heap |
| TopN.BoundedHeap.constructor | src/five_horses_calculator.py:215-216 | a new heap is empty, its counter is 0, and its capacity is `top_n` |
| TopN.BoundedHeap.Offer | src/five_horses_calculator.py:229-236 | if not full, push with the current index and increment the index; if full and the score is strictly greater than a minimum, replace that minimum and increment the index; otherwise change nothing. The invariant is kept |
| TopN.BoundedHeap.Contents | src/five_horses_calculator.py:246 | the heap holds at most `top_n` entries, all offered and none held more often than it was offered, whose scores are the top N of every score offered |
| TopN.PushKeeps | src/five_horses_calculator.py:229-232 | a push preserves the heap invariant: bounded size, distinct indices below the counter, entries a sub-multiset of the offered items, top N |
| TopN.ReplaceBag | src/five_horses_calculator.py:233-236 | replacing one entry by the newly offered item keeps the entries a sub-multiset of the offered items |
| TopN.ReplaceKeeps | src/five_horses_calculator.py:233-236 | a replacement of the minimum preserves the heap invariant |
| TopN.SkipKeeps | src/five_horses_calculator.py:233 | a skipped item preserves the heap invariant |
| BestSoFar.RunningBestStep | src/five_horses_calculator.py:80-88 | one more candidate is one more step of the strict-`>` update |
| BestSoFar.RunningBestIsFirstMax | src/five_horses_calculator.py:56-88 | the best score is at least -1 and at least every score; it is held by the first candidate reaching it; there is no combination exactly when no score exceeds -1 |
| BestSoFar.FoldFrom | src/five_horses_calculator.py:332-337 | continuing a running best over more items is merging it with their best |
| BestSoFar.FoldAppend | src/five_horses_calculator.py:276-302 | a running best over two lists runs over the first and then the second |
| BestSoFar.BestsOf | src/five_horses_calculator.py:318 | each chunk's `'best'` is its running best |
| BestSoFar.MergeOfChunks | src/five_horses_calculator.py:332-337 | merging chunk bests in chunk order gives the first maximum of the whole list |
| FiveHorses.NewFiveHorsesCalculator | src/five_horses_calculator.py:19-21 | the calculator lists every entity of the data exactly once |
| FiveHorses.Others | src/five_horses_calculator.py:45 | the other entities are exactly the universe without `parent`, in order; one fewer when `parent` is in it |
| FiveHorses.Scored | src/five_horses_calculator.py:69-78 | each candidate tuple fills grandparent1, grandparent2, chromo1, chromo2 in order and is scored through the slot mapping |
| FiveHorses.CandidatesAreFours | src/five_horses_calculator.py:60-66 | every candidate has four entities |
| FiveHorses.CandidatesExactly | src/five_horses_calculator.py:45-66 | there are C(U-1, 4) candidates: exactly the 4-subsequences of the others, each giving five distinct known entities |
| FiveHorses.CandidateHorses | src/five_horses_calculator.py:60-66 | a candidate line-up has five distinct entities of the universe |
| FiveHorses.CalculateBestCombination | src/five_horses_calculator.py:41-96 | errors for an unknown `parent` or fewer than 4 others, before any scoring; otherwise the running best over all candidates in order |
| FiveHorses.CalculateSpecificCombination | src/five_horses_calculator.py:143-165 | errors for the first unknown entity, then for repeated entities; otherwise the line-up's score |
| FiveHorses.ScoreLineUp | src/five_horses_calculator.py:280-289 | a line-up is scored as the seven-role formula through the slot mapping |
| FiveHorses.ScoreOne | src/five_horses_calculator.py:279-310 | one candidate updates the running best and is offered to the chunk heap |
| FiveHorses.ScoreChunk | src/five_horses_calculator.py:267-310 | the worker loop offers every candidate of the chunk in order and tracks their running best |
| FiveHorses.ProcessFiveHorsesChunk | src/five_horses_calculator.py:251-321 | a chunk result holds the chunk's first maximum, its top N sorted by descending score and taken from the chunk's scored line-ups with multiplicity, and the chunk itself |
| FiveHorses.ChunksOfFours | src/five_horses_calculator.py:204-205 | chunks of candidates consist of candidates |
| FiveHorses.DeliveryStep | src/five_horses_calculator.py:226 | taking any pending chunk keeps the delivery bookkeeping consistent |
| FiveHorses.ReceivedStep | src/five_horses_calculator.py:226-236 | a received chunk result extends the record of what has been folded in |
| FiveHorses.ScoredFlatten | src/five_horses_calculator.py:205 | scoring the concatenated chunks is concatenating the scored chunks |
| FiveHorses.AllScoresAsSum | src/five_horses_calculator.py:205 | all candidate scores are the union of the chunk score multisets |
| FiveHorses.ArrivedTop | src/five_horses_calculator.py:226-236 | the coordinator heap holds the top N of the chunks received so far, in arrival order |
| FiveHorses.ReceivedAt | src/five_horses_calculator.py:226 | each received top list is the top N of its chunk |
| FiveHorses.CoordinatorTop | src/five_horses_calculator.py:226-236 | once all chunks have arrived, in whatever order, the coordinator heap holds the top N of all candidates |
| FiveHorses.ReceivedAreCandidates | src/five_horses_calculator.py:228-236 | every item the coordinator sees is a scored candidate |
| FiveHorses.OfferAll | src/five_horses_calculator.py:228-236 | a chunk's top list is offered to the coordinator heap item by item |
| FiveHorses.ReceivedBag | src/five_horses_calculator.py:226-236 | once every chunk has arrived, the received line-ups are a sub-multiset of the scored candidates |
| FiveHorses.CoordinatorSorted | src/five_horses_calculator.py:245-247 | the sorted heap contents are the top N of all candidates and a sub-multiset of the scored candidates |
| FiveHorses.CollectTop | src/five_horses_calculator.py:214-247 | whatever order the chunk results arrive in, the result is sorted non-increasing, is a sub-multiset of the scored candidates, and its scores are the top N of all candidates |
| FiveHorses.GetTopCombinations | src/five_horses_calculator.py:181-249 | the same errors as the best search; otherwise min(N, C(U-1, 4)) pairwise distinct scored candidates, sorted non-increasing, whose scores are the N largest candidate scores |
| FiveHorses.ScoredDistinct | src/five_horses_calculator.py:60-78 | distinct candidates give distinct scored line-ups |
| FiveHorses.BestsOfResults | src/five_horses_calculator.py:334 | the `'best'` entry of each chunk result |
| FiveHorses.TopsOfResults | src/five_horses_calculator.py:340 | the `'top_n'` entry of each chunk result |
| FiveHorses.MergeChunkResults | src/five_horses_calculator.py:323-346 | the merged best is the first chunk best of maximal score; the merged list is sorted, a sub-multiset of the concatenated chunk lists, and holds their top N scores |
| FiveHorses.MergeBestMatches | src/five_horses_calculator.py:323-337 | merging the bests of the chunk results gives the first maximum over all candidates |
| FiveHorses.MergeTopMatches | src/five_horses_calculator.py:339-344 | the top N of the chunk top lists is the top N of all candidates |

## Left out

- Multiprocessing. `Pool`, `imap_unordered` and the rebuild of `CompatibilityData` in each worker are not modelled. The pool is a sequential fold in which each step takes any still-pending chunk, so the results hold for every arrival order.
- `cpu_count()` is a parameter (`cpuCount`). A `num_processes` of 0 stands for `None`. An explicit `num_processes=0` is not modelled: in `get_top_combinations` it would divide by zero.
- `tqdm` progress bars and all printing are left out, including `display_result` and the verbose output of every method. They are console output. `verbose` is kept as a parameter where it is one.
- Reading the CSV with pandas is not modelled. The rows are a sequence of `(id, score, member list)` values, and the `DataFrame` filter `isin` is `GroupIndex.RowsWithIds`.
- JSON file writing and reading, `os.makedirs`, `os.path.exists` and the cache-hit branch of `CompatibilityData.__init__` are file I/O and are left out. Only the key encoding and decoding are modelled, as pure functions over maps.
- The order of `sorted(...)` and `list(set)` is not modelled. Both become a duplicate-free listing whose order is left open (`Compatibility.ListOf`). The search results hold for every such order.
- The binary-heap layout of `heapq` is not modelled. The heap is an unordered sequence of `(score, index, item)` entries whose minimum is found by a scan.
- FiveHorses.MergeChunkResults: does not state the tie order among equal scores from Python's stable sort, because the order of the chunk lists is not fixed.
- FiveHorses.CollectTop: does not state the tie order among equal scores. The coordinator's index is a local counter and the final sort uses only the score.
- FiveHorses.GetTopCombinations: does not state the tie order among equal scores. The coordinator's index is a local counter and the final sort uses only the score.
- Compatibility.NewCompatibilityData: builds the triple table with the intended chunking (`Combinatorics.Partition`). With fewer than three entities the source raises `ValueError` at src/compatibility.py:113-114 instead (see Findings).
- Compatibility.BuildTripleTable: follows `Combinatorics.Partition` for the same reason. With fewer than three entities the source raises `ValueError` at src/compatibility.py:113-114 instead (see Findings).
- `top_n >= 1` is required. With `top_n = 0`, `min_heap[0]` is read on an empty heap.
- `calculate_specific_combination` checks `len(set(horses)) != 5`. It is modelled as "the five entities are not pairwise distinct", which is the same condition.
- ScoreCache.SavePairs: requires comma-free names. A key containing a comma would not survive the round trip (`ScoreCache.CommaBreaksRoundTrip`). Every table built from the CSV meets the requirement (`ScoreCache.BuiltTablesCommaFree`).
- ScoreCache.SaveTriples: requires comma-free names, for the same reason.
- `str.strip()` is modelled with Python's whitespace set for `str` (`Text.IsSpace`). Unicode normalisation plays no part.
- `get_all_umas` is the field `allUmas` of the data. The driver `main.py` and the test scripts are not part of this model.

## Findings

| source | as written | input that shows it | evidently intended | confidence | as-written member | corrected member |
|---|---|---|---|---|---|---|
| src/compatibility.py:113-114 | with fewer than three entities the triple list is empty, so `chunk_size` is `ceil(0 / n) = 0` and `range(0, 0, 0)` raises `ValueError` | group rows naming only two entities | an empty triple table | not executed | Combinatorics.EmptyTripleListRaises | Combinatorics.Partition |
