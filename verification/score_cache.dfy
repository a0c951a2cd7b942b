/** The cache format of `CompatibilityData`: pair and triple keys written as
    comma-joined strings (`_save_to_cache`) and read back with
    `split(",")` (`_load_from_cache`). The files themselves are not
    modelled; a cache file is the map it holds. */
module ScoreCache {
  import opened Text
  import opened GroupIndex
  import opened Compatibility

  /** `f"{k[0]},{k[1]}"`. */
  function EncodePairKey(k: PairKey): string
  {
    Join([k.0, k.1], ',')
  }

  /** `f"{k[0]},{k[1]},{k[2]}"`. */
  function EncodeTripleKey(k: TripleKey): string
  {
    Join([k.0, k.1, k.2], ',')
  }

  /** `tuple(s.split(","))`: a key read back from a cache file, as the
      sequence of its components. */
  function DecodeKey(s: string): seq<string>
  {
    Split(s, ',')
  }

  /** No component of any key holds a comma. */
  predicate PairKeysCommaFree(t: PairTable)
  {
    forall k :: k in t ==> ',' !in k.0 && ',' !in k.1
  }

  predicate TripleKeysCommaFree(t: TripleTable)
  {
    forall k :: k in t ==> ',' !in k.0 && ',' !in k.1 && ',' !in k.2
  }

  /** Decoding an encoded pair key gives back its two components. */
  lemma PairKeyRoundTrip(k: PairKey)
    requires ',' !in k.0 && ',' !in k.1
    ensures DecodeKey(EncodePairKey(k)) == [k.0, k.1]
  {
    SplitJoin([k.0, k.1], ',');
  }

  /** Decoding an encoded triple key gives back its three components. */
  lemma TripleKeyRoundTrip(k: TripleKey)
    requires ',' !in k.0 && ',' !in k.1 && ',' !in k.2
    ensures DecodeKey(EncodeTripleKey(k)) == [k.0, k.1, k.2]
  {
    SplitJoin([k.0, k.1, k.2], ',');
  }

  /** A name with a comma breaks the round trip: it decodes into more
      components than were written. */
  lemma CommaBreaksRoundTrip()
    ensures DecodeKey(EncodePairKey(("a,b", "c"))) == ["a", "b", "c"]
  {
    var s := EncodePairKey(("a,b", "c"));
    assert s == "a,b,c";
    SplitAtSeparator("a", ',', "b,c");
    SplitAtSeparator("b", ',', "c");
    SplitWithoutSeparator("c", ',');
  }

  /** Different strings decode to different keys. */
  lemma DecodeInjective()
    ensures forall s1, s2 :: DecodeKey(s1) == DecodeKey(s2) ==> s1 == s2
  {
    forall s1, s2 | DecodeKey(s1) == DecodeKey(s2) ensures s1 == s2 {
      JoinSplit(s1, ',');
      JoinSplit(s2, ',');
    }
  }

  lemma PairEncodingInjective(t: PairTable)
    requires PairKeysCommaFree(t)
    ensures forall k1, k2 :: k1 in t && k2 in t && EncodePairKey(k1) == EncodePairKey(k2) ==> k1 == k2
  {
    forall k1, k2 | k1 in t && k2 in t && EncodePairKey(k1) == EncodePairKey(k2) ensures k1 == k2 {
      PairKeyRoundTrip(k1);
      PairKeyRoundTrip(k2);
    }
  }

  lemma TripleEncodingInjective(t: TripleTable)
    requires TripleKeysCommaFree(t)
    ensures forall k1, k2 :: k1 in t && k2 in t && EncodeTripleKey(k1) == EncodeTripleKey(k2) ==> k1 == k2
  {
    forall k1, k2 | k1 in t && k2 in t && EncodeTripleKey(k1) == EncodeTripleKey(k2) ensures k1 == k2 {
      TripleKeyRoundTrip(k1);
      TripleKeyRoundTrip(k2);
    }
  }

  /** The `pair_cache` dictionary: every pair score under its encoded key. */
  function SavePairs(t: PairTable): (cache: map<string, int>)
    requires PairKeysCommaFree(t)
    ensures forall k :: k in t ==> EncodePairKey(k) in cache && cache[EncodePairKey(k)] == t[k]
    ensures forall s :: s in cache ==> exists k :: k in t && s == EncodePairKey(k)
  {
    PairEncodingInjective(t);
    map k | k in t :: EncodePairKey(k) := t[k]
  }

  /** The `triple_cache` dictionary: every triple score under its encoded
      key. */
  function SaveTriples(t: TripleTable): (cache: map<string, int>)
    requires TripleKeysCommaFree(t)
    ensures forall k :: k in t ==> EncodeTripleKey(k) in cache && cache[EncodeTripleKey(k)] == t[k]
    ensures forall s :: s in cache ==> exists k :: k in t && s == EncodeTripleKey(k)
  {
    TripleEncodingInjective(t);
    map k | k in t :: EncodeTripleKey(k) := t[k]
  }

  /** A table read back from a cache file: every entry under its decoded
      key. */
  function LoadTable(cache: map<string, int>): (t: map<seq<string>, int>)
    ensures forall s :: s in cache ==> DecodeKey(s) in t && t[DecodeKey(s)] == cache[s]
    ensures forall key :: key in t ==> exists s :: s in cache && key == DecodeKey(s)
  {
    DecodeInjective();
    map s | s in cache :: DecodeKey(s) := cache[s]
  }

  /** `dict.get(key, 0)` on a table read back from the cache. */
  function LoadedLookup(t: map<seq<string>, int>, key: seq<string>): int
  {
    if key in t then t[key] else 0
  }

  /** After saving and loading, a pair lookup gives what it gave before. */
  lemma SavedPairLookup(t: PairTable, a: string, b: string)
    requires PairKeysCommaFree(t)
    ensures LoadedLookup(LoadTable(SavePairs(t)), [a, b]) == if (a, b) in t then t[(a, b)] else 0
  {
    var cache := SavePairs(t);
    var loaded := LoadTable(cache);
    if (a, b) in t {
      PairKeyRoundTrip((a, b));
    } else if [a, b] in loaded {
      var s :| s in cache && [a, b] == DecodeKey(s);
      var k :| k in t && s == EncodePairKey(k);
      PairKeyRoundTrip(k);
      assert false;
    }
  }

  /** After saving and loading, a triple lookup gives what it gave before. */
  lemma SavedTripleLookup(t: TripleTable, a: string, b: string, c: string)
    requires TripleKeysCommaFree(t)
    ensures LoadedLookup(LoadTable(SaveTriples(t)), [a, b, c]) == if (a, b, c) in t then t[(a, b, c)] else 0
  {
    var cache := SaveTriples(t);
    var loaded := LoadTable(cache);
    if (a, b, c) in t {
      TripleKeyRoundTrip((a, b, c));
    } else if [a, b, c] in loaded {
      var s :| s in cache && [a, b, c] == DecodeKey(s);
      var k :| k in t && s == EncodeTripleKey(k);
      TripleKeyRoundTrip(k);
      assert false;
    }
  }

  // ---------------------------------------------------------------------
  // The cache as a whole

  /** The three cache files: `pair_compatibility.json`,
      `triple_compatibility.json` and `uma_list.json`. */
  datatype CacheFiles = CacheFiles(pairFile: map<string, int>, tripleFile: map<string, int>, umaList: seq<string>)

  /** What `_load_from_cache` restores: the two tables with the keys as
      read back, and the set of entities. */
  datatype LoadedData = LoadedData(pairs: map<seq<string>, int>, triples: map<seq<string>, int>, allUmas: set<string>)

  /** `_save_to_cache`; `umaList` is `list(self.all_umas)`, whose order the
      model leaves open. */
  function SaveToCache(data: CompatibilityData, umaList: seq<string>): (files: CacheFiles)
    requires PairKeysCommaFree(data.pairCompatibility) && TripleKeysCommaFree(data.tripleCompatibility)
    requires forall u :: u in umaList <==> u in data.allUmas
    ensures forall u :: u in files.umaList <==> u in data.allUmas
  {
    CacheFiles(SavePairs(data.pairCompatibility), SaveTriples(data.tripleCompatibility), umaList)
  }

  /** `_load_from_cache` once the three files exist. */
  function LoadFromCache(files: CacheFiles): (loaded: LoadedData)
    ensures forall u :: u in loaded.allUmas <==> u in files.umaList
  {
    LoadedData(LoadTable(files.pairFile), LoadTable(files.tripleFile), set u | u in files.umaList)
  }

  /** Every entity of a table built from group rows is a parsed name, so
      it holds no comma. */
  lemma BuiltTablesCommaFree(raw: seq<RawRow>, data: CompatibilityData)
    requires Consistent(data) && data.rows == ParseRows(raw)
    ensures PairKeysCommaFree(data.pairCompatibility)
    ensures TripleKeysCommaFree(data.tripleCompatibility)
  {
    forall e | e in data.allUmas ensures ',' !in e {
      MemberNamesExactly(data.rows, e);
      var i :| 0 <= i < |data.rows| && e in data.rows[i].members;
      assert IsName(e);
    }
  }

  /** Saving and loading keeps the entities and every lookup, for tables
      whose names hold no comma. */
  lemma SavedLookups(data: CompatibilityData, umaList: seq<string>, a: string, b: string, c: string)
    requires PairKeysCommaFree(data.pairCompatibility) && TripleKeysCommaFree(data.tripleCompatibility)
    requires forall u :: u in umaList <==> u in data.allUmas
    ensures LoadedLookup(LoadFromCache(SaveToCache(data, umaList)).pairs, [a, b]) == GetPairCompatibility(data, a, b)
    ensures LoadedLookup(LoadFromCache(SaveToCache(data, umaList)).triples, [a, b, c])
              == GetTripleCompatibility(data, a, b, c)
  {
    var files := SaveToCache(data, umaList);
    var loaded := LoadFromCache(files);
    assert loaded.pairs == LoadTable(files.pairFile);
    assert loaded.triples == LoadTable(files.tripleFile);
    SavedPairLookup(data.pairCompatibility, a, b);
    SavedTripleLookup(data.tripleCompatibility, a, b, c);
  }

  /** Saving the cache and loading it back gives the same set of entities. */
  lemma SavedUmas(data: CompatibilityData, umaList: seq<string>)
    requires PairKeysCommaFree(data.pairCompatibility) && TripleKeysCommaFree(data.tripleCompatibility)
    requires forall u :: u in umaList <==> u in data.allUmas
    ensures LoadFromCache(SaveToCache(data, umaList)).allUmas == data.allUmas
  {
  }

  /** A cache written from tables built from group rows and read back
      gives the same entities and the same answer to every pair and
      triple lookup: the consistency the cache is meant to have. */
  lemma CacheRoundTrip(raw: seq<RawRow>, data: CompatibilityData, umaList: seq<string>, a: string, b: string, c: string)
    requires Consistent(data) && data.rows == ParseRows(raw)
    requires forall u :: u in umaList <==> u in data.allUmas
    ensures PairKeysCommaFree(data.pairCompatibility) && TripleKeysCommaFree(data.tripleCompatibility)
    ensures var loaded := LoadFromCache(SaveToCache(data, umaList));
            && loaded.allUmas == data.allUmas
            && LoadedLookup(loaded.pairs, [a, b]) == GetPairCompatibility(data, a, b)
            && LoadedLookup(loaded.triples, [a, b, c]) == GetTripleCompatibility(data, a, b, c)
  {
    BuiltTablesCommaFree(raw, data);
    SavedLookups(data, umaList, a, b, c);
    SavedUmas(data, umaList);
  }
}
