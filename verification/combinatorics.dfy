/** `itertools.combinations` and the contiguous chunking used to hand work to
    the worker pool (`[xs[i:i + size] for i in range(0, len(xs), size)]` with
    `size = math.ceil(len(xs) / workers)`). */
module Combinatorics {
  import opened Wrappers

  function Min(a: int, b: int): int { if a <= b then a else b }

  /** No element occurs twice. */
  predicate Distinct<T(==)>(s: seq<T>)
  {
    forall i, j :: 0 <= i < j < |s| ==> s[i] != s[j]
  }

  /** Binomial coefficient by Pascal's rule. */
  function Binom(n: nat, k: nat): nat
  {
    if k == 0 then 1
    else if n == 0 then 0
    else Binom(n - 1, k - 1) + Binom(n - 1, k)
  }

  /** `c` is obtained from `s` by deleting elements, keeping the order. */
  predicate IsSubsequence<T(==)>(c: seq<T>, s: seq<T>)
    decreases |s|
  {
    if c == [] then true
    else if s == [] then false
    else (c[0] == s[0] && IsSubsequence(c[1..], s[1..])) || IsSubsequence(c, s[1..])
  }

  /** Prepends `x` to every sequence of `cs`. */
  function PrependAll<T>(x: T, cs: seq<seq<T>>): (r: seq<seq<T>>)
    ensures |r| == |cs|
    ensures forall i :: 0 <= i < |r| ==> r[i] == [x] + cs[i]
  {
    seq(|cs|, i requires 0 <= i < |cs| => [x] + cs[i])
  }

  /** `list(itertools.combinations(s, k))`: the k-element selections of `s`
      in positional lexicographic order, those that keep `s[0]` first. */
  function Combinations<T>(s: seq<T>, k: nat): seq<seq<T>>
    decreases |s|
  {
    if k == 0 then [[]]
    else if |s| == 0 then []
    else PrependAll(s[0], Combinations(s[1..], k - 1)) + Combinations(s[1..], k)
  }

  /** There are C(|s|, k) combinations. */
  lemma {:induction false} CombinationsCount<T>(s: seq<T>, k: nat)
    ensures |Combinations(s, k)| == Binom(|s|, k)
    decreases |s|
  {
    if k != 0 && |s| != 0 {
      CombinationsCount(s[1..], k - 1);
      CombinationsCount(s[1..], k);
    }
  }

  /** Exactly the order-preserving k-element selections of `s` are listed. */
  lemma {:induction false} CombinationsMembership<T>(s: seq<T>, k: nat, c: seq<T>)
    ensures c in Combinations(s, k) <==> |c| == k && IsSubsequence(c, s)
    decreases |s|
  {
    if k == 0 {
    } else if |s| == 0 {
    } else {
      var first := PrependAll(s[0], Combinations(s[1..], k - 1));
      var rest := Combinations(s[1..], k);
      assert Combinations(s, k) == first + rest;
      CombinationsMembership(s[1..], k, c);
      PrependAllMembership(s[0], Combinations(s[1..], k - 1), c);
      if c != [] {
        CombinationsMembership(s[1..], k - 1, c[1..]);
      }
    }
  }

  /** The sequences obtained by prepending `x` are those that start with
      `x` and continue with one of `cs`. */
  lemma PrependAllMembership<T>(x: T, cs: seq<seq<T>>, c: seq<T>)
    ensures c in PrependAll(x, cs) <==> c != [] && c[0] == x && c[1..] in cs
  {
    var r := PrependAll(x, cs);
    if c != [] && c[0] == x && c[1..] in cs {
      var i :| 0 <= i < |cs| && cs[i] == c[1..];
      assert r[i] == c;
    }
    if c in r {
      var i :| 0 <= i < |r| && r[i] == c;
      assert c[1..] == cs[i];
    }
  }

  /** A subsequence of a suffix, preceded by the element before that suffix,
      is again a subsequence. */
  lemma {:induction false} SubsequenceFrom<T>(s: seq<T>, i: nat, t: seq<T>)
    requires i < |s|
    requires IsSubsequence(t, s[i + 1..])
    ensures IsSubsequence([s[i]] + t, s)
    decreases i
  {
    if i == 0 {
      assert ([s[0]] + t)[1..] == t;
    } else {
      assert s[1..][i - 1 + 1..] == s[i + 1..];
      SubsequenceFrom(s[1..], i - 1, t);
      assert s[1..][i - 1] == s[i];
    }
  }

  lemma {:induction false} SubsequenceOfSuffix<T>(s: seq<T>, i: nat, t: seq<T>)
    requires i <= |s|
    requires IsSubsequence(t, s[i..])
    ensures IsSubsequence(t, s)
    decreases i
  {
    if i > 0 {
      assert s[1..][i - 1..] == s[i..];
      SubsequenceOfSuffix(s[1..], i - 1, t);
    }
  }

  /** The elements at increasing positions i < j, in that order, are a
      subsequence. */
  lemma SubsequencePair<T>(s: seq<T>, i: nat, j: nat)
    requires i < j < |s|
    ensures IsSubsequence([s[i], s[j]], s)
  {
    var u := s[i + 1..];
    assert u[j - i - 1] == s[j];
    assert u[j - i - 1 + 1..] == s[j + 1..];
    SubsequenceFrom(u, j - i - 1, []);
    assert [s[j]] + [] == [s[j]];
    SubsequenceFrom(s, i, [s[j]]);
    assert [s[i]] + [s[j]] == [s[i], s[j]];
  }

  /** The elements at increasing positions i < j form a 2-combination. */
  lemma PairIsCombination<T>(s: seq<T>, i: nat, j: nat)
    requires i < j < |s|
    ensures [s[i], s[j]] in Combinations(s, 2)
  {
    SubsequencePair(s, i, j);
    CombinationsMembership(s, 2, [s[i], s[j]]);
  }

  /** The elements at increasing positions i < j < l form a 3-combination. */
  lemma TripleIsCombination<T>(s: seq<T>, i: nat, j: nat, l: nat)
    requires i < j < l < |s|
    ensures [s[i], s[j], s[l]] in Combinations(s, 3)
  {
    SubsequenceTriple(s, i, j, l);
    CombinationsMembership(s, 3, [s[i], s[j], s[l]]);
  }

  /** The elements at increasing positions i < j < l, in that order, are a
      subsequence. */
  lemma SubsequenceTriple<T>(s: seq<T>, i: nat, j: nat, l: nat)
    requires i < j < l < |s|
    ensures IsSubsequence([s[i], s[j], s[l]], s)
  {
    var u := s[i + 1..];
    assert u[j - i - 1] == s[j] && u[l - i - 1] == s[l];
    SubsequencePair(u, j - i - 1, l - i - 1);
    SubsequenceFrom(s, i, [s[j], s[l]]);
    assert [s[i]] + [s[j], s[l]] == [s[i], s[j], s[l]];
  }

  /** The elements of a subsequence come from the sequence, and when the
      sequence has no repeats neither does the subsequence. */
  lemma {:induction false} SubsequenceElements<T>(c: seq<T>, s: seq<T>)
    requires IsSubsequence(c, s)
    ensures forall x :: x in c ==> x in s
    ensures Distinct(s) ==> Distinct(c)
    decreases |s|
  {
    if c != [] {
      if c[0] == s[0] && IsSubsequence(c[1..], s[1..]) {
        SubsequenceElements(c[1..], s[1..]);
        assert c == [c[0]] + c[1..];
        if Distinct(s) {
          assert Distinct(s[1..]);
          assert s[0] !in s[1..];
        }
      } else {
        SubsequenceElements(c, s[1..]);
      }
    }
  }

  /** Every combination has k distinct elements of `s`, when `s` is
      duplicate-free. */
  lemma CombinationElements<T>(s: seq<T>, k: nat, c: seq<T>)
    requires c in Combinations(s, k)
    ensures |c| == k
    ensures forall x :: x in c ==> x in s
    ensures Distinct(s) ==> Distinct(c)
  {
    CombinationsMembership(s, k, c);
    SubsequenceElements(c, s);
  }

  /** A duplicate-free sequence yields each combination once. */
  lemma {:induction false} CombinationsDistinct<T>(s: seq<T>, k: nat)
    requires Distinct(s)
    ensures Distinct(Combinations(s, k))
    decreases |s|
  {
    if k != 0 && |s| != 0 {
      var inner := Combinations(s[1..], k - 1);
      var first := PrependAll(s[0], inner);
      var rest := Combinations(s[1..], k);
      assert Distinct(s[1..]);
      CombinationsDistinct(s[1..], k - 1);
      CombinationsDistinct(s[1..], k);
      var r := first + rest;
      forall i, j | 0 <= i < j < |r| ensures r[i] != r[j] {
        if j < |first| {
          assert r[i][1..] == inner[i] && r[j][1..] == inner[j];
        } else if i >= |first| {
          assert r[i] == rest[i - |first|] && r[j] == rest[j - |first|];
        } else {
          assert r[i][0] == s[0];
          CombinationElements(s[1..], k, rest[j - |first|]);
          assert |r[j]| == k && r[j][0] in s[1..];
          assert s[0] !in s[1..];
        }
      }
    }
  }

  /** A duplicate-free sequence holds each value at most once. */
  lemma {:induction false} DistinctCount<T>(s: seq<T>, v: T)
    requires Distinct(s)
    ensures multiset(s)[v] <= 1
    decreases |s|
  {
    if s != [] {
      assert s == [s[0]] + s[1..];
      assert Distinct(s[1..]);
      DistinctCount(s[1..], v);
      if s[0] == v {
        assert v !in s[1..];
      }
    }
  }

  /** A sequence whose elements, counted with multiplicity, all occur in a
      duplicate-free sequence is itself duplicate-free. */
  lemma SubBagDistinct<T>(xs: seq<T>, ys: seq<T>)
    requires multiset(xs) <= multiset(ys) && Distinct(ys)
    ensures Distinct(xs)
  {
    forall i, j | 0 <= i < j < |xs| ensures xs[i] != xs[j] {
      if xs[i] == xs[j] {
        var v := xs[i];
        assert xs == xs[..i] + [v] + xs[i + 1..j] + [v] + xs[j + 1..];
        assert multiset(xs)[v] >= 2;
        DistinctCount(ys, v);
        assert false;
      }
    }
  }

  /** Concatenation of a sequence of sequences. */
  function Flatten<T>(cs: seq<seq<T>>): seq<T>
  {
    if cs == [] then [] else cs[0] + Flatten(cs[1..])
  }

  lemma {:induction false} FlattenAppend<T>(a: seq<seq<T>>, b: seq<seq<T>>)
    ensures Flatten(a + b) == Flatten(a) + Flatten(b)
  {
    if a != [] {
      assert (a + b)[1..] == a[1..] + b;
      FlattenAppend(a[1..], b);
    } else {
      assert a + b == b;
    }
  }

  /** Appending one more piece appends its elements. */
  lemma FlattenSnoc<T>(a: seq<seq<T>>, b: seq<T>)
    ensures Flatten(a + [b]) == Flatten(a) + b
  {
    FlattenAppend(a, [b]);
    assert [b][1..] == [];
  }

  /** The indices `0 .. n - 1` as a set. */
  function IndexSet(n: nat): (r: set<nat>)
    ensures forall q: nat :: q in r <==> q < n
  {
    if n == 0 then {} else IndexSet(n - 1) + {n - 1}
  }

  /** An element of the concatenation lies in one of the pieces. */
  lemma {:induction false} FlattenMembership<T>(cs: seq<seq<T>>, x: T)
    ensures x in Flatten(cs) <==> exists q :: 0 <= q < |cs| && x in cs[q]
  {
    if cs != [] {
      FlattenMembership(cs[1..], x);
      if x in Flatten(cs[1..]) {
        var q :| 0 <= q < |cs[1..]| && x in cs[1..][q];
        assert x in cs[q + 1];
      }
      if exists q :: 0 <= q < |cs| && x in cs[q] {
        var q :| 0 <= q < |cs| && x in cs[q];
        if q > 0 { assert x in cs[1..][q - 1]; }
      }
    }
  }

  /** `[xs[i:i + size] for i in range(0, len(xs), size)]` for a positive
      step: consecutive non-empty slices of at most `size` elements that
      concatenate back to `xs`, every one of them full except the last. */
  function Chunks<T>(xs: seq<T>, size: nat): (r: seq<seq<T>>)
    requires size >= 1
    ensures Flatten(r) == xs
    ensures forall i :: 0 <= i < |r| ==> 1 <= |r[i]| <= size
    ensures forall i :: 0 <= i < |r| - 1 ==> |r[i]| == size
    ensures |r| * size >= |xs| > (|r| - 1) * size
    decreases |xs|
  {
    if xs == [] then []
    else
      var n := Min(size, |xs|);
      var rest := Chunks(xs[n..], size);
      assert ([xs[..n]] + rest)[1..] == rest;
      assert xs == xs[..n] + xs[n..];
      ChunkCountStep(|xs|, n, |rest|, size);
      [xs[..n]] + rest
  }

  /** One more chunk of `n` elements keeps the count of chunks the
      ceiling of the length over the size. */
  lemma ChunkCountStep(total: nat, n: nat, restCount: nat, size: nat)
    requires size >= 1 && total > 0 && n == Min(size, total)
    requires restCount * size >= total - n > (restCount - 1) * size
    ensures (restCount + 1) * size >= total > restCount * size
  {
    if n < size {
      assert restCount == 0;
    } else {
      assert (restCount + 1) * size == restCount * size + size;
    }
  }

  /** `math.ceil(total / workers)`. */
  function ChunkSize(total: nat, workers: nat): (size: nat)
    requires workers >= 1
    ensures size * workers >= total
    ensures total > 0 ==> size >= 1 && (size - 1) * workers < total
    ensures total == 0 ==> size == 0
  {
    (total + workers - 1) / workers
  }

  /** At most `workers` chunks are formed. */
  lemma ChunkCountBound<T>(xs: seq<T>, workers: nat)
    requires workers >= 1 && |xs| > 0
    ensures |Chunks(xs, ChunkSize(|xs|, workers))| <= workers
  {
    var size := ChunkSize(|xs|, workers);
    var r := Chunks(xs, size);
    assert (|r| - 1) * size < workers * size;
    MultiplyCancel(|r| - 1, workers, size);
  }

  lemma MultiplyCancel(a: int, b: int, c: nat)
    requires a * c < b * c
    ensures a < b
  {
  }

  /** Why the slicing may fail: Python's `range(0, n, 0)` raises
      `ValueError`, and `ceil(0 / workers)` is 0. */
  datatype ChunkError = ZeroRangeStep

  /** The chunking exactly as written: a zero chunk size (an empty input)
      makes `range(0, 0, 0)` raise. */
  function ChunksAsWritten<T>(xs: seq<T>, workers: nat): (r: Result<seq<seq<T>>, ChunkError>)
    requires workers >= 1
    ensures r.Failure? <==> xs == []
  {
    var size := ChunkSize(|xs|, workers);
    if size == 0 then Failure(ZeroRangeStep) else Success(Chunks(xs, size))
  }

  /** The chunking as intended: an empty input gives no chunks. */
  function Partition<T>(xs: seq<T>, workers: nat): (r: seq<seq<T>>)
    requires workers >= 1
    ensures Flatten(r) == xs
    ensures |r| <= workers
    ensures forall i :: 0 <= i < |r| ==> 1 <= |r[i]| <= ChunkSize(|xs|, workers)
  {
    if xs == [] then []
    else
      ChunkCountBound(xs, workers);
      Chunks(xs, ChunkSize(|xs|, workers))
  }

  /** The two agree on every non-empty input, so the fix changes nothing but
      the empty case. */
  lemma PartitionAgrees<T>(xs: seq<T>, workers: nat)
    requires workers >= 1
    ensures xs != [] <==> ChunksAsWritten(xs, workers) == Success(Partition(xs, workers))
  {
  }

  /** The discrepancy: fewer than three entities give no triples, and the
      slicing of that empty list raises instead of yielding no chunks. */
  lemma EmptyTripleListRaises<T>(universe: seq<T>, workers: nat)
    requires |universe| < 3 && workers >= 1
    ensures ChunksAsWritten(Combinations(universe, 3), workers) == Failure(ZeroRangeStep)
    ensures Partition(Combinations(universe, 3), workers) == []
  {
    CombinationsCount(universe, 3);
    assert Binom(|universe|, 3) == 0 by {
      if |universe| == 2 { assert Binom(1, 2) == 0 && Binom(1, 3) == 0; }
    }
  }
}
