/** The top-N machinery of the five-role search: the bounded min-heap kept
    by `process_five_horses_chunk` and by the coordinator of
    `get_top_combinations`, the score-descending sort of the results, and
    what "the N best scores" means. */
module TopN {
  import opened Combinatorics

  /** An item with its score: the `(combination, score)` pairs. */
  datatype Ranked<T> = Ranked(item: T, score: int)

  /** The scores of a list of ranked items, in list order. */
  function ScoreList<T>(xs: seq<Ranked<T>>): (r: seq<int>)
    ensures |r| == |xs| && forall i :: 0 <= i < |xs| ==> r[i] == xs[i].score
  {
    seq(|xs|, i requires 0 <= i < |xs| => xs[i].score)
  }

  /** The multiset of the scores of a list of ranked items. */
  function Scores<T>(xs: seq<Ranked<T>>): (m: multiset<int>)
    ensures |m| == |xs|
  {
    multiset(ScoreList(xs))
  }

  lemma ScoresAppend<T>(xs: seq<Ranked<T>>, ys: seq<Ranked<T>>)
    ensures Scores(xs + ys) == Scores(xs) + Scores(ys)
  {
    assert ScoreList(xs + ys) == ScoreList(xs) + ScoreList(ys);
  }

  /** A single new pair adds its score. */
  lemma ScoresPush<T>(xs: seq<Ranked<T>>, x: Ranked<T>)
    ensures Scores(xs + [x]) == Scores(xs) + multiset{x.score}
  {
    assert ScoreList(xs + [x]) == ScoreList(xs) + [x.score];
  }

  lemma ScoresSingleton<T>(x: Ranked<T>)
    ensures Scores([x]) == multiset{x.score}
  {
    assert ScoreList([x]) == [x.score];
  }

  lemma ScoresMembership<T>(xs: seq<Ranked<T>>, s: int)
    ensures s in Scores(xs) <==> exists i :: 0 <= i < |xs| && xs[i].score == s
  {
    assert s in Scores(xs) <==> s in ScoreList(xs);
  }

  /** Replacing one element replaces its score. */
  lemma ScoresUpdate<T>(xs: seq<Ranked<T>>, i: nat, v: Ranked<T>)
    requires i < |xs|
    ensures Scores(xs[i := v]) == Scores(xs) - multiset{xs[i].score} + multiset{v.score}
  {
    var l := ScoreList(xs);
    assert ScoreList(xs[i := v]) == l[i := v.score];
    assert multiset(l[i := v.score]) == multiset(l) - multiset{l[i]} + multiset{v.score};
  }

  // ---------------------------------------------------------------------
  // The N largest scores

  /** `t` holds the `n` largest values of `m` (all of them when `m` has
      fewer): a sub-multiset of the right size that nothing left out
      exceeds. */
  ghost predicate IsTop(t: multiset<int>, m: multiset<int>, n: nat)
  {
    && t <= m
    && |t| == Min(n, |m|)
    && forall x, y :: x in t && y in m - t ==> y <= x
  }

  lemma SubBagSameSize(a: multiset<int>, b: multiset<int>)
    requires a <= b && |a| == |b|
    ensures a == b
  {
    assert b == a + (b - a);
    assert |b - a| == 0;
  }

  /** The `n` largest values are unique as a multiset, so any two ways of
      computing them agree. */
  lemma TopUnique(t1: multiset<int>, t2: multiset<int>, m: multiset<int>, n: nat)
    requires IsTop(t1, m, n) && IsTop(t2, m, n)
    ensures t1 == t2
  {
    if t1 != t2 {
      // Some value `v` is more frequent in `t1` and some `w` more frequent
      // in `t2`; each is then left out of the other top, so `v <= w <= v`.
      var v := ExceedingValue(t1, t2);
      var w := ExceedingValue(t2, t1);
      LeftOutBelow(t1, t2, m, n, v);
      LeftOutBelow(t2, t1, m, n, w);
      assert false;
    }
  }

  /** A value more frequent in a sub-multiset `s` of `m` than in a top `t`
      of `m` was left out of `t`, so it is at most every value of `t`. */
  lemma LeftOutBelow(s: multiset<int>, t: multiset<int>, m: multiset<int>, n: nat, v: int)
    requires IsTop(t, m, n) && s <= m && s[v] > t[v]
    ensures forall x :: x in t ==> v <= x
  {
    assert (m - t)[v] == m[v] - t[v];
    assert v in m - t;
  }

  /** Two different multisets of the same size: one holds some value more
      often than the other. */
  lemma ExceedingValue(a: multiset<int>, b: multiset<int>) returns (v: int)
    requires |a| == |b| && a != b
    ensures a[v] > b[v]
  {
    if forall x :: a[x] <= b[x] {
      assert a <= b;
      SubBagSameSize(a, b);
    }
    v :| a[v] > b[v];
  }

  /** Fewer than `n` values are all kept. */
  lemma TopNotFull(t: multiset<int>, m: multiset<int>, n: nat)
    requires IsTop(t, m, n) && |t| < n
    ensures t == m
  {
    SubBagSameSize(t, m);
  }

  /** The heap is not full: the new value is kept. */
  lemma OfferBelowCapacity(t: multiset<int>, m: multiset<int>, n: nat, x: int)
    requires IsTop(t, m, n) && |t| < n
    ensures IsTop(t + multiset{x}, m + multiset{x}, n)
  {
    TopNotFull(t, m, n);
    assert (m + multiset{x}) - (t + multiset{x}) == multiset{};
  }

  /** The heap is full and the new value beats its minimum `h`: `h` is
      replaced by the new value. */
  lemma OfferReplaces(t: multiset<int>, m: multiset<int>, n: nat, x: int, h: int)
    requires IsTop(t, m, n) && n >= 1 && |t| == n
    requires h in t && (forall y :: y in t ==> h <= y) && h < x
    ensures IsTop(t - multiset{h} + multiset{x}, m + multiset{x}, n)
  {
    var t' := t - multiset{h} + multiset{x};
    var m' := m + multiset{x};
    assert |m| >= n;
    assert m' - t' == (m - t) + multiset{h};
    forall a, b | a in t' && b in m' - t' ensures b <= a {
      if b == h {
      } else {
        assert b in m - t;
        if a != x { assert a in t; }
      }
    }
  }

  /** The heap is full and the new value does not beat its minimum: the
      heap stays as it is. */
  lemma OfferSkips(t: multiset<int>, m: multiset<int>, n: nat, x: int, h: int)
    requires IsTop(t, m, n) && n >= 1 && |t| == n
    requires h in t && (forall y :: y in t ==> h <= y) && x <= h
    ensures IsTop(t, m + multiset{x}, n)
  {
    var m' := m + multiset{x};
    assert |m| >= n;
    assert m' - t == (m - t) + multiset{x};
    forall a, b | a in t && b in m' - t ensures b <= a {
      if b != x { assert b in m - t; }
    }
  }

  /** Taking the top of part of the values first changes nothing: the
      top of `r` plus the top `t` of `m` is the top of `r` plus `m`. This
      is what lets each chunk keep only its own `n` best. */
  lemma TopOfPart(g: multiset<int>, r: multiset<int>, t: multiset<int>, m: multiset<int>, n: nat)
    requires IsTop(t, m, n) && IsTop(g, r + t, n)
    ensures IsTop(g, r + m, n)
  {
    assert (r + m) - g == ((r + t) - g) + (m - t);
    forall x, y | x in g && y in (r + m) - g ensures y <= x {
      if y !in (r + t) - g {
        assert y in m - t;
        TopDominated(g, r, t, m, n, x, y);
      }
    }
  }

  /** The case of `TopOfPart` where the left-out value comes from `m`. */
  lemma TopDominated(g: multiset<int>, r: multiset<int>, t: multiset<int>, m: multiset<int>, n: nat, x: int, y: int)
    requires IsTop(t, m, n) && IsTop(g, r + t, n)
    requires x in g && y in m - t
    ensures y <= x
  {
    if x < y {
      // Every value of `t` is at least `y`, so none of them was left out of
      // `g`, which then holds all of `t`; both have `n` values.
      assert |t| < |m| by { assert |m - t| > 0; assert m == t + (m - t); }
      assert |t| == n;
      forall v | v in t ensures ((r + t) - g)[v] == 0 {
        assert y <= v;
        if v in (r + t) - g { assert false; }
      }
      assert t <= g by {
        forall v ensures t[v] <= g[v] {
          if v in t { assert (r + t)[v] == g[v] + ((r + t) - g)[v]; }
        }
      }
      SubBagSameSize(t, g);
      assert false;
    }
  }

  /** The sum of a list of multisets. */
  function BagSum<T>(ms: seq<multiset<T>>): multiset<T>
  {
    if ms == [] then multiset{} else BagSum(ms[..|ms| - 1]) + ms[|ms| - 1]
  }

  /** Replacing every part by the part's own top changes nothing. */
  lemma {:induction false} TopOfParts(g: multiset<int>, r: multiset<int>, ts: seq<multiset<int>>, ms: seq<multiset<int>>, n: nat)
    requires |ts| == |ms|
    requires forall i :: 0 <= i < |ts| ==> IsTop(ts[i], ms[i], n)
    requires IsTop(g, r + BagSum(ts), n)
    ensures IsTop(g, r + BagSum(ms), n)
    decreases |ts|
  {
    if ts != [] {
      var k := |ts| - 1;
      assert r + BagSum(ts) == (r + BagSum(ts[..k])) + ts[k];
      TopOfPart(g, r + BagSum(ts[..k]), ts[k], ms[k], n);
      assert (r + BagSum(ts[..k])) + ms[k] == (r + ms[k]) + BagSum(ts[..k]);
      TopOfParts(g, r + ms[k], ts[..k], ms[..k], n);
      assert (r + ms[k]) + BagSum(ms[..k]) == r + BagSum(ms);
    }
  }

  /** The top of the sum of the parts' tops is the top of the sum of the
      parts. */
  lemma TopOfAllParts(g: multiset<int>, ts: seq<multiset<int>>, ms: seq<multiset<int>>, n: nat)
    requires |ts| == |ms|
    requires forall i :: 0 <= i < |ts| ==> IsTop(ts[i], ms[i], n)
    requires IsTop(g, BagSum(ts), n)
    ensures IsTop(g, BagSum(ms), n)
  {
    assert multiset{} + BagSum(ts) == BagSum(ts);
    TopOfParts(g, multiset{}, ts, ms, n);
    assert multiset{} + BagSum(ms) == BagSum(ms);
  }

  lemma {:induction false} BagSumAppend<T>(a: seq<multiset<T>>, b: seq<multiset<T>>)
    ensures BagSum(a + b) == BagSum(a) + BagSum(b)
    decreases |b|
  {
    if b != [] {
      var k := |b| - 1;
      assert (a + b)[..|a + b| - 1] == a + b[..k];
      BagSumAppend(a, b[..k]);
    } else {
      assert a + b == a;
    }
  }

  /** The parts `ms[perm[0]], ms[perm[1]], ...`: the parts in another order. */
  function Pick<T>(ms: seq<multiset<T>>, perm: seq<nat>): (r: seq<multiset<T>>)
    requires forall k :: 0 <= k < |perm| ==> perm[k] < |ms|
    ensures |r| == |perm| && forall k :: 0 <= k < |perm| ==> r[k] == ms[perm[k]]
  {
    seq(|perm|, k requires 0 <= k < |perm| => ms[perm[k]])
  }

  /** The sum of the parts does not depend on their order. */
  lemma {:induction false} BagSumPermutation<T>(ms: seq<multiset<T>>, perm: seq<nat>)
    requires Distinct(perm)
    requires forall k :: 0 <= k < |perm| ==> perm[k] < |ms|
    requires forall q :: 0 <= q < |ms| ==> q in perm
    ensures BagSum(Pick(ms, perm)) == BagSum(ms)
    decreases |ms|
  {
    if |ms| == 0 {
      FirstIndex(perm);
      if perm != [] {
        assert false;
      }
    } else {
      var last := |ms| - 1;
      var j := Locate(perm, last);
      var perm' := perm[..j] + perm[j + 1..];
      RemoveLast(perm, j, last);
      BagSumPermutation(ms[..last], perm');
      PickWithoutLast(ms, perm, j);
    }
  }

  /** A position holding a value the list contains. */
  lemma Locate(perm: seq<nat>, v: nat) returns (j: nat)
    requires v in perm
    ensures j < |perm| && perm[j] == v
  {
    j :| 0 <= j < |perm| && perm[j] == v;
  }

  /** A non-empty list of indices has a first one. */
  lemma FirstIndex(perm: seq<nat>)
    ensures perm != [] ==> perm[0] in perm && perm[0] >= 0
  {
  }

  /** Taking the largest index out of a permutation of `0..last` leaves a
      permutation of `0..last-1`. */
  lemma RemoveLast(perm: seq<nat>, j: nat, last: nat)
    requires Distinct(perm) && j < |perm| && perm[j] == last
    requires forall k :: 0 <= k < |perm| ==> perm[k] <= last
    requires forall q :: 0 <= q <= last ==> q in perm
    ensures var perm' := perm[..j] + perm[j + 1..];
            && Distinct(perm')
            && (forall k :: 0 <= k < |perm'| ==> perm'[k] < last)
            && (forall q :: 0 <= q < last ==> q in perm')
  {
    var perm' := perm[..j] + perm[j + 1..];
    assert forall k :: 0 <= k < |perm'| ==> perm'[k] == perm[if k < j then k else k + 1];
    forall q | 0 <= q < last ensures q in perm' {
      assert q in perm;
      var k :| 0 <= k < |perm| && perm[k] == q;
      if k < j {
        assert perm'[k] == q;
      } else {
        assert perm'[k - 1] == q;
      }
    }
  }

  /** Picking by a permutation that has the largest index at `j`. */
  lemma PickWithoutLast<T>(ms: seq<multiset<T>>, perm: seq<nat>, j: nat)
    requires |ms| >= 1 && j < |perm| && perm[j] == |ms| - 1
    requires forall k :: 0 <= k < |perm| ==> perm[k] < |ms|
    requires forall k :: 0 <= k < |perm| && k != j ==> perm[k] < |ms| - 1
    ensures BagSum(Pick(ms, perm)) == BagSum(Pick(ms[..|ms| - 1], perm[..j] + perm[j + 1..])) + ms[|ms| - 1]
  {
    var last := |ms| - 1;
    var init := ms[..last];
    var left, right := perm[..j], perm[j + 1..];
    assert Pick(ms, perm) == Pick(init, left) + [ms[last]] + Pick(init, right);
    assert Pick(init, left + right) == Pick(init, left) + Pick(init, right);
    BagSumAppend(Pick(init, left) + [ms[last]], Pick(init, right));
    BagSumAppend(Pick(init, left), [ms[last]]);
    BagSumAppend(Pick(init, left), Pick(init, right));
    assert BagSum([ms[last]]) == ms[last] by { assert [ms[last]][..0] == []; }
  }

  /** The scores of every part of a list of lists. */
  function ScoresOf<T>(xss: seq<seq<Ranked<T>>>): (r: seq<multiset<int>>)
    ensures |r| == |xss| && forall k :: 0 <= k < |xss| ==> r[k] == Scores(xss[k])
  {
    seq(|xss|, k requires 0 <= k < |xss| => Scores(xss[k]))
  }

  /** The scores of a concatenation are the sum of the parts' scores. */
  lemma {:induction false} ScoresFlatten<T>(xss: seq<seq<Ranked<T>>>)
    ensures Scores(Flatten(xss)) == BagSum(ScoresOf(xss))
  {
    if xss != [] {
      ScoresFlatten(xss[1..]);
      ScoresAppend(xss[0], Flatten(xss[1..]));
      assert ScoresOf(xss) == [Scores(xss[0])] + ScoresOf(xss[1..]);
      BagSumCons(Scores(xss[0]), ScoresOf(xss[1..]));
    }
  }

  lemma BagSumCons<T>(m: multiset<T>, ms: seq<multiset<T>>)
    ensures BagSum([m] + ms) == m + BagSum(ms)
  {
    BagSumAppend([m], ms);
    assert [m][..0] == [];
  }

  /** The elements of every part of a list of lists, with multiplicity. */
  function Bags<T>(xss: seq<seq<T>>): (r: seq<multiset<T>>)
    ensures |r| == |xss| && forall k :: 0 <= k < |xss| ==> r[k] == multiset(xss[k])
  {
    seq(|xss|, k requires 0 <= k < |xss| => multiset(xss[k]))
  }

  /** The elements of a concatenation are the sum of the parts' elements. */
  lemma {:induction false} BagsFlatten<T>(xss: seq<seq<T>>)
    ensures multiset(Flatten(xss)) == BagSum(Bags(xss))
  {
    if xss != [] {
      BagsFlatten(xss[1..]);
      assert Bags(xss) == [multiset(xss[0])] + Bags(xss[1..]);
      BagSumCons(multiset(xss[0]), Bags(xss[1..]));
    }
  }

  /** Parts each contained in the matching part add up to a contained sum. */
  lemma {:induction false} BagSumMonotone<T>(a: seq<multiset<T>>, b: seq<multiset<T>>)
    requires |a| == |b| && forall k :: 0 <= k < |a| ==> a[k] <= b[k]
    ensures BagSum(a) <= BagSum(b)
    decreases |a|
  {
    if a != [] {
      var n := |a| - 1;
      BagSumMonotone(a[..n], b[..n]);
    }
  }

  // ---------------------------------------------------------------------
  // The score-descending sort

  /** Scores never increase along the list. */
  predicate NonIncreasing<T>(xs: seq<Ranked<T>>)
  {
    forall i, j :: 0 <= i < j < |xs| ==> xs[j].score <= xs[i].score
  }

  /** Inserting `x` after every element scoring at least as much. */
  function Insert<T>(x: Ranked<T>, xs: seq<Ranked<T>>): (r: seq<Ranked<T>>)
    ensures |r| == |xs| + 1
  {
    if xs == [] then [x]
    else if xs[0].score >= x.score then [xs[0]] + Insert(x, xs[1..])
    else [x] + xs
  }

  lemma {:induction false} InsertPermutes<T>(x: Ranked<T>, xs: seq<Ranked<T>>)
    ensures multiset(Insert(x, xs)) == multiset(xs) + multiset{x}
  {
    if xs != [] && xs[0].score >= x.score {
      InsertPermutes(x, xs[1..]);
      assert xs == [xs[0]] + xs[1..];
    }
  }

  lemma ScoresCons<T>(x: Ranked<T>, xs: seq<Ranked<T>>)
    ensures Scores([x] + xs) == multiset{x.score} + Scores(xs)
  {
    ScoresAppend([x], xs);
    ScoresSingleton(x);
  }

  lemma {:induction false} InsertScores<T>(x: Ranked<T>, xs: seq<Ranked<T>>)
    ensures Scores(Insert(x, xs)) == Scores(xs) + multiset{x.score}
  {
    if xs == [] {
      ScoresSingleton(x);
      assert Insert(x, xs) == [x];
    } else if xs[0].score >= x.score {
      InsertScores(x, xs[1..]);
      InsertScoresAfterHead(x, xs);
    } else {
      ScoresCons(x, xs);
      assert Insert(x, xs) == [x] + xs;
    }
  }

  /** The inductive step of `InsertScores` when `x` goes after the head. */
  lemma InsertScoresAfterHead<T>(x: Ranked<T>, xs: seq<Ranked<T>>)
    requires xs != [] && xs[0].score >= x.score
    requires Scores(Insert(x, xs[1..])) == Scores(xs[1..]) + multiset{x.score}
    ensures Scores(Insert(x, xs)) == Scores(xs) + multiset{x.score}
  {
    var rest := Insert(x, xs[1..]);
    ScoresCons(xs[0], rest);
    ScoresCons(xs[0], xs[1..]);
    assert [xs[0]] + xs[1..] == xs;
    assert Insert(x, xs) == [xs[0]] + rest;
  }

  /** No score of the list exceeds `b`. */
  predicate AtMost<T>(xs: seq<Ranked<T>>, b: int)
  {
    forall i :: 0 <= i < |xs| ==> xs[i].score <= b
  }

  lemma {:induction false} InsertAtMost<T>(x: Ranked<T>, xs: seq<Ranked<T>>, b: int)
    requires AtMost(xs, b) && x.score <= b
    ensures AtMost(Insert(x, xs), b)
  {
    if xs != [] && xs[0].score >= x.score {
      InsertAtMost(x, xs[1..], b);
      var r := [xs[0]] + Insert(x, xs[1..]);
      assert Insert(x, xs) == r;
      forall i | 0 <= i < |r| ensures r[i].score <= b {
        if i > 0 { assert r[i] == Insert(x, xs[1..])[i - 1]; }
      }
    }
  }

  /** A list is non-increasing when its head bounds a non-increasing
      tail. */
  lemma ConsSorted<T>(y: Ranked<T>, ys: seq<Ranked<T>>)
    requires AtMost(ys, y.score) && NonIncreasing(ys)
    ensures NonIncreasing([y] + ys)
  {
    var r := [y] + ys;
    forall i, j | 0 <= i < j < |r| ensures r[j].score <= r[i].score {
      assert r[j] == ys[j - 1];
      if i > 0 { assert r[i] == ys[i - 1]; }
    }
  }

  lemma {:induction false} InsertSorted<T>(x: Ranked<T>, xs: seq<Ranked<T>>)
    requires NonIncreasing(xs)
    ensures NonIncreasing(Insert(x, xs))
  {
    if xs == [] {
      assert Insert(x, xs) == [x];
    } else if xs[0].score >= x.score {
      var tail := xs[1..];
      InsertSorted(x, tail);
      assert AtMost(tail, xs[0].score) by {
        forall i | 0 <= i < |tail| ensures tail[i].score <= xs[0].score {
          assert tail[i] == xs[i + 1];
        }
      }
      InsertAtMost(x, tail, xs[0].score);
      ConsSorted(xs[0], Insert(x, tail));
      assert Insert(x, xs) == [xs[0]] + Insert(x, tail);
    } else {
      assert AtMost(xs, x.score) by {
        forall i | 0 <= i < |xs| ensures xs[i].score <= x.score {
          assert xs[i].score <= xs[0].score;
        }
      }
      ConsSorted(x, xs);
      assert Insert(x, xs) == [x] + xs;
    }
  }

  /** `list.sort(key=score, reverse=True)`: a permutation of the input with
      non-increasing scores. */
  function SortDescending<T>(xs: seq<Ranked<T>>): (r: seq<Ranked<T>>)
    ensures |r| == |xs|
    ensures NonIncreasing(r)
    ensures multiset(r) == multiset(xs)
  {
    if xs == [] then []
    else
      var init := xs[..|xs| - 1];
      var sorted := SortDescending(init);
      InsertPermutes(xs[|xs| - 1], sorted);
      InsertSorted(xs[|xs| - 1], sorted);
      assert xs == init + [xs[|xs| - 1]];
      Insert(xs[|xs| - 1], sorted)
  }

  /** Sorting keeps the multiset of scores. */
  lemma {:induction false} SortKeepsScores<T>(xs: seq<Ranked<T>>)
    ensures Scores(SortDescending(xs)) == Scores(xs)
  {
    if xs != [] {
      var init := xs[..|xs| - 1];
      var last := xs[|xs| - 1];
      var sorted := SortDescending(init);
      SortKeepsScores(init);
      InsertScores(last, sorted);
      assert Scores(Insert(last, sorted)) == Scores(init) + multiset{last.score};
      assert init + [last] == xs;
      ScoresPush(init, last);
      assert SortDescending(xs) == Insert(last, sorted);
    }
  }

  /** Every element of the sorted list comes from the input. */
  lemma SortedFrom<T>(xs: seq<Ranked<T>>, x: Ranked<T>)
    requires x in SortDescending(xs)
    ensures x in xs
  {
    assert x in multiset(SortDescending(xs));
  }

  /** Sorting a list that holds the top scores of `all`, each an element
      of `all`, gives such a list again. */
  lemma SortedTop<T>(xs: seq<Ranked<T>>, all: seq<Ranked<T>>, n: nat)
    requires IsTop(Scores(xs), Scores(all), n)
    requires forall x :: x in xs ==> x in all
    ensures IsTop(Scores(SortDescending(xs)), Scores(all), n)
    ensures forall x :: x in SortDescending(xs) ==> x in all
  {
    SortKeepsScores(xs);
    forall x | x in SortDescending(xs) ensures x in all {
      SortedFrom(xs, x);
    }
  }

  /** The first `n` entries of a list sorted by descending score hold the
      `n` largest scores, and are taken from the list itself. */
  lemma PrefixOfSortedIsTop<T>(xs: seq<Ranked<T>>, n: nat)
    requires NonIncreasing(xs)
    ensures IsTop(Scores(xs[..Min(n, |xs|)]), Scores(xs), n)
    ensures multiset(xs[..Min(n, |xs|)]) <= multiset(xs)
  {
    var k := Min(n, |xs|);
    var p, q := xs[..k], xs[k..];
    assert xs == p + q;
    ScoresAppend(p, q);
    SortedSplit(p, q);
    assert Scores(xs) - Scores(p) == Scores(q);
  }

  /** In a non-increasing list every score of the front is at least every
      score of the back. */
  lemma SortedSplit<T>(p: seq<Ranked<T>>, q: seq<Ranked<T>>)
    requires NonIncreasing(p + q)
    ensures forall a, b :: a in Scores(p) && b in Scores(q) ==> b <= a
  {
    forall a, b | a in Scores(p) && b in Scores(q) ensures b <= a {
      ScoresMembership(p, a);
      ScoresMembership(q, b);
      var i :| 0 <= i < |p| && p[i].score == a;
      var j :| 0 <= j < |q| && q[j].score == b;
      assert (p + q)[i] == p[i] && (p + q)[|p| + j] == q[j];
    }
  }

  // ---------------------------------------------------------------------
  // The bounded min-heap

  /** A heap entry `(score, index, combination)`; `index` breaks ties
      between equal scores. */
  datatype HeapEntry<T> = HeapEntry(score: int, index: nat, item: T)

  /** The order of heap entries as tuples: by score, then by index. */
  predicate EntryAtMost<T>(a: HeapEntry<T>, b: HeapEntry<T>)
  {
    a.score < b.score || (a.score == b.score && a.index <= b.index)
  }

  /** `p` is the position of the smallest entry, `min_heap[0]` of the
      binary heap. */
  ghost predicate IsMinAt<T>(es: seq<HeapEntry<T>>, p: int)
  {
    0 <= p < |es| && forall i :: 0 <= i < |es| ==> EntryAtMost(es[p], es[i])
  }

  /** Finds the smallest entry. */
  method MinIndex<T>(es: seq<HeapEntry<T>>) returns (p: nat)
    requires |es| >= 1
    ensures IsMinAt(es, p)
  {
    p := 0;
    for k := 1 to |es|
      invariant p < k && forall i :: 0 <= i < k ==> EntryAtMost(es[p], es[i])
    {
      if !EntryAtMost(es[p], es[k]) {
        p := k;
      }
    }
  }

  /** The `(combination, score)` pairs a heap holds. */
  function RankedOf<T>(es: seq<HeapEntry<T>>): (r: seq<Ranked<T>>)
    ensures |r| == |es| && forall i :: 0 <= i < |es| ==> r[i] == Ranked(es[i].item, es[i].score)
  {
    seq(|es|, i requires 0 <= i < |es| => Ranked(es[i].item, es[i].score))
  }

  /** The heap invariant: at most `capacity` entries with distinct indices
      below the counter, drawn from the offered pairs with no pair held
      more often than it was offered, whose scores are the
      `capacity` largest offered scores. */
  ghost predicate HeapInv<T>(entries: seq<HeapEntry<T>>, counter: nat, capacity: nat, offered: seq<Ranked<T>>)
  {
    && capacity >= 1
    && |entries| <= capacity
    && (forall i :: 0 <= i < |entries| ==> entries[i].index < counter)
    && (forall i, j :: 0 <= i < j < |entries| ==> entries[i].index != entries[j].index)
    && (forall i :: 0 <= i < |entries| ==> Ranked(entries[i].item, entries[i].score) in offered)
    && multiset(RankedOf(entries)) <= multiset(offered)
    && IsTop(Scores(RankedOf(entries)), Scores(offered), capacity)
  }

  /** The min-heap `min_heap` of a top-N loop together with its tie-break
      counter `index`. Only the multiset of entries is modelled, not the
      binary-heap layout of the list. */
  class BoundedHeap<T(==)> {
    var entries: seq<HeapEntry<T>>
    var counter: nat
    const capacity: nat
    /** Every `(combination, score)` offered so far, in order. */
    ghost var offered: seq<Ranked<T>>

    ghost predicate Valid()
      reads this
    {
      HeapInv(entries, counter, capacity, offered)
    }

    /** `min_heap = []; index = 0` for a given `top_n`. */
    constructor (topN: nat)
      requires topN >= 1
      ensures Valid()
      ensures capacity == topN && entries == [] && counter == 0 && offered == []
    {
      entries := [];
      counter := 0;
      capacity := topN;
      offered := [];
    }

    /** One step of the loop: push while the heap is not full, otherwise
        replace the minimum when the new score is strictly greater; the
        counter advances exactly when an entry is stored. */
    method Offer(item: T, score: int)
      requires Valid()
      modifies this
      ensures Valid()
      ensures offered == old(offered) + [Ranked(item, score)]
      ensures old(|entries|) < capacity ==>
                entries == old(entries) + [HeapEntry(score, old(counter), item)] && counter == old(counter) + 1
      ensures old(|entries|) == capacity ==>
                exists p :: IsMinAt(old(entries), p) &&
                  if score > old(entries)[p].score
                  then entries == old(entries)[p := HeapEntry(score, old(counter), item)] && counter == old(counter) + 1
                  else entries == old(entries) && counter == old(counter)
    {
      var entry := HeapEntry(score, counter, item);
      var x := Ranked(item, score);
      var newEntries, newCounter := entries, counter;
      if |entries| < capacity {
        PushKeeps(entries, counter, capacity, offered, entry);
        newEntries, newCounter := entries + [entry], counter + 1;
      } else {
        var p := MinIndex(entries);
        if score > entries[p].score {
          ReplaceKeeps(entries, counter, capacity, offered, p, entry);
          newEntries, newCounter := entries[p := entry], counter + 1;
        } else {
          SkipKeeps(entries, counter, capacity, offered, p, x);
        }
      }
      entries, counter, offered := newEntries, newCounter, offered + [x];
    }

    /** The pairs the heap holds, in list order:
        `[(combo, score) for score, _, combo in min_heap]`. */
    function Contents(): (r: seq<Ranked<T>>)
      reads this
      requires Valid()
      ensures |r| <= capacity
      ensures IsTop(Scores(r), Scores(offered), capacity)
      ensures forall i :: 0 <= i < |r| ==> r[i] in offered
      ensures multiset(r) <= multiset(offered)
    {
      RankedOf(entries)
    }
  }

  /** The minimum entry holds the minimum score. */
  lemma MinScoreIsMin<T>(es: seq<HeapEntry<T>>, p: int)
    requires IsMinAt(es, p)
    ensures es[p].score in Scores(RankedOf(es))
    ensures forall y :: y in Scores(RankedOf(es)) ==> es[p].score <= y
  {
    var rs := RankedOf(es);
    ScoresMembership(rs, es[p].score);
    forall y | y in Scores(rs) ensures es[p].score <= y {
      ScoresMembership(rs, y);
      var i :| 0 <= i < |rs| && rs[i].score == y;
      assert EntryAtMost(es[p], es[i]);
    }
  }

  /** `heappush` while the heap is not full keeps the invariant. */
  lemma PushKeeps<T>(es: seq<HeapEntry<T>>, counter: nat, capacity: nat, offered: seq<Ranked<T>>, e: HeapEntry<T>)
    requires HeapInv(es, counter, capacity, offered) && |es| < capacity && e.index == counter
    ensures HeapInv(es + [e], counter + 1, capacity, offered + [Ranked(e.item, e.score)])
  {
    var x := Ranked(e.item, e.score);
    assert RankedOf(es + [e]) == RankedOf(es) + [x];
    assert multiset(offered + [x]) == multiset(offered) + multiset{x};
    ScoresPush(RankedOf(es), x);
    ScoresPush(offered, x);
    OfferBelowCapacity(Scores(RankedOf(es)), Scores(offered), capacity, e.score);
  }

  /** `heapreplace` of the minimum by a greater score keeps the invariant. */
  lemma ReplaceKeeps<T>(es: seq<HeapEntry<T>>, counter: nat, capacity: nat, offered: seq<Ranked<T>>, p: int, e: HeapEntry<T>)
    requires HeapInv(es, counter, capacity, offered) && |es| == capacity && e.index == counter
    requires IsMinAt(es, p) && e.score > es[p].score
    ensures HeapInv(es[p := e], counter + 1, capacity, offered + [Ranked(e.item, e.score)])
  {
    var x := Ranked(e.item, e.score);
    MinScoreIsMin(es, p);
    OfferReplaces(Scores(RankedOf(es)), Scores(offered), capacity, e.score, es[p].score);
    ReplaceScores(es, p, e);
    ScoresPush(offered, x);
    ReplaceEntries(es, counter, offered, p, e);
    ReplaceBag(es, offered, p, e);
  }

  /** Replacing an entry by a newly offered pair keeps the entries among
      the offered pairs, counted with multiplicity. */
  lemma ReplaceBag<T>(es: seq<HeapEntry<T>>, offered: seq<Ranked<T>>, p: int, e: HeapEntry<T>)
    requires 0 <= p < |es|
    requires multiset(RankedOf(es)) <= multiset(offered)
    ensures multiset(RankedOf(es[p := e])) <= multiset(offered + [Ranked(e.item, e.score)])
  {
    var rs := RankedOf(es);
    var x := Ranked(e.item, e.score);
    assert RankedOf(es[p := e]) == rs[p := x];
    assert multiset(rs[p := x]) == multiset(rs) - multiset{rs[p]} + multiset{x};
    assert multiset(offered + [x]) == multiset(offered) + multiset{x};
  }

  /** Replacing an entry replaces its score. */
  lemma ReplaceScores<T>(es: seq<HeapEntry<T>>, p: int, e: HeapEntry<T>)
    requires 0 <= p < |es|
    ensures Scores(RankedOf(es[p := e])) == Scores(RankedOf(es)) - multiset{es[p].score} + multiset{e.score}
  {
    assert RankedOf(es[p := e]) == RankedOf(es)[p := Ranked(e.item, e.score)];
    ScoresUpdate(RankedOf(es), p, Ranked(e.item, e.score));
  }

  /** Replacing an entry by a fresh one keeps the indices distinct and
      below the counter, and every entry an offered pair. */
  lemma ReplaceEntries<T>(es: seq<HeapEntry<T>>, counter: nat, offered: seq<Ranked<T>>, p: int, e: HeapEntry<T>)
    requires 0 <= p < |es| && e.index == counter
    requires forall i :: 0 <= i < |es| ==> es[i].index < counter
    requires forall i, j :: 0 <= i < j < |es| ==> es[i].index != es[j].index
    requires forall i :: 0 <= i < |es| ==> Ranked(es[i].item, es[i].score) in offered
    ensures var es' := es[p := e];
            && (forall i :: 0 <= i < |es'| ==> es'[i].index < counter + 1)
            && (forall i, j :: 0 <= i < j < |es'| ==> es'[i].index != es'[j].index)
            && (forall i :: 0 <= i < |es'| ==> Ranked(es'[i].item, es'[i].score) in offered + [Ranked(e.item, e.score)])
  {
    var es' := es[p := e];
    forall i | 0 <= i < |es'| ensures Ranked(es'[i].item, es'[i].score) in offered + [Ranked(e.item, e.score)] {
      if i != p { assert es'[i] == es[i]; }
    }
  }

  /** A score that does not beat the minimum of a full heap is dropped. */
  lemma SkipKeeps<T>(es: seq<HeapEntry<T>>, counter: nat, capacity: nat, offered: seq<Ranked<T>>, p: int, x: Ranked<T>)
    requires HeapInv(es, counter, capacity, offered) && |es| == capacity
    requires IsMinAt(es, p) && x.score <= es[p].score
    ensures HeapInv(es, counter, capacity, offered + [x])
  {
    MinScoreIsMin(es, p);
    OfferSkips(Scores(RankedOf(es)), Scores(offered), capacity, x.score, es[p].score);
    ScoresPush(offered, x);
    assert multiset(offered + [x]) == multiset(offered) + multiset{x};
  }
}
