/**
 * Ranking by score, as the core does it everywhere: collect `(score, item)`
 * pairs in retrieval order, sort them with Python's stable
 * `list.sort(key=score, reverse=True)`, and keep the slice `[:limit]`.
 *
 * The sort is specified by stable insertion: each item, taken in input
 * order, goes after every item already placed whose score is at least its
 * own. The lemmas show that this is sorted, a permutation, stable, and that
 * the kept prefix dominates what is dropped.
 */
module Ranking {
  import opened Sequences

  datatype Scored<T> = Scored(score: real, item: T)

  ghost predicate NonIncreasing<T>(s: seq<Scored<T>>)
  {
    forall i, j :: 0 <= i < j < |s| ==> s[i].score >= s[j].score
  }

  ghost predicate DistinctItems<T>(s: seq<Scored<T>>)
  {
    forall i, j :: 0 <= i < j < |s| ==> s[i].item != s[j].item
  }

  function Items<T>(s: seq<Scored<T>>): (r: seq<T>)
    ensures |r| == |s|
    ensures forall i :: 0 <= i < |s| ==> r[i] == s[i].item
  {
    seq(|s|, i requires 0 <= i < |s| => s[i].item)
  }

  /** Places `x` after every element of `t` whose score is at least its own. */
  function InsertDesc<T>(x: Scored<T>, t: seq<Scored<T>>): (r: seq<Scored<T>>)
    ensures |r| == |t| + 1
    ensures multiset(r) == multiset(t) + multiset{x}
  {
    if t == [] then [x]
    else if t[0].score >= x.score then
      assert t == [t[0]] + t[1..];
      [t[0]] + InsertDesc(x, t[1..])
    else [x] + t
  }

  ghost predicate AtMost<T>(t: seq<Scored<T>>, b: real)
  {
    forall e :: e in t ==> e.score <= b
  }

  lemma HeadBounds<T>(t: seq<Scored<T>>)
    requires t != [] && NonIncreasing(t)
    ensures AtMost(t[1..], t[0].score) && NonIncreasing(t[1..])
  {
    forall e | e in t[1..]
      ensures e.score <= t[0].score
    {
      var m :| 0 <= m < |t[1..]| && t[1..][m] == e;
      assert t[m + 1] == e;
    }
  }

  lemma ConsSorted<T>(h: Scored<T>, s: seq<Scored<T>>)
    requires NonIncreasing(s) && AtMost(s, h.score)
    ensures NonIncreasing([h] + s)
  {
    var r := [h] + s;
    forall i, j | 0 <= i < j < |r|
      ensures r[i].score >= r[j].score
    {
      assert r[j] == s[j - 1];
      if i > 0 {
        assert r[i] == s[i - 1];
      } else {
        assert s[j - 1] in s;
      }
    }
  }

  lemma InsertDescAtMost<T>(x: Scored<T>, t: seq<Scored<T>>, b: real)
    requires AtMost(t, b) && x.score <= b
    ensures AtMost(InsertDesc(x, t), b)
  {
    forall e | e in InsertDesc(x, t)
      ensures e.score <= b
    {
      assert e in multiset(InsertDesc(x, t));
    }
  }

  lemma {:induction false} InsertDescSorted<T>(x: Scored<T>, t: seq<Scored<T>>)
    requires NonIncreasing(t)
    ensures NonIncreasing(InsertDesc(x, t))
  {
    if t == [] {
    } else if t[0].score >= x.score {
      HeadBounds(t);
      InsertDescSorted(x, t[1..]);
      InsertDescAtMost(x, t[1..], t[0].score);
      ConsSorted(t[0], InsertDesc(x, t[1..]));
    } else {
      HeadBounds(t);
      forall e | e in t
        ensures e.score <= x.score
      {
        if e != t[0] {
          assert e in t[1..] by {
            var m :| 0 <= m < |t| && t[m] == e;
            assert t[1..][m - 1] == e;
          }
        }
      }
      ConsSorted(x, t);
    }
  }

  /** Python's stable `sort(key=score, reverse=True)`. */
  function SortDesc<T>(s: seq<Scored<T>>): (r: seq<Scored<T>>)
    ensures |r| == |s|
    ensures multiset(r) == multiset(s)
    ensures NonIncreasing(r)
  {
    if s == [] then []
    else
      var sorted := SortDesc(s[..|s| - 1]);
      FrontLast(s);
      InsertDescSorted(s[|s| - 1], sorted);
      InsertDesc(s[|s| - 1], sorted)
  }

  // ------------------------------------------------------------- stability

  /** The elements of `s` with score `v`, in the order of `s`. */
  function WithScore<T>(s: seq<Scored<T>>, v: real): seq<Scored<T>>
  {
    if s == [] then []
    else (if s[0].score == v then [s[0]] else []) + WithScore(s[1..], v)
  }

  lemma {:induction false} WithScoreAppend<T>(a: seq<Scored<T>>, b: seq<Scored<T>>, v: real)
    ensures WithScore(a + b, v) == WithScore(a, v) + WithScore(b, v)
  {
    if a != [] {
      assert (a + b)[1..] == a[1..] + b;
      assert (a + b)[0] == a[0];
      WithScoreAppend(a[1..], b, v);
    } else {
      assert a + b == b;
    }
  }

  lemma {:induction false} WithScoreBelow<T>(t: seq<Scored<T>>, v: real)
    requires forall i :: 0 <= i < |t| ==> t[i].score < v
    ensures WithScore(t, v) == []
  {
    if t != [] {
      WithScoreBelow(t[1..], v);
    }
  }

  lemma Reassociate<T>(a: seq<T>, b: seq<T>, c: seq<T>)
    ensures a + (b + c) == (a + b) + c
  {
  }

  lemma WithScoreCons<T>(h: Scored<T>, s: seq<Scored<T>>, v: real)
    ensures WithScore([h] + s, v) == (if h.score == v then [h] else []) + WithScore(s, v)
  {
    assert ([h] + s)[0] == h && ([h] + s)[1..] == s;
  }

  lemma {:induction false} InsertDescStable<T>(x: Scored<T>, t: seq<Scored<T>>, v: real)
    requires NonIncreasing(t)
    ensures WithScore(InsertDesc(x, t), v) == WithScore(t, v) + (if x.score == v then [x] else [])
  {
    var own: seq<Scored<T>> := if x.score == v then [x] else [];
    if t == [] {
      WithScoreCons(x, [], v);
      assert [x] + [] == [x] == InsertDesc(x, t);
    } else if t[0].score >= x.score {
      HeadBounds(t);
      var rest := InsertDesc(x, t[1..]);
      InsertDescStable(x, t[1..], v);
      var head: seq<Scored<T>> := if t[0].score == v then [t[0]] else [];
      WithScoreCons(t[0], rest, v);
      assert WithScore(t, v) == head + WithScore(t[1..], v);
      assert InsertDesc(x, t) == [t[0]] + rest;
      Reassociate(head, WithScore(t[1..], v), own);
    } else {
      if x.score == v {
        forall i | 0 <= i < |t|
          ensures t[i].score < v
        {
        }
        WithScoreBelow(t, v);
      }
      WithScoreCons(x, t, v);
      assert InsertDesc(x, t) == [x] + t;
    }
  }

  /** The sort is stable: among equal scores the input order is kept. */
  lemma {:induction false} SortDescStable<T>(s: seq<Scored<T>>, v: real)
    ensures WithScore(SortDesc(s), v) == WithScore(s, v)
  {
    if s != [] {
      var init, last := s[..|s| - 1], s[|s| - 1];
      var sorted := SortDesc(init);
      var own: seq<Scored<T>> := if last.score == v then [last] else [];
      SortDescStable(init, v);
      InsertDescStable(last, sorted, v);
      WithScoreSingle(last, v);
      WithScoreAppend(init, [last], v);
      FrontLast(s);
      calc {
        WithScore(SortDesc(s), v);
        WithScore(InsertDesc(last, sorted), v);
        WithScore(sorted, v) + own;
        WithScore(init, v) + WithScore([last], v);
        WithScore(init + [last], v);
      }
    }
  }

  lemma WithScoreSingle<T>(x: Scored<T>, v: real)
    ensures WithScore([x], v) == if x.score == v then [x] else []
  {
    assert [x][1..] == [];
  }

  // ----------------------------------------------------------- distinctness

  lemma {:induction false} InsertDescDistinct<T>(x: Scored<T>, t: seq<Scored<T>>)
    requires DistinctItems(t)
    requires forall e :: e in t ==> e.item != x.item
    ensures DistinctItems(InsertDesc(x, t))
  {
    if t != [] && t[0].score >= x.score {
      InsertDescDistinct(x, t[1..]);
      var r := InsertDesc(x, t);
      forall j | 1 <= j < |r|
        ensures r[0].item != r[j].item
      {
        assert r[j] in multiset(InsertDesc(x, t[1..]));
        if r[j] != x {
          var m :| 0 <= m < |t[1..]| && t[1..][m] == r[j];
          assert t[m + 1] == r[j];
        }
      }
    }
  }

  lemma {:induction false} SortDescDistinct<T>(s: seq<Scored<T>>)
    requires DistinctItems(s)
    ensures DistinctItems(SortDesc(s))
  {
    if s != [] {
      var init, last := s[..|s| - 1], s[|s| - 1];
      SortDescDistinct(init);
      forall e | e in SortDesc(init)
        ensures e.item != last.item
      {
        assert e in multiset(init);
      }
      InsertDescDistinct(last, SortDesc(init));
    }
  }

  // ------------------------------------------------ ties by ascending item

  ghost predicate ItemsIncreasing(s: seq<Scored<int>>)
  {
    forall i, j :: 0 <= i < j < |s| ==> s[i].item < s[j].item
  }

  ghost predicate TiesByItem(s: seq<Scored<int>>)
  {
    forall i, j :: 0 <= i < j < |s| && s[i].score == s[j].score ==> s[i].item < s[j].item
  }

  /** Putting `h` in front keeps ties ordered when `h`'s item is below every tie it meets. */
  lemma TiesCons(h: Scored<int>, rest: seq<Scored<int>>)
    requires TiesByItem(rest)
    requires forall e :: e in rest && e.score == h.score ==> h.item < e.item
    ensures TiesByItem([h] + rest)
  {
    var r := [h] + rest;
    forall i, j | 0 <= i < j < |r| && r[i].score == r[j].score
      ensures r[i].item < r[j].item
    {
      assert r[j] == rest[j - 1];
      if i > 0 {
        assert r[i] == rest[i - 1];
      } else {
        assert rest[j - 1] in rest;
      }
    }
  }

  lemma InsertDescCons(x: Scored<int>, t: seq<Scored<int>>)
    requires t != []
    ensures t[0].score >= x.score ==> InsertDesc(x, t) == [t[0]] + InsertDesc(x, t[1..])
    ensures t[0].score < x.score ==> InsertDesc(x, t) == [x] + t
  {
  }

  lemma HeadBeforeInserted(x: Scored<int>, t: seq<Scored<int>>)
    requires t != [] && TiesByItem(t)
    requires forall e :: e in t ==> e.item < x.item
    ensures forall e :: e in InsertDesc(x, t[1..]) && e.score == t[0].score ==> t[0].item < e.item
  {
    var rest := InsertDesc(x, t[1..]);
    forall e | e in rest && e.score == t[0].score
      ensures t[0].item < e.item
    {
      assert e in multiset(rest);
      if e != x {
        var m :| 0 <= m < |t[1..]| && t[1..][m] == e;
        assert t[m + 1] == e;
      } else {
        assert t[0] in t;
      }
    }
  }

  lemma {:induction false} InsertDescTies(x: Scored<int>, t: seq<Scored<int>>)
    requires NonIncreasing(t) && TiesByItem(t)
    requires forall e :: e in t ==> e.item < x.item
    ensures TiesByItem(InsertDesc(x, t))
  {
    if t != [] {
      InsertDescCons(x, t);
      if t[0].score >= x.score {
        HeadBounds(t);
        var rest := InsertDesc(x, t[1..]);
        InsertDescTies(x, t[1..]);
        HeadBeforeInserted(x, t);
        TiesCons(t[0], rest);
      } else {
        forall e | e in t
          ensures e.score < x.score
        {
          var m :| 0 <= m < |t| && t[m] == e;
        }
        TiesCons(x, t);
      }
    }
  }

  /**
   * Sorting input whose items ascend (retrieval order by id) leaves every
   * run of equal scores in ascending item order.
   */
  lemma {:induction false} SortDescTies(s: seq<Scored<int>>)
    requires ItemsIncreasing(s)
    ensures TiesByItem(SortDesc(s))
  {
    if s != [] {
      var init, last := s[..|s| - 1], s[|s| - 1];
      SortDescTies(init);
      forall e | e in SortDesc(init)
        ensures e.item < last.item
      {
        assert e in multiset(init);
      }
      InsertDescTies(last, SortDesc(init));
    }
  }

  // ------------------------------------------------------------------ top k

  /** Python's slice `s[:k]`, negative `k` included. */
  function Prefix<T>(s: seq<T>, k: int): (r: seq<T>)
    ensures |r| == if k >= 0 then (if k <= |s| then k else |s|)
                   else (if |s| + k >= 0 then |s| + k else 0)
    ensures r == s[..|r|]
  {
    if k >= 0 then (if k <= |s| then s[..k] else s)
    else if |s| + k >= 0 then s[..|s| + k]
    else []
  }

  /** `sorted(s, key=score, reverse=True)[:k]`. */
  function TopK<T>(s: seq<Scored<T>>, k: int): (r: seq<Scored<T>>)
    ensures |r| == if k >= 0 then (if k <= |s| then k else |s|)
                   else (if |s| + k >= 0 then |s| + k else 0)
    ensures NonIncreasing(r)
    ensures multiset(r) <= multiset(s)
  {
    var sorted := SortDesc(s);
    var r := Prefix(sorted, k);
    assert sorted == r + sorted[|r|..];
    r
  }

  /** With `k` at least the length, nothing is cut: the result is the sorted input. */
  lemma TopKAll<T>(s: seq<Scored<T>>, k: int)
    requires k >= |s|
    ensures multiset(TopK(s, k)) == multiset(s)
  {
    assert TopK(s, k) == SortDesc(s);
  }

  /** Everything kept scores at least as high as everything dropped. */
  lemma TopKDominates<T>(s: seq<Scored<T>>, k: int, x: Scored<T>, y: Scored<T>)
    requires x in TopK(s, k)
    requires y in s && y !in TopK(s, k)
    ensures x.score >= y.score
  {
    var t, r := SortDesc(s), TopK(s, k);
    assert r == t[..|r|];
    assert y in multiset(s);
    var j :| 0 <= j < |t| && t[j] == y;
    var i :| 0 <= i < |r| && r[i] == x;
    assert j >= |r|;
  }

  /** The same, for an element of the input whose item is not among the kept items. */
  lemma TopKDominatesItem<T>(s: seq<Scored<T>>, k: int, i: int, j: int)
    requires 0 <= i < |TopK(s, k)| && 0 <= j < |s|
    requires s[j].item !in Items(TopK(s, k))
    ensures TopK(s, k)[i].score >= s[j].score
  {
    var r := TopK(s, k);
    assert s[j] !in r;
    TopKDominates(s, k, r[i], s[j]);
  }

  /**
   * Among equal scores the kept elements are the first ones of the input,
   * in input order.
   */
  lemma TopKTies<T>(s: seq<Scored<T>>, k: int, v: real)
    ensures WithScore(TopK(s, k), v) <= WithScore(s, v)
  {
    var t, r := SortDesc(s), TopK(s, k);
    assert t == r + t[|r|..];
    WithScoreAppend(r, t[|r|..], v);
    SortDescStable(s, v);
  }

  lemma TopKDistinct<T>(s: seq<Scored<T>>, k: int)
    requires DistinctItems(s)
    ensures DistinctItems(TopK(s, k))
  {
    SortDescDistinct(s);
    assert TopK(s, k) == SortDesc(s)[..|TopK(s, k)|];
  }

  lemma TopKTiesByItem(s: seq<Scored<int>>, k: int)
    requires ItemsIncreasing(s)
    ensures TiesByItem(TopK(s, k))
  {
    SortDescTies(s);
    assert TopK(s, k) == SortDesc(s)[..|TopK(s, k)|];
  }
}
