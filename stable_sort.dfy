/**
 * `Array.prototype.sort` with a comparator, as ECMAScript 2019 (section 22.1.3.25)
 * requires it: a stable sort. The comparator is given as `leq(a, b)`, "a may come
 * before b", that is `compare(a, b) <= 0`; a consistent comparator makes it a total
 * preorder. The sort is an insertion sort that puts each element ahead of the
 * elements it ties with that came after it in the input.
 */
module StableSort {

  /** Any two elements compare one way or the other. */
  ghost predicate IsTotal<T(!new)>(leq: (T, T) -> bool) {
    forall a, b :: leq(a, b) || leq(b, a)
  }

  ghost predicate IsTransitive<T(!new)>(leq: (T, T) -> bool) {
    forall a, b, c :: leq(a, b) && leq(b, c) ==> leq(a, c)
  }

  /** What a consistent comparator gives. */
  ghost predicate IsTotalPreorder<T(!new)>(leq: (T, T) -> bool) {
    IsTotal(leq) && IsTransitive(leq)
  }

  /** Every element may come before every later one. */
  predicate SortedBy<T>(s: seq<T>, leq: (T, T) -> bool) {
    forall i, j :: 0 <= i < j < |s| ==> leq(s[i], s[j])
  }

  /** The elements of `s` that tie with `e`, in their order in `s`. */
  function Ties<T>(s: seq<T>, leq: (T, T) -> bool, e: T): seq<T> {
    if s == [] then []
    else (if leq(s[0], e) && leq(e, s[0]) then [s[0]] else []) + Ties(s[1..], leq, e)
  }

  /** Inserts `x` into `s` ahead of the first element it may come before. */
  function Insert<T>(x: T, s: seq<T>, leq: (T, T) -> bool): (r: seq<T>)
    ensures multiset(r) == multiset{x} + multiset(s)
  {
    if s == [] || leq(x, s[0]) then [x] + s
    else
      assert s == [s[0]] + s[1..];
      [s[0]] + Insert(x, s[1..], leq)
  }

  /** The stable sort: a permutation of `s`. */
  function SortBy<T>(s: seq<T>, leq: (T, T) -> bool): (r: seq<T>)
    ensures multiset(r) == multiset(s)
    ensures |r| == |s|
  {
    if s == [] then []
    else
      assert s == [s[0]] + s[1..];
      Insert(s[0], SortBy(s[1..], leq), leq)
  }

  /** An element that may come before the head of a sorted list keeps it sorted in front. */
  lemma InsertFrontSorted<T(!new)>(x: T, s: seq<T>, leq: (T, T) -> bool)
    requires IsTransitive(leq) && SortedBy(s, leq) && (s == [] || leq(x, s[0]))
    ensures SortedBy([x] + s, leq)
  {
    var r := [x] + s;
    forall i, j | 0 <= i < j < |r|
      ensures leq(r[i], r[j])
    {
      if i == 0 && j > 1 {
        assert leq(x, s[0]) && leq(s[0], s[j - 1]);
      }
    }
  }

  /** An element that may come before every element of a sorted list keeps it sorted in front. */
  lemma InsertBehindSorted<T>(h: T, t: seq<T>, leq: (T, T) -> bool)
    requires SortedBy(t, leq) && forall y :: y in t ==> leq(h, y)
    ensures SortedBy([h] + t, leq)
  {
    var r := [h] + t;
    forall i, j | 0 <= i < j < |r|
      ensures leq(r[i], r[j])
    {
      if i == 0 {
        assert r[j] == t[j - 1] && r[j] in t;
      } else {
        assert r[i] == t[i - 1] && r[j] == t[j - 1];
      }
    }
  }

  lemma {:induction false} InsertSorted<T(!new)>(x: T, s: seq<T>, leq: (T, T) -> bool)
    requires IsTotalPreorder(leq) && SortedBy(s, leq)
    ensures SortedBy(Insert(x, s, leq), leq)
  {
    if s == [] || leq(x, s[0]) {
      InsertFrontSorted(x, s, leq);
    } else {
      var t := Insert(x, s[1..], leq);
      assert SortedBy(s[1..], leq);
      InsertSorted(x, s[1..], leq);
      forall y | y in t
        ensures leq(s[0], y)
      {
        assert y in multiset(t);
        if y != x {
          assert y in s[1..];
        }
      }
      InsertBehindSorted(s[0], t, leq);
    }
  }

  /** The result is ordered by `leq`. */
  lemma {:induction false} SortBySorted<T(!new)>(s: seq<T>, leq: (T, T) -> bool)
    requires IsTotalPreorder(leq)
    ensures SortedBy(SortBy(s, leq), leq)
  {
    if s != [] {
      SortBySorted(s[1..], leq);
      InsertSorted(s[0], SortBy(s[1..], leq), leq);
    }
  }

  lemma {:induction false} TiesConcat<T>(a: seq<T>, b: seq<T>, leq: (T, T) -> bool, e: T)
    ensures Ties(a + b, leq, e) == Ties(a, leq, e) + Ties(b, leq, e)
  {
    if a == [] {
      assert a + b == b;
    } else {
      assert (a + b)[0] == a[0] && (a + b)[1..] == a[1..] + b;
      TiesConcat(a[1..], b, leq, e);
    }
  }

  lemma TiesSingleton<T>(x: T, leq: (T, T) -> bool, e: T)
    ensures Ties([x], leq, e) == if leq(x, e) && leq(e, x) then [x] else []
  {
    assert [x][1..] == [];
  }

  /** Two elements that do not both tie with `e`: at most one of them contributes a tie. */
  lemma TiesSwap<T>(x: T, y: T, leq: (T, T) -> bool, e: T)
    requires !(leq(x, e) && leq(e, y))
    ensures Ties([x], leq, e) == [] || Ties([y], leq, e) == []
  {
    TiesSingleton(x, leq, e);
    TiesSingleton(y, leq, e);
  }

  /** The cons step of `InsertTies`, stated without the comparator's laws. */
  lemma InsertTiesCons<T>(x: T, h: T, s: seq<T>, rest: seq<T>, leq: (T, T) -> bool, e: T)
    requires Ties([x], leq, e) == [] || Ties([h], leq, e) == []
    requires Ties(rest, leq, e) == Ties([x], leq, e) + Ties(s, leq, e)
    ensures Ties([h] + rest, leq, e) == Ties([x], leq, e) + Ties([h] + s, leq, e)
  {
    var tx, th, ts := Ties([x], leq, e), Ties([h], leq, e), Ties(s, leq, e);
    TiesConcat([h], rest, leq, e);
    TiesConcat([h], s, leq, e);
    if tx == [] {
      assert tx + ts == ts && tx + (th + ts) == th + ts;
    } else {
      assert th + (tx + ts) == tx + ts && th + ts == ts;
    }
  }

  /** Under `leq`, an element never passes over another that ties with `e` together with it:
      if `a` may not come before `b`, they do not both tie with `e`. */
  ghost predicate TiesSeparated<T(!new)>(leq: (T, T) -> bool, e: T) {
    forall a, b :: !leq(a, b) ==> !(leq(a, e) && leq(e, b))
  }

  /** Inserting `x` puts it ahead of everything in `s` that ties with `e`. */
  lemma {:induction false} InsertTies<T(!new)>(x: T, s: seq<T>, leq: (T, T) -> bool, e: T)
    requires TiesSeparated(leq, e)
    ensures Ties(Insert(x, s, leq), leq, e) == Ties([x], leq, e) + Ties(s, leq, e)
  {
    if s == [] || leq(x, s[0]) {
      TiesConcat([x], s, leq, e);
    } else {
      InsertTies(x, s[1..], leq, e);
      TiesSwap(x, s[0], leq, e);
      InsertTiesCons(x, s[0], s[1..], Insert(x, s[1..], leq), leq, e);
      assert s == [s[0]] + s[1..];
    }
  }

  /** The cons step of `SortByKeepsTies`, stated without the comparator's laws. */
  lemma SortByKeepsTiesCons<T>(h: T, t: seq<T>, sorted: seq<T>, r: seq<T>, leq: (T, T) -> bool, e: T)
    requires Ties(sorted, leq, e) == Ties(t, leq, e)
    requires Ties(r, leq, e) == Ties([h], leq, e) + Ties(sorted, leq, e)
    ensures Ties(r, leq, e) == Ties([h] + t, leq, e)
  {
    TiesConcat([h], t, leq, e);
  }

  lemma {:induction false} SortByKeepsTies<T(!new)>(s: seq<T>, leq: (T, T) -> bool, e: T)
    requires TiesSeparated(leq, e)
    ensures Ties(SortBy(s, leq), leq, e) == Ties(s, leq, e)
  {
    if s != [] {
      var h, t := s[0], s[1..];
      assert s == [h] + t;
      SortByKeepsTies(t, leq, e);
      InsertTies(h, SortBy(t, leq), leq, e);
      SortByKeepsTiesCons(h, t, SortBy(t, leq), SortBy(s, leq), leq, e);
    }
  }

  /** Stability: under a consistent comparator the elements that tie with any `e` keep their
      relative order. */
  lemma SortByStable<T(!new)>(s: seq<T>, leq: (T, T) -> bool, e: T)
    requires IsTotalPreorder(leq)
    ensures Ties(SortBy(s, leq), leq, e) == Ties(s, leq, e)
  {
    forall a, b | !leq(a, b)
      ensures !(leq(a, e) && leq(e, b))
    {
    }
    SortByKeepsTies(s, leq, e);
  }

  /** Sorting an already ordered sequence leaves it as it is. */
  lemma {:induction false} SortBySortedIdentity<T(!new)>(s: seq<T>, leq: (T, T) -> bool)
    requires SortedBy(s, leq)
    ensures SortBy(s, leq) == s
  {
    if s != [] {
      assert SortedBy(s[1..], leq);
      SortBySortedIdentity(s[1..], leq);
      if |s| > 1 {
        assert leq(s[0], s[1]);
      }
      assert s == [s[0]] + s[1..];
    }
  }
}
