/** `Array.prototype.sort` with a comparator, as a stable insertion sort on sequences.
    The ECMAScript specification has required `sort` to be stable since 2019, so
    elements the comparator ranks equal keep their original order. */
module Sorting {

  /** `leq(a, b)` holds when the comparator does not place `b` strictly before `a`. */
  ghost predicate TotalPreorder<T(!new)>(leq: (T, T) -> bool) {
    && (forall a, b :: leq(a, b) || leq(b, a))
    && (forall a, b, c :: leq(a, b) && leq(b, c) ==> leq(a, c))
  }

  ghost predicate Sorted<T>(s: seq<T>, leq: (T, T) -> bool) {
    forall i, j :: 0 <= i < j < |s| ==> leq(s[i], s[j])
  }

  /** Places `x` after every element of `s` that is not ranked above it. */
  function Insert<T(==)>(s: seq<T>, x: T, leq: (T, T) -> bool): (r: seq<T>)
    ensures multiset(r) == multiset(s) + multiset{x}
    ensures |r| == |s| + 1
  {
    if s == [] || leq(s[|s| - 1], x) then s + [x]
    else
      var init := s[..|s| - 1];
      assert s == init + [s[|s| - 1]];
      Insert(init, x, leq) + [s[|s| - 1]]
  }

  lemma {:induction false} InsertSorted<T(!new)>(s: seq<T>, x: T, leq: (T, T) -> bool)
    requires TotalPreorder(leq) && Sorted(s, leq)
    ensures Sorted(Insert(s, x, leq), leq)
  {
    if s == [] || leq(s[|s| - 1], x) {
      var r := s + [x];
      forall i, j | 0 <= i < j < |r| ensures leq(r[i], r[j]) {
        if j == |s| && i < |s| - 1 {
          assert leq(s[i], s[|s| - 1]);
        }
      }
    } else {
      var last := s[|s| - 1];
      var init := s[..|s| - 1];
      assert s == init + [last];
      InsertSorted(init, x, leq);
      var front := Insert(init, x, leq);
      var r := front + [last];
      assert leq(x, last);
      forall k | 0 <= k < |front| ensures leq(front[k], last) {
        assert front[k] in multiset(front);
        assert front[k] in multiset(init) || front[k] == x;
        if front[k] != x {
          var m :| 0 <= m < |init| && init[m] == front[k];
          assert s[m] == front[k];
        }
      }
      forall i, j | 0 <= i < j < |r| ensures leq(r[i], r[j]) {
        if j < |front| {
          assert leq(front[i], front[j]);
        }
      }
    }
  }

  /** The sorted permutation of `s`; ties keep their order in `s`. */
  function SortBy<T(==)>(s: seq<T>, leq: (T, T) -> bool): (r: seq<T>)
    ensures multiset(r) == multiset(s) && |r| == |s|
  {
    if s == [] then []
    else
      var init := s[..|s| - 1];
      assert s == init + [s[|s| - 1]];
      Insert(SortBy(init, leq), s[|s| - 1], leq)
  }

  lemma {:induction false} SortBySorted<T(!new)>(s: seq<T>, leq: (T, T) -> bool)
    requires TotalPreorder(leq)
    ensures Sorted(SortBy(s, leq), leq)
  {
    if s != [] {
      SortBySorted(s[..|s| - 1], leq);
      InsertSorted(SortBy(s[..|s| - 1], leq), s[|s| - 1], leq);
    }
  }

  lemma InSortBy<T>(s: seq<T>, leq: (T, T) -> bool, x: T)
    ensures x in SortBy(s, leq) <==> x in s
  {
    var r := SortBy(s, leq);
    assert x in r <==> x in multiset(r);
    assert x in s <==> x in multiset(s);
  }

  /** The comparator ranks `a` and `b` equal: neither goes strictly before the other. */
  predicate Tied<T>(leq: (T, T) -> bool, a: T, b: T) {
    leq(a, b) && leq(b, a)
  }

  /** The elements of `s` the comparator ranks equal to `x`, in their order in `s`. */
  function TiedWith<T(==,!new)>(s: seq<T>, leq: (T, T) -> bool, x: T): (r: seq<T>)
    ensures |r| <= |s|
    ensures forall y :: y in r <==> y in s && Tied(leq, y, x)
  {
    if s == [] then []
    else
      var init, last := s[..|s| - 1], s[|s| - 1];
      assert s == init + [last];
      TiedWith(init, leq, x) + if Tied(leq, last, x) then [last] else []
  }

  lemma TiedWithSnoc<T(!new)>(s: seq<T>, y: T, leq: (T, T) -> bool, x: T)
    ensures TiedWith(s + [y], leq, x) == TiedWith(s, leq, x) + if Tied(leq, y, x) then [y] else []
  {
    assert (s + [y])[..|s|] == s;
  }

  /** If `a` goes strictly after `b`, they are not both tied with the same `x`. */
  lemma NotBothTied<T(!new)>(leq: (T, T) -> bool, a: T, b: T, x: T)
    requires TotalPreorder(leq) && !leq(a, b)
    ensures !(Tied(leq, b, x) && Tied(leq, a, x))
  {
    assert leq(a, x) && leq(x, b) ==> leq(a, b);
  }

  /** Inserting `y` adds it to the end of its ties: no element placed after it is tied with it. */
  lemma {:induction false} InsertTies<T(!new)>(s: seq<T>, y: T, leq: (T, T) -> bool, x: T)
    requires TotalPreorder(leq)
    ensures TiedWith(Insert(s, y, leq), leq, x) == TiedWith(s, leq, x) + if Tied(leq, y, x) then [y] else []
  {
    if s == [] || leq(s[|s| - 1], y) {
      TiedWithSnoc(s, y, leq, x);
    } else {
      var init, last := s[..|s| - 1], s[|s| - 1];
      assert s == init + [last];
      InsertTies(init, y, leq, x);
      TiedWithSnoc(Insert(init, y, leq), last, leq, x);
      TiedWithSnoc(init, last, leq, x);
      NotBothTied(leq, last, y, x);
    }
  }

  /** Stability: the elements ranked equal to any `x` keep their relative order. */
  lemma {:induction false} SortByStable<T(!new)>(s: seq<T>, leq: (T, T) -> bool, x: T)
    requires TotalPreorder(leq)
    ensures TiedWith(SortBy(s, leq), leq, x) == TiedWith(s, leq, x)
  {
    if s != [] {
      var init := s[..|s| - 1];
      SortByStable(init, leq, x);
      InsertTies(SortBy(init, leq), s[|s| - 1], leq, x);
    }
  }

  /** A sequence without repeats has as many elements as its set. */
  lemma {:induction false} DistinctCard<T>(s: seq<T>)
    requires forall i, j :: 0 <= i < j < |s| ==> s[i] != s[j]
    ensures |set x | x in s| == |s|
    decreases |s|
  {
    if s != [] {
      var init, last := s[..|s| - 1], s[|s| - 1];
      DistinctCard(init);
      assert (set x | x in s) == (set x | x in init) + {last};
      assert last !in init;
    }
  }

  /** `s.slice(0, n)` */
  function Take<T>(s: seq<T>, n: nat): (r: seq<T>)
    ensures |r| == if |s| < n then |s| else n
    ensures r <= s
  {
    if |s| <= n then s else s[..n]
  }

  /** A slice takes each element no more often than it occurs. */
  lemma TakeDrawn<T>(s: seq<T>, n: nat)
    ensures multiset(Take(s, n)) <= multiset(s)
  {
    var r := Take(s, n);
    assert s == r + s[|r|..];
    assert multiset(s) == multiset(r) + multiset(s[|r|..]);
  }
}
