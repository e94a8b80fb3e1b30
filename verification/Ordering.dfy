/** Sorting as the source uses it: Python's stable `sorted`, SQL's ORDER BY, and sorted key sets. */
module Ordering {

  ghost predicate TotalPreorder<T(!new)>(le: (T, T) -> bool) {
    && (forall x, y :: le(x, y) || le(y, x))
    && (forall x, y, z :: le(x, y) && le(y, z) ==> le(x, z))
  }

  predicate SortedBy<T>(s: seq<T>, le: (T, T) -> bool) {
    forall i, j | 0 <= i < j < |s| :: le(s[i], s[j])
  }

  /** Insert x behind every element that may precede it, so equal elements keep their arrival order. */
  function InsertBy<T>(s: seq<T>, x: T, le: (T, T) -> bool): seq<T>
    decreases |s|
  {
    if s == [] || le(s[|s| - 1], x) then s + [x]
    else InsertBy(s[..|s| - 1], x, le) + [s[|s| - 1]]
  }

  /** The stable sort of s. */
  function SortBy<T>(s: seq<T>, le: (T, T) -> bool): seq<T>
    decreases |s|
  {
    if s == [] then []
    else InsertBy(SortBy(s[..|s| - 1], le), s[|s| - 1], le)
  }

  lemma {:induction false} InsertByCorrect<T(!new)>(s: seq<T>, x: T, le: (T, T) -> bool)
    requires TotalPreorder(le) && SortedBy(s, le)
    ensures SortedBy(InsertBy(s, x, le), le)
    ensures multiset(InsertBy(s, x, le)) == multiset(s) + multiset{x}
    decreases |s|
  {
    var r := InsertBy(s, x, le);
    if s == [] || le(s[|s| - 1], x) {
      forall i, j | 0 <= i < j < |r| ensures le(r[i], r[j]) {
        if j == |s| && i < |s| - 1 {
          assert le(s[i], s[|s| - 1]);
        }
      }
    } else {
      var init, last := s[..|s| - 1], s[|s| - 1];
      assert s == init + [last];
      InsertByCorrect(init, x, le);
      var ri := InsertBy(init, x, le);
      forall i | 0 <= i < |ri| ensures le(ri[i], last) {
        assert ri[i] in multiset(ri);
        if ri[i] != x {
          assert ri[i] in multiset(init);
          assert ri[i] in init;
        }
      }
    }
  }

  /** The stable sort is ordered and rearranges its input. */
  lemma {:induction false} SortByCorrect<T(!new)>(s: seq<T>, le: (T, T) -> bool)
    requires TotalPreorder(le)
    ensures SortedBy(SortBy(s, le), le)
    ensures multiset(SortBy(s, le)) == multiset(s)
    decreases |s|
  {
    if s != [] {
      SortByCorrect(s[..|s| - 1], le);
      InsertByCorrect(SortBy(s[..|s| - 1], le), s[|s| - 1], le);
      assert s == s[..|s| - 1] + [s[|s| - 1]];
    }
  }

  /** Sorting an ordered list changes nothing. */
  lemma {:induction false} SortByFixpoint<T>(s: seq<T>, le: (T, T) -> bool)
    requires SortedBy(s, le)
    ensures SortBy(s, le) == s
    decreases |s|
  {
    if s != [] {
      var init, last := s[..|s| - 1], s[|s| - 1];
      SortByFixpoint(init, le);
      assert init == [] || le(init[|init| - 1], last);
      assert InsertBy(init, last, le) == init + [last];
      assert s == init + [last];
    }
  }

  ghost predicate Tie<T(!new)>(x: T, y: T, le: (T, T) -> bool) { le(x, y) && le(y, x) }

  /** Whenever two elements compare equal, the earlier one stands in r to the later one. */
  ghost predicate TiesKeep<T(!new)>(s: seq<T>, le: (T, T) -> bool, r: (T, T) -> bool) {
    forall i, j | 0 <= i < j < |s| && Tie(s[i], s[j], le) :: r(s[i], s[j])
  }

  lemma TiesKeepConcat<T(!new)>(a: seq<T>, b: seq<T>, le: (T, T) -> bool, r: (T, T) -> bool)
    requires TiesKeep(a, le, r) && TiesKeep(b, le, r)
    requires forall x, y | x in a && y in b && Tie(x, y, le) :: r(x, y)
    ensures TiesKeep(a + b, le, r)
  {
    hide Tie;
    var all := a + b;
    forall i, j | 0 <= i < j < |all| && Tie(all[i], all[j], le) ensures r(all[i], all[j]) {
      if j < |a| {
        assert all[i] == a[i] && all[j] == a[j];
      } else if i < |a| {
        assert all[i] in a && all[j] in b;
      } else {
        assert all[i] == b[i - |a|] && all[j] == b[j - |a|];
      }
    }
  }

  lemma {:induction false} InsertKeepsTies<T(!new)>(s: seq<T>, x: T, le: (T, T) -> bool, r: (T, T) -> bool)
    requires TotalPreorder(le) && SortedBy(s, le) && TiesKeep(s, le, r)
    requires forall y | y in s && Tie(y, x, le) :: r(y, x)
    ensures TiesKeep(InsertBy(s, x, le), le, r)
    decreases |s|
  {
    if s != [] && !le(s[|s| - 1], x) {
      var init, last := s[..|s| - 1], s[|s| - 1];
      assert s == init + [last];
      InsertKeepsTies(init, x, le, r);
      InsertByCorrect(init, x, le);
      var ri := InsertBy(init, x, le);
      forall i | 0 <= i < |ri| && Tie(ri[i], last, le) ensures r(ri[i], last) {
        assert ri[i] in multiset(ri) && ri[i] != x;
        assert ri[i] in multiset(init);
        var k :| 0 <= k < |init| && init[k] == ri[i];
        assert s[k] == ri[i];
      }
    }
  }

  /** The stable sort keeps equal elements in their order of arrival. */
  lemma {:induction false} SortKeepsTies<T(!new)>(s: seq<T>, le: (T, T) -> bool, r: (T, T) -> bool)
    requires TotalPreorder(le) && TiesKeep(s, le, r)
    ensures TiesKeep(SortBy(s, le), le, r)
    decreases |s|
  {
    if s != [] {
      var init, last := s[..|s| - 1], s[|s| - 1];
      SortKeepsTies(init, le, r);
      SortByCorrect(init, le);
      var sorted := SortBy(init, le);
      forall y | y in sorted && Tie(y, last, le) ensures r(y, last) {
        assert y in multiset(sorted);
        assert y in multiset(init);
        var k :| 0 <= k < |init| && init[k] == y;
        assert s[k] == y;
      }
      InsertKeepsTies(sorted, last, le, r);
    }
  }

  /** Takes one occurrence of x out of a list. */
  lemma TakeOut<T>(b: seq<T>, x: T) returns (l: seq<T>, r: seq<T>)
    requires x in multiset(b)
    ensures b == l + ([x] + r)
    ensures multiset(l + r) == multiset(b) - multiset{x}
  {
    var i :| 0 <= i < |b| && b[i] == x;
    l, r := b[..i], b[i + 1..];
    assert b == l + ([x] + r);
    assert multiset(b) == multiset(l) + (multiset{x} + multiset(r));
  }

  lemma SameLength<T>(a: seq<T>, b: seq<T>)
    requires multiset(a) == multiset(b)
    ensures |a| == |b|
  {
    assert |multiset(a)| == |a| && |multiset(b)| == |b|;
  }

  predicate Ascending(s: seq<int>) {
    forall i, j | 0 <= i < j < |s| :: s[i] < s[j]
  }

  predicate IsLeast(m: int, s: set<int>) {
    m in s && forall x | x in s :: m <= x
  }

  lemma {:induction false} LeastExists(s: set<int>)
    requires s != {}
    ensures exists m :: IsLeast(m, s)
    decreases |s|
  {
    Inhabited(s);
    var k :| k in s;
    if !IsLeast(k, s) {
      var x :| x in s && x < k;
      assert x in s - {k};
      LeastExists(s - {k});
      var m :| IsLeast(m, s - {k});
      assert IsLeast(m, s) by {
        forall y | y in s ensures m <= y {
          assert y == k || y in s - {k};
        }
      }
    }
  }

  lemma Inhabited(s: set<int>)
    ensures s == {} || exists k :: k in s
  {
    if !exists k :: k in s {
      assert s == {};
    }
  }

  /** Python's `sorted(...)` over a set of timestamps. */
  function SortedSet(s: set<int>): (r: seq<int>)
    ensures Ascending(r)
    ensures forall x :: x in r <==> x in s
    decreases |s|
  {
    if s == {} then []
    else
      LeastExists(s);
      var m :| m in s && IsLeast(m, s);
      [m] + SortedSet(s - {m})
  }

  /** An ascending list is determined by its elements. */
  lemma {:induction false} AscendingUnique(a: seq<int>, b: seq<int>)
    requires Ascending(a) && Ascending(b)
    requires forall x :: x in a <==> x in b
    ensures a == b
    decreases |a|
  {
    forall i | 0 <= i < |b| ensures b[i] in a {
      assert b[i] in b;
    }
    if b != [] {
      assert b[0] in a;
    }
    if a == [] {
    } else {
      assert a[0] in b && (b == [] || b[0] in a);
      var i :| 0 <= i < |b| && b[i] == a[0];
      var j :| 0 <= j < |a| && a[j] == b[0];
      assert a[0] == b[0];
      forall x ensures x in a[1..] <==> x in b[1..] {
        if x in a[1..] { assert x in a && x != a[0]; }
        if x in b[1..] { assert x in b && x != b[0]; }
      }
      AscendingUnique(a[1..], b[1..]);
    }
  }
}
