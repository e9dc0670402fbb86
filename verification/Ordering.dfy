/** Stable sorting by a comparison that may call different elements equal. */
module Ordering {
  ghost predicate TotalPreorder<T(!new)>(le: (T, T) -> bool) {
    && (forall a, b :: le(a, b) || le(b, a))
    && (forall a, b, c :: le(a, b) && le(b, c) ==> le(a, c))
  }

  predicate Sorted<T>(le: (T, T) -> bool, s: seq<T>) {
    forall i, j :: 0 <= i < j < |s| ==> le(s[i], s[j])
  }

  /** Puts an element before the first one it does not exceed. */
  function Insert<T>(le: (T, T) -> bool, x: T, s: seq<T>): seq<T> {
    if s == [] || le(x, s[0]) then [x] + s else [s[0]] + Insert(le, x, s[1..])
  }

  function Sort<T>(le: (T, T) -> bool, s: seq<T>): seq<T> {
    if s == [] then [] else Insert(le, s[0], Sort(le, s[1..]))
  }

  lemma {:induction false} InsertSorts<T(!new)>(le: (T, T) -> bool, x: T, s: seq<T>)
    requires TotalPreorder(le) && Sorted(le, s)
    ensures Sorted(le, Insert(le, x, s)) && multiset(Insert(le, x, s)) == multiset(s) + multiset{x}
  {
    if s != [] && !le(x, s[0]) {
      InsertSorts(le, x, s[1..]);
      var rest := Insert(le, x, s[1..]);
      assert s == [s[0]] + s[1..];
      forall y | y in rest ensures le(s[0], y) {
        assert y in multiset(rest);
        assert y == x || y in s[1..];
      }
    }
  }

  lemma {:induction false} SortSorts<T(!new)>(le: (T, T) -> bool, s: seq<T>)
    requires TotalPreorder(le)
    ensures Sorted(le, Sort(le, s)) && multiset(Sort(le, s)) == multiset(s)
  {
    if s != [] {
      SortSorts(le, s[1..]);
      InsertSorts(le, s[0], Sort(le, s[1..]));
      assert s == [s[0]] + s[1..];
    }
  }

  lemma Uncons<T>(s: seq<T>)
    requires s != []
    ensures multiset(s[1..]) == multiset(s) - multiset{s[0]} && s[0] in multiset(s)
  {
    assert s == [s[0]] + s[1..];
  }

  lemma SameElements<T>(s: seq<T>, t: seq<T>)
    requires multiset(s) == multiset(t)
    ensures |s| == |t| && forall x :: x in s <==> x in t
  {
    assert |multiset(s)| == |s| && |multiset(t)| == |t|;
    forall x ensures x in s <==> x in t {
      assert x in multiset(s) <==> x in s;
      assert x in multiset(t) <==> x in t;
    }
  }

  lemma SortedHead<T>(le: (T, T) -> bool, s: seq<T>, x: T)
    requires Sorted(le, s) && x in s
    ensures x == s[0] || le(s[0], x)
  {
  }

  /** Without ties between different elements, a sorted arrangement is the only one. */
  lemma {:induction false} SortedUnique<T(!new)>(le: (T, T) -> bool, s: seq<T>, t: seq<T>)
    requires Sorted(le, s) && Sorted(le, t) && multiset(s) == multiset(t)
    requires forall a, b :: a in s && b in s && le(a, b) && le(b, a) ==> a == b
    ensures s == t
  {
    SameElements(s, t);
    if s != [] {
      SortedHead(le, s, t[0]);
      SortedHead(le, t, s[0]);
      Uncons(s);
      Uncons(t);
      SortedUnique(le, s[1..], t[1..]);
      assert s == [s[0]] + s[1..] && t == [t[0]] + t[1..];
    }
  }

  predicate NoRepeat<T(==)>(s: seq<T>) {
    forall i, j :: 0 <= i < j < |s| ==> s[i] != s[j]
  }

  lemma NoRepeatWith<T>(s: seq<T>, x: T)
    requires NoRepeat(s) && x !in s
    ensures NoRepeat([x] + s) && NoRepeat(s + [x])
  {
  }

  lemma {:induction false} NoRepeatCounts<T>(s: seq<T>)
    requires NoRepeat(s)
    ensures forall x :: multiset(s)[x] == if x in s then 1 else 0
  {
    if s != [] {
      NoRepeatCounts(s[1..]);
      assert s == [s[0]] + s[1..];
      assert s[0] !in s[1..];
    }
  }

  lemma SameSet<T>(s: seq<T>, t: seq<T>)
    requires NoRepeat(s) && NoRepeat(t)
    ensures multiset(s) == multiset(t) <==> forall x :: x in s <==> x in t
  {
    if multiset(s) == multiset(t) {
      SameElements(s, t);
    } else {
      NoRepeatCounts(s);
      NoRepeatCounts(t);
      var x :| multiset(s)[x] != multiset(t)[x];
      assert (x in s) != (x in t);
    }
  }

  /** Two lists of the same elements, none repeated, are sorted alike when no two elements tie. */
  lemma SortCanonical<T(!new)>(le: (T, T) -> bool, s: seq<T>, t: seq<T>)
    requires TotalPreorder(le) && NoRepeat(s) && NoRepeat(t)
    requires forall a, b :: a in s && b in s && le(a, b) && le(b, a) ==> a == b
    ensures Sort(le, s) == Sort(le, t) <==> forall x :: x in s <==> x in t
  {
    SortSorts(le, s);
    SortSorts(le, t);
    SameSet(s, t);
    if multiset(s) == multiset(t) {
      SameElements(Sort(le, s), s);
      SortedUnique(le, Sort(le, s), Sort(le, t));
    }
  }

  ghost predicate Before<T>(s: seq<T>, a: T, b: T) {
    exists i, j :: 0 <= i < j < |s| && s[i] == a && s[j] == b
  }

  lemma {:induction false} InsertKeepsOrder<T(!new)>(le: (T, T) -> bool, x: T, s: seq<T>, a: T, b: T)
    requires Before(s, a, b) || (x == a && b in s && le(a, b))
    ensures Before(Insert(le, x, s), a, b)
  {
    if s == [] || le(x, s[0]) {
      var r := [x] + s;
      if Before(s, a, b) {
        var i, j :| 0 <= i < j < |s| && s[i] == a && s[j] == b;
        assert r[i + 1] == a && r[j + 1] == b;
      } else {
        var j :| 0 <= j < |s| && s[j] == b;
        assert r[0] == a && r[j + 1] == b;
      }
    } else {
      InsertKeepsOrderLater(le, x, s, a, b);
    }
  }

  lemma InsertKeepsOrderLater<T(!new)>(le: (T, T) -> bool, x: T, s: seq<T>, a: T, b: T)
    requires s != [] && !le(x, s[0])
    requires Before(s, a, b) || (x == a && b in s && le(a, b))
    ensures Before(Insert(le, x, s), a, b)
    decreases s, 0
  {
    var rest := Insert(le, x, s[1..]);
    var r := [s[0]] + rest;
    if s[0] == a && b in s[1..] {
      InsertHolds(le, x, s[1..], b);
      var j :| 0 <= j < |rest| && rest[j] == b;
      assert r[0] == a && r[j + 1] == b;
    } else {
      if Before(s, a, b) {
        var i, j :| 0 <= i < j < |s| && s[i] == a && s[j] == b;
        assert s[1..][j - 1] == b;
        assert i > 0 ==> s[1..][i - 1] == a;
      }
      InsertKeepsOrder(le, x, s[1..], a, b);
      var i, j :| 0 <= i < j < |rest| && rest[i] == a && rest[j] == b;
      assert r[i + 1] == a && r[j + 1] == b;
    }
  }

  lemma {:induction false} InsertHolds<T>(le: (T, T) -> bool, x: T, s: seq<T>, b: T)
    ensures b in Insert(le, x, s) <==> b == x || b in s
  {
    if s != [] && !le(x, s[0]) {
      InsertHolds(le, x, s[1..], b);
      assert s == [s[0]] + s[1..];
    }
  }

  lemma {:induction false} SortHolds<T>(le: (T, T) -> bool, s: seq<T>, b: T)
    ensures b in Sort(le, s) <==> b in s
  {
    if s != [] {
      SortHolds(le, s[1..], b);
      InsertHolds(le, s[0], Sort(le, s[1..]), b);
      assert s == [s[0]] + s[1..];
    }
  }

  /** The sort is stable. */
  lemma {:induction false} SortKeepsOrder<T(!new)>(le: (T, T) -> bool, s: seq<T>, a: T, b: T)
    requires le(a, b) && Before(s, a, b)
    ensures Before(Sort(le, s), a, b)
  {
    var i, j :| 0 <= i < j < |s| && s[i] == a && s[j] == b;
    assert s[1..][j - 1] == b;
    if i > 0 {
      assert s[1..][i - 1] == a;
      SortKeepsOrder(le, s[1..], a, b);
    } else {
      SortHolds(le, s[1..], b);
    }
    InsertKeepsOrder(le, s[0], Sort(le, s[1..]), a, b);
  }

  lemma SortNoRepeat<T(!new)>(le: (T, T) -> bool, s: seq<T>, a: T, b: T)
    requires TotalPreorder(le) && NoRepeat(s) && a != b
    ensures !(Before(Sort(le, s), a, b) && Before(Sort(le, s), b, a))
  {
    var r := Sort(le, s);
    SortSorts(le, s);
    NoRepeatCounts(s);
    if Before(r, a, b) && Before(r, b, a) {
      var i, j :| 0 <= i < j < |r| && r[i] == a && r[j] == b;
      var k, l :| 0 <= k < l < |r| && r[k] == b && r[l] == a;
      if i < l { CountedTwice(r, i, l); } else if l < i { CountedTwice(r, l, i); } else { CountedTwice(r, k, j); }
    }
  }

  lemma CountedTwice<T>(s: seq<T>, i: nat, j: nat)
    requires i < j < |s| && s[i] == s[j]
    ensures multiset(s)[s[i]] >= 2
  {
    assert s == s[..j] + s[j..];
    assert s[i] in s[..j] && s[j] in s[j..];
    assert multiset(s[..j])[s[i]] >= 1 && multiset(s[j..])[s[i]] >= 1;
  }

  /** With a tie, the order of arrival shows in the result. */
  lemma TieShowsOrder<T(!new)>(le: (T, T) -> bool, s: seq<T>, t: seq<T>, a: T, b: T)
    requires TotalPreorder(le) && NoRepeat(s) && NoRepeat(t) && a != b && le(a, b) && le(b, a)
    requires Before(s, a, b) && Before(t, b, a)
    ensures Sort(le, s) != Sort(le, t)
  {
    SortKeepsOrder(le, s, a, b);
    SortKeepsOrder(le, t, b, a);
    SortNoRepeat(le, s, a, b);
  }
}
