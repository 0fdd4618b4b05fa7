/** Tuple comparison and stable sorting by a tuple key, as list.sort(key=...) does it. */
module Ordering {
  import opened Grouping

  predicate LexLess(a: seq<int>, b: seq<int>)
    decreases |a|
  {
    b != [] && (a == [] || a[0] < b[0] || (a[0] == b[0] && LexLess(a[1..], b[1..])))
  }

  predicate LexLeq(a: seq<int>, b: seq<int>) {
    !LexLess(b, a)
  }

  lemma {:induction false} LexTotal(a: seq<int>, b: seq<int>)
    ensures !(LexLess(a, b) && LexLess(b, a))
    ensures a != b ==> LexLess(a, b) || LexLess(b, a)
    ensures a == b ==> !LexLess(a, b)
    decreases |a|
  {
    if a != [] && b != [] && a[0] == b[0] {
      LexTotal(a[1..], b[1..]);
      assert a == [a[0]] + a[1..] && b == [b[0]] + b[1..];
    }
  }

  lemma {:induction false} LexTransitive(a: seq<int>, b: seq<int>, c: seq<int>)
    requires LexLeq(a, b) && LexLeq(b, c)
    ensures LexLeq(a, c)
    decreases |a|
  {
    if a != [] && b != [] && c != [] && a[0] == b[0] == c[0] {
      LexTransitive(a[1..], b[1..], c[1..]);
    }
  }

  ghost predicate SortedBy<T(!new)>(key: T -> seq<int>, s: seq<T>) {
    forall i, j :: 0 <= i < j < |s| ==> LexLeq(key(s[i]), key(s[j]))
  }

  /** Inserts after the elements with the same key. */
  function InsertBy<T>(key: T -> seq<int>, s: seq<T>, x: T): (r: seq<T>)
    ensures |r| == |s| + 1
  {
    if s == [] || LexLeq(key(s[|s| - 1]), key(x)) then s + [x]
    else InsertBy(key, s[..|s| - 1], x) + [s[|s| - 1]]
  }

  function SortBy<T>(key: T -> seq<int>, s: seq<T>): (r: seq<T>)
    ensures |r| == |s|
  {
    if s == [] then [] else InsertBy(key, SortBy(key, s[..|s| - 1]), s[|s| - 1])
  }

  lemma {:induction false} InsertByAdds<T(!new)>(key: T -> seq<int>, s: seq<T>, x: T)
    ensures multiset(InsertBy(key, s, x)) == multiset(s) + multiset{x}
    decreases |s|
  {
    if s != [] && !LexLeq(key(s[|s| - 1]), key(x)) {
      InsertByAdds(key, s[..|s| - 1], x);
      assert s == s[..|s| - 1] + [s[|s| - 1]];
    }
  }

  lemma AppendKeepsOrder<T(!new)>(key: T -> seq<int>, s: seq<T>, x: T)
    requires SortedBy(key, s) && forall y :: y in s ==> LexLeq(key(y), key(x))
    ensures SortedBy(key, s + [x])
  {
    forall i, j | 0 <= i < j < |s + [x]| ensures LexLeq(key((s + [x])[i]), key((s + [x])[j])) {
      assert s[i] in s;
    }
  }

  lemma LastIsGreatestKey<T(!new)>(key: T -> seq<int>, s: seq<T>, y: T)
    requires SortedBy(key, s) && y in s
    ensures LexLeq(key(y), key(s[|s| - 1]))
  {
    LexTotal(key(y), key(y));
  }

  lemma {:induction false} InsertByProperties<T(!new)>(key: T -> seq<int>, s: seq<T>, x: T)
    requires SortedBy(key, s)
    ensures SortedBy(key, InsertBy(key, s, x))
    ensures multiset(InsertBy(key, s, x)) == multiset(s) + multiset{x}
    decreases |s|
  {
    InsertByAdds(key, s, x);
    if s != [] {
      var front, last := s[..|s| - 1], s[|s| - 1];
      if LexLeq(key(last), key(x)) {
        forall y | y in s ensures LexLeq(key(y), key(x)) {
          LastIsGreatestKey(key, s, y);
          LexTransitive(key(y), key(last), key(x));
        }
        AppendKeepsOrder(key, s, x);
      } else {
        InsertByProperties(key, front, x);
        LexTotal(key(last), key(x));
        forall y | y in InsertBy(key, front, x) ensures LexLeq(key(y), key(last)) {
          assert y in multiset(InsertBy(key, front, x));
          if y != x {
            assert y in multiset(front);
            LastIsGreatestKey(key, s, y);
          }
        }
        AppendKeepsOrder(key, InsertBy(key, front, x), last);
      }
    }
  }

  /** The sorted list is a permutation of the list, in order of the keys. */
  lemma {:induction false} SortByProperties<T(!new)>(key: T -> seq<int>, s: seq<T>)
    ensures SortedBy(key, SortBy(key, s)) && multiset(SortBy(key, s)) == multiset(s)
    ensures forall x :: x in SortBy(key, s) <==> x in s
    decreases |s|
  {
    if s != [] {
      var front, last := s[..|s| - 1], s[|s| - 1];
      SortByProperties(key, front);
      InsertByProperties(key, SortBy(key, front), last);
      assert s == front + [last];
    }
    forall x ensures x in SortBy(key, s) <==> x in s {
      assert x in SortBy(key, s) <==> x in multiset(SortBy(key, s));
      assert x in s <==> x in multiset(s);
    }
  }

  lemma {:induction false} InsertByKeepsTies<T(!new)>(key: T -> seq<int>, s: seq<T>, x: T, k: seq<int>)
    ensures GroupOf(key, InsertBy(key, s, x), k) == GroupOf(key, s, k) + if key(x) == k then [x] else []
    decreases |s|
  {
    if s == [] || LexLeq(key(s[|s| - 1]), key(x)) {
      assert (s + [x])[..|s|] == s;
    } else {
      var front, last := s[..|s| - 1], s[|s| - 1];
      InsertByKeepsTies(key, front, x, k);
      LexTotal(key(x), key(x));
      var r := InsertBy(key, front, x) + [last];
      assert r[..|r| - 1] == InsertBy(key, front, x);
    }
  }

  /** Elements with one key stay in the order in which they were. */
  lemma {:induction false} SortByIsStable<T(!new)>(key: T -> seq<int>, s: seq<T>, k: seq<int>)
    ensures GroupOf(key, SortBy(key, s), k) == GroupOf(key, s, k)
    decreases |s|
  {
    if s != [] {
      SortByIsStable(key, s[..|s| - 1], k);
      InsertByKeepsTies(key, SortBy(key, s[..|s| - 1]), s[|s| - 1], k);
    }
  }

  /** The first element of the sorted list: nothing is less, and everything before it was greater. */
  lemma SortedHead<T(!new)>(key: T -> seq<int>, s: seq<T>) returns (i: nat)
    requires s != []
    ensures i < |s| && s[i] == SortBy(key, s)[0]
    ensures forall j :: 0 <= j < |s| ==> LexLeq(key(s[i]), key(s[j]))
    ensures forall j :: 0 <= j < i ==> LexLess(key(s[i]), key(s[j]))
  {
    var sorted := SortBy(key, s);
    var k := key(sorted[0]);
    SortByProperties(key, s);
    SortByIsStable(key, s, k);
    FirstOfKey(key, sorted, k, 0);
    i := FirstOfKeyAt(key, s, k);
    forall j | 0 <= j < |s| ensures LexLeq(k, key(s[j])) {
      assert s[j] in sorted;
      LexTotal(k, k);
    }
    forall j | 0 <= j < i ensures LexLess(k, key(s[j])) {
      LexTotal(k, key(s[j]));
    }
  }

  /** No two elements share a key. */
  ghost predicate KeysDiffer<T(!new)>(key: T -> seq<int>, s: seq<T>) {
    forall x, y :: x in s && y in s && key(x) == key(y) ==> x == y
  }

  /** With distinct keys the sorted order of a multiset is unique. */
  lemma {:induction false} SortedUnique<T(!new)>(key: T -> seq<int>, s: seq<T>, t: seq<T>)
    requires SortedBy(key, s) && SortedBy(key, t) && multiset(s) == multiset(t) && KeysDiffer(key, s)
    ensures s == t
    decreases |s|
  {
    assert |s| == |multiset(s)| == |multiset(t)| == |t|;
    if s != [] {
      LastIsGreatest(key, s, t);
      FrontKeepsOrder(key, s);
      FrontKeepsOrder(key, t);
      SortedUnique(key, s[..|s| - 1], t[..|t| - 1]);
    }
  }

  lemma FrontKeepsOrder<T(!new)>(key: T -> seq<int>, s: seq<T>)
    requires SortedBy(key, s) && s != []
    ensures var front, last := s[..|s| - 1], s[|s| - 1];
            && s == front + [last] && SortedBy(key, front)
            && multiset(front) == multiset(s) - multiset{last}
            && (KeysDiffer(key, s) ==> KeysDiffer(key, front))
  {
    var front, last := s[..|s| - 1], s[|s| - 1];
    assert s == front + [last];
  }

  lemma LastIsGreatest<T(!new)>(key: T -> seq<int>, s: seq<T>, t: seq<T>)
    requires SortedBy(key, s) && SortedBy(key, t) && multiset(s) == multiset(t) && KeysDiffer(key, s)
    requires s != [] && |s| == |t|
    ensures s[|s| - 1] == t[|t| - 1]
  {
    var a, b := s[|s| - 1], t[|t| - 1];
    assert a in multiset(t) && b in multiset(s);
    var i :| 0 <= i < |t| && t[i] == a;
    var j :| 0 <= j < |s| && s[j] == b;
    LexTotal(key(a), key(b));
    LexTotal(key(a), key(a));
    LexTotal(key(b), key(b));
    assert LexLeq(key(a), key(b)) && LexLeq(key(b), key(a));
  }
}
