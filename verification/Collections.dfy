/** Small facts about sets, maps and sequences used by several modules. */
module Collections {
  lemma NoMembers<T>(s: set<T>)
    requires forall x :: x !in s
    ensures s == {}
  {
  }

  lemma Member<T>(s: set<T>) returns (x: T)
    requires s != {}
    ensures x in s
  {
    if forall y :: y !in s {
      NoMembers(s);
      assert false;
    }
    x :| x in s;
  }

  lemma HasMember<T>(s: set<T>, x: T)
    requires x in s
    ensures |s| > 0
  {
  }

  lemma {:induction false} SubsetSize<T>(a: set<T>, b: set<T>)
    requires a <= b
    ensures |a| <= |b|
    decreases |a|
  {
    if a != {} {
      var x := Member(a);
      SubsetSize(a - {x}, b - {x});
    }
  }

  lemma AtMostOne<T>(s: set<T>, a: T, b: T)
    requires |s| <= 1 && a in s && b in s
    ensures a == b
  {
    SubsetSize({a, b}, s);
    assert a != b ==> |{a, b}| == 2;
  }

  lemma NoKeys<K, V>(m: map<K, V>)
    requires forall k :: k !in m
    ensures m == map[]
  {
  }

  lemma HasKey<K, V>(m: map<K, V>)
    requires m != map[]
    ensures exists k :: k in m
  {
    if forall k :: k !in m {
      NoKeys(m);
    }
  }

  /** The sum of a finite map's values. */
  ghost function Sum<K>(m: map<K, nat>): nat
    decreases |m|
  {
    if m == map[] then 0 else
      HasKey(m);
      var k :| k in m;
      assert (m - {k}).Keys == m.Keys - {k};
      m[k] + Sum(m - {k})
  }

  lemma {:induction false} SumSplit<K>(m: map<K, nat>, k: K)
    requires k in m
    ensures Sum(m) == m[k] + Sum(m - {k})
    decreases |m|
  {
    HasKey(m);
    var j :| j in m && Sum(m) == m[j] + Sum(m - {j});
    if j != k {
      assert (m - {j}).Keys == m.Keys - {j} && (m - {k}).Keys == m.Keys - {k};
      SumSplit(m - {j}, k);
      SumSplit(m - {k}, j);
      assert m - {j} - {k} == m - {k} - {j};
    }
  }

  lemma SumUpdate<K>(m: map<K, nat>, k: K, v: nat)
    ensures Sum(m[k := v]) == Sum(m) - (if k in m then m[k] else 0) + v
  {
    SumSplit(m[k := v], k);
    assert m[k := v] - {k} == m - {k};
    if k in m {
      SumSplit(m, k);
    } else {
      assert m - {k} == m;
    }
  }

  /** A finite set has a least element in every total order. */
  lemma {:induction false} LeastOf<T(!new)>(s: set<T>, before: (T, T) -> bool) returns (least: T)
    requires s != {}
    requires forall a, b :: a in s && b in s && a != b ==> before(a, b) || before(b, a)
    requires forall a, b, c :: a in s && b in s && c in s && before(a, b) && before(b, c) ==> before(a, c)
    ensures least in s && forall x :: x in s && x != least ==> before(least, x)
    decreases |s|
  {
    least := Member(s);
    var rest := s - {least};
    if rest == {} {
      assert s == {least};
    } else {
      var second := LeastOf(rest, before);
      if before(second, least) {
        least := second;
      }
    }
  }

  /** Without one place, a list has the items of the other places. */
  lemma OtherPlaces<T>(s: seq<T>, k: nat, x: T)
    requires k < |s|
    ensures x in s[..k] + s[k + 1..] <==> exists l :: 0 <= l < |s| && l != k && s[l] == x
  {
    var others := s[..k] + s[k + 1..];
    if l :| 0 <= l < |s| && l != k && s[l] == x {
      assert others[if l < k then l else l - 1] == x;
    }
    if x in others {
      var m :| 0 <= m < |others| && others[m] == x;
      assert s[if m < k then m else m + 1] == x;
    }
  }

  /** If a list is permuted so that the item of place `k` comes first, the others are those of the other places. */
  lemma RestOfPermutation<T>(s: seq<T>, t: seq<T>, k: nat, x: T)
    requires k < |s| && multiset(s) == multiset(t) && t != [] && t[0] == s[k]
    ensures x in t[1..] <==> exists l :: 0 <= l < |s| && l != k && s[l] == x
  {
    var others := s[..k] + s[k + 1..];
    assert s == s[..k] + ([s[k]] + s[k + 1..]) && t == [t[0]] + t[1..];
    var left, right, rest := multiset(s[..k]), multiset(s[k + 1..]), multiset(t[1..]);
    assert multiset(s) == left + (multiset{s[k]} + right) && multiset(t) == multiset{s[k]} + rest;
    assert multiset(s)[x] == left[x] + multiset{s[k]}[x] + right[x];
    assert multiset(t)[x] == multiset{s[k]}[x] + rest[x];
    assert multiset(others) == left + right;
    assert x in t[1..] <==> x in multiset(t[1..]);
    assert x in others <==> x in multiset(others);
    OtherPlaces(s, k, x);
  }
}
