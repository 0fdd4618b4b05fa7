/** Grouping a list by a key into an insertion-ordered dictionary, as `setdefault(key, []).append(item)` does. */
module Grouping {

  /** The items of one key, in order. */
  function GroupOf<T, K(==)>(place: T -> K, s: seq<T>, key: K): seq<T> {
    if s == [] then [] else
      var n := |s| - 1;
      GroupOf(place, s[..n], key) + if place(s[n]) == key then [s[n]] else []
  }

  /** The keys in the order of their first items, without the blank one. */
  function KeysInOrder<T, K(==)>(place: T -> K, blank: K, s: seq<T>): seq<K> {
    if s == [] then [] else
      var n := |s| - 1;
      var before, key := KeysInOrder(place, blank, s[..n]), place(s[n]);
      if key == blank || key in before then before else before + [key]
  }

  /** The loop that fills the dictionary; items with the blank key are set apart. */
  method GroupInOrder<T, K(==,!new)>(place: T -> K, blank: K, s: seq<T>)
    returns (order: seq<K>, groups: map<K, seq<T>>, rest: seq<T>)
    ensures order == KeysInOrder(place, blank, s) && rest == GroupOf(place, s, blank)
    ensures forall k :: k in order ==> k in groups && groups[k] == GroupOf(place, s, k)
  {
    order, groups, rest := [], map[], [];
    for i := 0 to |s|
      invariant order == KeysInOrder(place, blank, s[..i]) && rest == GroupOf(place, s[..i], blank)
      invariant groups.Keys == set k | k in order
      invariant forall k :: k in order ==> groups[k] == GroupOf(place, s[..i], k)
    {
      assert s[..i + 1][..i] == s[..i];
      var key := place(s[i]);
      KeysAre(place, blank, s[..i]);
      if key == blank {
        rest := rest + [s[i]];
      } else if key in groups {
        groups := groups[key := groups[key] + [s[i]]];
      } else {
        groups := groups[key := [s[i]]];
        order := order + [key];
      }
    }
    assert s[..|s|] == s;
  }

  predicate Distinct<K(==)>(order: seq<K>) {
    forall i, j :: 0 <= i < j < |order| ==> order[i] != order[j]
  }

  lemma {:induction false} KeysAre<T, K(!new)>(place: T -> K, blank: K, s: seq<T>)
    ensures Distinct(KeysInOrder(place, blank, s)) && blank !in KeysInOrder(place, blank, s)
    ensures forall k :: k in KeysInOrder(place, blank, s) <==> k != blank && GroupOf(place, s, k) != []
    decreases |s|
  {
    if s != [] {
      KeysAre(place, blank, s[..|s| - 1]);
    }
  }

  /** Before any item of a key there is an item of each key that precedes it in the order. */
  lemma {:induction false} KeysBySight<T, K(!new)>(place: T -> K, blank: K, s: seq<T>, i: nat, j: nat, q: nat)
    returns (p: nat)
    requires var order := KeysInOrder(place, blank, s); i < j < |order| && q < |s| && place(s[q]) == order[j]
    ensures p < q && place(s[p]) == KeysInOrder(place, blank, s)[i]
    decreases |s|
  {
    var n := |s| - 1;
    var before, order := KeysInOrder(place, blank, s[..n]), KeysInOrder(place, blank, s);
    KeysAre(place, blank, s[..n]);
    if q < n {
      KeyInList(place, s[..n], q);
      assert order[j] in before;
      p := KeysBySight(place, blank, s[..n], i, j, q);
    } else {
      p := SomeOfKey(place, s[..n], order[i]);
    }
  }

  lemma KeyInList<T, K>(place: T -> K, s: seq<T>, q: nat)
    requires q < |s|
    ensures GroupOf(place, s, place(s[q])) != []
  {
    GroupCount(place, s, place(s[q]), s[q]);
    assert s[q] in multiset(s);
  }

  lemma {:induction false} SomeOfKey<T, K>(place: T -> K, s: seq<T>, key: K) returns (p: nat)
    requires GroupOf(place, s, key) != []
    ensures p < |s| && place(s[p]) == key
    decreases |s|
  {
    p := |s| - 1;
    if place(s[p]) != key {
      p := SomeOfKey(place, s[..p], key);
    }
  }

  lemma {:induction false} GroupJoin<T, K>(place: T -> K, a: seq<T>, b: seq<T>, key: K)
    ensures GroupOf(place, a + b, key) == GroupOf(place, a, key) + GroupOf(place, b, key)
    decreases |b|
  {
    if b == [] {
      assert a + b == a;
    } else {
      var n := |b| - 1;
      GroupJoin(place, a, b[..n], key);
      var own := if place(b[n]) == key then [b[n]] else [];
      assert (a + b)[..|a| + n] == a + b[..n];
      assert GroupOf(place, a + b, key) == GroupOf(place, a + b[..n], key) + own;
    }
  }

  /** Each item is in the group of its key, as often as in the list. */
  lemma {:induction false} GroupCount<T, K>(place: T -> K, s: seq<T>, key: K, x: T)
    ensures multiset(GroupOf(place, s, key))[x] == if place(x) == key then multiset(s)[x] else 0
    decreases |s|
  {
    if s != [] {
      var n := |s| - 1;
      GroupCount(place, s[..n], key, x);
      assert s == s[..n] + [s[n]];
    }
  }

  /** The first item of a key is the first of its group. */
  lemma {:induction false} FirstOfKey<T(!new), K>(place: T -> K, s: seq<T>, key: K, i: nat)
    requires i < |s| && place(s[i]) == key && forall j :: 0 <= j < i ==> place(s[j]) != key
    ensures GroupOf(place, s, key) != [] && GroupOf(place, s, key)[0] == s[i]
    decreases |s|
  {
    var n := |s| - 1;
    if i < n {
      FirstOfKey(place, s[..n], key, i);
    } else {
      NoneOfKey(place, s[..n], key);
    }
  }

  lemma {:induction false} NoneOfKey<T(!new), K>(place: T -> K, s: seq<T>, key: K)
    requires forall j :: 0 <= j < |s| ==> place(s[j]) != key
    ensures GroupOf(place, s, key) == []
    decreases |s|
  {
    if s != [] {
      NoneOfKey(place, s[..|s| - 1], key);
    }
  }

  lemma {:induction false} FirstOfKeyAt<T(!new), K>(place: T -> K, s: seq<T>, key: K) returns (i: nat)
    requires GroupOf(place, s, key) != []
    ensures i < |s| && s[i] == GroupOf(place, s, key)[0] && place(s[i]) == key
    ensures forall j :: 0 <= j < i ==> place(s[j]) != key
    decreases |s|
  {
    var n := |s| - 1;
    if GroupOf(place, s[..n], key) != [] {
      i := FirstOfKeyAt(place, s[..n], key);
    } else {
      i := n;
      forall j | 0 <= j < n ensures place(s[j]) != key {
        if place(s[j]) == key {
          KeyInList(place, s[..n], j);
        }
      }
    }
  }

  lemma {:induction false} GroupOfOneKey<T(!new), K>(place: T -> K, s: seq<T>, key: K, other: K)
    requires forall x :: x in s ==> place(x) == key
    ensures GroupOf(place, s, other) == if other == key then s else []
    decreases |s|
  {
    if s != [] {
      var n := |s| - 1;
      assert s == s[..n] + [s[n]];
      GroupOfOneKey(place, s[..n], key, other);
    }
  }
}
