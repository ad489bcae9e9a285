/** Array.prototype.sort with a numeric comparator: a stable sort by key. */
module Sorting {
  ghost predicate Ordered<T>(key: T -> real, s: seq<T>) {
    forall i, j | 0 <= i < j < |s| :: key(s[i]) <= key(s[j])
  }

  /** x goes after every element whose key is not larger. */
  function Insert<T>(key: T -> real, s: seq<T>, x: T): seq<T> {
    if s == [] then [x]
    else if key(s[|s| - 1]) <= key(x) then s + [x]
    else Insert(key, s[..|s| - 1], x) + [s[|s| - 1]]
  }

  function Sorted<T>(key: T -> real, s: seq<T>): seq<T> {
    if s == [] then [] else Insert(key, Sorted(key, s[..|s| - 1]), s[|s| - 1])
  }

  lemma {:induction false} InsertKeepsAll<T>(key: T -> real, s: seq<T>, x: T)
    ensures multiset(Insert(key, s, x)) == multiset(s) + multiset{x}
  {
    if s != [] && key(s[|s| - 1]) > key(x) {
      InsertKeepsAll(key, s[..|s| - 1], x);
      assert s == s[..|s| - 1] + [s[|s| - 1]];
    }
  }

  lemma {:induction false} SortedKeepsLength<T>(key: T -> real, s: seq<T>)
    ensures |Sorted(key, s)| == |s|
  {
    if s != [] {
      SortedKeepsLength(key, s[..|s| - 1]);
      InsertAddsOne(key, Sorted(key, s[..|s| - 1]), s[|s| - 1]);
    }
  }

  lemma {:induction false} InsertAddsOne<T>(key: T -> real, s: seq<T>, x: T)
    ensures |Insert(key, s, x)| == |s| + 1
  {
    if s != [] && key(s[|s| - 1]) > key(x) {
      InsertAddsOne(key, s[..|s| - 1], x);
    }
  }

  lemma {:induction false} SortedKeepsAll<T>(key: T -> real, s: seq<T>)
    ensures multiset(Sorted(key, s)) == multiset(s)
    ensures |Sorted(key, s)| == |s|
  {
    SortedKeepsLength(key, s);
    if s != [] {
      SortedKeepsAll(key, s[..|s| - 1]);
      InsertKeepsAll(key, Sorted(key, s[..|s| - 1]), s[|s| - 1]);
      SplitLast(s);
    }
  }

  lemma {:induction false} SplitLast<T>(s: seq<T>)
    requires s != []
    ensures multiset(s) == multiset(s[..|s| - 1]) + multiset{s[|s| - 1]}
  {
    assert s == s[..|s| - 1] + [s[|s| - 1]];
  }

  lemma {:induction false} SameElements<T>(key: T -> real, s: seq<T>, x: T)
    ensures x in Sorted(key, s) <==> x in s
  {
    SortedKeepsAll(key, s);
    assert x in Sorted(key, s) <==> x in multiset(Sorted(key, s));
    assert x in s <==> x in multiset(s);
  }

  lemma {:induction false} InsertIsOrdered<T>(key: T -> real, s: seq<T>, x: T)
    requires Ordered(key, s)
    ensures Ordered(key, Insert(key, s, x))
  {
    if s != [] && key(s[|s| - 1]) > key(x) {
      var front, last := s[..|s| - 1], s[|s| - 1];
      InsertIsOrdered(key, front, x);
      InsertKeepsAll(key, front, x);
      var r := Insert(key, front, x);
      forall i | 0 <= i < |r|
        ensures key(r[i]) <= key(last)
      {
        assert r[i] in multiset(r);
        assert r[i] in multiset(front) || r[i] == x;
      }
    }
  }

  lemma {:induction false} SortedIsOrdered<T>(key: T -> real, s: seq<T>)
    ensures Ordered(key, Sorted(key, s))
  {
    if s != [] {
      SortedIsOrdered(key, s[..|s| - 1]);
      InsertIsOrdered(key, Sorted(key, s[..|s| - 1]), s[|s| - 1]);
    }
  }

  /** The elements with key k, in the order they are listed. */
  function WithKey<T>(key: T -> real, s: seq<T>, k: real): seq<T> {
    if s == [] then []
    else WithKey(key, s[..|s| - 1], k) + if key(s[|s| - 1]) == k then [s[|s| - 1]] else []
  }

  lemma {:induction false} WithKeyOneMore<T>(key: T -> real, s: seq<T>, x: T, k: real)
    ensures WithKey(key, s + [x], k) == WithKey(key, s, k) + if key(x) == k then [x] else []
  {
    assert (s + [x])[..|s|] == s;
  }

  lemma {:induction false} WithKeyIsFrom<T>(key: T -> real, s: seq<T>, k: real, i: nat)
    requires i < |WithKey(key, s, k)|
    ensures WithKey(key, s, k)[i] in s
  {
    if i < |WithKey(key, s[..|s| - 1], k)| {
      WithKeyIsFrom(key, s[..|s| - 1], k, i);
    }
  }

  lemma {:induction false} InsertIsStable<T>(key: T -> real, s: seq<T>, x: T, k: real)
    requires Ordered(key, s)
    ensures WithKey(key, Insert(key, s, x), k) == WithKey(key, s, k) + if key(x) == k then [x] else []
  {
    if s == [] {
    } else if key(s[|s| - 1]) <= key(x) {
      assert (s + [x])[..|s|] == s;
    } else {
      var front, last := s[..|s| - 1], s[|s| - 1];
      InsertIsStable(key, front, x, k);
      var r := Insert(key, front, x);
      assert (r + [last])[..|r|] == r;
    }
  }

  /** Elements that compare equal keep their order. */
  lemma {:induction false} SortedIsStable<T>(key: T -> real, s: seq<T>, k: real)
    ensures WithKey(key, Sorted(key, s), k) == WithKey(key, s, k)
  {
    if s != [] {
      SortedIsStable(key, s[..|s| - 1], k);
      SortedIsOrdered(key, s[..|s| - 1]);
      InsertIsStable(key, Sorted(key, s[..|s| - 1]), s[|s| - 1], k);
    }
  }

  lemma {:induction false} SomeWithKey<T>(key: T -> real, s: seq<T>, i: nat)
    requires i < |s|
    ensures 1 <= |WithKey(key, s, key(s[i]))|
  {
    if i < |s| - 1 {
      SomeWithKey(key, s[..|s| - 1], i);
    }
  }

  lemma {:induction false} TwoWithKey<T>(key: T -> real, s: seq<T>, i: nat, j: nat)
    requires i < j < |s| && key(s[i]) == key(s[j])
    ensures 2 <= |WithKey(key, s, key(s[i]))|
  {
    if j < |s| - 1 {
      TwoWithKey(key, s[..|s| - 1], i, j);
    } else {
      SomeWithKey(key, s[..j], i);
    }
  }

  lemma {:induction false} NoneWithKey<T>(key: T -> real, s: seq<T>, k: real)
    requires forall i | 0 <= i < |s| :: key(s[i]) != k
    ensures WithKey(key, s, k) == []
  {
    if s != [] {
      NoneWithKey(key, s[..|s| - 1], k);
    }
  }

  ghost predicate DistinctKeys<T>(key: T -> real, s: seq<T>) {
    forall i, j | 0 <= i < j < |s| :: key(s[i]) != key(s[j])
  }

  lemma {:induction false} AtMostOneWithKey<T>(key: T -> real, s: seq<T>, k: real)
    requires DistinctKeys(key, s)
    ensures |WithKey(key, s, k)| <= 1
  {
    if s != [] {
      var front := s[..|s| - 1];
      AtMostOneWithKey(key, front, k);
      if key(s[|s| - 1]) == k {
        NoneWithKey(key, front, k);
      }
    }
  }

  lemma {:induction false} SortedKeepsKeysDistinct<T>(key: T -> real, s: seq<T>)
    requires DistinctKeys(key, s)
    ensures DistinctKeys(key, Sorted(key, s))
  {
    var r := Sorted(key, s);
    forall i, j | 0 <= i < j < |r|
      ensures key(r[i]) != key(r[j])
    {
      if key(r[i]) == key(r[j]) {
        TwoWithKey(key, r, i, j);
        SortedIsStable(key, s, key(r[i]));
        AtMostOneWithKey(key, s, key(r[i]));
      }
    }
  }
}
