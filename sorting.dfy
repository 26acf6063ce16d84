/** Python's stable `sorted(xs, key=k, reverse=True)`: descending by key, with
    elements of equal key kept in their input order. Counter.most_common(n) and
    heapq.nlargest are the same ordering cut at n. */
module Sorting {

  import opened Text
  import Seqs

  predicate SortedDesc<T>(s: seq<T>, key: T -> real) {
    forall i, j :: 0 <= i < j < |s| ==> key(s[i]) >= key(s[j])
  }

  /** The elements of s whose key is c, in order. */
  function WithKey<T>(s: seq<T>, key: T -> real, c: real): (r: seq<T>)
    ensures |r| <= |s|
  {
    if s == [] then []
    else if key(s[0]) == c then [s[0]] + WithKey(s[1..], key, c)
    else WithKey(s[1..], key, c)
  }

  /** Inserts x in front of the first element whose key is not larger than x's. */
  function Insert<T>(x: T, s: seq<T>, key: T -> real): (r: seq<T>)
    ensures |r| == |s| + 1
  {
    if s == [] || key(x) >= key(s[0]) then [x] + s
    else [s[0]] + Insert(x, s[1..], key)
  }

  function SortDesc<T>(s: seq<T>, key: T -> real): (r: seq<T>)
    ensures |r| == |s|
  {
    if s == [] then [] else Insert(s[0], SortDesc(s[1..], key), key)
  }

  lemma {:induction false} InsertMultiset<T>(x: T, s: seq<T>, key: T -> real)
    ensures multiset(Insert(x, s, key)) == multiset{x} + multiset(s)
  {
    if s != [] && key(x) < key(s[0]) {
      InsertMultiset(x, s[1..], key);
      assert s == [s[0]] + s[1..];
    }
  }

  lemma {:induction false} InsertSorted<T>(x: T, s: seq<T>, key: T -> real)
    requires SortedDesc(s, key)
    ensures SortedDesc(Insert(x, s, key), key)
  {
    if s != [] && key(x) < key(s[0]) {
      InsertSorted(x, s[1..], key);
      var t := Insert(x, s[1..], key);
      InsertMultiset(x, s[1..], key);
      forall j | 0 <= j < |t| ensures key(s[0]) >= key(t[j]) {
        assert t[j] in multiset(t);
        assert t[j] == x || t[j] in multiset(s[1..]);
        if t[j] != x {
          var m :| 0 <= m < |s[1..]| && s[1..][m] == t[j];
          assert s[m + 1] == t[j];
        }
      }
    }
  }

  /** Insertion puts x after every element of equal key that is already placed. */
  lemma {:induction false} InsertWithKey<T>(x: T, s: seq<T>, key: T -> real, c: real)
    ensures WithKey(Insert(x, s, key), key, c)
         == if key(x) == c then [x] + WithKey(s, key, c) else WithKey(s, key, c)
  {
    if s == [] {
    } else if key(x) >= key(s[0]) {
      assert ([x] + s)[1..] == s;
    } else {
      InsertWithKey(x, s[1..], key, c);
      assert ([s[0]] + Insert(x, s[1..], key))[1..] == Insert(x, s[1..], key);
    }
  }

  /** The result is ordered by non-increasing key. */
  lemma {:induction false} SortDescSorted<T>(s: seq<T>, key: T -> real)
    ensures SortedDesc(SortDesc(s, key), key)
  {
    if s != [] {
      SortDescSorted(s[1..], key);
      InsertSorted(s[0], SortDesc(s[1..], key), key);
    }
  }

  /** The result is a permutation of the input. */
  lemma {:induction false} SortDescPermutation<T>(s: seq<T>, key: T -> real)
    ensures multiset(SortDesc(s, key)) == multiset(s)
  {
    if s != [] {
      SortDescPermutation(s[1..], key);
      InsertMultiset(s[0], SortDesc(s[1..], key), key);
      assert s == [s[0]] + s[1..];
    }
  }

  /** Stability: the elements of any one key appear in their input order. */
  lemma {:induction false} SortDescStable<T>(s: seq<T>, key: T -> real, c: real)
    ensures WithKey(SortDesc(s, key), key, c) == WithKey(s, key, c)
  {
    if s != [] {
      SortDescStable(s[1..], key, c);
      InsertWithKey(s[0], SortDesc(s[1..], key), key, c);
    }
  }

  /** Sorting already-sorted input leaves it unchanged. */
  lemma {:induction false} SortDescOfSorted<T>(s: seq<T>, key: T -> real)
    requires SortedDesc(s, key)
    ensures SortDesc(s, key) == s
  {
    if s != [] {
      SortDescOfSorted(s[1..], key);
      assert SortDesc(s[1..], key) == s[1..];
      if |s| > 1 { assert key(s[0]) >= key(s[1]); }
      assert [s[0]] + s[1..] == s;
    }
  }

  /** Cutting a sequence short cuts each key's elements short. */
  lemma {:induction false} WithKeyPrefix<T>(a: seq<T>, b: seq<T>, key: T -> real, c: real)
    requires a <= b
    ensures WithKey(a, key, c) <= WithKey(b, key, c)
  {
    if a != [] {
      assert a[1..] <= b[1..];
      WithKeyPrefix(a[1..], b[1..], key, c);
    }
  }

  // ---------------------------------------------------------------------------
  // sorted() on strings: ascending code-point order

  predicate StrLe(a: string, b: string) {
    a == b || StrLess(a, b)
  }

  predicate SortedStrings(s: seq<string>) {
    forall i, j :: 0 <= i < j < |s| ==> StrLe(s[i], s[j])
  }

  function InsertString(x: string, s: seq<string>): (r: seq<string>)
    ensures |r| == |s| + 1
  {
    if s == [] || !StrLess(s[0], x) then [x] + s
    else [s[0]] + InsertString(x, s[1..])
  }

  function SortStrings(s: seq<string>): (r: seq<string>)
    ensures |r| == |s|
  {
    if s == [] then [] else InsertString(s[0], SortStrings(s[1..]))
  }

  lemma {:induction false} InsertStringMultiset(x: string, s: seq<string>)
    ensures multiset(InsertString(x, s)) == multiset{x} + multiset(s)
  {
    if s != [] && StrLess(s[0], x) {
      InsertStringMultiset(x, s[1..]);
      assert s == [s[0]] + s[1..];
    }
  }

  lemma StrLeTransitive(a: string, b: string, c: string)
    requires StrLe(a, b) && StrLe(b, c)
    ensures StrLe(a, c)
  {
    if a != b && b != c { StrLessTransitive(a, b, c); }
  }

  /** Not less means at least: the order is total. */
  lemma StrNotLess(a: string, b: string)
    requires !StrLess(a, b)
    ensures StrLe(b, a)
  {
    if a != b { StrLessTotal(a, b); }
  }

  lemma {:induction false} InsertStringSorted(x: string, s: seq<string>)
    requires SortedStrings(s)
    ensures SortedStrings(InsertString(x, s))
  {
    if s == [] {
    } else if !StrLess(s[0], x) {
      StrNotLess(s[0], x);
      forall j | 0 <= j < |s| ensures StrLe(x, s[j]) {
        if j > 0 { StrLeTransitive(x, s[0], s[j]); }
      }
    } else {
      InsertStringSorted(x, s[1..]);
      var t := InsertString(x, s[1..]);
      InsertStringMultiset(x, s[1..]);
      forall j | 0 <= j < |t| ensures StrLe(s[0], t[j]) {
        assert t[j] in multiset(t);
        if t[j] == x {
        } else {
          assert t[j] in multiset(s[1..]);
          var m :| 0 <= m < |s[1..]| && s[1..][m] == t[j];
          assert s[m + 1] == t[j];
        }
      }
    }
  }

  /** sorted(names) is ordered and a permutation of its input. */
  lemma {:induction false} SortStringsFacts(s: seq<string>)
    ensures SortedStrings(SortStrings(s))
    ensures multiset(SortStrings(s)) == multiset(s)
  {
    if s != [] {
      SortStringsFacts(s[1..]);
      InsertStringSorted(s[0], SortStrings(s[1..]));
      InsertStringMultiset(s[0], SortStrings(s[1..]));
      assert s == [s[0]] + s[1..];
    }
  }

  /** sorted(s, key=key, reverse=True)[:n] */
  function TopK<T>(s: seq<T>, key: T -> real, n: nat): seq<T> {
    Seqs.Take(SortDesc(s, key), n)
  }

  /** The stable descending order is the first n followed by the rest. */
  lemma TopKSplit<T>(s: seq<T>, key: T -> real, n: nat)
    ensures var u := SortDesc(s, key); var t := TopK(s, key, n);
      && |t| <= |u|
      && u == t + u[|t|..]
      && multiset(s) == multiset(t) + multiset(u[|t|..])
  {
    var u := SortDesc(s, key);
    SortDescPermutation(s, key);
    var t := TopK(s, key, n);
    assert u == t + u[|t|..];
  }

  /** The first n of the stable descending order: min(n, |s|) elements drawn from s, in
      non-increasing key order, none of the elements left out keyed above any shown. */
  lemma TopKFacts<T>(s: seq<T>, key: T -> real, n: nat)
    ensures var t := TopK(s, key, n);
      && |t| == (if n < |s| then n else |s|)
      && SortedDesc(t, key)
      && multiset(t) <= multiset(s)
      && forall x, y :: x in multiset(s) - multiset(t) && y in t ==> key(x) <= key(y)
  {
    var u := SortDesc(s, key);
    var t := TopK(s, key, n);
    TopKSplit(s, key, n);
    SortDescSorted(s, key);
    var m := |t|;
    var rest := u[m..];
    assert SortedDesc(t, key) by {
      forall i, j | 0 <= i < j < |t| ensures key(t[i]) >= key(t[j]) {
        assert t[i] == u[i] && t[j] == u[j];
      }
    }
    forall x, y | x in multiset(s) - multiset(t) && y in t ensures key(x) <= key(y) {
      assert x in rest;
      var i :| 0 <= i < |rest| && rest[i] == x;
      var j :| 0 <= j < |t| && t[j] == y;
      assert u[j] == y && u[m + i] == x;
    }
  }
}
