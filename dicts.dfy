/** Python dicts as insertion-ordered key/value pairs. Assigning to a present key keeps its
    position; assigning to a new key appends it. */
module Dicts {

  import opened Wrappers
  import Seqs

  type Dict<K, V> = seq<(K, V)>

  function Keys<K, V>(d: Dict<K, V>): seq<K> {
    seq(|d|, i requires 0 <= i < |d| => d[i].0)
  }

  lemma KeysCons<K, V>(d: Dict<K, V>)
    requires d != []
    ensures Keys(d) == [d[0].0] + Keys(d[1..])
  {
  }

  /** A dict never holds a key twice. */
  predicate WellFormed<K(==), V>(d: Dict<K, V>) {
    Seqs.Distinct(Keys(d))
  }

  /** d.get(k) */
  function Get<K(==), V>(d: Dict<K, V>, k: K): (r: Option<V>)
    ensures r.Some? <==> k in Keys(d)
  {
    if d == [] then None
    else
      KeysCons(d);
      if d[0].0 == k then Some(d[0].1) else Get(d[1..], k)
  }

  /** d.get(k, default) */
  function GetOr<K(==), V>(d: Dict<K, V>, k: K, default: V): V {
    Get(d, k).GetOr(default)
  }

  /** d[k] = v */
  function Put<K(==), V>(d: Dict<K, V>, k: K, v: V): Dict<K, V> {
    if d == [] then [(k, v)]
    else if d[0].0 == k then [(k, v)] + d[1..]
    else [d[0]] + Put(d[1..], k, v)
  }

  /** Assignment keeps the key order and appends a new key. */
  lemma {:induction false} PutKeys<K, V>(d: Dict<K, V>, k: K, v: V)
    ensures Keys(Put(d, k, v)) == if k in Keys(d) then Keys(d) else Keys(d) + [k]
  {
    if d != [] {
      KeysCons(d);
      if d[0].0 != k {
        PutKeys(d[1..], k, v);
        var rest := Put(d[1..], k, v);
        KeysCons([d[0]] + rest);
        assert ([d[0]] + rest)[1..] == rest;
      }
    }
  }

  /** {**d, **e}: the entries of e assigned into d one by one. */
  function PutAll<K(==), V>(d: Dict<K, V>, e: Dict<K, V>): Dict<K, V>
    decreases |e|
  {
    if e == [] then d else PutAll(Put(d, e[0].0, e[0].1), e[1..])
  }

  /** Reading after an assignment sees the assigned value at that key and nothing changed
      elsewhere. */
  lemma {:induction false} GetPut<K, V>(d: Dict<K, V>, k: K, v: V, k': K)
    ensures Get(Put(d, k, v), k') == if k' == k then Some(v) else Get(d, k')
  {
    if d != [] && d[0].0 != k {
      GetPut(d[1..], k, v, k');
    }
  }

  /** Assignment keeps a dict well formed. */
  lemma PutWellFormed<K, V>(d: Dict<K, V>, k: K, v: V)
    requires WellFormed(d)
    ensures WellFormed(Put(d, k, v))
  {
    PutKeys(d, k, v);
  }

  /** After {**d, **e} every key of e reads its value in e, and every other key reads as
      in d; the keys are those of d followed by the new keys of e. */
  lemma {:induction false} GetPutAll<K, V>(d: Dict<K, V>, e: Dict<K, V>, k: K)
    requires WellFormed(e)
    ensures Get(PutAll(d, e), k) == if k in Keys(e) then Get(e, k) else Get(d, k)
    ensures k in Keys(PutAll(d, e)) <==> k in Keys(d) || k in Keys(e)
    decreases |e|
  {
    if e != [] {
      var d' := Put(d, e[0].0, e[0].1);
      KeysCons(e);
      assert WellFormed(e[1..]) by {
        assert Keys(e[1..]) == Keys(e)[1..];
      }
      GetPutAll(d', e[1..], k);
      GetPut(d, e[0].0, e[0].1, k);
      PutKeys(d, e[0].0, e[0].1);
      if k == e[0].0 {
        assert k !in Keys(e[1..]) by {
          forall i | 0 <= i < |Keys(e[1..])| ensures Keys(e[1..])[i] != k {
            assert Keys(e)[i + 1] == Keys(e[1..])[i] && Keys(e)[0] == k;
          }
        }
      }
    }
  }

  lemma {:induction false} PutAllWellFormed<K, V>(d: Dict<K, V>, e: Dict<K, V>)
    requires WellFormed(d)
    ensures WellFormed(PutAll(d, e))
    decreases |e|
  {
    if e != [] {
      PutWellFormed(d, e[0].0, e[0].1);
      PutAllWellFormed(Put(d, e[0].0, e[0].1), e[1..]);
    }
  }

  /** In a well-formed dict the i-th entry is what its key reads. */
  lemma {:induction false} GetAt<K, V>(d: Dict<K, V>, i: nat)
    requires WellFormed(d)
    requires i < |d|
    ensures Get(d, d[i].0) == Some(d[i].1)
  {
    if i > 0 {
      assert Keys(d)[0] != Keys(d)[i];
      assert WellFormed(d[1..]) by {
        assert forall a :: 0 <= a < |d| - 1 ==> Keys(d[1..])[a] == Keys(d)[a + 1];
      }
      GetAt(d[1..], i - 1);
    }
  }

  lemma DistinctKeys<K, V>(d: Dict<K, V>, i: nat, j: nat)
    requires WellFormed(d)
    requires i < j < |d|
    ensures d[i].0 != d[j].0
  {
    assert Keys(d)[i] == d[i].0 && Keys(d)[j] == d[j].0;
  }

  lemma NewKey<K, V>(d: Dict<K, V>, m: nat)
    requires WellFormed(d)
    requires m < |d|
    ensures d[m].0 !in Keys(d)[..m]
  {
    forall i | 0 <= i < m ensures Keys(d)[..m][i] != d[m].0 {
      DistinctKeys(d, i, m);
    }
  }

  /** The dict a loop `out[k] = rule(k, v)` over the entries of d leaves after its first n
      entries. */
  function MapUpTo<K(==), A, B>(d: Dict<K, A>, rule: (K, A) -> B, n: nat): Dict<K, B>
    requires n <= |d|
  {
    if n == 0 then []
    else Put(MapUpTo(d, rule, n - 1), d[n - 1].0, rule(d[n - 1].0, d[n - 1].1))
  }

  /** The loop's dict holds exactly the keys visited so far, in order, each with the rule's
      value for its entry. */
  lemma {:induction false} MapUpToFacts<K, A, B>(d: Dict<K, A>, rule: (K, A) -> B, n: nat)
    requires WellFormed(d)
    requires n <= |d|
    ensures Keys(MapUpTo(d, rule, n)) == Keys(d)[..n]
    ensures forall i :: 0 <= i < n ==> Get(MapUpTo(d, rule, n), d[i].0) == Some(rule(d[i].0, d[i].1))
  {
    if n > 0 {
      MapUpToFacts(d, rule, n - 1);
      var prev := MapUpTo(d, rule, n - 1);
      var k := d[n - 1].0;
      var v := rule(k, d[n - 1].1);
      PutKeys(prev, k, v);
      NewKey(d, n - 1);
      assert Keys(d)[..n] == Keys(d)[..n - 1] + [k];
      forall i | 0 <= i < n
        ensures Get(MapUpTo(d, rule, n), d[i].0) == Some(rule(d[i].0, d[i].1))
      {
        GetPut(prev, k, v, d[i].0);
        if i < n - 1 {
          DistinctKeys(d, i, n - 1);
        }
      }
    }
  }

  /** Over a whole dict: the keys are d's, in order, and each reads the rule's value for
      its own entry. */
  lemma MapFacts<K, A, B>(d: Dict<K, A>, rule: (K, A) -> B, k: K)
    requires WellFormed(d)
    ensures Keys(MapUpTo(d, rule, |d|)) == Keys(d)
    ensures Get(MapUpTo(d, rule, |d|), k) ==
      match Get(d, k)
      case Some(a) => Some(rule(k, a))
      case None => None
  {
    MapUpToFacts(d, rule, |d|);
    assert Keys(d)[..|d|] == Keys(d);
    if k in Keys(d) {
      var i :| 0 <= i < |d| && Keys(d)[i] == k;
      GetAt(d, i);
    }
  }

  /** Two rules that agree on every entry build the same dict. */
  lemma {:induction false} MapAgree<K, A, B>(d: Dict<K, A>, f: (K, A) -> B, g: (K, A) -> B, n: nat)
    requires n <= |d|
    requires forall i :: 0 <= i < n ==> f(d[i].0, d[i].1) == g(d[i].0, d[i].1)
    ensures MapUpTo(d, f, n) == MapUpTo(d, g, n)
  {
    if n > 0 {
      MapAgree(d, f, g, n - 1);
    }
  }

  /** Assigning two batches in turn is assigning their concatenation. */
  lemma {:induction false} PutAllAppend<K, V>(d: Dict<K, V>, a: Dict<K, V>, b: Dict<K, V>)
    ensures PutAll(d, a + b) == PutAll(PutAll(d, a), b)
    decreases |a|
  {
    if a == [] {
      assert a + b == b;
    } else {
      assert (a + b)[1..] == a[1..] + b;
      PutAllAppend(Put(d, a[0].0, a[0].1), a[1..], b);
    }
  }

  lemma PutAllSnoc<K, V>(d: Dict<K, V>, a: Dict<K, V>, k: K, v: V)
    ensures PutAll(d, a + [(k, v)]) == Put(PutAll(d, a), k, v)
  {
    PutAllAppend(d, a, [(k, v)]);
    assert [(k, v)][1..] == [];
  }

  lemma KeysAppend<K, V>(a: Dict<K, V>, b: Dict<K, V>)
    ensures Keys(a + b) == Keys(a) + Keys(b)
  {
    assert forall i :: 0 <= i < |a| + |b| ==> Keys(a + b)[i] == (Keys(a) + Keys(b))[i];
  }

  /** A key no assignment touches reads as before. */
  lemma {:induction false} GetPutAllUntouched<K, V>(d: Dict<K, V>, e: Dict<K, V>, k: K)
    requires k !in Keys(e)
    ensures Get(PutAll(d, e), k) == Get(d, k)
    decreases |e|
  {
    if e != [] {
      KeysCons(e);
      GetPutAllUntouched(Put(d, e[0].0, e[0].1), e[1..], k);
      GetPut(d, e[0].0, e[0].1, k);
    }
  }

  /** The last assignment to a key is the one that is read, whatever came before. */
  lemma {:induction false} GetPutAllLast<K, V>(d: Dict<K, V>, e: Dict<K, V>, i: nat)
    requires i < |e|
    requires forall j :: i < j < |e| ==> e[j].0 != e[i].0
    ensures Get(PutAll(d, e), e[i].0) == Some(e[i].1)
    decreases |e|
  {
    var k := e[i].0;
    if i == 0 {
      assert k !in Keys(e[1..]) by {
        forall j | 0 <= j < |e| - 1 ensures Keys(e[1..])[j] != k {
          assert Keys(e[1..])[j] == e[j + 1].0;
        }
      }
      GetPutAllUntouched(Put(d, k, e[0].1), e[1..], k);
      GetPut(d, k, e[0].1, k);
    } else {
      assert forall j :: i - 1 < j < |e| - 1 ==> e[1..][j] == e[j + 1];
      GetPutAllLast(Put(d, e[0].0, e[0].1), e[1..], i - 1);
    }
  }
}
