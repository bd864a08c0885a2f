/**
 JavaScript's `Map`, which remembers the order of insertion, as a sequence of
 entries whose keys are distinct.
 */
module OrderedMap {

  import opened Text

  datatype Entry<K, V> = Entry(key: K, value: V)

  type Table<K, V> = seq<Entry<K, V>>

  predicate Distinct<K(==), V>(t: Table<K, V>) {
    forall i, j | 0 <= i < |t| && 0 <= j < |t| && i != j :: t[i].key != t[j].key
  }

  predicate Has<K(==), V>(t: Table<K, V>, k: K) { exists i | 0 <= i < |t| :: t[i].key == k }

  function Get<K(==), V>(t: Table<K, V>, k: K): (r: Option<V>)
    ensures r.Some? <==> Has(t, k)
  {
    if t == [] then None
    else if t[0].key == k then Some(t[0].value)
    else
      assert Has(t, k) ==> Has(t[1..], k) by {
        if Has(t, k) {
          var i :| 0 <= i < |t| && t[i].key == k;
          assert t[1..][i - 1].key == k;
        }
      }
      assert Has(t[1..], k) ==> Has(t, k) by {
        if Has(t[1..], k) {
          var i :| 0 <= i < |t[1..]| && t[1..][i].key == k;
          assert t[i + 1].key == k;
        }
      }
      Get(t[1..], k)
  }

  /** The entries that pass a test, in their order. */
  function Keep<K, V>(t: Table<K, V>, p: Entry<K, V> -> bool): Table<K, V> {
    if t == [] then [] else (if p(t[0]) then [t[0]] else []) + Keep(t[1..], p)
  }

  /** `map.delete(k)`: every entry but that of `k`. */
  function Delete<K(==), V>(t: Table<K, V>, k: K): Table<K, V> {
    if t == [] then [] else if t[0].key == k then t[1..] else [t[0]] + Delete(t[1..], k)
  }

  /** `map.set(k, v)`: in place when `k` is there, at the end when it is not. */
  function Put<K(==), V>(t: Table<K, V>, k: K, v: V): Table<K, V> {
    if t == [] then [Entry(k, v)]
    else if t[0].key == k then [Entry(k, v)] + t[1..]
    else [t[0]] + Put(t[1..], k, v)
  }

  lemma {:induction false} GetAt<K, V>(t: Table<K, V>, i: nat)
    requires i < |t| && Distinct(t)
    ensures Get(t, t[i].key) == Some(t[i].value)
  {
    if i > 0 {
      GetAt(t[1..], i - 1);
    }
  }

  lemma {:induction false} DeleteAt<K, V>(t: Table<K, V>, i: nat)
    requires i < |t| && Distinct(t)
    ensures Delete(t, t[i].key) == t[..i] + t[i + 1..]
  {
    if i > 0 {
      DeleteAt(t[1..], i - 1);
      assert t[..i] == [t[0]] + t[1..][..i - 1] && t[1..][i..] == t[i + 1..];
    }
  }

  lemma {:induction false} DeleteNone<K, V>(t: Table<K, V>, k: K)
    requires !Has(t, k)
    ensures Delete(t, k) == t
  {
    if t != [] {
      assert t[0].key != k;
      forall i | 0 <= i < |t[1..]| ensures t[1..][i].key != k {
        assert t[i + 1].key != k;
      }
      DeleteNone(t[1..], k);
    }
  }

  lemma {:induction false} PutAt<K, V>(t: Table<K, V>, i: nat, v: V)
    requires i < |t| && Distinct(t)
    ensures Put(t, t[i].key, v) == t[i := Entry(t[i].key, v)]
  {
    if i > 0 {
      PutAt(t[1..], i - 1, v);
      assert t[i := Entry(t[i].key, v)] == [t[0]] + t[1..][i - 1 := Entry(t[i].key, v)];
    }
  }

  lemma {:induction false} PutNew<K, V>(t: Table<K, V>, k: K, v: V)
    requires !Has(t, k)
    ensures Put(t, k, v) == t + [Entry(k, v)]
  {
    if t != [] {
      assert t[0].key != k;
      forall i | 0 <= i < |t[1..]| ensures t[1..][i].key != k {
        assert t[i + 1].key != k;
      }
      PutNew(t[1..], k, v);
    }
  }

  lemma KeepFirst<K, V>(t: Table<K, V>, p: Entry<K, V> -> bool)
    requires t != []
    ensures Keep(t, p) == if p(t[0]) then [t[0]] + Keep(t[1..], p) else Keep(t[1..], p)
  {
    assert [] + Keep(t[1..], p) == Keep(t[1..], p);
  }

  lemma {:induction false} KeepAppend<K, V>(a: Table<K, V>, b: Table<K, V>, p: Entry<K, V> -> bool)
    ensures Keep(a + b, p) == Keep(a, p) + Keep(b, p)
  {
    if a == [] {
      assert a + b == b && [] + Keep(b, p) == Keep(b, p);
    } else {
      assert a + b == [a[0]] + (a[1..] + b);
      KeepFirst(a + b, p);
      KeepFirst(a, p);
      KeepAppend(a[1..], b, p);
      Associative([a[0]], Keep(a[1..], p), Keep(b, p));
    }
  }

  lemma {:induction false} KeepAll<K, V>(t: Table<K, V>, p: Entry<K, V> -> bool)
    requires forall i | 0 <= i < |t| :: p(t[i])
    ensures Keep(t, p) == t
  {
    if t != [] {
      KeepAll(t[1..], p);
    }
  }

  /** Whatever is kept passes the test and was there. */
  lemma {:induction false} KeptAre<K, V>(t: Table<K, V>, p: Entry<K, V> -> bool)
    ensures |Keep(t, p)| <= |t|
    ensures forall i | 0 <= i < |Keep(t, p)| :: p(Keep(t, p)[i]) && Keep(t, p)[i] in t
  {
    if t != [] {
      KeptAre(t[1..], p);
    }
  }

  lemma KeepHasNot<K, V>(t: Table<K, V>, k: K, p: Entry<K, V> -> bool)
    requires !Has(t, k)
    ensures !Has(Keep(t, p), k)
  {
    KeptAre(t, p);
    forall i | 0 <= i < |Keep(t, p)| ensures Keep(t, p)[i].key != k {
      var j :| 0 <= j < |t| && t[j] == Keep(t, p)[i];
    }
  }

  lemma FirstAlone<K, V>(t: Table<K, V>)
    requires t != [] && Distinct(t)
    ensures Distinct(t[1..]) && !Has(t[1..], t[0].key)
  {
    forall i | 0 <= i < |t[1..]| ensures t[1..][i].key != t[0].key {
      assert t[1..][i] == t[i + 1];
    }
  }

  lemma FirstOf<K, V>(e: Entry<K, V>, rest: Table<K, V>, k: K)
    ensures Delete([e] + rest, k) == if e.key == k then rest else [e] + Delete(rest, k)
    ensures Get([e] + rest, k) == if e.key == k then Some(e.value) else Get(rest, k)
  {
    assert ([e] + rest)[1..] == rest;
  }

  lemma {:induction false} GetKeep<K, V>(t: Table<K, V>, p: Entry<K, V> -> bool, k: K)
    requires Distinct(t)
    ensures Get(Keep(t, p), k) ==
            match Get(t, k) { case None => None case Some(v) => if p(Entry(k, v)) then Some(v) else None }
  {
    if t != [] {
      var rest := Keep(t[1..], p);
      FirstAlone(t);
      KeepFirst(t, p);
      FirstOf(t[0], rest, k);
      if t[0].key == k {
        KeepHasNot(t[1..], k, p);
      } else {
        GetKeep(t[1..], p, k);
      }
    }
  }

  lemma {:induction false} GetPut<K, V>(t: Table<K, V>, k: K, v: V, other: K)
    ensures Get(Put(t, k, v), other) == if other == k then Some(v) else Get(t, other)
  {
    if t == [] {
      assert Get([Entry(k, v)][1..], other) == None;
    } else if t[0].key == k {
      FirstOf(Entry(k, v), t[1..], other);
    } else {
      FirstOf(t[0], Put(t[1..], k, v), other);
      GetPut(t[1..], k, v, other);
    }
  }

  lemma PutDistinct<K, V>(t: Table<K, V>, k: K, v: V)
    requires Distinct(t)
    ensures Distinct(Put(t, k, v)) && |Put(t, k, v)| == |t| + if Has(t, k) then 0 else 1
  {
    if Has(t, k) {
      var i :| 0 <= i < |t| && t[i].key == k;
      PutAt(t, i, v);
    } else {
      PutNew(t, k, v);
    }
  }

  lemma {:induction false} KeepDistinct<K, V>(t: Table<K, V>, p: Entry<K, V> -> bool)
    requires Distinct(t)
    ensures Distinct(Keep(t, p)) && |Keep(t, p)| <= |t|
  {
    if t != [] {
      FirstAlone(t);
      KeepDistinct(t[1..], p);
      KeepHasNot(t[1..], t[0].key, p);
      KeepFirst(t, p);
    }
  }

  lemma {:induction false} GetDelete<K, V>(t: Table<K, V>, k: K, other: K)
    requires Distinct(t)
    ensures Get(Delete(t, k), other) == if other == k then None else Get(t, other)
  {
    if t != [] {
      FirstAlone(t);
      if t[0].key == k {
        assert Get(t[1..], k) == None;
      } else {
        FirstOf(t[0], Delete(t[1..], k), other);
        GetDelete(t[1..], k, other);
      }
    }
  }

  lemma DeleteDistinct<K, V>(t: Table<K, V>, k: K)
    requires Distinct(t)
    ensures Distinct(Delete(t, k)) && |Delete(t, k)| == |t| - if Has(t, k) then 1 else 0
  {
    if Has(t, k) {
      var i :| 0 <= i < |t| && t[i].key == k;
      DeleteAt(t, i);
      DistinctWithout(t, Delete(t, k), i);
    } else {
      DeleteNone(t, k);
    }
  }

  lemma DistinctWithout<K, V>(t: Table<K, V>, u: Table<K, V>, i: nat)
    requires Distinct(t) && i < |t| && u == t[..i] + t[i + 1..]
    ensures Distinct(u)
  {
    assert forall j | 0 <= j < |u| :: u[j] == t[if j < i then j else j + 1];
  }
}
