/** An insertion-ordered map, as the program's `Map` is: overwriting a key keeps its place. */
module OrderedMap {
  import opened StampedCopy

  datatype Entry<K, T> = Entry(key: K, value: T)

  function Get<K(==), T>(m: seq<Entry<K, T>>, k: K): Option<T> {
    if m == [] then None
    else if m[0].key == k then Some(m[0].value)
    else Get(m[1..], k)
  }

  function Set<K(==), T>(m: seq<Entry<K, T>>, k: K, v: T): seq<Entry<K, T>> {
    if m == [] then [Entry(k, v)]
    else if m[0].key == k then [Entry(k, v)] + m[1..]
    else [m[0]] + Set(m[1..], k, v)
  }

  function Values<K, T>(m: seq<Entry<K, T>>): (r: seq<T>)
    ensures |r| == |m|
    ensures forall i :: 0 <= i < |m| ==> r[i] == m[i].value
  {
    if m == [] then [] else [m[0].value] + Values(m[1..])
  }

  /** `new Map(rows.map(r => [key(r), r]))`. */
  function From<K(==), T>(rows: seq<T>, key: T -> K): seq<Entry<K, T>> {
    if rows == [] then []
    else Set(From(rows[..|rows| - 1], key), key(rows[|rows| - 1]), rows[|rows| - 1])
  }

  /** Each row sits under its own key, and each key once. */
  predicate KeyedBy<K(==), T>(m: seq<Entry<K, T>>, key: T -> K) {
    && (forall i :: 0 <= i < |m| ==> m[i].key == key(m[i].value))
    && (forall i, j :: 0 <= i < j < |m| ==> m[i].key != m[j].key)
  }

  predicate Unique<K(==), T>(rows: seq<T>, key: T -> K) {
    forall i, j :: 0 <= i < j < |rows| ==> key(rows[i]) != key(rows[j])
  }

  lemma {:induction false} GetSet<K, T>(m: seq<Entry<K, T>>, k: K, v: T, j: K)
    ensures Get(Set(m, k, v), j) == if j == k then Some(v) else Get(m, j)
  {
    if m != [] && m[0].key != k {
      GetSet(m[1..], k, v, j);
    }
  }

  lemma {:induction false} SetValues<K, T>(m: seq<Entry<K, T>>, k: K, v: T)
    ensures forall x :: x in Values(Set(m, k, v)) ==> x == v || x in Values(m)
  {
    if m != [] {
      assert Values(m) == [m[0].value] + Values(m[1..]);
      if m[0].key != k {
        SetValues(m[1..], k, v);
        assert Values(Set(m, k, v)) == [m[0].value] + Values(Set(m[1..], k, v));
      } else {
        assert Values(Set(m, k, v)) == [v] + Values(m[1..]);
      }
    }
  }

  lemma {:induction false} SetKeys<K, T>(m: seq<Entry<K, T>>, k: K, v: T)
    ensures forall e :: e in Set(m, k, v) ==> e == Entry(k, v) || e in m
  {
    if m != [] && m[0].key != k {
      SetKeys(m[1..], k, v);
    }
  }

  lemma {:induction false} SetKeyed<K, T>(m: seq<Entry<K, T>>, v: T, key: T -> K)
    requires KeyedBy(m, key)
    ensures KeyedBy(Set(m, key(v), v), key)
  {
    if m != [] && m[0].key != key(v) {
      var rest := m[1..];
      SetKeyed(rest, v, key);
      SetKeys(rest, key(v), v);
      var r := Set(rest, key(v), v);
      forall j | 0 <= j < |r| ensures r[j].key != m[0].key {
        assert r[j] in r;
      }
    }
  }

  lemma {:induction false} FromKeyed<K, T>(rows: seq<T>, key: T -> K)
    ensures KeyedBy(From(rows, key), key)
    ensures forall x :: x in Values(From(rows, key)) ==> x in rows
  {
    if rows != [] {
      var last := rows[|rows| - 1];
      FromKeyed(rows[..|rows| - 1], key);
      SetKeyed(From(rows[..|rows| - 1], key), last, key);
      SetValues(From(rows[..|rows| - 1], key), key(last), last);
    }
  }

  /** In a keyed map, looking up a key finds the one value that has it. */
  lemma {:induction false} GetKeyed<K, T>(m: seq<Entry<K, T>>, key: T -> K, k: K)
    requires KeyedBy(m, key)
    ensures Get(m, k).Some? ==> Get(m, k).value in Values(m) && key(Get(m, k).value) == k
    ensures forall v :: v in Values(m) && key(v) == k ==> Get(m, k) == Some(v)
  {
    if m != [] {
      var rest := m[1..];
      GetKeyed(rest, key, k);
      assert Values(m) == [m[0].value] + Values(rest);
      forall v | v in Values(rest) ensures key(v) != m[0].key {
        var i :| 0 <= i < |rest| && Values(rest)[i] == v;
        assert rest[i] == m[i + 1];
      }
    }
  }

  /** Reading rows with pairwise different keys into a map and out again changes nothing. */
  lemma {:induction false} FromValues<K, T>(rows: seq<T>, key: T -> K)
    requires Unique(rows, key)
    ensures Values(From(rows, key)) == rows
  {
    if rows != [] {
      var n := |rows| - 1;
      var init := From(rows[..n], key);
      FromValues(rows[..n], key);
      FromKeyed(rows[..n], key);
      forall i | 0 <= i < |init| ensures init[i].key != key(rows[n]) {
        assert init[i].value == Values(init)[i] == rows[i];
      }
      SetFresh(init, key(rows[n]), rows[n]);
      ValuesAppend(init, Entry(key(rows[n]), rows[n]));
    }
  }

  lemma {:induction false} SetFresh<K, T>(m: seq<Entry<K, T>>, k: K, v: T)
    requires forall i :: 0 <= i < |m| ==> m[i].key != k
    ensures Set(m, k, v) == m + [Entry(k, v)]
  {
    if m != [] {
      SetFresh(m[1..], k, v);
      assert m == [m[0]] + m[1..];
    }
  }

  lemma {:induction false} ValuesAppend<K, T>(m: seq<Entry<K, T>>, e: Entry<K, T>)
    ensures Values(m + [e]) == Values(m) + [e.value]
  {
    if m != [] {
      assert (m + [e])[1..] == m[1..] + [e];
      ValuesAppend(m[1..], e);
    }
  }

  /** The values of a keyed map have pairwise different keys. */
  lemma ValuesUnique<K, T>(m: seq<Entry<K, T>>, key: T -> K)
    requires KeyedBy(m, key)
    ensures Unique(Values(m), key)
  {
  }
}
