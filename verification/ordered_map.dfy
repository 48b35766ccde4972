/** JavaScript's `Map<string, V>`: a finite map that remembers insertion
    order. `set` on a present key replaces the value in place, `set` on a
    new key appends it, `delete` removes it; `values()` walks the keys in
    insertion order. Every in-memory store of the backend is one of these. */
module OrderedMap {
  import opened Wrappers

  datatype RawMap<V> = RawMap(order: seq<string>, entries: map<string, V>)

  predicate Distinct(s: seq<string>) {
    forall i, j :: 0 <= i < j < |s| ==> s[i] != s[j]
  }

  /** The insertion order lists every key exactly once. */
  predicate WellOrdered<V>(m: RawMap<V>) {
    && Distinct(m.order)
    && (forall i :: 0 <= i < |m.order| ==> m.order[i] in m.entries)
    && (forall k :: k in m.entries ==> k in m.order)
  }

  type OMap<V> = m: RawMap<V> | WellOrdered(m) witness RawMap([], map[])

  function Empty<V>(): OMap<V> {
    RawMap([], map[])
  }

  /** `map.get(k)`, `undefined` as `None`. */
  function Find<V>(m: OMap<V>, k: string): Option<V> {
    if k in m.entries then Some(m.entries[k]) else None
  }

  /** `map.has(k)`. */
  predicate Has<V>(m: OMap<V>, k: string) {
    k in m.entries
  }

  /** The order with one key taken out. */
  function RemoveKey(order: seq<string>, k: string): (r: seq<string>)
    ensures forall x :: x in r <==> x in order && x != k
    ensures Distinct(order) ==> Distinct(r)
  {
    if |order| == 0 then []
    else if order[0] == k then RemoveKey(order[1..], k)
    else
      var rest := RemoveKey(order[1..], k);
      assert Distinct(order) ==> order[0] !in order[1..];
      [order[0]] + rest
  }

  /** `map.set(k, v)`. */
  function Set<V>(m: OMap<V>, k: string, v: V): (r: OMap<V>)
    ensures Find(r, k) == Some(v)
    ensures forall k' :: k' != k ==> Find(r, k') == Find(m, k')
    ensures Has(m, k) ==> r.order == m.order
    ensures !Has(m, k) ==> r.order == m.order + [k]
  {
    if k in m.entries then RawMap(m.order, m.entries[k := v])
    else RawMap(m.order + [k], m.entries[k := v])
  }

  /** `map.delete(k)`, which answers whether `k` was present. */
  function Delete<V>(m: OMap<V>, k: string): (r: (OMap<V>, bool))
    ensures r.1 <==> Has(m, k)
    ensures !Has(r.0, k) && Find(r.0, k) == None
    ensures forall k' :: k' != k ==> Find(r.0, k') == Find(m, k')
  {
    var o := RemoveKey(m.order, k);
    forall i | 0 <= i < |o|
      ensures o[i] in m.order && o[i] != k
    {
      assert o[i] in o;
    }
    assert forall x :: x in m.entries - {k} ==> x in m.order && x in o;
    var r: OMap<V> := RawMap(o, m.entries - {k});
    (r, k in m.entries)
  }

  /** `[...map.values()]`. */
  function Values<V>(m: OMap<V>): (vs: seq<V>)
    ensures |vs| == |m.order|
    ensures forall i :: 0 <= i < |vs| ==> vs[i] == m.entries[m.order[i]]
  {
    seq(|m.order|, i requires 0 <= i < |m.order| => m.entries[m.order[i]])
  }

  /** A value is listed exactly when some key maps to it. */
  lemma InValues<V>(m: OMap<V>, v: V)
    ensures v in Values(m) <==> exists k :: Find(m, k) == Some(v)
  {
    var vs := Values(m);
    if v in vs {
      var i :| 0 <= i < |vs| && vs[i] == v;
      assert Find(m, m.order[i]) == Some(v);
    }
    if exists k :: Find(m, k) == Some(v) {
      var k :| Find(m, k) == Some(v);
      var i :| 0 <= i < |m.order| && m.order[i] == k;
      assert vs[i] == v;
    }
  }

  /** Setting a new key lists its value last, after the old values. */
  lemma ValuesAfterInsert<V>(m: OMap<V>, k: string, v: V)
    requires !Has(m, k)
    ensures Values(Set(m, k, v)) == Values(m) + [v]
  {
    var r := Set(m, k, v);
    assert forall i :: 0 <= i < |m.order| ==> m.order[i] != k;
  }

  /** The size of the map. */
  function Size<V>(m: OMap<V>): nat {
    |m.order|
  }

  lemma SizeIsKeyCount<V>(m: OMap<V>)
    ensures Size(m) == |m.entries.Keys|
  {
    DistinctSeqCardinality(m.order, m.entries.Keys);
  }

  lemma {:induction false} DistinctSeqCardinality(s: seq<string>, keys: set<string>)
    requires forall i, j :: 0 <= i < j < |s| ==> s[i] != s[j]
    requires forall x :: x in s <==> x in keys
    ensures |s| == |keys|
    decreases |s|
  {
    if |s| > 0 {
      var rest := s[1..];
      assert forall x :: x in rest <==> x in keys - {s[0]};
      DistinctSeqCardinality(rest, keys - {s[0]});
    } else {
      assert keys == {};
    }
  }

  /** `a` is `b` with some elements left out: the elements of `a` occur in
      `b` in the same order. Matching each element of `a` at its first
      possible position in `b` finds such an embedding whenever one
      exists. */
  predicate IsSubsequence<V(==)>(a: seq<V>, b: seq<V>)
    decreases |b|
  {
    if |a| == 0 then true
    else if |b| == 0 then false
    else if a[0] == b[0] then IsSubsequence(a[1..], b[1..])
    else IsSubsequence(a, b[1..])
  }

  /** Every sequence is a subsequence of itself. */
  lemma {:induction false} SubsequenceRefl<V>(a: seq<V>)
    ensures IsSubsequence(a, a)
    decreases |a|
  {
    if |a| > 0 {
      SubsequenceRefl(a[1..]);
    }
  }

  /** `values().filter(keep)`: the listed values that satisfy `keep`, in
      insertion order, each as often as it is listed (`FilterKeeps`). */
  function Filter<V(!new)>(vs: seq<V>, keep: V -> bool): (r: seq<V>)
    ensures |r| <= |vs|
    ensures forall x :: x in r <==> x in vs && keep(x)
  {
    if |vs| == 0 then []
    else if keep(vs[0]) then [vs[0]] + Filter(vs[1..], keep)
    else Filter(vs[1..], keep)
  }

  /** The filter is a subsequence that holds every kept occurrence and
      nothing else; no other subsequence has these counts. */
  lemma {:induction false} FilterKeeps<V(!new)>(vs: seq<V>, keep: V -> bool)
    ensures forall x :: multiset(Filter(vs, keep))[x] == (if keep(x) then multiset(vs)[x] else 0)
    ensures IsSubsequence(Filter(vs, keep), vs)
    decreases |vs|
  {
    if |vs| > 0 {
      var rest := Filter(vs[1..], keep);
      FilterKeeps(vs[1..], keep);
      assert vs == [vs[0]] + vs[1..];
      if keep(vs[0]) {
        assert ([vs[0]] + rest)[1..] == rest;
      } else if |rest| > 0 {
        assert rest[0] in rest;
      }
    }
  }

  /** Filtering one value keeps it exactly when `keep` holds. */
  lemma FilterSingle<V(!new)>(v: V, keep: V -> bool)
    ensures Filter([v], keep) == if keep(v) then [v] else []
  {
    assert [v][1..] == [];
  }

  /** Filtering distributes over concatenation, so it keeps the relative
      order of what it keeps. */
  lemma {:induction false} FilterConcat<V(!new)>(a: seq<V>, b: seq<V>, keep: V -> bool)
    ensures Filter(a + b, keep) == Filter(a, keep) + Filter(b, keep)
    decreases |a|
  {
    if |a| > 0 {
      assert (a + b)[1..] == a[1..] + b;
      FilterConcat(a[1..], b, keep);
    } else {
      assert a + b == b;
    }
  }

  lemma {:induction false} FilterAll<V(!new)>(vs: seq<V>, keep: V -> bool)
    requires forall i :: 0 <= i < |vs| ==> keep(vs[i])
    ensures Filter(vs, keep) == vs
    decreases |vs|
  {
    if |vs| > 0 {
      FilterAll(vs[1..], keep);
    }
  }
}
