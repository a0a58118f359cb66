/** Ordered records: the JavaScript object as the style computation uses it.
    Keys are visited in insertion order (the order `Object.keys`, `forEach`
    over keys and `for ... in` see them); assigning an existing key keeps its
    position, assigning a new key appends it. */
module Records {

  datatype Option<+T> = None | Some(value: T)

  datatype Entry<+V> = Entry(key: string, val: V)

  type Record<V> = seq<Entry<V>>

  function Keys<V>(r: Record<V>): (ks: seq<string>)
    ensures |ks| == |r|
    ensures forall i :: 0 <= i < |r| ==> ks[i] == r[i].key
  {
    if r == [] then [] else [r[0].key] + Keys(r[1..])
  }

  function KeySet<V>(r: Record<V>): set<string>
  {
    if r == [] then {} else {r[0].key} + KeySet(r[1..])
  }

  /** No key occurs twice, as in every JavaScript object. */
  predicate DistinctKeys<V>(r: Record<V>)
  {
    r == [] || (r[0].key !in KeySet(r[1..]) && DistinctKeys(r[1..]))
  }

  /** Property read `r[k]`: the entry with key k, if any. */
  function Lookup<V>(r: Record<V>, k: string): (o: Option<V>)
    ensures o.Some? <==> k in KeySet(r)
  {
    if r == [] then None
    else if r[0].key == k then Some(r[0].val)
    else Lookup(r[1..], k)
  }

  /** Property write `r[k] = v`. */
  function Put<V>(r: Record<V>, k: string, v: V): (r': Record<V>)
    ensures KeySet(r') == KeySet(r) + {k}
    ensures Lookup(r', k) == Some(v)
    ensures forall k' :: k' != k ==> Lookup(r', k') == Lookup(r, k')
    ensures k in KeySet(r) ==> Keys(r') == Keys(r)
    ensures k !in KeySet(r) ==> r' == r + [Entry(k, v)]
    ensures DistinctKeys(r) ==> DistinctKeys(r')
  {
    if r == [] then [Entry(k, v)]
    else if r[0].key == k then [Entry(k, v)] + r[1..]
    else
      var rest := Put(r[1..], k, v);
      assert ([r[0]] + rest)[1..] == rest;
      [r[0]] + rest
  }

  /** `delete r[k]`. */
  function Remove<V>(r: Record<V>, k: string): (r': Record<V>)
    ensures KeySet(r') == KeySet(r) - {k}
    ensures Lookup(r', k) == None
    ensures forall k' :: k' != k ==> Lookup(r', k') == Lookup(r, k')
  {
    if r == [] then []
    else if r[0].key == k then Remove(r[1..], k)
    else [r[0]] + Remove(r[1..], k)
  }

  /** `Object.assign(a, b)`: every entry of b, in b's order, written into a. */
  function Assign<V>(a: Record<V>, b: Record<V>): (r: Record<V>)
    decreases |b|
  {
    if b == [] then a else Assign(Put(a, b[0].key, b[0].val), b[1..])
  }

  /** The entries of `Object.assign` are the union of both sides, and on a
      key both sides hold the second side wins. */
  lemma {:induction false} AssignLookup<V>(a: Record<V>, b: Record<V>)
    requires DistinctKeys(b)
    ensures KeySet(Assign(a, b)) == KeySet(a) + KeySet(b)
    ensures forall k :: k in KeySet(b) ==> Lookup(Assign(a, b), k) == Lookup(b, k)
    ensures forall k :: k !in KeySet(b) ==> Lookup(Assign(a, b), k) == Lookup(a, k)
    decreases |b|
  {
    if b != [] {
      var a' := Put(a, b[0].key, b[0].val);
      AssignLookup(a', b[1..]);
    }
  }

  /** `Object.assign({}, b)` of a record with distinct keys is an exact copy. */
  lemma {:induction false} AssignCopy<V>(b: Record<V>)
    requires DistinctKeys(b)
    ensures Assign([], b) == b
  {
    AssignOnto([], b);
  }

  lemma {:induction false} AssignOnto<V>(pre: Record<V>, b: Record<V>)
    requires DistinctKeys(b) && KeySet(pre) !! KeySet(b)
    ensures Assign(pre, b) == pre + b
    decreases |b|
  {
    if b != [] {
      var e, rest := b[0], b[1..];
      assert b == [e] + rest;
      AppendFresh(pre, e, rest);
      AssignOnto(pre + [e], rest);
      assert pre + [e] + rest == pre + b;
    }
  }

  /** Assigning into a record without the first key appends that entry, and
      the keys still to come stay fresh. */
  lemma AppendFresh<V>(pre: Record<V>, e: Entry<V>, rest: Record<V>)
    requires DistinctKeys([e] + rest) && KeySet(pre) !! KeySet([e] + rest)
    ensures Assign(pre, [e] + rest) == Assign(pre + [e], rest)
    ensures DistinctKeys(rest) && KeySet(pre + [e]) !! KeySet(rest)
  {
    assert ([e] + rest)[0] == e && ([e] + rest)[1..] == rest;
    KeySetConcat(pre, [e]);
  }

  lemma {:induction false} KeySetConcat<V>(a: Record<V>, b: Record<V>)
    ensures KeySet(a + b) == KeySet(a) + KeySet(b)
  {
    if a == [] {
      assert a + b == b;
    } else {
      assert (a + b)[0] == a[0] && (a + b)[1..] == a[1..] + b;
      KeySetConcat(a[1..], b);
    }
  }

  lemma {:induction false} LookupConcat<V>(a: Record<V>, b: Record<V>, k: string)
    ensures Lookup(a + b, k) == if k in KeySet(a) then Lookup(a, k) else Lookup(b, k)
  {
    if a == [] {
      assert a + b == b;
    } else {
      assert (a + b)[0] == a[0] && (a + b)[1..] == a[1..] + b;
      LookupConcat(a[1..], b, k);
    }
  }

  lemma {:induction false} DistinctAppend<V>(a: Record<V>, e: Entry<V>)
    requires DistinctKeys(a) && e.key !in KeySet(a)
    ensures DistinctKeys(a + [e])
  {
    if a == [] {
      assert a + [e] == [e];
    } else {
      assert (a + [e])[0] == a[0] && (a + [e])[1..] == a[1..] + [e];
      DistinctAppend(a[1..], e);
      KeySetConcat(a[1..], [e]);
    }
  }

  lemma {:induction false} AssignDistinct<V>(a: Record<V>, b: Record<V>)
    requires DistinctKeys(a)
    ensures DistinctKeys(Assign(a, b))
    decreases |b|
  {
    if b != [] {
      AssignDistinct(Put(a, b[0].key, b[0].val), b[1..]);
    }
  }

  lemma {:induction false} DistinctPrefix<V>(init: Record<V>, last: Entry<V>)
    requires DistinctKeys(init + [last])
    ensures DistinctKeys(init) && last.key !in KeySet(init)
  {
    if init != [] {
      assert (init + [last])[1..] == init[1..] + [last];
      DistinctPrefix(init[1..], last);
      KeySetConcat(init[1..], [last]);
    }
  }

  /** The record with every value passed through `f`, written key by key. */
  function MapValues<V, W>(f: V -> W, r: Record<V>): Record<W>
  {
    if r == [] then [] else Put(MapValues(f, r[..|r| - 1]), r[|r| - 1].key, f(r[|r| - 1].val))
  }

  /** Mapping the values of a record with distinct keys keeps its keys, in
      order, and maps each value in place. */
  lemma {:induction false} MapValuesEntries<V, W>(f: V -> W, r: Record<V>)
    requires DistinctKeys(r)
    ensures |MapValues(f, r)| == |r| && KeySet(MapValues(f, r)) == KeySet(r)
    ensures forall i :: 0 <= i < |r| ==> MapValues(f, r)[i] == Entry(r[i].key, f(r[i].val))
  {
    if r != [] {
      var n := |r| - 1;
      var init, last := r[..n], r[n];
      assert r == init + [last];
      DistinctPrefix(init, last);
      MapValuesEntries(f, init);
      KeySetConcat(init, [last]);
      assert KeySet([last]) == {last.key};
    }
  }

  lemma {:induction false} MapValuesLookup<V, W>(f: V -> W, r: Record<V>, k: string)
    requires DistinctKeys(r)
    ensures Lookup(MapValues(f, r), k) == if Lookup(r, k).Some? then Some(f(Lookup(r, k).value)) else None
  {
    if r != [] {
      var n := |r| - 1;
      var init, last := r[..n], r[n];
      assert r == init + [last];
      DistinctPrefix(init, last);
      MapValuesLookup(f, init, k);
      LookupConcat(init, [last], k);
      assert [last][1..] == [];
    }
  }

  lemma {:induction false} KeyInKeySet<V>(r: Record<V>, i: nat)
    requires i < |r|
    ensures r[i].key in KeySet(r)
  {
    if i > 0 {
      KeyInKeySet(r[1..], i - 1);
    }
  }

  /** The record obtained by writing, key by key, each present output. */
  function PutEach<U, V>(fields: Record<U>, outs: seq<Option<V>>): Record<V>
    requires |outs| == |fields|
  {
    if fields == [] then []
    else
      var n := |fields| - 1;
      var prefix := PutEach(fields[..n], outs[..n]);
      if outs[n].Some? then Put(prefix, fields[n].key, outs[n].value) else prefix
  }

  /** Writing distinct keys one by one leaves each key holding its own output. */
  lemma {:induction false} PutEachPerKey<U, V>(fields: Record<U>, outs: seq<Option<V>>)
    requires |outs| == |fields| && DistinctKeys(fields)
    ensures var r := PutEach(fields, outs);
            && DistinctKeys(r)
            && KeySet(r) <= KeySet(fields)
            && forall i :: 0 <= i < |fields| ==> Lookup(r, fields[i].key) == outs[i]
  {
    if fields != [] {
      var n := |fields| - 1;
      var init, last := fields[..n], fields[n];
      assert fields == init + [last];
      KeySetConcat(init, [last]);
      DistinctPrefix(init, last);
      PutEachPerKey(init, outs[..n]);
      var prefix := PutEach(init, outs[..n]);
      assert last.key !in KeySet(prefix);
      forall i | 0 <= i < |fields|
        ensures Lookup(PutEach(fields, outs), fields[i].key) == outs[i]
      {
        if i < n {
          assert fields[i] == init[i] && outs[i] == outs[..n][i];
          KeyInKeySet(init, i);
        }
      }
    }
  }
}
