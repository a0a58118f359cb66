/** What the style computation promises about its output. */
module EmissionProperties {
  import opened Records
  import opened JsValues
  import opened StyleKeys
  import opened Directives
  import opened AnimationConfig
  import opened Sequences
  import opened StyleMerge
  import opened Emission

  /** `f` applied to every element, in order. */
  function MapSeq<A, B>(f: A -> B, xs: seq<A>): (ys: seq<B>)
    ensures |ys| == |xs|
  {
    if xs == [] then [] else MapSeq(f, xs[..|xs| - 1]) + [f(xs[|xs| - 1])]
  }

  lemma {:induction false} MapSeqAt<A, B>(f: A -> B, xs: seq<A>, i: nat)
    requires i < |xs|
    ensures MapSeq(f, xs)[i] == f(xs[i])
  {
    var n := |xs| - 1;
    if i < n {
      MapSeqAt(f, xs[..n], i);
      assert xs[..n][i] == xs[i];
    }
  }

  /** The `final` entry an entry's output holds, if any. */
  function StyleOf(out: Entry<Value> -> KeyOutput): Entry<Value> -> Option<OutValue>
  {
    (e: Entry<Value>) => out(e).style
  }

  /** The per-key outputs' `final` entries, in key order. */
  function KeyStyles(fields: Record<Value>, transition: Value, defaultDelay: Value): (outs: seq<Option<OutValue>>)
    ensures |outs| == |fields|
  {
    MapSeq(StyleOf(KeyOutputs(transition, defaultDelay)), fields)
  }

  lemma EmitAllIsPutEach(fields: Record<Value>, transition: Value, defaultDelay: Value)
    ensures EmitAll(fields, transition, defaultDelay).0 == PutEach(fields, KeyStyles(fields, transition, defaultDelay))
  {
    CollectIsPutEach(KeyOutputs(transition, defaultDelay), fields);
  }

  lemma {:induction false} CollectIsPutEach(out: Entry<Value> -> KeyOutput, fields: Record<Value>)
    ensures Collect(out, fields).0 == PutEach(fields, MapSeq(StyleOf(out), fields))
  {
    if fields != [] {
      var n := |fields| - 1;
      CollectIsPutEach(out, fields[..n]);
    }
  }

  /** Every key of `final` comes from the merged style, at most once, and
      holds exactly what that key's classification produced: in particular a
      key whose value is null or false has no entry. */
  lemma FinalEntriesPerKey(fields: Record<Value>, transition: Value, defaultDelay: Value)
    requires DistinctKeys(fields)
    ensures var styles := EmitAll(fields, transition, defaultDelay).0;
            && DistinctKeys(styles)
            && KeySet(styles) <= KeySet(fields)
            && forall i :: 0 <= i < |fields| ==>
                 Lookup(styles, fields[i].key) == EmitKey(fields[i].key, fields[i].val, transition, defaultDelay).style
  {
    EmitAllIsPutEach(fields, transition, defaultDelay);
    var outs := KeyStyles(fields, transition, defaultDelay);
    PutEachPerKey(fields, outs);
    forall i | 0 <= i < |fields|
      ensures outs[i] == EmitKey(fields[i].key, fields[i].val, transition, defaultDelay).style
    {
      KeyStylesAt(fields, transition, defaultDelay, i);
    }
  }

  lemma KeyStylesAt(fields: Record<Value>, transition: Value, defaultDelay: Value, i: nat)
    requires i < |fields|
    ensures KeyStyles(fields, transition, defaultDelay)[i] == EmitKey(fields[i].key, fields[i].val, transition, defaultDelay).style
  {
    MapSeqAt(StyleOf(KeyOutputs(transition, defaultDelay)), fields, i);
  }

  /** A shadow-style object becomes an object with the same keys in the same
      order, each value replaced by its leaf directive. */
  lemma NestedLeavesEntries(fields: Record<Value>, r: AnimationConfigResult, delayMs: Value, cb: Callback)
    requires DistinctKeys(fields)
    ensures var inner := NestedLeaves(fields, r, delayMs, cb);
            && |inner| == |fields|
            && KeySet(inner) == KeySet(fields)
            && forall i :: 0 <= i < |fields| ==> inner[i] == Entry(fields[i].key, Leaf(fields[i].val, r, delayMs, cb))
  {
    MapValuesEntries(LeafOf(r, delayMs, cb), fields);
  }

  /** Reading a key of the nested output gives the leaf for that key's value
      in the input, and a key the input lacks is absent from the output. */
  lemma NestedLeavesLookup(fields: Record<Value>, r: AnimationConfigResult, delayMs: Value, cb: Callback, k: string)
    requires DistinctKeys(fields)
    ensures Lookup(NestedLeaves(fields, r, delayMs, cb), k) ==
              if Lookup(fields, k).Some? then Some(Leaf(Lookup(fields, k).value, r, delayMs, cb)) else None
  {
    MapValuesLookup(LeafOf(r, delayMs, cb), fields, k);
  }


  /** A key whose (unwrapped) value is null or false contributes nothing. */
  lemma DroppedKeyEmitsNothing(key: string, raw: Value, transition: Value, defaultDelay: Value)
    requires Dropped(Unwrapped(raw))
    ensures EmitKey(key, raw, transition, defaultDelay) == Skip
  {
  }

  /** A `transform` value that is not an array is skipped. */
  lemma InvalidTransformSkipped(raw: Value, transition: Value, defaultDelay: Value)
    requires !Unwrapped(raw).Arr?
    ensures EmitKey("transform", raw, transition, defaultDelay) == Skip
  {
  }

  /** Entries of the `transform` array are pushed in input order, one per
      entry (when no entry holds a sequence, which may come out empty). */
  lemma TransformEntriesInOrder(items: seq<Value>, delayMs: Value, r: AnimationConfigResult,
                                transition: Value, cb: Callback)
    requires forall i :: 0 <= i < |items| ==> !Prop(items[i], TransformKeyOf(items[i])).Arr?
    ensures var entries := TransformFold(items, delayMs, r, transition, cb).0;
            && |entries| == |items|
            && forall i :: 0 <= i < |items| ==> entries[i].key == TransformKeyOf(items[i])
  {
    NoSequencesHolds(items);
    FoldKeys(items, delayMs, r, transition, cb);
    var entries := TransformFold(items, delayMs, r, transition, cb).0;
    EntryKeysAt(entries);
    ItemKeysAt(items);
  }

  function EntryKeys(entries: Record<Directive>): seq<string>
  {
    if entries == [] then [] else EntryKeys(entries[..|entries| - 1]) + [entries[|entries| - 1].key]
  }

  function ItemKeys(items: seq<Value>): seq<string>
  {
    if items == [] then [] else ItemKeys(items[..|items| - 1]) + [TransformKeyOf(items[|items| - 1])]
  }

  predicate NoSequences(items: seq<Value>)
  {
    items == [] ||
    (NoSequences(items[..|items| - 1]) && !Prop(items[|items| - 1], TransformKeyOf(items[|items| - 1])).Arr?)
  }

  lemma {:induction false} NoSequencesHolds(items: seq<Value>)
    requires forall i :: 0 <= i < |items| ==> !Prop(items[i], TransformKeyOf(items[i])).Arr?
    ensures NoSequences(items)
  {
    if items != [] {
      var n := |items| - 1;
      assert forall i :: 0 <= i < n ==> items[..n][i] == items[i];
      NoSequencesHolds(items[..n]);
    }
  }

  lemma {:induction false} FoldKeys(items: seq<Value>, delayMs: Value, r: AnimationConfigResult,
                                   transition: Value, cb: Callback)
    requires NoSequences(items)
    ensures EntryKeys(TransformFold(items, delayMs, r, transition, cb).0) == ItemKeys(items)
  {
    if items != [] {
      var n := |items| - 1;
      FoldKeys(items[..n], delayMs, r, transition, cb);
      var prev := TransformFold(items[..n], delayMs, r, transition, cb);
      TransformStepPushes(items[n], prev.1, r, transition, cb);
      TransformFoldLast(items, delayMs, r, transition, cb);
      EntryKeysAppend(prev.0, TransformStep(items[n], prev.1, r, transition, cb).0.value);
    }
  }

  lemma EntryKeysAppend(prev: Record<Directive>, e: Entry<Directive>)
    ensures EntryKeys(prev + [e]) == EntryKeys(prev) + [e.key]
  {
    assert (prev + [e])[..|prev|] == prev;
  }

  lemma {:induction false} EntryKeysAt(entries: Record<Directive>)
    ensures |EntryKeys(entries)| == |entries|
    ensures forall i :: 0 <= i < |entries| ==> EntryKeys(entries)[i] == entries[i].key
  {
    if entries != [] {
      EntryKeysAt(entries[..|entries| - 1]);
    }
  }

  lemma {:induction false} ItemKeysAt(items: seq<Value>)
    ensures |ItemKeys(items)| == |items|
    ensures forall i :: 0 <= i < |items| ==> ItemKeys(items)[i] == TransformKeyOf(items[i])
  {
    if items != [] {
      ItemKeysAt(items[..|items| - 1]);
    }
  }

  lemma TransformFoldLast(items: seq<Value>, delayMs: Value, r: AnimationConfigResult, transition: Value, cb: Callback)
    requires items != []
    ensures var n := |items| - 1;
            var prev := TransformFold(items[..n], delayMs, r, transition, cb);
            var e := TransformStep(items[n], prev.1, r, transition, cb).0;
            TransformFold(items, delayMs, r, transition, cb).0 == if e.Some? then prev.0 + [e.value] else prev.0
  {
  }

  lemma TransformStepPushes(obj: Value, delayMs: Value, r: AnimationConfigResult, transition: Value, cb: Callback)
    requires !Prop(obj, TransformKeyOf(obj)).Arr?
    ensures var e := TransformStep(obj, delayMs, r, transition, cb).0;
            e.Some? && e.value.key == TransformKeyOf(obj)
  {
  }

  /** `f` applied to every element, the results concatenated in order. */
  function FlatMap<A, B>(f: A -> seq<B>, xs: seq<A>): seq<B>
  {
    if xs == [] then [] else f(xs[0]) + FlatMap(f, xs[1..])
  }

  lemma {:induction false} FlatMapSplit<A, B>(f: A -> seq<B>, a: seq<A>, b: seq<A>)
    ensures FlatMap(f, a + b) == FlatMap(f, a) + FlatMap(f, b)
  {
    if a == [] {
      assert a + b == b;
    } else {
      assert (a + b)[0] == a[0] && (a + b)[1..] == a[1..] + b;
      FlatMapSplit(f, a[1..], b);
    }
  }

  lemma FlatMapOne<A, B>(f: A -> seq<B>, x: A)
    ensures FlatMap(f, [x]) == f(x)
  {
    assert [x][1..] == [];
  }

  /** The transform entries an entry's output holds. */
  function TransformsOf(out: Entry<Value> -> KeyOutput): Entry<Value> -> Record<Directive>
  {
    (e: Entry<Value>) => out(e).transforms
  }

  /** The list of transforms in `final` is the transforms of each key,
      concatenated in key order. */
  function TransformsInKeyOrder(fields: Record<Value>, transition: Value, defaultDelay: Value): Record<Directive>
  {
    FlatMap(TransformsOf(KeyOutputs(transition, defaultDelay)), fields)
  }

  lemma TransformsFollowKeyOrder(fields: Record<Value>, transition: Value, defaultDelay: Value)
    ensures EmitAll(fields, transition, defaultDelay).1 == TransformsInKeyOrder(fields, transition, defaultDelay)
  {
    CollectTransforms(KeyOutputs(transition, defaultDelay), fields);
  }

  lemma {:induction false} CollectTransforms(out: Entry<Value> -> KeyOutput, fields: Record<Value>)
    ensures Collect(out, fields).1 == FlatMap(TransformsOf(out), fields)
  {
    if fields != [] {
      var init, last := fields[..|fields| - 1], fields[|fields| - 1];
      CollectTransforms(out, init);
      FlatMapSplit(TransformsOf(out), init, [last]);
      FlatMapOne(TransformsOf(out), last);
      assert init + [last] == fields;
    }
  }

  lemma TransformsSplit(a: Record<Value>, b: Record<Value>, transition: Value, defaultDelay: Value)
    ensures TransformsInKeyOrder(a + b, transition, defaultDelay)
         == TransformsInKeyOrder(a, transition, defaultDelay) + TransformsInKeyOrder(b, transition, defaultDelay)
  {
    FlatMapSplit(TransformsOf(KeyOutputs(transition, defaultDelay)), a, b);
  }

  /** The returned `transform` is undefined exactly when no key pushed a
      transform, and a non-empty list otherwise. */
  lemma EmptyTransformIsUndefined(p: Props, isMounted: bool)
    ensures var s := AnimatedStyleFor(p, isMounted);
            var pushed := EmitAll(MergedStyles(p, isMounted), ResolvedTransition(p), p.delay).1;
            && (s.transform == None <==> pushed == [])
            && (s.transform.Some? ==> s.transform.value == pushed && |pushed| > 0)
  {
  }

  /** A scalar style value hands the engine its key's completion callback,
      unless there is no transition or its type names no factory: the
      identity factory returns the bare value and no completion will ever
      arrive for it. */
  lemma ScalarCompletion(key: string, raw: Value, transition: Value, defaultDelay: Value)
    requires key != "transform" && !IsTransform(key)
    requires var v := Unwrapped(raw); !Dropped(v) && !v.Arr? && !v.Obj?
    ensures var out := EmitKey(key, raw, transition, defaultDelay);
            && out.style.Some? && out.style.value.Single?
            && Completions(out.style.value.d) ==
                 if ConfigFor(key, transition).animation == NoAnimation then {} else {OnKey(KeyCallback(key, raw))}
  {
    var r := ConfigFor(key, transition);
    var cb := KeyCallback(key, raw);
    var v := Unwrapped(raw);
    var a := Apply(r.animation, v, r.config, OnKey(cb));
    var fv := Repeated(a, r, None, r.reduceMotion);
    assert Completions(a) == if r.animation == NoAnimation then {} else {OnKey(cb)};
    assert Completions(fv) == Completions(a);
    var delayMs := AnimationDelay(key, transition, defaultDelay);
    assert Completions(WithDelay(delayMs, fv, r.reduceMotion)) == Completions(fv);
  }
}
