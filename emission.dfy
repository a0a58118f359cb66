/** The body of the `useAnimatedStyle` callback: every key of the merged
    style is classified and turned into directives, written into the
    `final` record, with transform keys collected, in order, in its
    `transform` list. */
module Emission {
  import opened Records
  import opened JsValues
  import opened StyleKeys
  import opened Directives
  import opened AnimationConfig
  import opened Sequences
  import opened StyleMerge

  /** A value of `final`: one directive, or a nested (shadow) object of them. */
  datatype OutValue = Single(d: Directive) | Nested(inner: Record<Directive>)

  /** What one key contributes: an entry of `final`, transform entries, or neither. */
  datatype KeyOutput = KeyOutput(style: Option<OutValue>, transforms: Record<Directive>)

  const Skip: KeyOutput := KeyOutput(None, [])

  /** The returned style: the entries of `final` and its `transform` list,
      which is undefined when it stayed empty. */
  datatype AnimatedStyle = AnimatedStyle(styles: Record<OutValue>, transform: Option<Record<Directive>>)

  /** `shouldRepeat ? withRepeat(d, repeatCount, repeatReverse, cb, reduceMotion) : d` */
  function Repeated(d: Directive, r: AnimationConfigResult, cb: Option<Completion>, reduceMotion: Value): Directive
  {
    if r.shouldRepeat then WithRepeat(d, r.repeatCount, r.repeatReverse, cb, reduceMotion) else d
  }

  /** A single value animated with the key's config, repeated and delayed. */
  function Leaf(v: Value, r: AnimationConfigResult, delayMs: Value, cb: Callback): Directive
  {
    Delayed(delayMs, Repeated(Apply(r.animation, v, r.config, OnKey(cb)), r, None, r.reduceMotion), r.reduceMotion)
  }

  /** `Object.keys(transformObject)[0]`, which is `undefined` (the property
      name "undefined") for an object without keys. */
  function TransformKeyOf(obj: Value): string
  {
    if obj.Obj? && |obj.fields| > 0 then obj.fields[0].key else "undefined"
  }

  /** One entry of a `transform` array with the current `delayMs`: the entry
      it pushes, if any, and `delayMs` afterwards (an entry whose own
      transition has a delay reassigns it for the entries after it). */
  function TransformStep(obj: Value, delayMs: Value, r: AnimationConfigResult, transition: Value, cb: Callback)
    : (Option<Entry<Directive>>, Value)
  {
    var tk := TransformKeyOf(obj);
    var tv := Prop(obj, tk);
    if tv.Arr? then
      var chain := SequenceArray(tk, tv.items, delayMs, r.config, r.animation, cb);
      if |chain| > 0 then (Some(Entry(tk, Repeated(WithSequence(chain), r, Some(OnKey(cb)), r.reduceMotion))), delayMs)
      else (None, delayMs)
    else
      var ownDelay := Prop(Prop(transition, tk), "delay");
      var d := if !IsNullish(ownDelay) then ownDelay else delayMs;
      var configKey := if Truthy(transition) && HasKey(transition, "transform") && !HasKey(transition, tk) then "transform" else tk;
      var own := ConfigFor(configKey, transition);
      var fv := Repeated(Apply(own.animation, tv, own.config, OnKey(cb)), own, None, r.reduceMotion);
      (Some(Entry(tk, Delayed(d, fv, r.reduceMotion))), d)
  }

  /** The entries a whole `transform` array pushes, and the final `delayMs`. */
  function TransformFold(items: seq<Value>, delayMs: Value, r: AnimationConfigResult, transition: Value, cb: Callback)
    : (Record<Directive>, Value)
  {
    if items == [] then ([], delayMs)
    else
      var (entries, d) := TransformFold(items[..|items| - 1], delayMs, r, transition, cb);
      var (e, d') := TransformStep(items[|items| - 1], d, r, transition, cb);
      (if e.Some? then entries + [e.value] else entries, d')
  }

  /** The nested object built for a shadow-style value. */
  function NestedLeaves(fields: Record<Value>, r: AnimationConfigResult, delayMs: Value, cb: Callback): Record<Directive>
  {
    MapValues(LeafOf(r, delayMs, cb), fields)
  }

  function LeafOf(r: AnimationConfigResult, delayMs: Value, cb: Callback): Value -> Directive
  {
    (v: Value) => Leaf(v, r, delayMs, cb)
  }

  /** `hasInlineOnDidAnimate(value) ? value.value : value` */
  function Unwrapped(raw: Value): Value
  {
    if HasInlineOnDidAnimate(raw) then Prop(raw, "value") else raw
  }

  /** The callback built for a key, remembering the unwrapped value. */
  function KeyCallback(key: string, raw: Value): Callback
  {
    Callback(key, Unwrapped(raw), if HasInlineOnDidAnimate(raw) then Prop(raw, "onDidAnimate") else Undefined)
  }

  /** `value == null || value === false`: the key is skipped. */
  predicate Dropped(value: Value)
  {
    IsNullish(value) || value == Bool(false)
  }

  /** What one key of the merged style contributes. */
  function EmitKey(key: string, raw: Value, transition: Value, defaultDelay: Value): KeyOutput
  {
    var value := Unwrapped(raw);
    if Dropped(value) then Skip
    else EmitValue(key, value, ConfigFor(key, transition), KeyCallback(key, raw),
                   AnimationDelay(key, transition, defaultDelay), transition)
  }

  /** The classification of a kept value: the `transform` array, a
      sequence, a single transform key, a nested (shadow) object, a scalar. */
  function EmitValue(key: string, value: Value, r: AnimationConfigResult, cb: Callback, delayMs: Value, transition: Value)
    : KeyOutput
  {
    if key == "transform" then
      if value.Arr? then KeyOutput(None, TransformFold(value.items, delayMs, r, transition, cb).0)
      else Skip
    else if value.Arr? then SequenceOutput(key, value.items, r, cb, delayMs)
    else if IsTransform(key) then
      KeyOutput(None, [Entry(key, TransformKeyDirective(key, value, r, cb, delayMs, transition))])
    else if value.Obj? then
      KeyOutput(Some(Nested(NestedLeaves(value.fields, r, delayMs, cb))), [])
    else
      var fv := Repeated(Apply(r.animation, value, r.config, OnKey(cb)), r, None, r.reduceMotion);
      KeyOutput(Some(Single(if delayMs.Num? then WithDelay(delayMs, fv, r.reduceMotion) else fv)), [])
  }

  /** A sequence value: one chain, repeated as a whole, pushed onto the
      transform list for a transform key and written into `final` otherwise. */
  function SequenceOutput(key: string, steps: seq<Value>, r: AnimationConfigResult, cb: Callback, delayMs: Value): KeyOutput
  {
    var chain := SequenceArray(key, steps, delayMs, r.config, r.animation, cb);
    if |chain| == 0 then Skip
    else
      var fv := Repeated(WithSequence(chain), r, None, r.reduceMotion);
      if IsTransform(key) then KeyOutput(None, [Entry(key, fv)]) else KeyOutput(Some(Single(fv)), [])
  }

  /** A single transform key outside the `transform` array. */
  function TransformKeyDirective(key: string, value: Value, r: AnimationConfigResult, cb: Callback, delayMs: Value,
                                 transition: Value): Directive
  {
    var ownDelay := Prop(Prop(transition, key), "delay");
    var d := if !IsNullish(ownDelay) then ownDelay else delayMs;
    Delayed(d, Repeated(Apply(r.animation, value, r.config, OnKey(cb)), r, None, r.reduceMotion), r.reduceMotion)
  }

  /** The `final` entries and transform list after visiting the given keys. */
  function EmitAll(fields: Record<Value>, transition: Value, defaultDelay: Value): (Record<OutValue>, Record<Directive>)
  {
    Collect(KeyOutputs(transition, defaultDelay), fields)
  }

  /** The `forEach` callback's output for one entry of the merged style. */
  function KeyOutputs(transition: Value, defaultDelay: Value): Entry<Value> -> KeyOutput
  {
    (e: Entry<Value>) => EmitKey(e.key, e.val, transition, defaultDelay)
  }

  /** Visiting the entries in order: each present style is written into
      `final` under its key, and each key's transform entries are appended. */
  function Collect(out: Entry<Value> -> KeyOutput, fields: Record<Value>): (Record<OutValue>, Record<Directive>)
  {
    if fields == [] then ([], [])
    else
      var (styles, transforms) := Collect(out, fields[..|fields| - 1]);
      var last := fields[|fields| - 1];
      var o := out(last);
      (if o.style.Some? then Put(styles, last.key, o.style.value) else styles, transforms + o.transforms)
  }

  /** The style the callback returns. */
  function AnimatedStyleFor(p: Props, isMounted: bool): (s: AnimatedStyle)
  {
    var (styles, transforms) := EmitAll(MergedStyles(p, isMounted), ResolvedTransition(p), p.delay);
    AnimatedStyle(styles, if |transforms| == 0 then None else Some(transforms))
  }

  /** The body of the `value.forEach` over a `transform` array, for one entry. */
  method EmitTransformEntry(transformObject: Value, delayMs0: Value, r: AnimationConfigResult, transition: Value,
                            callback: Callback)
    returns (pushed: Option<Entry<Directive>>, delayMs: Value)
    ensures (pushed, delayMs) == TransformStep(transformObject, delayMs0, r, transition, callback)
  {
    var transformKey := if transformObject.Obj? && |transformObject.fields| > 0 then transformObject.fields[0].key else "undefined";
    var transformValue := Prop(transformObject, transformKey);
    if transformValue.Arr? {
      pushed := EmitTransformSequence(transformObject, delayMs0, r, transition, callback);
      delayMs := delayMs0;
    } else {
      pushed, delayMs := EmitTransformValue(transformObject, delayMs0, r, transition, callback);
    }
  }

  /** A `transform` entry whose value is a sequence array. */
  method EmitTransformSequence(transformObject: Value, delayMs: Value, r: AnimationConfigResult, transition: Value,
                               callback: Callback)
    returns (pushed: Option<Entry<Directive>>)
    requires Prop(transformObject, TransformKeyOf(transformObject)).Arr?
    ensures (pushed, delayMs) == TransformStep(transformObject, delayMs, r, transition, callback)
  {
    var transformKey := TransformKeyOf(transformObject);
    var transformValue := Prop(transformObject, transformKey);
    var transform: Record<Directive> := [];
    var sequence := GetSequenceArray(transformKey, transformValue.items, delayMs, r.config, r.animation, callback);
    if |sequence| > 0 {
      var finalValue := WithSequence(sequence);
      if r.shouldRepeat {
        finalValue := WithRepeat(finalValue, r.repeatCount, r.repeatReverse, Some(OnKey(callback)), r.reduceMotion);
      }
      transform := [Entry(transformKey, finalValue)];
    }
    pushed := if |transform| > 0 then Some(transform[0]) else None;
  }

  /** A `transform` entry whose value is animated on its own. */
  method EmitTransformValue(transformObject: Value, delayMs0: Value, r: AnimationConfigResult, transition: Value,
                            callback: Callback)
    returns (pushed: Option<Entry<Directive>>, delayMs: Value)
    requires !Prop(transformObject, TransformKeyOf(transformObject)).Arr?
    ensures (pushed, delayMs) == TransformStep(transformObject, delayMs0, r, transition, callback)
  {
    delayMs := delayMs0;
    var transformKey := TransformKeyOf(transformObject);
    var transformValue := Prop(transformObject, transformKey);
    var transformConfig := Prop(transition, transformKey);
    if !IsNullish(Prop(transformConfig, "delay")) {
      delayMs := Prop(transformConfig, "delay");
    }
    assert delayMs == TransformStep(transformObject, delayMs0, r, transition, callback).1;
    var configKey := transformKey;
    if Truthy(transition) && HasKey(transition, "transform") && !HasKey(transition, configKey) {
      configKey := "transform";
    }
    var own := ComputeAnimationConfig(configKey, transition);
    var finalValue := Apply(own.animation, transformValue, own.config, OnKey(callback));
    if own.shouldRepeat {
      finalValue := WithRepeat(finalValue, own.repeatCount, own.repeatReverse, None, r.reduceMotion);
    }
    assert finalValue == Repeated(Apply(own.animation, transformValue, own.config, OnKey(callback)), own, None, r.reduceMotion);
    var transform: Record<Directive>;
    if !IsNullish(delayMs) {
      transform := [Entry(transformKey, WithDelay(delayMs, finalValue, r.reduceMotion))];
    } else {
      transform := [Entry(transformKey, finalValue)];
    }
    pushed := if |transform| > 0 then Some(transform[0]) else None;
  }

  /** The `value.forEach` over a `transform` array. */
  method EmitTransformList(items: seq<Value>, delayMs0: Value, r: AnimationConfigResult, transition: Value, callback: Callback)
    returns (entries: Record<Directive>, delayMs: Value)
    ensures (entries, delayMs) == TransformFold(items, delayMs0, r, transition, callback)
  {
    entries, delayMs := [], delayMs0;
    for j := 0 to |items|
      invariant (entries, delayMs) == TransformFold(items[..j], delayMs0, r, transition, callback)
    {
      assert items[..j + 1][..j] == items[..j];
      var pushed;
      pushed, delayMs := EmitTransformEntry(items[j], delayMs, r, transition, callback);
      if pushed.Some? {
        entries := entries + [pushed.value];
      }
    }
    assert items[..|items|] == items;
  }

  /** The `for ... in` loop over a shadow-style object. */
  method EmitNested(value: Record<Value>, r: AnimationConfigResult, delayMs: Value, callback: Callback)
    returns (inner: Record<Directive>)
    ensures inner == NestedLeaves(value, r, delayMs, callback)
  {
    inner := [];
    for j := 0 to |value|
      invariant inner == NestedLeaves(value[..j], r, delayMs, callback)
    {
      assert value[..j + 1][..j] == value[..j];
      var innerStyleKey := value[j].key;
      var finalValue := Apply(r.animation, value[j].val, r.config, OnKey(callback));
      if r.shouldRepeat {
        finalValue := WithRepeat(finalValue, r.repeatCount, r.repeatReverse, None, r.reduceMotion);
      }
      if !IsNullish(delayMs) {
        inner := Put(inner, innerStyleKey, WithDelay(delayMs, finalValue, r.reduceMotion));
      } else {
        inner := Put(inner, innerStyleKey, finalValue);
      }
    }
    assert value[..|value|] == value;
  }

  /** The body of the `Object.keys(mergedStyles).forEach` callback for one key. */
  method EmitStyleKey(key: string, raw: Value, transition: Value, defaultDelay: Value) returns (out: KeyOutput)
    ensures out == EmitKey(key, raw, transition, defaultDelay)
  {
    var value := raw;
    var inlineOnDidAnimate := Undefined;
    if IsObjectType(value) && value != Null && HasKey(value, "onDidAnimate") {
      inlineOnDidAnimate := Prop(value, "onDidAnimate");
      value := Prop(value, "value");
    }
    assert value == Unwrapped(raw) && Callback(key, value, inlineOnDidAnimate) == KeyCallback(key, raw);
    EmitKeyCases(key, raw, transition, defaultDelay);
    var r := ComputeAnimationConfig(key, transition);
    var callback := Callback(key, value, inlineOnDidAnimate);
    var delayMs := AnimationDelay(key, transition, defaultDelay);
    if IsNullish(value) || value == Bool(false) {
      return Skip;
    }
    out := EmitKeptValue(key, value, r, callback, delayMs, transition);
  }

  lemma EmitKeyCases(key: string, raw: Value, transition: Value, defaultDelay: Value)
    ensures Dropped(Unwrapped(raw)) ==> EmitKey(key, raw, transition, defaultDelay) == Skip
    ensures !Dropped(Unwrapped(raw)) ==>
              EmitKey(key, raw, transition, defaultDelay) ==
              EmitValue(key, Unwrapped(raw), ConfigFor(key, transition), KeyCallback(key, raw),
                        AnimationDelay(key, transition, defaultDelay), transition)
  {
  }

  /** The branches of that callback once the value is known to be kept. */
  method EmitKeptValue(key: string, value: Value, r: AnimationConfigResult, callback: Callback, delayMs0: Value,
                       transition: Value) returns (out: KeyOutput)
    requires !Dropped(value)
    ensures out == EmitValue(key, value, r, callback, delayMs0, transition)
  {
    var delayMs := delayMs0;
    out := Skip;
    if key == "transform" {
      if value.Arr? {
        var entries, _ := EmitTransformList(value.items, delayMs, r, transition, callback);
        out := KeyOutput(None, entries);
      }
    } else if value.Arr? {
      var sequence := GetSequenceArray(key, value.items, delayMs, r.config, r.animation, callback);
      if |sequence| > 0 {
        var finalValue := WithSequence(sequence);
        if r.shouldRepeat {
          finalValue := WithRepeat(finalValue, r.repeatCount, r.repeatReverse, None, r.reduceMotion);
        }
        if IsTransform(key) {
          out := KeyOutput(None, [Entry(key, finalValue)]);
        } else {
          out := KeyOutput(Some(Single(finalValue)), []);
        }
      }
    } else if IsTransform(key) {
      var finalValue := Apply(r.animation, value, r.config, OnKey(callback));
      if r.shouldRepeat {
        finalValue := WithRepeat(finalValue, r.repeatCount, r.repeatReverse, None, r.reduceMotion);
      }
      var transformConfig := Prop(transition, key);
      if !IsNullish(Prop(transformConfig, "delay")) {
        delayMs := Prop(transformConfig, "delay");
      }
      if !IsNullish(delayMs) {
        out := KeyOutput(None, [Entry(key, WithDelay(delayMs, finalValue, r.reduceMotion))]);
      } else {
        out := KeyOutput(None, [Entry(key, finalValue)]);
      }
    } else if IsObjectType(value) {
      var inner := EmitNested(value.fields, r, delayMs, callback);
      out := KeyOutput(Some(Nested(inner)), []);
    } else {
      var finalValue := Apply(r.animation, value, r.config, OnKey(callback));
      if r.shouldRepeat {
        finalValue := WithRepeat(finalValue, r.repeatCount, r.repeatReverse, None, r.reduceMotion);
      }
      if !IsNullish(delayMs) && delayMs.Num? {
        out := KeyOutput(Some(Single(WithDelay(delayMs, finalValue, r.reduceMotion))), []);
      } else {
        out := KeyOutput(Some(Single(finalValue)), []);
      }
    }
  }

  /** One run of the `useAnimatedStyle` callback: the returned style and the
      `exitingStyleProps` record its completion callbacks will update. */
  method ComputeStyle(p: Props, isMounted: bool) returns (style: AnimatedStyle, exitingStyleProps: map<string, bool>)
    ensures style == AnimatedStyleFor(p, isMounted)
    ensures exitingStyleProps == ExitingStyleProps(p)
  {
    var mergedStyles := MergedStyles(p, isMounted);
    exitingStyleProps := MarkExiting(FieldsOf(Or(ExitStyle(p), EmptyObject)));
    var transition := ResolvedTransition(p);
    var styles, transforms := EmitKeys(mergedStyles, transition, p.delay);
    style := AnimatedStyle(styles, if |transforms| == 0 then None else Some(transforms));
  }

  /** The `forEach` that marks every non-disabled exit-style key as exiting. */
  method MarkExiting(exitStyle: Record<Value>) returns (exitingStyleProps: map<string, bool>)
    ensures exitingStyleProps == map k | k in KeySet(exitStyle) && k !in DisabledExitStyles :: true
  {
    exitingStyleProps := map[];
    var exitKeys := Keys(exitStyle);
    for i := 0 to |exitKeys|
      invariant exitingStyleProps == map k | k in exitKeys[..i] && k !in DisabledExitStyles :: true
    {
      MarkStep(exitKeys, i, exitingStyleProps);
      if exitKeys[i] !in DisabledExitStyles {
        exitingStyleProps := exitingStyleProps[exitKeys[i] := true];
      }
    }
    assert exitKeys[..|exitKeys|] == exitKeys;
    KeysCoverKeySet(exitStyle);
  }

  lemma MarkStep(keys: seq<string>, i: nat, m: map<string, bool>)
    requires i < |keys| && m == map k | k in keys[..i] && k !in DisabledExitStyles :: true
    ensures (if keys[i] !in DisabledExitStyles then m[keys[i] := true] else m)
         == map k | k in keys[..i + 1] && k !in DisabledExitStyles :: true
  {
    assert keys[..i + 1] == keys[..i] + [keys[i]];
  }

  /** The `Object.keys(mergedStyles).forEach` loop. */
  method EmitKeys(mergedStyles: Record<Value>, transition: Value, defaultDelay: Value)
    returns (styles: Record<OutValue>, transforms: Record<Directive>)
    ensures (styles, transforms) == EmitAll(mergedStyles, transition, defaultDelay)
  {
    styles, transforms := [], [];
    for i := 0 to |mergedStyles|
      invariant (styles, transforms) == EmitAll(mergedStyles[..i], transition, defaultDelay)
    {
      EmitAllStep(mergedStyles, i, transition, defaultDelay);
      var out := EmitStyleKey(mergedStyles[i].key, mergedStyles[i].val, transition, defaultDelay);
      if out.style.Some? {
        styles := Put(styles, mergedStyles[i].key, out.style.value);
      }
      transforms := transforms + out.transforms;
    }
    assert mergedStyles[..|mergedStyles|] == mergedStyles;
  }

  lemma EmitAllStep(fields: Record<Value>, i: nat, transition: Value, defaultDelay: Value)
    requires i < |fields|
    ensures var prev := EmitAll(fields[..i], transition, defaultDelay);
            var out := EmitKey(fields[i].key, fields[i].val, transition, defaultDelay);
            EmitAll(fields[..i + 1], transition, defaultDelay) ==
              (if out.style.Some? then Put(prev.0, fields[i].key, out.style.value) else prev.0,
               prev.1 + out.transforms)
  {
    assert fields[..i + 1][..i] == fields[..i];
    assert KeyOutputs(transition, defaultDelay)(fields[i]) == EmitKey(fields[i].key, fields[i].val, transition, defaultDelay);
  }

  lemma {:induction false} KeysCoverKeySet(r: Record<Value>)
    ensures forall k :: k in Keys(r) <==> k in KeySet(r)
  {
    if r != [] {
      KeysCoverKeySet(r[1..]);
      assert Keys(r) == [r[0].key] + Keys(r[1..]);
    }
  }
}
