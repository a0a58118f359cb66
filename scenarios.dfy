/** Worked examples of the style computation on concrete props. */
module Scenarios {
  import opened Records
  import opened JsValues
  import opened StyleKeys
  import opened Directives
  import opened AnimationConfig
  import opened Sequences
  import opened StyleMerge
  import opened Emission

  /** A mounted, present component with only `animate`, `state`,
      `stylePriority` and `transition` set. */
  function Present(animate: Value, state: Value, stylePriority: Value, transition: Value): Props
  {
    Props(animate, Undefined, transition, Undefined, Undefined, state, stylePriority, Undefined,
          Undefined, Undefined, true, Undefined, Undefined, Undefined)
  }

  function One(k: string, v: Value): Value { Obj([Entry(k, v)]) }

  /** A `state` prop whose shared value holds `style`. */
  function StateHolding(style: Value): Value { One("__state", One("value", style)) }

  /** `animate={opacity:1}` against a state of `{opacity:0.5}`: the default
      priority keeps 1, `stylePriority: 'state'` takes 0.5. */
  lemma StylePriorityExample()
    ensures MergedStyles(Present(One("opacity", Num(1.0)), StateHolding(One("opacity", Num(0.5))), Undefined, Undefined), true)
         == [Entry("opacity", Num(1.0))]
    ensures MergedStyles(Present(One("opacity", Num(1.0)), StateHolding(One("opacity", Num(0.5))), Str("state"), Undefined), true)
         == [Entry("opacity", Num(0.5))]
  {
    AnimateWins(Present(One("opacity", Num(1.0)), StateHolding(One("opacity", Num(0.5))), Undefined, Undefined));
    StateWins(Present(One("opacity", Num(1.0)), StateHolding(One("opacity", Num(0.5))), Str("state"), Undefined));
  }

  lemma AnimateWins(p: Props)
    requires p == Present(One("opacity", Num(1.0)), StateHolding(One("opacity", Num(0.5))), Undefined, Undefined)
    ensures MergedStyles(p, true) == [Entry("opacity", Num(1.0))]
  {
    PriorityInputs(p, One("opacity", Num(1.0)), One("opacity", Num(0.5)));
    SpreadSameKey("opacity", Num(0.5), Num(1.0));
    PresentMerged(p, Entry("opacity", Num(1.0)));
  }

  lemma StateWins(p: Props)
    requires p == Present(One("opacity", Num(1.0)), StateHolding(One("opacity", Num(0.5))), Str("state"), Undefined)
    ensures MergedStyles(p, true) == [Entry("opacity", Num(0.5))]
  {
    PriorityInputs(p, One("opacity", Num(1.0)), One("opacity", Num(0.5)));
    SpreadSameKey("opacity", Num(1.0), Num(0.5));
    PresentMerged(p, Entry("opacity", Num(0.5)));
  }

  lemma PriorityInputs(p: Props, a: Value, v: Value)
    requires p == Present(a, StateHolding(v), p.stylePriority, Undefined)
    requires a.Obj? && !HasKey(a, "value") && Truthy(v)
    ensures AnimateStyle(p) == a && VariantStyle(p) == v
  {
  }

  /** A present component without `from` or `exit` merges to what the
      priority merge gives. */
  lemma PresentMerged(p: Props, e: Entry<Value>)
    requires p.isPresent && p.from == Undefined && PriorityMerge(p) == [e]
    ensures MergedStyles(p, true) == [e]
  {
    assert !ExitReplaces(p) && InitialStyle(p) == EmptyObject;
    SpreadOntoEmpty(e);
  }

  lemma SpreadSameKey(k: string, v: Value, w: Value)
    ensures Spread(One(k, v), One(k, w)) == [Entry(k, w)]
  {
    assert Assign([], [Entry(k, v)]) == [Entry(k, v)] by {
      assert Assign([], [Entry(k, v)]) == Assign(Put([], k, v), []);
    }
    assert Assign([Entry(k, v)], [Entry(k, w)]) == Assign(Put([Entry(k, v)], k, w), []);
  }

  lemma SpreadOntoEmpty(e: Entry<Value>)
    ensures Spread(EmptyObject, Obj([e])) == [e]
  {
    assert Assign([], [e]) == Assign(Put([], e.key, e.val), []);
  }

  /** A present component animating a single key `k` (not `value`) to `v`
      merges to exactly that key, under the transition it was given. */
  lemma SingleKeyMerge(k: string, v: Value, transition: Value)
    requires k != "value" && !HasKey(transition, "value")
    ensures var p := Present(One(k, v), Undefined, Undefined, transition);
            && MergedStyles(p, true) == [Entry(k, v)]
            && ResolvedTransition(p) == transition
  {
    var p := Present(One(k, v), Undefined, Undefined, transition);
    assert AnimateStyle(p) == One(k, v);
    assert VariantStyle(p) == EmptyObject;
    SpreadOntoEmpty(Entry(k, v));
    assert PriorityMerge(p) == [Entry(k, v)];
  }

  lemma EmitOne(e: Entry<Value>, transition: Value, defaultDelay: Value)
    ensures var out := EmitKey(e.key, e.val, transition, defaultDelay);
            EmitAll([e], transition, defaultDelay) ==
              (if out.style.Some? then [Entry(e.key, out.style.value)] else [], out.transforms)
  {
    assert [e][..0] == [];
    var out := EmitKey(e.key, e.val, transition, defaultDelay);
    assert EmitAll([], transition, defaultDelay) == ([], []);
    assert [] + out.transforms == out.transforms;
    if out.style.Some? {
      assert Put([], e.key, out.style.value) == [Entry(e.key, out.style.value)];
    }
  }

  lemma SingleKeyStyle(k: string, v: Value, transition: Value)
    requires k != "value" && !HasKey(transition, "value")
    ensures AnimatedStyleFor(Present(One(k, v), Undefined, Undefined, transition), true) == AnimatedStyleFor1(k, v, transition)
  {
    SingleKeyMerge(k, v, transition);
    EmitOne(Entry(k, v), transition, Undefined);
  }

  /** The style returned for a single merged key. */
  function AnimatedStyleFor1(k: string, v: Value, transition: Value): AnimatedStyle
  {
    var out := EmitKey(k, v, transition, Undefined);
    AnimatedStyle(if out.style.Some? then [Entry(k, out.style.value)] else [],
                  if |out.transforms| == 0 then None else Some(out.transforms))
  }

  function Ramp(): Value { Arr([Num(0.0), Num(1.0), Num(0.0)]) }

  function RampLinks(): seq<Directive>
  {
    var cb := Callback("opacity", Ramp(), Undefined);
    [Animated(WithTiming, Num(0.0), [], OnStep(cb, Num(0.0), Undefined)),
     Animated(WithTiming, Num(1.0), [], OnStep(cb, Num(1.0), Undefined)),
     Animated(WithTiming, Num(0.0), [], OnStep(cb, Num(0.0), Undefined))]
  }

  /** `animate={opacity:[0,1,0]}` gives a chain of three timing links; with
      `transition={loop:true}` the same three links are repeated forever,
      with reversal, as one unit. */
  lemma SequenceExample()
    ensures AnimatedStyleFor(Present(One("opacity", Ramp()), Undefined, Undefined, EmptyObject), true)
         == AnimatedStyle([Entry("opacity", Single(WithSequence(RampLinks())))], None)
    ensures AnimatedStyleFor(Present(One("opacity", Ramp()), Undefined, Undefined, One("loop", Bool(true))), true)
         == AnimatedStyle([Entry("opacity", Single(WithRepeat(WithSequence(RampLinks()), Num(-1.0), Bool(true),
                                                              None, SystemReduceMotion)))], None)
  {
    RampStyle(EmptyObject);
    RampStyle(One("loop", Bool(true)));
  }

  lemma RampStyle(transition: Value)
    requires transition == EmptyObject || transition == One("loop", Bool(true))
    ensures AnimatedStyleFor(Present(One("opacity", Ramp()), Undefined, Undefined, transition), true)
         == AnimatedStyle([Entry("opacity", Single(if transition == EmptyObject then WithSequence(RampLinks())
                                                   else WithRepeat(WithSequence(RampLinks()), Num(-1.0), Bool(true),
                                                                   None, SystemReduceMotion)))], None)
  {
    SingleKeyStyle("opacity", Ramp(), transition);
    RampOutput(transition);
  }

  lemma RampOutput(transition: Value)
    requires transition == EmptyObject || transition == One("loop", Bool(true))
    ensures EmitKey("opacity", Ramp(), transition, Undefined) ==
      KeyOutput(Some(Single(if transition == EmptyObject then WithSequence(RampLinks())
                            else WithRepeat(WithSequence(RampLinks()), Num(-1.0), Bool(true), None, SystemReduceMotion))), [])
  {
    var r := ConfigFor("opacity", transition);
    OpacityConfig(transition);
    RampSteps("opacity", Ramp(), transition, Undefined, Callback("opacity", Ramp(), Undefined), r);
  }

  /** For the three-step opacity ramp under `{}` or `{loop: true}`, the key
      emits one style entry: the sequence of `RampLinks()`, repeated exactly
      when the config says so, with no delay and no transforms. */
  lemma RampSteps(key: string, ramp: Value, transition: Value, noDelay: Value, cb: Callback, r: AnimationConfigResult)
    requires key == "opacity" && ramp == Ramp() && noDelay == Undefined
    requires transition == EmptyObject || transition == One("loop", Bool(true))
    requires cb == Callback(key, ramp, Undefined) && r == ConfigFor(key, transition)
    ensures EmitKey(key, ramp, transition, noDelay) ==
      KeyOutput(Some(Single(Repeated(WithSequence(RampLinks()), r, None, r.reduceMotion))), [])
  {
    RampSequence(key, ramp, transition, noDelay, cb, r);
    RampSequenceOutput(key, ramp.items, transition, cb, r);
  }

  lemma RampSequenceOutput(key: string, steps: seq<Value>, transition: Value, cb: Callback, r: AnimationConfigResult)
    requires key == "opacity" && steps == Ramp().items
    requires transition == EmptyObject || transition == One("loop", Bool(true))
    requires cb == Callback(key, Ramp(), Undefined) && r == ConfigFor(key, transition)
    ensures SequenceOutput(key, steps, r, cb, Undefined) ==
      KeyOutput(Some(Single(Repeated(WithSequence(RampLinks()), r, None, r.reduceMotion))), [])
  {
    OpacityFacts(key);
    OpacityConfig(transition);
    RampChain(cb);
    SequenceOutputShape(key, steps, r, cb, Undefined);
  }

  /** The ramp is kept and, being an array, becomes a sequence. */
  lemma RampSequence(key: string, ramp: Value, transition: Value, noDelay: Value, cb: Callback, r: AnimationConfigResult)
    requires key == "opacity" && ramp == Ramp() && noDelay == Undefined
    requires transition == EmptyObject || transition == One("loop", Bool(true))
    requires cb == Callback(key, ramp, Undefined) && r == ConfigFor(key, transition)
    ensures EmitKey(key, ramp, transition, noDelay) == SequenceOutput(key, ramp.items, r, cb, Undefined)
  {
    assert Unwrapped(ramp) == ramp && KeyCallback(key, ramp) == cb;
    assert AnimationDelay(key, transition, noDelay) == Undefined;
    KeptValue(key, ramp, transition, noDelay);
    SequenceValue(key, ramp, r, cb, Undefined, transition);
  }

  lemma SequenceOutputShape(key: string, steps: seq<Value>, r: AnimationConfigResult, cb: Callback, delayMs: Value)
    requires !IsTransform(key) && |SequenceArray(key, steps, delayMs, r.config, r.animation, cb)| > 0
    ensures SequenceOutput(key, steps, r, cb, delayMs) ==
      KeyOutput(Some(Single(Repeated(WithSequence(SequenceArray(key, steps, delayMs, r.config, r.animation, cb)),
                                     r, None, r.reduceMotion))), [])
  {
  }

  lemma KeptValue(key: string, raw: Value, transition: Value, defaultDelay: Value)
    requires !Dropped(Unwrapped(raw))
    ensures EmitKey(key, raw, transition, defaultDelay) ==
      EmitValue(key, Unwrapped(raw), ConfigFor(key, transition), KeyCallback(key, raw),
                AnimationDelay(key, transition, defaultDelay), transition)
  {
  }

  lemma SequenceValue(key: string, value: Value, r: AnimationConfigResult, cb: Callback, delayMs: Value, transition: Value)
    requires key != "transform" && value.Arr?
    ensures EmitValue(key, value, r, cb, delayMs, transition) == SequenceOutput(key, value.items, r, cb, delayMs)
  {
  }

  /** Opacity under `{}` or `{loop: true}`: timing, no config, looping only
      in the second case. */
  lemma OpacityConfig(transition: Value)
    requires transition == EmptyObject || transition == One("loop", Bool(true))
    ensures ConfigFor("opacity", transition) ==
      AnimationConfigResult(WithTiming, [], SystemReduceMotion, Bool(true),
                            if transition == EmptyObject then Num(0.0) else Num(-1.0), transition != EmptyObject)
  {
    assert TransitionType("opacity", transition) == Str("timing");
    assert FilterConfig(TimingConfigKeys[..1], Undefined, transition) == [] by {
      assert TimingConfigKeys[..1][..0] == [];
    }
    assert TimingConfigKeys[..2][..1] == TimingConfigKeys[..1];
    assert TimingConfigKeys[..2] == TimingConfigKeys;
  }

  /** The three timing links of the ramp. */
  lemma RampChain(cb: Callback)
    requires cb == Callback("opacity", Ramp(), Undefined)
    ensures SequenceArray("opacity", Ramp().items, Undefined, [], WithTiming, cb) == RampLinks()
  {
    var steps := Ramp().items;
    assert steps[..1][..0] == [];
    assert steps[..2][..1] == steps[..1];
    assert steps[..3][..2] == steps[..2];
    assert steps[..3] == steps;
    assert SequenceArray("opacity", steps[..1], Undefined, [], WithTiming, cb) == RampLinks()[..1];
    assert SequenceArray("opacity", steps[..2], Undefined, [], WithTiming, cb) == RampLinks()[..2];
  }

  /** `exit={opacity:0}` with presence gone: the merged style is `{opacity:0}`
      whatever `animate` says, and opacity is the one pending key. */
  lemma ExitExample()
    ensures var p := Props(One("opacity", Num(1.0)), Undefined, Undefined, Undefined, Undefined, Undefined,
                           Undefined, Undefined, One("opacity", Num(0.0)), Undefined, false, Undefined,
                           Undefined, Undefined);
            && MergedStyles(p, true) == [Entry("opacity", Num(0.0))]
            && ExitingStyleProps(p) == map["opacity" := true]
  {
    var p := Props(One("opacity", Num(1.0)), Undefined, Undefined, Undefined, Undefined, Undefined,
                   Undefined, Undefined, One("opacity", Num(0.0)), Undefined, false, Undefined,
                   Undefined, Undefined);
    ExitingWith(p, One("opacity", Num(0.0)));
    ExitMerged(p, "opacity", Num(0.0));
    ExitPending(p, "opacity", Num(0.0));
  }

  lemma ExitingWith(p: Props, exit: Value)
    requires !p.isPresent && p.exit == exit && exit == One("opacity", Num(0.0))
    ensures ExitReplaces(p) && ExitStyle(p) == exit
  {
    assert FieldsOf(exit) == [Entry("opacity", Num(0.0))];
  }

  lemma ExitMerged(p: Props, k: string, v: Value)
    requires ExitReplaces(p) && ExitStyle(p) == One(k, v)
    ensures MergedStyles(p, true) == [Entry(k, v)]
  {
    assert FieldsOf(One(k, v)) == [Entry(k, v)];
    ExitStyleReplacesAll(p, true);
  }

  lemma ExitPending(p: Props, k: string, v: Value)
    requires ExitStyle(p) == One(k, v) && k !in DisabledExitStyles
    ensures ExitingStyleProps(p) == map[k := true]
  {
    assert Or(ExitStyle(p), EmptyObject) == One(k, v);
    assert KeySet(FieldsOf(One(k, v))) == {k};
  }

  /** The resolution of a key that names no type, repeat, reduce-motion or
      config value: a plain spring. */
  const PlainSpring: AnimationConfigResult :=
    AnimationConfigResult(WithSpring, [], SystemReduceMotion, Bool(true), Num(0.0), false)

  lemma {:induction false} FilterConfigNone(keys: seq<string>, overrides: Value, transition: Value)
    requires forall i :: 0 <= i < |keys| ==> ConfigValue(keys[i], overrides, transition) == Undefined
    ensures FilterConfig(keys, overrides, transition) == []
  {
    if keys != [] {
      FilterConfigNone(keys[..|keys| - 1], overrides, transition);
    }
  }

  lemma SpringByDefault(key: string, transition: Value)
    requires Truthy(transition) && TransitionType(key, transition) == Str("spring")
    requires RequestedRepeat(key, transition) == Num(0.0)
    requires Prop(transition, "reduceMotion") == Undefined && Prop(Prop(transition, key), "reduceMotion") == Undefined
    requires Prop(transition, "repeatReverse") == Undefined && Prop(Prop(transition, key), "repeatReverse") == Undefined
    requires forall i :: 0 <= i < |SpringConfigKeys| ==>
               ConfigValue(SpringConfigKeys[i], Prop(transition, key), transition) == Undefined
    ensures ConfigFor(key, transition) == PlainSpring
  {
    FilterConfigNone(SpringConfigKeys, Prop(transition, key), transition);
  }

  lemma SpringUnder(key: string, tr: Value)
    requires key != "opacity" && !IsColor(key)
    requires tr == EmptyObject || tr == RotateDelayed()
    ensures ConfigFor(key, tr) == PlainSpring
  {
    assert Prop(tr, "type") == Undefined && Prop(Prop(tr, key), "type") == Undefined;
    assert Prop(tr, "loop") == Undefined && Prop(Prop(tr, key), "loop") == Undefined;
    assert Prop(tr, "repeat") == Undefined && Prop(Prop(tr, key), "repeat") == Undefined;
    SpringByDefault(key, tr);
  }

  /** One transform entry `{tk: tv}` resolved to a plain spring. */
  lemma TransformStepSpring(obj: Value, tk: string, tv: Value, delayMs: Value, r: AnimationConfigResult,
                            transition: Value, cb: Callback)
    requires obj == One(tk, tv) && !tv.Arr? && !HasKey(transition, "transform")
    requires ConfigFor(tk, transition) == PlainSpring
    ensures var ownDelay := Prop(Prop(transition, tk), "delay");
            var d := if !IsNullish(ownDelay) then ownDelay else delayMs;
            TransformStep(obj, delayMs, r, transition, cb) ==
              (Some(Entry(tk, Delayed(d, Animated(WithSpring, tv, [], OnKey(cb)), r.reduceMotion))), d)
  {
    assert TransformKeyOf(obj) == tk && Prop(obj, tk) == tv;
  }

  lemma TransformFoldTwo(a: Value, b: Value, delayMs: Value, r: AnimationConfigResult, transition: Value, cb: Callback,
                         e1: Entry<Directive>, d1: Value, e2: Entry<Directive>, d2: Value)
    requires TransformStep(a, delayMs, r, transition, cb) == (Some(e1), d1)
    requires TransformStep(b, d1, r, transition, cb) == (Some(e2), d2)
    ensures TransformFold([a, b], delayMs, r, transition, cb).0 == [e1, e2]
  {
    FoldFirst(a, delayMs, r, transition, cb, e1, d1);
    FoldSecond(a, b, delayMs, r, transition, cb, [e1], d1, e2, d2);
    assert [e1] + [e2] == [e1, e2];
  }

  lemma FoldFirst(a: Value, delayMs: Value, r: AnimationConfigResult, transition: Value, cb: Callback,
                  e1: Entry<Directive>, d1: Value)
    requires TransformStep(a, delayMs, r, transition, cb) == (Some(e1), d1)
    ensures TransformFold([a], delayMs, r, transition, cb) == ([e1], d1)
  {
    assert TransformFold([], delayMs, r, transition, cb) == ([], delayMs);
    FoldSnoc([], a, delayMs, r, transition, cb);
    assert [] + [a] == [a];
    assert [] + [e1] == [e1];
  }

  lemma FoldSecond(a: Value, b: Value, delayMs: Value, r: AnimationConfigResult, transition: Value, cb: Callback,
                   prefix: Record<Directive>, d1: Value, e2: Entry<Directive>, d2: Value)
    requires TransformFold([a], delayMs, r, transition, cb) == (prefix, d1)
    requires TransformStep(b, d1, r, transition, cb) == (Some(e2), d2)
    ensures TransformFold([a, b], delayMs, r, transition, cb).0 == prefix + [e2]
  {
    FoldSnoc([a], b, delayMs, r, transition, cb);
    assert [a] + [b] == [a, b];
  }

  /** One more `transform` entry at the end. */
  lemma FoldSnoc(items: seq<Value>, x: Value, delayMs: Value, r: AnimationConfigResult, transition: Value, cb: Callback)
    ensures var prev := TransformFold(items, delayMs, r, transition, cb);
            var step := TransformStep(x, prev.1, r, transition, cb);
            TransformFold(items + [x], delayMs, r, transition, cb) ==
              (if step.0.Some? then prev.0 + [step.0.value] else prev.0, step.1)
  {
    assert (items + [x])[..|items|] == items;
  }

  lemma TransformValue(key: string, raw: Value, transition: Value, defaultDelay: Value)
    requires key == "transform" && raw.Arr? && !HasInlineOnDidAnimate(raw)
    requires AnimationDelay(key, transition, defaultDelay) == Undefined
    ensures EmitKey(key, raw, transition, defaultDelay) ==
      KeyOutput(None, TransformFold(raw.items, Undefined, ConfigFor(key, transition), transition,
                                    Callback(key, raw, Undefined)).0)
  {
  }

  function ScaleThenRotate(): Value { Arr([One("scale", Num(2.0)), One("rotate", Str("45deg"))]) }

  /** Under `transition={}`, `animate={transform:[{scale:2},{rotate:'45deg'}]}`
      keeps the order of the transform list, each entry a spring. */
  lemma TransformOrderExample()
    ensures var cb := Callback("transform", ScaleThenRotate(), Undefined);
            AnimatedStyleFor(Present(One("transform", ScaleThenRotate()), Undefined, Undefined, EmptyObject), true)
            == AnimatedStyle([], Some([Entry("scale", Animated(WithSpring, Num(2.0), [], OnKey(cb))),
                                       Entry("rotate", Animated(WithSpring, Str("45deg"), [], OnKey(cb)))]))
  {
    SingleKeyStyle("transform", ScaleThenRotate(), EmptyObject);
    TransformOrderOutput("transform", ScaleThenRotate(), EmptyObject, Undefined);
  }

  lemma TransformOrderOutput(key: string, items: Value, tr: Value, noDelay: Value)
    requires key == "transform" && items == ScaleThenRotate() && tr == EmptyObject && noDelay == Undefined
    ensures var cb := Callback(key, items, Undefined);
            EmitKey(key, items, tr, noDelay) ==
              KeyOutput(None, [Entry("scale", Animated(WithSpring, Num(2.0), [], OnKey(cb))),
                               Entry("rotate", Animated(WithSpring, Str("45deg"), [], OnKey(cb)))])
  {
    TransformValue(key, items, tr, noDelay);
    ScaleRotateFold(items.items[0], items.items[1], ConfigFor(key, tr), tr, Callback(key, items, Undefined));
    assert items.items == [items.items[0], items.items[1]];
  }

  lemma ScaleRotateFold(a: Value, b: Value, r: AnimationConfigResult, tr: Value, cb: Callback)
    requires a == One("scale", Num(2.0)) && b == One("rotate", Str("45deg")) && tr == EmptyObject
    ensures TransformFold([a, b], Undefined, r, tr, cb).0 ==
              [Entry("scale", Animated(WithSpring, Num(2.0), [], OnKey(cb))),
               Entry("rotate", Animated(WithSpring, Str("45deg"), [], OnKey(cb)))]
  {
    SpringUnder("scale", tr);
    SpringUnder("rotate", tr);
    TransformStepSpring(a, "scale", Num(2.0), Undefined, r, tr, cb);
    TransformStepSpring(b, "rotate", Str("45deg"), Undefined, r, tr, cb);
    TransformFoldTwo(a, b, Undefined, r, tr, cb,
                     Entry("scale", Animated(WithSpring, Num(2.0), [], OnKey(cb))), Undefined,
                     Entry("rotate", Animated(WithSpring, Str("45deg"), [], OnKey(cb))), Undefined);
  }

  function RotateThenScale(): Value { Arr([One("rotate", Str("45deg")), One("scale", Num(2.0))]) }
  function RotateDelayed(): Value { One("rotate", One("delay", Num(100.0))) }

  /** A per-entry delay inside the `transform` array carries over to the
      entries after it: with `transition={rotate:{delay:100}}` the `scale`
      entry that follows `rotate` is delayed by 100 as well. */
  lemma TransformDelayCarriesOver()
    ensures var cb := Callback("transform", RotateThenScale(), Undefined);
            AnimatedStyleFor(Present(One("transform", RotateThenScale()), Undefined, Undefined, RotateDelayed()), true)
            == AnimatedStyle([], Some([
                 Entry("rotate", WithDelay(Num(100.0), Animated(WithSpring, Str("45deg"), [], OnKey(cb)), SystemReduceMotion)),
                 Entry("scale", WithDelay(Num(100.0), Animated(WithSpring, Num(2.0), [], OnKey(cb)), SystemReduceMotion))]))
  {
    SingleKeyStyle("transform", RotateThenScale(), RotateDelayed());
    TransformDelayOutput("transform", RotateThenScale(), RotateDelayed(), Undefined);
  }

  lemma TransformDelayOutput(key: string, items: Value, tr: Value, noDelay: Value)
    requires key == "transform" && items == RotateThenScale() && tr == RotateDelayed() && noDelay == Undefined
    ensures var cb := Callback(key, items, Undefined);
            EmitKey(key, items, tr, noDelay) ==
              KeyOutput(None, [
                Entry("rotate", WithDelay(Num(100.0), Animated(WithSpring, Str("45deg"), [], OnKey(cb)), SystemReduceMotion)),
                Entry("scale", WithDelay(Num(100.0), Animated(WithSpring, Num(2.0), [], OnKey(cb)), SystemReduceMotion))])
  {
    TransformValue(key, items, tr, noDelay);
    DelayFold(items, tr, ConfigFor(key, tr), Callback(key, items, Undefined));
  }

  lemma DelayFold(items: Value, tr: Value, r: AnimationConfigResult, cb: Callback)
    requires items == RotateThenScale() && tr == RotateDelayed() && r == ConfigFor("transform", tr)
    ensures TransformFold(items.items, Undefined, r, tr, cb).0 == [
              Entry("rotate", WithDelay(Num(100.0), Animated(WithSpring, Str("45deg"), [], OnKey(cb)), SystemReduceMotion)),
              Entry("scale", WithDelay(Num(100.0), Animated(WithSpring, Num(2.0), [], OnKey(cb)), SystemReduceMotion))]
  {
    DelayedSprings(tr);
    RotateDelayedFacts(tr);
    assert items.items == [items.items[0], items.items[1]];
    RotateScaleFold(items.items[0], items.items[1], r, tr, cb);
  }

  lemma RotateDelayedFacts(tr: Value)
    requires tr == RotateDelayed()
    ensures !HasKey(tr, "transform")
    ensures Prop(Prop(tr, "rotate"), "delay") == Num(100.0) && Prop(Prop(tr, "scale"), "delay") == Undefined
  {
  }

  lemma DelayedSprings(tr: Value)
    requires tr == RotateDelayed()
    ensures ConfigFor("transform", tr) == PlainSpring
    ensures ConfigFor("rotate", tr) == PlainSpring
    ensures ConfigFor("scale", tr) == PlainSpring
  {
    TransformSpring(tr);
    RotateSpring(tr);
    ScaleSpring(tr);
  }

  lemma TransformSpring(tr: Value)
    requires tr == RotateDelayed()
    ensures ConfigFor("transform", tr) == PlainSpring
  {
    SpringUnder("transform", tr);
  }

  lemma RotateSpring(tr: Value)
    requires tr == RotateDelayed()
    ensures ConfigFor("rotate", tr) == PlainSpring
  {
    SpringUnder("rotate", tr);
  }

  lemma ScaleSpring(tr: Value)
    requires tr == RotateDelayed()
    ensures ConfigFor("scale", tr) == PlainSpring
  {
    SpringUnder("scale", tr);
  }

  lemma RotateScaleFold(a: Value, b: Value, r: AnimationConfigResult, tr: Value, cb: Callback)
    requires a == One("rotate", Str("45deg")) && b == One("scale", Num(2.0)) && r == PlainSpring
    requires !HasKey(tr, "transform") && ConfigFor("rotate", tr) == PlainSpring && ConfigFor("scale", tr) == PlainSpring
    requires Prop(Prop(tr, "rotate"), "delay") == Num(100.0) && Prop(Prop(tr, "scale"), "delay") == Undefined
    ensures TransformFold([a, b], Undefined, r, tr, cb).0 == [
              Entry("rotate", WithDelay(Num(100.0), Animated(WithSpring, Str("45deg"), [], OnKey(cb)), SystemReduceMotion)),
              Entry("scale", WithDelay(Num(100.0), Animated(WithSpring, Num(2.0), [], OnKey(cb)), SystemReduceMotion))]
  {
    var hundred := Num(100.0);
    var e1 := Entry("rotate", WithDelay(hundred, Animated(WithSpring, Str("45deg"), [], OnKey(cb)), SystemReduceMotion));
    var e2 := Entry("scale", WithDelay(hundred, Animated(WithSpring, Num(2.0), [], OnKey(cb)), SystemReduceMotion));
    TransformStepSpring(a, "rotate", Str("45deg"), Undefined, r, tr, cb);
    TransformStepSpring(b, "scale", Num(2.0), hundred, r, tr, cb);
    TransformFoldTwo(a, b, Undefined, r, tr, cb, e1, hundred, e2, hundred);
  }

  function SpringRoot(): Value { One("type", Str("spring")) }
  function MixedSteps(): Value { Arr([Num(0.0), One("value", Num(1.0))]) }

  function MixedLinks(cb: Callback): seq<Directive>
  {
    [Animated(WithSpring, Num(0.0), [], OnStep(cb, Num(0.0), Undefined)),
     Animated(WithTiming, Num(1.0), [], OnStep(cb, Num(1.0), Undefined))]
  }

  /** An object step resolves its factory from its own keys only: under a
      root `type: 'spring'`, the step `{value: 1}` of `opacity` falls back to
      opacity's default, timing, while the plain step keeps the spring. */
  lemma ObjectStepOwnType()
    ensures AnimatedStyleFor(Present(One("opacity", MixedSteps()), Undefined, Undefined, SpringRoot()), true)
         == AnimatedStyle([Entry("opacity", Single(WithSequence(MixedLinks(Callback("opacity", MixedSteps(), Undefined)))))], None)
  {
    SingleKeyStyle("opacity", MixedSteps(), SpringRoot());
    MixedOutput("opacity", MixedSteps(), SpringRoot(), Undefined);
  }

  lemma MixedOutput(key: string, steps: Value, tr: Value, noDelay: Value)
    requires key == "opacity" && steps == MixedSteps() && tr == SpringRoot() && noDelay == Undefined
    ensures EmitKey(key, steps, tr, noDelay) ==
              KeyOutput(Some(Single(WithSequence(MixedLinks(Callback(key, steps, Undefined))))), [])
  {
    OpacityFacts(key);
    OpacityUnderSpringRoot(key, tr);
    SequenceKey(key, steps, tr, noDelay);
    MixedSequence(key, steps.items, ConfigFor(key, tr), Callback(key, steps, Undefined));
  }

  lemma OpacityFacts(key: string)
    requires key == "opacity"
    ensures key != "transform" && !IsTransform(key) && ConfigFor(key, EmptyObject) == OpacityTiming
  {
    OpacityConfig(EmptyObject);
  }

  lemma SequenceKey(key: string, raw: Value, tr: Value, defaultDelay: Value)
    requires key != "transform" && raw.Arr? && !HasInlineOnDidAnimate(raw)
    requires AnimationDelay(key, tr, defaultDelay) == Undefined
    ensures EmitKey(key, raw, tr, defaultDelay) ==
              SequenceOutput(key, raw.items, ConfigFor(key, tr), Callback(key, raw, Undefined), Undefined)
  {
  }

  lemma MixedSequence(key: string, items: seq<Value>, r: AnimationConfigResult, cb: Callback)
    requires !IsTransform(key) && ConfigFor(key, EmptyObject) == OpacityTiming
    requires |items| == 2 && items[0] == Num(0.0) && items[1] == One("value", Num(1.0))
    requires r == PlainSpring
    ensures SequenceOutput(key, items, r, cb, Undefined) == KeyOutput(Some(Single(WithSequence(MixedLinks(cb)))), [])
  {
    assert items == [items[0], items[1]];
    MixedChain(key, items[0], items[1], cb);
    SequenceOutputShape(key, items, r, cb, Undefined);
  }

  lemma OpacityUnderSpringRoot(key: string, tr: Value)
    requires key == "opacity" && tr == SpringRoot()
    ensures ConfigFor(key, tr) == PlainSpring
  {
    assert TransitionType(key, tr) == Str("spring");
    SpringByDefault(key, tr);
  }

  /** Opacity's resolution under an empty transition. */
  const OpacityTiming: AnimationConfigResult :=
    AnimationConfigResult(WithTiming, [], SystemReduceMotion, Bool(true), Num(0.0), false)

  lemma MixedChain(key: string, s0: Value, s1: Value, cb: Callback)
    requires ConfigFor(key, EmptyObject) == OpacityTiming && s0 == Num(0.0) && s1 == One("value", Num(1.0))
    ensures SequenceArray(key, [s0, s1], Undefined, [], WithSpring, cb) == MixedLinks(cb)
  {
    MixedFirst(key, s0, cb);
    ObjectStepLink(key, s1, cb);
    assert KeepStep(s1);
    ChainOfTwo(key, s0, s1, Undefined, [], WithSpring, cb, MixedLinks(cb)[0], MixedLinks(cb)[1]);
    Pair(s0, s1);
    PairOf(MixedLinks(cb));
  }

  lemma Pair<T>(x: T, y: T)
    ensures [x] + [y] == [x, y]
  {
  }

  lemma PairOf<T>(s: seq<T>)
    requires |s| == 2
    ensures [s[0]] + [s[1]] == s
  {
  }

  lemma ChainOfTwo(key: string, s0: Value, s1: Value, delayMs: Value, config: Record<Value>, animation: Animation,
                   cb: Callback, l0: Directive, l1: Directive)
    requires SequenceArray(key, [s0], delayMs, config, animation, cb) == [l0]
    requires KeepStep(s1) && StepDirective(key, s1, delayMs, config, animation, cb) == l1
    ensures SequenceArray(key, [s0] + [s1], delayMs, config, animation, cb) == [l0] + [l1]
  {
    SequenceSnoc(key, [s0], s1, delayMs, config, animation, cb);
  }

  lemma MixedFirst(key: string, s0: Value, cb: Callback)
    requires s0 == Num(0.0)
    ensures SequenceArray(key, [s0], Undefined, [], WithSpring, cb) == [MixedLinks(cb)[0]]
  {
    SequenceSnoc(key, [], s0, Undefined, [], WithSpring, cb);
    assert [] + [s0] == [s0];
  }

  /** One more step at the end of a sequence. */
  lemma SequenceSnoc(key: string, steps: seq<Value>, x: Value, delayMs: Value, config: Record<Value>,
                     animation: Animation, cb: Callback)
    ensures SequenceArray(key, steps + [x], delayMs, config, animation, cb) ==
      if KeepStep(x) then SequenceArray(key, steps, delayMs, config, animation, cb) + [StepDirective(key, x, delayMs, config, animation, cb)]
      else SequenceArray(key, steps, delayMs, config, animation, cb)
  {
    assert (steps + [x])[..|steps|] == steps;
  }

  lemma ObjectStepLink(key: string, step: Value, cb: Callback)
    requires ConfigFor(key, EmptyObject) == OpacityTiming && step == One("value", Num(1.0))
    ensures StepDirective(key, step, Undefined, [], WithSpring, cb) ==
              Animated(WithTiming, Num(1.0), [], OnStep(cb, Num(1.0), Undefined))
  {
    assert StepTransition(step) == EmptyObject;
    assert Assign<Value>([], []) == [];
  }

}
