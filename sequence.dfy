/** `getSequenceArray`: an array value for a key is a list of steps, each a
    plain value or an object `{ value, delay?, onDidAnimate?, ...transition }`,
    and every step that is kept becomes one link of the chain. */
module Sequences {
  import opened Records
  import opened JsValues
  import opened Directives
  import opened AnimationConfig

  /** A step is kept unless it is null, undefined or false, or an object
      whose `value` is one of those; an array step has no `value`, so it is
      never kept. */
  predicate KeepStep(step: Value)
  {
    if IsObjectType(step)
    then Truthy(step) && !IsNullish(Prop(step, "value")) && Prop(step, "value") != Bool(false)
    else !IsNullish(step) && step != Bool(false)
  }

  lemma KeepStepCases(step: Value)
    ensures !KeepStep(step) <==>
      || IsNullish(step) || step == Bool(false) || step.Arr?
      || (step.Obj? && (IsNullish(Prop(step, "value")) || Prop(step, "value") == Bool(false)))
  {
  }

  /** The delay of one kept step: the step's own `delay` when it is an object
      with a non-null one, the shared delay otherwise. */
  function StepDelay(step: Value, delayMs: Value): Value
  {
    if step.Obj? && !IsNullish(Prop(step, "delay")) then Prop(step, "delay") else delayMs
  }

  /** The step's own transition: the step object without `delay` and `value`. */
  function StepTransition(step: Value): Value
  {
    Obj(Remove(Remove(FieldsOf(step), "delay"), "value"))
  }

  /** The link one kept step becomes. */
  function StepDirective(key: string, step: Value, delayMs: Value, config: Record<Value>,
                         animation: Animation, cb: Callback): Directive
  {
    if step.Obj? then
      var own := ConfigFor(key, StepTransition(step));
      var stepValue := Prop(step, "value");
      var link := Apply(own.animation, stepValue, Assign(config, own.config),
                        OnStep(cb, stepValue, Prop(step, "onDidAnimate")));
      Delayed(StepDelay(step, delayMs), link, own.reduceMotion)
    else
      Delayed(delayMs, Apply(animation, step, config, OnStep(cb, step, Undefined)), SystemReduceMotion)
  }

  /** The chain for a whole step list. */
  function SequenceArray(key: string, steps: seq<Value>, delayMs: Value, config: Record<Value>,
                         animation: Animation, cb: Callback): seq<Directive>
  {
    if steps == [] then []
    else
      var prefix := SequenceArray(key, steps[..|steps| - 1], delayMs, config, animation, cb);
      var step := steps[|steps| - 1];
      if KeepStep(step) then prefix + [StepDirective(key, step, delayMs, config, animation, cb)] else prefix
  }

  /** The kept steps, in input order. */
  function KeptSteps(steps: seq<Value>): (kept: seq<Value>)
    ensures forall s :: s in kept <==> s in steps && KeepStep(s)
  {
    if steps == [] then []
    else
      var prefix := KeptSteps(steps[..|steps| - 1]);
      assert steps == steps[..|steps| - 1] + [steps[|steps| - 1]];
      if KeepStep(steps[|steps| - 1]) then prefix + [steps[|steps| - 1]] else prefix
  }

  /** Filtering commutes with concatenation, so the kept steps keep the
      input's order (and its repetitions). */
  lemma {:induction false} KeptStepsConcat(a: seq<Value>, b: seq<Value>)
    ensures KeptSteps(a + b) == KeptSteps(a) + KeptSteps(b)
  {
    if b == [] {
      assert a + b == a;
    } else {
      var n := |b| - 1;
      assert (a + b)[..|a + b| - 1] == a + b[..n];
      assert (a + b)[|a + b| - 1] == b[n];
      KeptStepsConcat(a, b[..n]);
    }
  }

  /** One link per kept step, in input order. */
  lemma {:induction false} OneLinkPerKeptStep(key: string, steps: seq<Value>, delayMs: Value,
                                              config: Record<Value>, animation: Animation, cb: Callback)
    ensures var chain := SequenceArray(key, steps, delayMs, config, animation, cb);
            var kept := KeptSteps(steps);
            && |chain| == |kept|
            && forall i :: 0 <= i < |chain| ==> chain[i] == StepDirective(key, kept[i], delayMs, config, animation, cb)
  {
    if steps != [] {
      OneLinkPerKeptStep(key, steps[..|steps| - 1], delayMs, config, animation, cb);
    }
  }

  /** A link is wrapped in a delay exactly when its step delay is non-null,
      and then with that delay; an object step's own delay overrides the
      shared one. A plain step keeps the shared factory and config, while an
      object step resolves its factory from its own keys. */
  lemma StepLinkShape(key: string, step: Value, delayMs: Value, config: Record<Value>,
                      animation: Animation, cb: Callback)
    ensures var d := StepDirective(key, step, delayMs, config, animation, cb);
            && (d.WithDelay? <==> !IsNullish(StepDelay(step, delayMs)))
            && (d.WithDelay? ==> d.delayMs == StepDelay(step, delayMs))
            && (step.Obj? && !IsNullish(Prop(step, "delay")) ==> StepDelay(step, delayMs) == Prop(step, "delay"))
            && (!step.Obj? ==> d == (if IsNullish(delayMs) then Apply(animation, step, config, OnStep(cb, step, Undefined))
                                     else WithDelay(delayMs, Apply(animation, step, config, OnStep(cb, step, Undefined)), SystemReduceMotion)))
            && (step.Obj? ==> var link := if d.WithDelay? then d.inner else d;
                              link == Apply(ConfigFor(key, StepTransition(step)).animation, Prop(step, "value"),
                                            Assign(config, ConfigFor(key, StepTransition(step)).config),
                                            OnStep(cb, Prop(step, "value"), Prop(step, "onDidAnimate"))))
  {
  }

  /** `getSequenceArray`, with its `for` loop. */
  method GetSequenceArray(sequenceKey: string, sequenceArray: seq<Value>, delayMs: Value,
                          config: Record<Value>, animation: Animation, callback: Callback)
    returns (sequence: seq<Directive>)
    ensures sequence == SequenceArray(sequenceKey, sequenceArray, delayMs, config, animation, callback)
  {
    sequence := [];
    for i := 0 to |sequenceArray|
      invariant sequence == SequenceArray(sequenceKey, sequenceArray[..i], delayMs, config, animation, callback)
    {
      var step := sequenceArray[i];
      var shouldPush :=
        if IsObjectType(step)
        then Truthy(step) && !IsNullish(Prop(step, "value")) && Prop(step, "value") != Bool(false)
        else !IsNullish(step) && step != Bool(false);
      if shouldPush {
        var link := SequenceLink(sequenceKey, step, delayMs, config, animation, callback);
        sequence := sequence + [link];
      }
      assert sequenceArray[..i + 1][..i] == sequenceArray[..i];
    }
    assert sequenceArray[..|sequenceArray|] == sequenceArray;
  }

  /** The link one kept step is pushed as: an object step resolves its own
      factory, config and reduce-motion setting and may override the delay. */
  method SequenceLink(sequenceKey: string, step: Value, delayMs: Value, config: Record<Value>, animation: Animation,
                      callback: Callback) returns (link: Directive)
    requires KeepStep(step)
    ensures link == StepDirective(sequenceKey, step, delayMs, config, animation, callback)
  {
    var stepDelay := delayMs;
    var stepValue := step;
    var stepReduceMotion := SystemReduceMotion;
    var stepConfig := config;
    var stepAnimation := animation;
    var stepOnDidAnimate := Undefined;
    if IsObjectType(step) {
      var stepTransition := Obj(Remove(Remove(FieldsOf(step), "delay"), "value"));
      var inline := ComputeAnimationConfig(sequenceKey, stepTransition);
      stepConfig := Assign(stepConfig, inline.config);
      stepAnimation := inline.animation;
      stepReduceMotion := inline.reduceMotion;
      if !IsNullish(Prop(step, "delay")) {
        stepDelay := Prop(step, "delay");
      }
      stepValue := Prop(step, "value");
      stepOnDidAnimate := Prop(step, "onDidAnimate");
    }
    var sequenceValue := Apply(stepAnimation, stepValue, stepConfig, OnStep(callback, stepValue, stepOnDidAnimate));
    if !IsNullish(stepDelay) {
      link := WithDelay(stepDelay, sequenceValue, stepReduceMotion);
    } else {
      link := sequenceValue;
    }
  }
}
