/** How one style key's transition is resolved (`animationConfig`) and when
    it starts (`animationDelay`). A transition is an object whose root keys
    are defaults and whose per-key entries (`transition[key]`) override them. */
module AnimationConfig {
  import opened Records
  import opened JsValues
  import opened StyleKeys
  import opened Directives

  /** The config keys each factory accepts, in the order they are copied. */
  const TimingConfigKeys: seq<string> := ["duration", "easing"]
  const SpringConfigKeys: seq<string> := [
    "clamp", "damping", "dampingRatio", "duration", "energyThreshold", "mass",
    "overshootClamping", "stiffness", "velocity"
  ]
  const DecayConfigKeys: seq<string> := [
    "clamp", "deceleration", "rubberBandEffect", "rubberBandFactor", "velocity",
    "velocityFactor"
  ]

  /** The engine's default reduce-motion setting. */
  const SystemReduceMotion: Value := Str("system")

  datatype AnimationConfigResult = AnimationConfigResult(
    animation: Animation,
    config: Record<Value>,
    reduceMotion: Value,
    repeatReverse: Value,
    repeatCount: Value,
    shouldRepeat: bool)

  /** A chain `c0 ?? c1 ?? ... ?? fallback`: the first candidate that is
      neither null nor undefined. */
  function FirstDefined(candidates: seq<Value>, fallback: Value): Value
  {
    if candidates == [] then fallback
    else Coalesce(candidates[0], FirstDefined(candidates[1..], fallback))
  }

  lemma {:induction false} FirstDefinedPicks(candidates: seq<Value>, fallback: Value, i: nat)
    requires i <= |candidates|
    requires forall j :: 0 <= j < i ==> IsNullish(candidates[j])
    ensures i < |candidates| && !IsNullish(candidates[i]) ==> FirstDefined(candidates, fallback) == candidates[i]
    ensures i == |candidates| ==> FirstDefined(candidates, fallback) == fallback
  {
    if i > 0 {
      FirstDefinedPicks(candidates[1..], fallback, i - 1);
    }
  }

  /** A two-candidate chain is `a ?? b ?? fallback`. */
  lemma FirstDefinedTwo(a: Value, b: Value, fallback: Value)
    ensures FirstDefined([a, b], fallback) == Coalesce(a, Coalesce(b, fallback))
  {
    assert [a, b][1..] == [b];
    assert [b][1..] == [];
    assert FirstDefined([b], fallback) == Coalesce(b, FirstDefined([], fallback));
    assert FirstDefined([a, b], fallback) == Coalesce(a, FirstDefined([b], fallback));
  }

  /** The factory a transition type names; any other type is the identity. */
  function AnimationFor(t: Value): (a: Animation)
  {
    if t == Str("timing") then WithTiming
    else if t == Str("spring") then WithSpring
    else if t == Str("decay") then WithDecay
    else NoAnimation
  }

  function AllowedKeys(a: Animation): (keys: seq<string>)
    ensures a == NoAnimation <==> keys == []
  {
    match a
    case WithTiming => TimingConfigKeys
    case WithSpring => SpringConfigKeys
    case WithDecay => DecayConfigKeys
    case NoAnimation => []
  }

  /** `opacity` and the colour keys default to `timing`, everything else to `spring`. */
  function DefaultType(key: string): Value
  {
    if key == "opacity" || IsColor(key) then Str("timing") else Str("spring")
  }

  function TransitionType(key: string, transition: Value): Value
  {
    var overrides := Prop(transition, key);
    Coalesce(Prop(overrides, "type"), Coalesce(Prop(transition, "type"), DefaultType(key)))
  }

  /** The repeat count before an unrecognised type forces it to zero. */
  function RequestedRepeat(key: string, transition: Value): Value
  {
    var overrides := Prop(transition, key);
    var loop := Coalesce(Prop(overrides, "loop"), Prop(transition, "loop"));
    if IsNullish(loop) then Coalesce(Prop(overrides, "repeat"), Coalesce(Prop(transition, "repeat"), Num(0.0)))
    else if Truthy(loop) then Num(-1.0)
    else Num(0.0)
  }

  /** The value `overrides?.[k] ?? transition[k]` copied for config key k. */
  function ConfigValue(k: string, overrides: Value, transition: Value): Value
  {
    Coalesce(Prop(overrides, k), Prop(transition, k))
  }

  /** The config built by copying each allowed key that is not undefined. */
  function FilterConfig(keys: seq<string>, overrides: Value, transition: Value): (config: Record<Value>)
  {
    if keys == [] then []
    else
      var prefix := FilterConfig(keys[..|keys| - 1], overrides, transition);
      var k := keys[|keys| - 1];
      var v := ConfigValue(k, overrides, transition);
      if v != Undefined then prefix + [Entry(k, v)] else prefix
  }

  /** The config holds exactly the allowed keys whose resolved value is not
      undefined, each once, and each with the per-key value when that is not
      null or undefined and the root value otherwise. */
  lemma FilterConfigContents(keys: seq<string>, overrides: Value, transition: Value, k: string)
    requires forall i, j :: 0 <= i < j < |keys| ==> keys[i] != keys[j]
    ensures DistinctKeys(FilterConfig(keys, overrides, transition))
    ensures KeySet(FilterConfig(keys, overrides, transition)) <= set x | x in keys
    ensures Lookup(FilterConfig(keys, overrides, transition), k) ==
      if k in keys && ConfigValue(k, overrides, transition) != Undefined
      then Some(ConfigValue(k, overrides, transition)) else None
  {
    FilterConfigKeys(keys, overrides, transition);
    FilterConfigLookup(keys, overrides, transition, k);
  }

  lemma {:induction false} FilterConfigKeys(keys: seq<string>, overrides: Value, transition: Value)
    requires forall i, j :: 0 <= i < j < |keys| ==> keys[i] != keys[j]
    ensures DistinctKeys(FilterConfig(keys, overrides, transition))
    ensures KeySet(FilterConfig(keys, overrides, transition)) <= set x | x in keys
  {
    if keys != [] {
      var init := keys[..|keys| - 1];
      var last := keys[|keys| - 1];
      FilterConfigKeys(init, overrides, transition);
      var prefix := FilterConfig(init, overrides, transition);
      assert last !in init;
      assert keys == init + [last];
      var v := ConfigValue(last, overrides, transition);
      if v != Undefined {
        assert last !in KeySet(prefix);
        DistinctAppend(prefix, Entry(last, v));
        KeySetConcat(prefix, [Entry(last, v)]);
      }
    }
  }

  lemma {:induction false} FilterConfigLookup(keys: seq<string>, overrides: Value, transition: Value, k: string)
    ensures Lookup(FilterConfig(keys, overrides, transition), k) ==
      if k in keys && ConfigValue(k, overrides, transition) != Undefined
      then Some(ConfigValue(k, overrides, transition)) else None
  {
    if keys != [] {
      var init := keys[..|keys| - 1];
      var last := keys[|keys| - 1];
      FilterConfigLookup(init, overrides, transition, k);
      assert keys == init + [last];
      var v := ConfigValue(last, overrides, transition);
      if v != Undefined {
        LookupConcat(FilterConfig(init, overrides, transition), [Entry(last, v)], k);
      }
    }
  }

  /** The result of `animationConfig(key, transition)`. */
  function ConfigFor(key: string, transition: Value): AnimationConfigResult
  {
    if !Truthy(transition) then
      AnimationConfigResult(NoAnimation, [], SystemReduceMotion, Bool(true), Num(0.0), false)
    else
      var overrides := Prop(transition, key);
      var animation := AnimationFor(TransitionType(key, transition));
      var count := if animation == NoAnimation then Num(0.0) else RequestedRepeat(key, transition);
      var reverse := Coalesce(Prop(overrides, "repeatReverse"), Coalesce(Prop(transition, "repeatReverse"), Bool(true)));
      var reduceMotion :=
        if animation != NoAnimation
        then Coalesce(Prop(transition, "reduceMotion"), Coalesce(Prop(overrides, "reduceMotion"), SystemReduceMotion))
        else SystemReduceMotion;
      AnimationConfigResult(animation, FilterConfig(AllowedKeys(animation), overrides, transition),
                            reduceMotion, reverse, count, Truthy(count))
  }

  /** The factory is chosen by the per-key `type`, else the root `type`,
      else `timing` for `opacity` and colours and `spring` for the rest. */
  lemma TypePrecedence(key: string, transition: Value)
    requires Truthy(transition)
    ensures var perKey := Prop(Prop(transition, key), "type");
            var root := Prop(transition, "type");
            var a := ConfigFor(key, transition).animation;
            && (!IsNullish(perKey) ==> a == AnimationFor(perKey))
            && (IsNullish(perKey) && !IsNullish(root) ==> a == AnimationFor(root))
            && (IsNullish(perKey) && IsNullish(root) ==>
                  a == if key == "opacity" || IsColor(key) then WithTiming else WithSpring)
  {
  }

  /** A non-null `loop` (per-key, else root) decides the count: -1 when
      truthy, 0 otherwise; without one the count is the per-key `repeat`,
      else the root `repeat`, else 0. An unrecognised type has count 0.
      The animation repeats exactly when the count is truthy (non-zero). */
  lemma RepeatResolution(key: string, transition: Value)
    ensures var overrides := Prop(transition, key);
            var loop := Coalesce(Prop(overrides, "loop"), Prop(transition, "loop"));
            var r := ConfigFor(key, transition);
            && (r.animation == NoAnimation ==> r.repeatCount == Num(0.0) && !r.shouldRepeat)
            && (r.animation != NoAnimation && !IsNullish(loop) ==>
                  r.repeatCount == (if Truthy(loop) then Num(-1.0) else Num(0.0)))
            && (r.animation != NoAnimation && IsNullish(loop) ==>
                  r.repeatCount == FirstDefined([Prop(overrides, "repeat"), Prop(transition, "repeat")], Num(0.0)))
            && (r.shouldRepeat <==> Truthy(r.repeatCount))
  {
    FirstDefinedTwo(Prop(Prop(transition, key), "repeat"), Prop(transition, "repeat"), Num(0.0));
  }

  /** `repeatReverse` is the per-key value, else the root value, else true. */
  lemma RepeatReverseDefault(key: string, transition: Value)
    ensures var r := ConfigFor(key, transition);
            r.repeatReverse ==
              if Truthy(transition)
              then FirstDefined([Prop(Prop(transition, key), "repeatReverse"), Prop(transition, "repeatReverse")], Bool(true))
              else Bool(true)
  {
    FirstDefinedTwo(Prop(Prop(transition, key), "repeatReverse"), Prop(transition, "repeatReverse"), Bool(true));
  }

  /** Without a transition: identity, empty config, no repeat, reverse true. */
  lemma NoTransitionIsIdentity(key: string, transition: Value)
    requires !Truthy(transition)
    ensures ConfigFor(key, transition) ==
      AnimationConfigResult(NoAnimation, [], SystemReduceMotion, Bool(true), Num(0.0), false)
  {
  }

  lemma AllowedKeysDistinct(a: Animation)
    ensures forall i, j :: 0 <= i < j < |AllowedKeys(a)| ==> AllowedKeys(a)[i] != AllowedKeys(a)[j]
  {
    match a
    case WithSpring => SpringKeysDistinct();
    case _ =>
  }

  lemma SpringKeysDistinct()
    ensures forall i, j :: 0 <= i < j < |SpringConfigKeys| ==> SpringConfigKeys[i] != SpringConfigKeys[j]
  {
  }

  /** The config holds only keys the chosen factory accepts, each at most
      once; a key's value is the per-key override when that is neither null
      nor undefined, else the root value, and keys whose value is undefined
      are left out. */
  lemma ConfigFiltering(key: string, transition: Value, k: string)
    ensures var r := ConfigFor(key, transition);
            var overrides := Prop(transition, key);
            && DistinctKeys(r.config)
            && KeySet(r.config) <= set x | x in AllowedKeys(r.animation)
            && Lookup(r.config, k) ==
                 if Truthy(transition) && k in AllowedKeys(r.animation) && ConfigValue(k, overrides, transition) != Undefined
                 then Some(if !IsNullish(Prop(overrides, k)) then Prop(overrides, k) else Prop(transition, k))
                 else None
  {
    var r := ConfigFor(key, transition);
    if Truthy(transition) {
      var keys := AllowedKeys(r.animation);
      AllowedKeysDistinct(r.animation);
      FilterConfigContents(keys, Prop(transition, key), transition, k);
    }
  }

  /** `animationConfig`, statement by statement. */
  method ComputeAnimationConfig(key: string, transition: Value) returns (r: AnimationConfigResult)
    ensures r == ConfigFor(key, transition)
  {
    var animation := NoAnimation;
    var config: Record<Value> := [];
    var reduceMotion := SystemReduceMotion;
    var repeatCount: Value;
    var repeatReverse: Value;
    if Truthy(transition) {
      var overrides := Prop(transition, key);
      var transitionType := Coalesce(Prop(overrides, "type"), Coalesce(Prop(transition, "type"), DefaultType(key)));
      var loop := Coalesce(Prop(overrides, "loop"), Prop(transition, "loop"));
      repeatCount :=
        if IsNullish(loop) then Coalesce(Prop(overrides, "repeat"), Coalesce(Prop(transition, "repeat"), Num(0.0)))
        else if Truthy(loop) then Num(-1.0) else Num(0.0);
      repeatReverse := Coalesce(Prop(overrides, "repeatReverse"), Coalesce(Prop(transition, "repeatReverse"), Bool(true)));
      var configKeys: seq<string> := [];
      if transitionType == Str("timing") {
        animation := WithTiming;
        configKeys := TimingConfigKeys;
      } else if transitionType == Str("spring") {
        animation := WithSpring;
        configKeys := SpringConfigKeys;
      } else if transitionType == Str("decay") {
        animation := WithDecay;
        configKeys := DecayConfigKeys;
      } else {
        repeatCount := Num(0.0);
      }
      config := CollectConfig(configKeys, overrides, transition);
      if animation != NoAnimation {
        reduceMotion := Coalesce(Prop(transition, "reduceMotion"), Coalesce(Prop(overrides, "reduceMotion"), reduceMotion));
      }
    } else {
      repeatCount := Num(0.0);
      repeatReverse := Bool(true);
    }
    r := AnimationConfigResult(animation, config, reduceMotion, repeatReverse, repeatCount, Truthy(repeatCount));
  }

  /** The loop over the factory's allowed keys. */
  method CollectConfig(configKeys: seq<string>, overrides: Value, transition: Value) returns (config: Record<Value>)
    ensures config == FilterConfig(configKeys, overrides, transition)
  {
    config := [];
    var i := 0;
    while i < |configKeys|
      invariant 0 <= i <= |configKeys|
      invariant config == FilterConfig(configKeys[..i], overrides, transition)
    {
      var configKey := configKeys[i];
      var configValue := Coalesce(Prop(overrides, configKey), Prop(transition, configKey));
      if configValue != Undefined {
        config := config + [Entry(configKey, configValue)];
      }
      assert configKeys[..i + 1][..i] == configKeys[..i];
      i := i + 1;
    }
    assert configKeys[..i] == configKeys;
  }

  /** The result of `animationDelay(key, transition, defaultDelay)`. */
  function AnimationDelay(key: string, transition: Value, defaultDelay: Value): (delayMs: Value)
    ensures delayMs == FirstDefined([Prop(Prop(transition, key), "delay"), Prop(transition, "delay")], defaultDelay)
  {
    if !IsNullish(Prop(Prop(transition, key), "delay")) then Prop(Prop(transition, key), "delay")
    else if !IsNullish(Prop(transition, "delay")) then Prop(transition, "delay")
    else
      FirstDefinedTwo(Prop(Prop(transition, key), "delay"), Prop(transition, "delay"), defaultDelay);
      defaultDelay
  }
}
