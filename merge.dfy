/** The inputs of one style computation and the precedence rules that turn
    the `animate`, `state`, `from` and `exit` styles into one merged style
    and the transition props into one transition. */
module StyleMerge {
  import opened Records
  import opened JsValues
  import opened StyleKeys

  /** The props `useMotify` receives, plus what its hooks supply: presence,
      the presence context's `initial`, and what the `exit` and
      `exitTransition` functions return for the presence context's `custom`. */
  datatype Props = Props(
    animate: Value,
    from: Value,
    transition: Value,
    exitTransition: Value,
    delay: Value,
    state: Value,
    stylePriority: Value,
    onDidAnimate: Value,
    exit: Value,
    animateInitialState: Value,
    isPresent: bool,
    presenceInitial: Value,
    exitForCustom: Value,
    exitTransitionForCustom: Value)

  /** Destructuring defaults: `from = false`, `stylePriority = 'animate'`,
      `animateInitialState = false`. */
  function FromProp(p: Props): Value { if p.from == Undefined then Bool(false) else p.from }
  function StylePriority(p: Props): Value { if p.stylePriority == Undefined then Str("animate") else p.stylePriority }
  function AnimateInitialState(p: Props): Value
  {
    if p.animateInitialState == Undefined then Bool(false) else p.animateInitialState
  }

  /** An exit style is declared: a function, or an object with at least one key. */
  predicate HasExitStyle(p: Props)
  {
    p.exit.Fn? || (IsObjectType(p.exit) && Truthy(p.exit) && |FieldsOf(p.exit)| > 0)
  }

  predicate IsExiting(p: Props)
  {
    !p.isPresent && HasExitStyle(p)
  }

  predicate DisableInitialAnimation(p: Props)
  {
    p.presenceInitial == Bool(false) && !Truthy(AnimateInitialState(p))
  }

  /** The `animate` prop, unwrapped when it is a shared value. */
  function AnimateStyle(p: Props): Value
  {
    if Truthy(p.animate) && HasKey(p.animate, "value") then Or(Prop(p.animate, "value"), EmptyObject)
    else Or(p.animate, EmptyObject)
  }

  /** The current value of the `state` prop's shared value. */
  function VariantStyle(p: Props): Value
  {
    Or(Prop(Prop(p.state, "__state"), "value"), EmptyObject)
  }

  function InitialStyle(p: Props): Value
  {
    Or(FromProp(p), EmptyObject)
  }

  /** The exit style, after calling it when it is a function. */
  function ExitStyle(p: Props): Value
  {
    var e := Or(p.exit, EmptyObject);
    if e.Fn? then p.exitForCustom else e
  }

  /** First paint shows the `from` style verbatim. */
  predicate FromVerbatim(p: Props, isMounted: bool)
  {
    !isMounted && !DisableInitialAnimation(p) && |FieldsOf(InitialStyle(p))| > 0
  }

  predicate ExitReplaces(p: Props)
  {
    IsExiting(p) && Truthy(ExitStyle(p))
  }

  /** The `animate` and `state` styles combined by `stylePriority`. */
  function PriorityMerge(p: Props): Record<Value>
  {
    if StylePriority(p) == Str("state") then Spread(AnimateStyle(p), VariantStyle(p))
    else Spread(VariantStyle(p), AnimateStyle(p))
  }

  /** `mergedStyles` once precedence is applied. */
  function MergedStyles(p: Props, isMounted: bool): Record<Value>
  {
    var merged := PriorityMerge(p);
    var withFrom :=
      if FromVerbatim(p, isMounted) then FieldsOf(InitialStyle(p))
      else Spread(InitialStyle(p), Obj(merged));
    if ExitReplaces(p) then Assign([], FieldsOf(ExitStyle(p))) else withFrom
  }

  /** With `stylePriority: 'state'` a key the state style holds takes the
      state's value, otherwise the animate style's value wins; keys that
      neither holds fall back to the `from` style. This is the merged style
      whenever the component is not exiting and first paint is over or does
      not apply. */
  lemma {:induction false} PriorityPrecedence(p: Props, isMounted: bool, k: string)
    requires DistinctKeys(FieldsOf(AnimateStyle(p))) && DistinctKeys(FieldsOf(VariantStyle(p)))
    requires DistinctKeys(FieldsOf(InitialStyle(p)))
    requires !FromVerbatim(p, isMounted) && !ExitReplaces(p)
    ensures var m := Obj(MergedStyles(p, isMounted));
            var winner := if StylePriority(p) == Str("state") then VariantStyle(p) else AnimateStyle(p);
            var loser := if StylePriority(p) == Str("state") then AnimateStyle(p) else VariantStyle(p);
            && (HasKey(winner, k) ==> Prop(m, k) == Prop(winner, k))
            && (!HasKey(winner, k) && HasKey(loser, k) ==> Prop(m, k) == Prop(loser, k))
            && (!HasKey(winner, k) && !HasKey(loser, k) ==> Prop(m, k) == Prop(InitialStyle(p), k))
            && (HasKey(m, k) <==> HasKey(winner, k) || HasKey(loser, k) || HasKey(InitialStyle(p), k))
  {
    var a, v := AnimateStyle(p), VariantStyle(p);
    SpreadLookup(a, v, k);
    SpreadLookup(v, a, k);
    var merged := PriorityMerge(p);
    AssignCopy(FieldsOf(a));
    AssignCopy(FieldsOf(v));
    AssignLookup(Assign([], FieldsOf(a)), FieldsOf(v));
    AssignLookup(Assign([], FieldsOf(v)), FieldsOf(a));
    assert DistinctKeys(merged) by {
      AssignDistinct(Assign([], FieldsOf(a)), FieldsOf(v));
      AssignDistinct(Assign([], FieldsOf(v)), FieldsOf(a));
    }
    SpreadLookup(InitialStyle(p), Obj(merged), k);
  }

  /** On first paint (not mounted, initial animation not disabled, non-empty
      `from`) the merged style is the `from` style verbatim; the exit style
      still replaces it when exiting. */
  lemma FromOnFirstPaint(p: Props, isMounted: bool)
    ensures FromVerbatim(p, isMounted) && !ExitReplaces(p) ==> MergedStyles(p, isMounted) == FieldsOf(InitialStyle(p))
    ensures !FromVerbatim(p, isMounted) && !ExitReplaces(p) ==>
              MergedStyles(p, isMounted) == Spread(InitialStyle(p), Obj(PriorityMerge(p)))
  {
  }

  /** When exiting with an exit style, the merged style is an exact copy of
      the exit style, whatever `animate`, `state` and `from` hold. */
  lemma ExitStyleReplacesAll(p: Props, isMounted: bool)
    requires ExitReplaces(p) && DistinctKeys(FieldsOf(ExitStyle(p)))
    ensures MergedStyles(p, isMounted) == FieldsOf(ExitStyle(p))
  {
    AssignCopy(FieldsOf(ExitStyle(p)));
  }

  /** The transition prop, unwrapped when it is a shared value, with the
      state's embedded transition assigned over it, and the exit transition
      assigned over both while exiting. Both merges are shallow: a per-key
      entry of the later source replaces the whole per-key entry. */
  function ResolvedTransition(p: Props): Value
  {
    var t0 := if Truthy(p.transition) && HasKey(p.transition, "value") then Prop(p.transition, "value") else p.transition;
    var stateTransition := Prop(VariantStyle(p), "transition");
    var t1 := if Truthy(stateTransition) then Obj(Spread(t0, stateTransition)) else t0;
    if IsExiting(p) && Truthy(p.exitTransition) then Obj(Spread(t1, ExitTransition(p))) else t1
  }

  /** The exit transition prop: a shared value's content, a function's
      result for `custom`, or the prop itself. */
  function ExitTransition(p: Props): Value
  {
    var e := p.exitTransition;
    if Truthy(e) && HasKey(e, "value") then Prop(e, "value")
    else if e.Fn? then p.exitTransitionForCustom
    else e
  }

  /** Transition layering: while exiting with an exit transition its keys
      win; otherwise a key of the state's embedded transition overrides the
      same key of the transition prop, and the prop fills in the rest. */
  lemma TransitionLayering(p: Props, k: string)
    requires var t0 := if Truthy(p.transition) && HasKey(p.transition, "value") then Prop(p.transition, "value") else p.transition;
             DistinctKeys(FieldsOf(t0)) && DistinctKeys(FieldsOf(Prop(VariantStyle(p), "transition")))
    requires DistinctKeys(FieldsOf(ExitTransition(p)))
    ensures var t0 := if Truthy(p.transition) && HasKey(p.transition, "value") then Prop(p.transition, "value") else p.transition;
            var st := Prop(VariantStyle(p), "transition");
            var exiting := IsExiting(p) && Truthy(p.exitTransition);
            var t := ResolvedTransition(p);
            && (exiting && HasKey(ExitTransition(p), k) ==> Prop(t, k) == Prop(ExitTransition(p), k))
            && (!(exiting && HasKey(ExitTransition(p), k)) && Truthy(st) && HasKey(st, k) ==> Prop(t, k) == Prop(st, k))
            && (!(exiting && HasKey(ExitTransition(p), k)) && !(Truthy(st) && HasKey(st, k)) ==> Prop(t, k) == Prop(t0, k))
  {
    var t0 := if Truthy(p.transition) && HasKey(p.transition, "value") then Prop(p.transition, "value") else p.transition;
    var st := Prop(VariantStyle(p), "transition");
    SpreadLookup(t0, st, k);
    var t1 := if Truthy(st) then Obj(Spread(t0, st)) else t0;
    if Truthy(st) {
      AssignCopy(FieldsOf(t0));
      AssignDistinct(Assign([], FieldsOf(t0)), FieldsOf(st));
    }
    SpreadLookup(t1, ExitTransition(p), k);
  }

  /** `exitingStyleProps` as first filled: every exit-style key that is not
      a disabled one, marked pending. */
  function ExitingStyleProps(p: Props): map<string, bool>
  {
    map k | k in KeySet(FieldsOf(Or(ExitStyle(p), EmptyObject))) && k !in DisabledExitStyles :: true
  }
}
