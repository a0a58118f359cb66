# moti's `useMotify` style computation, modelled in Dafny

moti is a declarative animation library for React Native. Its core is the
hook `useMotify` (`packages/moti/src/core/use-motify.ts`). The hook turns one
animated component's props (`animate`, `from`, `exit`, `state`,
`transition`, `exitTransition`, `delay`, `stylePriority`, `onDidAnimate`,
`animateInitialState`) and the component's presence status into one animated
style. Each of that style's leaves is an animation directive for the
Reanimated engine: a `withTiming`/`withSpring`/`withDecay` call, or one of
those wrapped in `withDelay`, `withSequence` or `withRepeat`. The hook also
sets up the completion callbacks that tell the presence system when the
component may unmount.

The model works in six steps.

- **JavaScript values** (`JsValues`, `Records`). A value is a `Value`
  datatype: undefined, null, booleans, numbers, strings, arrays, objects and
  functions. An object is an ordered record of key/value entries, since
  `Object.keys` and `Object.assign` preserve insertion order.
  `Assign`, `Put` and `Spread` model `Object.assign` and property writes.
  `Truthy`, `IsNullish`, `Coalesce` (`??`) and `Or` (`||`) model
  JavaScript's own rules.
- **Engine directives** (`Directives`). The Reanimated factories have no
  body here. A directive is a tree that records which factory was applied to
  which value, config and completion callback. `Apply` mirrors the
  `animation` function that `animationConfig` returns. With no transition,
  that function is the identity and registers no callback.
- **`animationConfig` and `animationDelay`** (`AnimationConfig`). These take
  a key's transition settings and produce its factory, repeat settings and
  filtered config.
- **`getSequenceArray`** (`Sequences`). This turns an array value into a
  chain of directives, one for each step that is kept.
- **The precedence merge** (`StyleMerge`). This resolves `animate`, `state`,
  `from` and `exit` into `mergedStyles`, and layers the transition props into
  one transition.
- **The per-key emission loop** (`Emission`, with its properties in
  `EmissionProperties`). Each key of `mergedStyles` becomes an output style
  entry or transform entries. What a callback does when it fires
  (`onDidAnimate`, inline callbacks, the exit bookkeeping and the
  unmount permission) is the class `ExitGate.Motify`.

Each loop of the source is a method with a `for` or `while` loop and its invariants. Each method is
proved equal to a specification function, and the properties are proved
about that function as lemmas. `Scenarios` works through concrete props:
style priority, a three-step sequence with and without `loop`, an exit,
transform order, a transform delay carrying over to later entries, and a
sequence object step that picks its own animation type.

Some behaviours of the code are easy to misread, and the model keeps them
as written.

- A transition embedded in the `state` value is assigned *over* the
  `transition` prop (use-motify.ts:469-471). The state's keys therefore win,
  not the prop's.
- Unmount permission (`safeToUnmount`) is requested whenever an exiting
  key's callback fires and no exit key is still pending (:524-532). That
  happens on every such completion, so a later completion of an
  already-cleared key requests it again.
- A `transform` entry's per-entry delay reassigns the shared `delayMs`
  (:582-586). Every later entry in the same `transform` array inherits it.
- An object step `{value, ...}` in a sequence calls `animationConfig` again
  on its own keys (:292-305). Its animation type therefore falls back to the
  key's default, not to the surrounding transition's `type`.
- `isMounted` becomes true only when `from` is truthy (:761-764).
- With an exit style and no transition, or a `type` naming no factory, a
  scalar exit value is applied by the identity and registers no completion.
  Its key stays pending, so no completion requests `safeToUnmount`, and the
  effect does not request it either, because `hasExitStyle` holds
  (:765-767).

## Model

| member | source | states |
|---|---|---|
| StyleKeys.KeyClassesDisjoint | packages/moti/src/core/use-motify.ts:52-105 | No key is both a color key and a transform key, and `opacity` is neither. This settles which default animation type applies. |
| AnimationConfig.AnimationDelay | packages/moti/src/core/use-motify.ts:107-126 | The delay is the key's own non-nullish `delay`. Failing that it is the root `delay`, and failing that the hook's `delay` prop. |
| AnimationConfig.FirstDefinedPicks | packages/moti/src/core/use-motify.ts:117-121 | The first non-nullish candidate wins. When every candidate is nullish, the fallback wins. |
| AnimationConfig.ComputeAnimationConfig | packages/moti/src/core/use-motify.ts:168-260 | The method's loop computes exactly the result of the specification `ConfigFor`. |
| AnimationConfig.CollectConfig | packages/moti/src/core/use-motify.ts:233-238 | The config-copy loop returns exactly the filtered record `FilterConfig` of the allowed keys. |
| AnimationConfig.TypePrecedence | packages/moti/src/core/use-motify.ts:185-188 | The key's own `type` wins, then the root `type`. Otherwise the default is timing for opacity and colors and spring for every other key. |
| AnimationConfig.RepeatResolution | packages/moti/src/core/use-motify.ts:190-193 | A non-nullish `loop` means repeat forever (count -1) or not at all (count 0). Otherwise `repeat` applies, the per-key value winning, with a default of 0. `shouldRepeat` holds iff the count is truthy. Whenever the factory is the identity, the count is 0 and `shouldRepeat` is false. |
| AnimationConfig.RepeatReverseDefault | packages/moti/src/core/use-motify.ts:195-196 | `repeatReverse` is the per-key value, then the root value, and defaults to true. |
| AnimationConfig.ConfigFiltering | packages/moti/src/core/use-motify.ts:198-238 | The config holds only keys allowed for the chosen factory, each once. Each key's value is the per-key override when that is non-nullish, else the root value. Keys whose value is undefined are left out. |
| AnimationConfig.FilterConfigContents | packages/moti/src/core/use-motify.ts:233-238 | The filtered config has distinct keys, holds only listed keys, and holds a listed key exactly when its value is not undefined. |
| AnimationConfig.NoTransitionIsIdentity | packages/moti/src/core/use-motify.ts:247-259 | Without a transition, the animation is the identity with an empty config, system reduce-motion, `repeatReverse` true and no repeat. |
| AnimationConfig.AllowedKeys | packages/moti/src/core/use-motify.ts:200-231 | Only the identity factory allows no config keys. That factory is chosen when there is no transition, and when the transition's type is none of `timing`, `spring` and `decay`. |
| Sequences.KeepStepCases | packages/moti/src/core/use-motify.ts:281-284 | A step is dropped exactly when it is nullish or `false`, or when it is an object-typed value whose `value` is nullish or `false`. |
| Sequences.GetSequenceArray | packages/moti/src/core/use-motify.ts:262-341 | The loop returns exactly the specification chain `SequenceArray`. |
| Sequences.SequenceLink | packages/moti/src/core/use-motify.ts:286-336 | One kept step becomes exactly the link `StepDirective` describes. |
| Sequences.OneLinkPerKeptStep | packages/moti/src/core/use-motify.ts:280-339 | The chain has one link per kept step, in step order, and link i is built from kept step i. |
| Sequences.StepLinkShape | packages/moti/src/core/use-motify.ts:286-336 | A link is wrapped in `withDelay` iff the step's delay (its own, else the key's) is non-nullish. A scalar step uses the key's factory and config. An object step uses the factory its own keys select, with its config assigned over the key's config and its own `onDidAnimate`. |
| Sequences.KeptSteps | packages/moti/src/core/use-motify.ts:280-284 | A value is among the kept steps iff it is a step of the array that passes the keep test. |
| Sequences.KeptStepsConcat | packages/moti/src/core/use-motify.ts:280-284 | The kept steps of two arrays joined are the kept steps of the first followed by those of the second, so filtering keeps the input's order. |
| Directives.Apply | packages/moti/src/core/use-motify.ts:253 | Applying the identity factory yields the bare value. Every other factory yields an animation directive for that value. |
| JsValues.SpreadLookup | packages/moti/src/core/use-motify.ts:422-438 | For `Object.assign({}, a, b)`, a key of `b` takes `b`'s value and any other key keeps `a`'s. The result's keys are the union of both. |
| Records.AssignLookup | packages/moti/src/core/use-motify.ts:470 | `Object.assign` onto a record gives the union of keys, with the later source's values winning. |
| Records.Put | packages/moti/src/core/use-motify.ts:715-731 | A property write sets the key, leaves every other key alone, and appends a new key at the end. |
| StyleMerge.PriorityPrecedence | packages/moti/src/core/use-motify.ts:420-435 | Under `stylePriority: 'state'` a key of the state style takes the state's value. Otherwise the animate style wins. Keys neither holds fall back to `from`, and no other keys appear. |
| StyleMerge.FromOnFirstPaint | packages/moti/src/core/use-motify.ts:427-435 | On first paint with a non-empty `from` and initial animation enabled, the merged style is `from` verbatim. Otherwise `from` sits under the priority merge. |
| StyleMerge.ExitStyleReplacesAll | packages/moti/src/core/use-motify.ts:437-439 | When exiting with an exit style, the merged style is exactly the exit style. |
| StyleMerge.TransitionLayering | packages/moti/src/core/use-motify.ts:460-484 | While exiting, an exit-transition key wins. Otherwise a key of the state's embedded transition wins over the same key of the transition prop, and the prop supplies the rest. |
| Emission.ComputeStyle | packages/moti/src/core/use-motify.ts:394-739 | The whole computation returns the specification style `AnimatedStyleFor` and the pending-exit map `ExitingStyleProps`. |
| Emission.MarkExiting | packages/moti/src/core/use-motify.ts:441-458 | Every exit-style key outside the disabled set is marked pending, and nothing else is. |
| Emission.EmitKeys | packages/moti/src/core/use-motify.ts:487-733 | The per-key loop returns the styles and transform entries of the specification fold `EmitAll`. |
| Emission.EmitStyleKey | packages/moti/src/core/use-motify.ts:487-542 | One key's output is exactly `EmitKey`: inline callbacks unwrapped, the key's config and delay resolved, and nullish or `false` values skipped. |
| Emission.EmitKeptValue | packages/moti/src/core/use-motify.ts:544-732 | A kept value's output is exactly `EmitValue`. That covers the transform array, a sequence (repeated as one unit), a transform key, a nested shadow object and a scalar. |
| Emission.EmitTransformList | packages/moti/src/core/use-motify.ts:550-629 | The transform loop returns the entries and the carried delay of the fold `TransformFold`. |
| Emission.EmitTransformEntry | packages/moti/src/core/use-motify.ts:551-628 | One transform entry pushes exactly what `TransformStep` says and updates the carried delay as it says. |
| Emission.EmitTransformSequence | packages/moti/src/core/use-motify.ts:557-580 | A transform entry whose value is an array pushes its sequence, repeated when configured, or nothing when no step is kept. |
| Emission.EmitTransformValue | packages/moti/src/core/use-motify.ts:581-628 | A scalar transform entry takes its own delay when it has one, and gets its own factory, config and repeat. |
| Emission.EmitNested | packages/moti/src/core/use-motify.ts:689-714 | The loop over a nested object (such as `shadowOffset`) returns exactly `NestedLeaves` of its fields. |
| EmissionProperties.NestedLeavesEntries | packages/moti/src/core/use-motify.ts:689-714 | The nested output has the input's keys, in the input's order, and each value is the leaf directive for the input's value under the key's config, delay and callback. |
| EmissionProperties.NestedLeavesLookup | packages/moti/src/core/use-motify.ts:689-714 | Reading a key of the nested output gives the leaf for that key's input value. A key the input lacks is absent. |
| EmissionProperties.FinalEntriesPerKey | packages/moti/src/core/use-motify.ts:487-733 | The output style has distinct keys, all from the merged style. Each merged key maps to exactly what that key emits on its own: later keys never disturb earlier ones. |
| EmissionProperties.EmitAllIsPutEach | packages/moti/src/core/use-motify.ts:487-733 | The fold's styles are the per-key outputs written in merged-key order. |
| EmissionProperties.TransformEntriesInOrder | packages/moti/src/core/use-motify.ts:550-629 | With no sequence entries, the transform array yields one entry per item, in item order, each under its item's key. |
| EmissionProperties.TransformsFollowKeyOrder | packages/moti/src/core/use-motify.ts:487-733 | The output `transform` list is the concatenation of each merged key's transform entries in key order. |
| EmissionProperties.TransformsSplit | packages/moti/src/core/use-motify.ts:487-733 | The transform entries of two consecutive runs of keys are the entries of the first run followed by those of the second. |
| EmissionProperties.EmptyTransformIsUndefined | packages/moti/src/core/use-motify.ts:735-737 | `transform` is set to `undefined` exactly when no entry was pushed. Otherwise it is the non-empty list of pushed entries. |
| EmissionProperties.DroppedKeyEmitsNothing | packages/moti/src/core/use-motify.ts:537-542 | A nullish or `false` value emits neither a style nor a transform entry. |
| EmissionProperties.InvalidTransformSkipped | packages/moti/src/core/use-motify.ts:544-548 | A `transform` value that is not an array emits nothing. |
| EmissionProperties.TransformStepPushes | packages/moti/src/core/use-motify.ts:581-628 | A non-sequence transform entry always pushes one entry under its own key. |
| EmissionProperties.ScalarCompletion | packages/moti/src/core/use-motify.ts:715-731 | A scalar value registers the key's callback as its one completion. With no transition, or a type naming no factory, the identity factory applies and nothing is registered. |
| ExitGate.Clear | packages/moti/src/core/use-motify.ts:524-525 | While exiting, a completion removes its key from the pending set and nothing else. When not exiting, the map is untouched. |
| ExitGate.KeyCallbackEvents | packages/moti/src/core/use-motify.ts:505-533 | A key callback calls `safeToUnmount` iff the component is exiting and no key is still pending afterwards. |
| ExitGate.Motify.constructor | packages/moti/src/core/use-motify.ts:363 | A new component is not mounted, has no pending exit keys and has recorded no events. |
| ExitGate.Motify.Render | packages/moti/src/core/use-motify.ts:394-458 | A render stores the style computed from the props with the mount flag as it was, the fresh pending-exit map and the exiting flag. It leaves the mount flag and the events alone. |
| ExitGate.Motify.KeyCallback | packages/moti/src/core/use-motify.ts:505-533 | A key callback clears its key (when exiting) and records `onDidAnimate`, the inline callback and `safeToUnmount`, in the source's order. |
| ExitGate.Motify.Complete | packages/moti/src/core/use-motify.ts:319-330 | A completion runs its key's callback. For a sequence step it also runs the step's own `onDidAnimate`, passing the attempted step value. |
| ExitGate.Motify.AllowUnmountIfMissingExit | packages/moti/src/core/use-motify.ts:759-770 | The effect sets the mount flag when `from` is truthy. It asks for unmount at once when the component is not present and has no exit style. |
| ExitGate.ClearAllContents | packages/moti/src/core/use-motify.ts:524-525 | After a run of completions while exiting, every completed key is false and the others keep their state. |
| ExitGate.PendingAfter | packages/moti/src/core/use-motify.ts:524-528 | The keys still pending are the initially pending keys minus the completed ones. |
| ExitGate.CompletionOrderIrrelevant | packages/moti/src/core/use-motify.ts:524-528 | The state after a run of completions depends only on which keys completed, not on their order. |
| ExitGate.UnmountGrantedWhenAllComplete | packages/moti/src/core/use-motify.ts:524-532 | The i-th completion asks for unmount iff every initially pending key is among the first i+1 completions. |
| ExitGate.CompleteBoth | packages/moti/src/core/use-motify.ts:524-532 | On an exiting component with two pending keys, the first key callback records no unmount request and the second does; nothing stays pending. |
| ExitGate.TwoKeysEitherOrder | packages/moti/src/core/use-motify.ts:524-532 | With two pending keys, the first completion leaves the other pending, and both orders end in the same empty state. |
| ExitGate.InitialPending | packages/moti/src/core/use-motify.ts:441-458 | The initially pending keys are exactly the exit style's keys outside the disabled set. |
| ExitGate.NoExitStyleUnmountsAtOnce | packages/moti/src/core/use-motify.ts:387-392 | With no exit style the component is never exiting, so no completion asks for unmount. The effect asks instead (:765-767). |
| Scenarios.StylePriorityExample | packages/moti/src/core/use-motify.ts:420-425 | `animate={opacity:1}` over a state of `{opacity:0.5}` merges to 1 by default and to 0.5 under `stylePriority: 'state'`. |
| Scenarios.SequenceExample | packages/moti/src/core/use-motify.ts:631-664 | Under `transition={}`, `opacity:[0,1,0]` becomes one three-link timing sequence. Under `transition={loop: true}` the whole chain repeats forever with reversal. |
| Scenarios.ExitExample | packages/moti/src/core/use-motify.ts:437-458 | When exiting with `exit={opacity:0}`, the merged style is `{opacity:0}` and opacity is the one pending key. |
| Scenarios.TransformOrderExample | packages/moti/src/core/use-motify.ts:550-629 | Under `transition={}`, `transform:[{scale:2},{rotate:'45deg'}]` yields two spring entries in the same order, and no style keys. |
| Scenarios.TransformDelayCarriesOver | packages/moti/src/core/use-motify.ts:582-586 | With `transition={rotate:{delay:100}}`, the `scale` entry after `rotate` is delayed by 100 too. |
| Scenarios.ObjectStepOwnType | packages/moti/src/core/use-motify.ts:292-307 | Under a root `type: 'spring'`, the object step `{value:1}` of opacity is timed, while the scalar step before it is a spring. |

## Left out

- The Reanimated engine is left out: interpolation, physics, frame timing and reduce-motion itself. Its factories are uninterpreted directive constructors, and a directive records only which factory and arguments were used.
- Threads and `runOnJS` are left out. Code that runs on the UI thread is modelled as an event appended to `Motify.events`, in call order.
- React is left out: hooks, dependency lists, memoization and re-render scheduling. `useSharedValue(false)` is the field `isMounted`. The hook inputs (`usePresence`, the presence context's `initial` and `custom`) are fields of `Props`. What the `exit` and `exitTransition` functions return for `custom` is given as an input.
- Calls from the engine into superseded renders are not modelled. `Motify` keeps one pending-exit map, that of the latest render. In JavaScript, each render's callbacks close over that render's own `exitingStyleProps` object.
- The case where no `usePresenceValue` is passed is not modelled. `isPresent` would then be undefined and every exit style would look exiting. `isPresent` is a boolean here because `packages/moti/src/core/motify.tsx` always passes `usePresence()`.
- Numbers are mathematical reals with no NaN, no infinities and no negative zero. `typeof x === 'number'` is the `Num` case.
- Arrays and strings have no keys as style objects. In JavaScript, `Object.keys` of an array or string lists its indices, so such a value used as `exit` or `from` would count as non-empty there.
- Prototype-inherited properties, getters, `Symbol` keys and key order for integer-like keys are not modelled. JavaScript lists integer-like keys before others.
- The `TypeError` that `'value' in x` throws for a primitive `x` is not modelled. The model treats such an `in` test as false.
- `console.error` for an invalid `transform` value (:545-547) and the debug logging are left out. They are side effects with no effect on the style.
- The `packages/moti/src/core/motify.tsx` component wrapper and the rest of the library (components, skeleton, interactions) are not part of this model.
- Emission.TransformStep: a `null` or `undefined` entry of a `transform` array makes the source throw a `TypeError` from `Object.keys` (:551-553). The model does not throw there: it treats the entry as an object without keys and pushes an entry under the key `"undefined"`, as the source does for a number, boolean, function or empty-string entry. A non-empty string or non-empty array entry pushes under its first index `"0"` in the source (`Object.keys("45deg")[0]` is `"0"`), but under `"undefined"` in the model, because the model gives strings and arrays no keys.
- EmissionProperties.TransformEntriesInOrder: assumes no entry of the transform array is itself a sequence. A sequence entry may push nothing (when no step is kept), so the one-entry-per-item statement needs that assumption. `TransformStepPushes` covers each step of the general fold.
- EmissionProperties.ScalarCompletion: covers scalar values only. Sequence completions are `OnStep` callbacks, described by `Sequences.StepLinkShape`.
