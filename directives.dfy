/** The animation engine's directive constructors, left uninterpreted: the
    style computation only builds them, and their physics belong to the
    engine. */
module Directives {
  import opened Records
  import opened JsValues

  /** The animation factory chosen for a key; `NoAnimation` is the identity
      factory `(value) => value`, used when there is no transition and when
      the transition's type is none of `timing`, `spring` and `decay`. */
  datatype Animation = WithTiming | WithSpring | WithDecay | NoAnimation

  /** The completion callback built once per style key: it remembers the key,
      the value the key was asked to animate to and its inline handler. */
  datatype Callback = Callback(key: string, attemptedValue: Value, inlineOnDidAnimate: Value)

  /** What the engine calls when an animation ends: the key's callback
      directly, or the wrapper a sequence step puts around it. */
  datatype Completion =
    | OnKey(cb: Callback)
    | OnStep(cb: Callback, stepValue: Value, stepOnDidAnimate: Value)

  datatype Directive =
    | Animated(animation: Animation, value: Value, config: Record<Value>, completion: Completion)
    | Plain(value: Value)
    | WithDelay(delayMs: Value, inner: Directive, reduceMotion: Value)
    | WithRepeat(inner: Directive, count: Value, reverse: Value, callback: Option<Completion>, reduceMotion: Value)
    | WithSequence(steps: seq<Directive>)

  /** `animation(value, config, callback)` */
  function Apply(animation: Animation, value: Value, config: Record<Value>, c: Completion): (d: Directive)
    ensures animation == NoAnimation <==> d == Plain(value)
    ensures animation != NoAnimation ==> d.Animated? && d.animation == animation && d.value == value
  {
    if animation == NoAnimation then Plain(value) else Animated(animation, value, config, c)
  }

  /** `delayMs != null ? withDelay(delayMs, d, reduceMotion) : d` */
  function Delayed(delayMs: Value, d: Directive, reduceMotion: Value): (r: Directive)
    ensures r.WithDelay? || r == d
  {
    if !IsNullish(delayMs) then WithDelay(delayMs, d, reduceMotion) else d
  }

  /** The completion callbacks a directive hands to the engine. */
  function Completions(d: Directive): set<Completion>
  {
    match d
    case Animated(_, _, _, c) => {c}
    case Plain(_) => {}
    case WithDelay(_, inner, _) => Completions(inner)
    case WithRepeat(inner, _, _, cb, _) =>
      Completions(inner) + (if cb.Some? then {cb.value} else {})
    case WithSequence(steps) => StepsCompletions(steps)
  }

  function StepsCompletions(steps: seq<Directive>): set<Completion>
  {
    if steps == [] then {} else Completions(steps[0]) + StepsCompletions(steps[1..])
  }
}
