/** Exit and unmount accounting: the completion callbacks clear keys of the
    render's `exitingStyleProps` record, and permission to unmount is
    granted once no key is pending, or at once on an exit without an exit
    style. Calls into JS (`runOnJS`) are recorded as events. */
module ExitGate {
  import opened Records
  import opened JsValues
  import opened StyleKeys
  import opened Directives
  import opened StyleMerge
  import opened Emission

  /** What the callbacks hand to the JS thread, in order. */
  datatype Event =
    | DidAnimate(key: string, completed: Value, value: Value, attemptedValue: Value, attemptedSequenceItemValue: Value)
    | InlineDidAnimate(handler: Value, completed: Value, value: Value, attemptedValue: Value)
    | StepDidAnimate(handler: Value, completed: Value, value: Value, attemptedSequenceItemValue: Value,
                     attemptedSequenceArray: Value)
    | SafeToUnmount

  /** The keys still marked as exiting. */
  function Pending(m: map<string, bool>): set<string>
  {
    set k | k in m && m[k]
  }

  /** `exitingStyleProps[key] = false` while exiting. */
  function Clear(m: map<string, bool>, key: string, isExiting: bool): (m': map<string, bool>)
    ensures isExiting ==> Pending(m') == Pending(m) - {key}
    ensures !isExiting ==> m' == m
  {
    if isExiting then m[key := false] else m
  }

  /** A JS default parameter: `completed = false` replaces only undefined. */
  function DefaultFalse(completed: Value): Value
  {
    if completed == Undefined then Bool(false) else completed
  }

  /** The events the key callback records, given the record after clearing. */
  function KeyCallbackEvents(cb: Callback, completed: Value, recentValue: Value, attemptedSequenceValue: Value,
                             onDidAnimate: Value, isExiting: bool, cleared: map<string, bool>): (es: seq<Event>)
    ensures SafeToUnmount in es <==> isExiting && Pending(cleared) == {}
  {
    (if Truthy(onDidAnimate) then [DidAnimate(cb.key, completed, recentValue, cb.attemptedValue, attemptedSequenceValue)] else [])
    + (if Truthy(cb.inlineOnDidAnimate) then [InlineDidAnimate(cb.inlineOnDidAnimate, completed, recentValue, cb.attemptedValue)] else [])
    + (if isExiting && Pending(cleared) == {} then [SafeToUnmount] else [])
  }

  /** The events one completion records: the key callback's, then, for a
      sequence step with its own handler, that handler's. */
  function CompletionEvents(c: Completion, completed: Value, recentValue: Value, onDidAnimate: Value,
                            isExiting: bool, cleared: map<string, bool>): seq<Event>
  {
    var done := DefaultFalse(completed);
    match c
    case OnKey(cb) => KeyCallbackEvents(cb, done, recentValue, Undefined, onDidAnimate, isExiting, cleared)
    case OnStep(cb, stepValue, stepOnDidAnimate) =>
      KeyCallbackEvents(cb, done, recentValue, stepValue, onDidAnimate, isExiting, cleared)
      + (if Truthy(stepOnDidAnimate) then [StepDidAnimate(stepOnDidAnimate, done, recentValue, stepValue, recentValue)] else [])
  }

  /** The key a completion clears. */
  function CompletionKey(c: Completion): string
  {
    c.cb.key
  }

  /** One mounted component: `isMounted`, the current render's exit record
      and what that render's callbacks closed over, and the event log. */
  class Motify {
    var isMounted: bool
    var exitingStyleProps: map<string, bool>
    var isExiting: bool
    var onDidAnimate: Value
    var style: AnimatedStyle
    var events: seq<Event>

    constructor()
      ensures !isMounted && exitingStyleProps == map[] && !isExiting && onDidAnimate == Undefined
      ensures style == AnimatedStyle([], None) && events == []
    {
      isMounted := false;
      exitingStyleProps := map[];
      isExiting := false;
      onDidAnimate := Undefined;
      style := AnimatedStyle([], None);
      events := [];
    }

    /** One run of the animated-style worklet for the given props. */
    method Render(p: Props)
      modifies this
      ensures style == AnimatedStyleFor(p, old(isMounted))
      ensures exitingStyleProps == ExitingStyleProps(p)
      ensures isExiting == IsExiting(p) && onDidAnimate == p.onDidAnimate
      ensures isMounted == old(isMounted) && events == old(events)
    {
      style, exitingStyleProps := ComputeStyle(p, isMounted);
      isExiting := IsExiting(p);
      onDidAnimate := p.onDidAnimate;
    }

    /** The engine reports the end of an animation to completion `c`. */
    method Complete(c: Completion, completed: Value, recentValue: Value)
      modifies this
      ensures exitingStyleProps == Clear(old(exitingStyleProps), CompletionKey(c), isExiting)
      ensures events == old(events) + CompletionEvents(c, completed, recentValue, onDidAnimate, isExiting, exitingStyleProps)
      ensures isMounted == old(isMounted) && style == old(style)
      ensures isExiting == old(isExiting) && onDidAnimate == old(onDidAnimate)
    {
      var done := if completed == Undefined then Bool(false) else completed;
      match c
      case OnKey(cb) =>
        KeyCallback(cb, done, recentValue, Undefined);
      case OnStep(cb, stepValue, stepOnDidAnimate) =>
        KeyCallback(cb, done, recentValue, stepValue);
        if Truthy(stepOnDidAnimate) {
          events := events + [StepDidAnimate(stepOnDidAnimate, done, recentValue, stepValue, recentValue)];
        }
    }

    /** The callback built for a style key, called with `completed` already
        defaulted. */
    method KeyCallback(cb: Callback, completed: Value, recentValue: Value, attemptedSequenceValue: Value)
      modifies this
      ensures exitingStyleProps == Clear(old(exitingStyleProps), cb.key, isExiting)
      ensures events == old(events) + KeyCallbackEvents(cb, completed, recentValue, attemptedSequenceValue,
                                                        onDidAnimate, isExiting, exitingStyleProps)
      ensures isMounted == old(isMounted) && style == old(style)
      ensures isExiting == old(isExiting) && onDidAnimate == old(onDidAnimate)
    {
      var logged := events;
      if Truthy(onDidAnimate) {
        logged := logged + [DidAnimate(cb.key, completed, recentValue, cb.attemptedValue, attemptedSequenceValue)];
      }
      if Truthy(cb.inlineOnDidAnimate) {
        logged := logged + [InlineDidAnimate(cb.inlineOnDidAnimate, completed, recentValue, cb.attemptedValue)];
      }
      if isExiting {
        exitingStyleProps := exitingStyleProps[cb.key := false];
        var areStylesExiting := exists k :: k in exitingStyleProps && exitingStyleProps[k];
        if !areStylesExiting {
          assert Pending(exitingStyleProps) == {};
          logged := logged + [SafeToUnmount];
        } else {
          var k :| k in exitingStyleProps && exitingStyleProps[k];
          assert k in Pending(exitingStyleProps);
        }
      }
      events := logged;
    }

    /** The effect that marks the component mounted when it has a `from`
      style and grants unmounting when there is nothing to animate out. */
    method AllowUnmountIfMissingExit(p: Props)
      modifies this
      ensures isMounted == (old(isMounted) || Truthy(FromProp(p)))
      ensures events == old(events) + (if !p.isPresent && !HasExitStyle(p) then [SafeToUnmount] else [])
      ensures exitingStyleProps == old(exitingStyleProps) && style == old(style)
      ensures isExiting == old(isExiting) && onDidAnimate == old(onDidAnimate)
    {
      if Truthy(FromProp(p)) && !isMounted {
        isMounted := true;
      }
      if !p.isPresent && !HasExitStyle(p) {
        events := events + [SafeToUnmount];
      }
    }
  }

  /** Two exiting keys completing one after the other: the first completion
      leaves the other key pending and does not grant unmounting, the second
      completion does. */
  method CompleteBoth(m: Motify, a: Callback, b: Callback, completed: Value, va: Value, vb: Value)
    requires m.isExiting && a.key != b.key && Pending(m.exitingStyleProps) == {a.key, b.key}
    modifies m
    ensures var after1 := Clear(old(m.exitingStyleProps), a.key, true);
            var es1 := KeyCallbackEvents(a, completed, va, Undefined, m.onDidAnimate, true, after1);
            var es2 := KeyCallbackEvents(b, completed, vb, Undefined, m.onDidAnimate, true, Clear(after1, b.key, true));
            && m.events == old(m.events) + es1 + es2
            && SafeToUnmount !in es1 && SafeToUnmount in es2
            && Pending(m.exitingStyleProps) == {}
  {
    m.KeyCallback(a, completed, va, Undefined);
    assert Pending(m.exitingStyleProps) == {b.key};
    m.KeyCallback(b, completed, vb, Undefined);
  }

  /** The keys whose completions have run. */
  function Completed(keys: seq<string>): set<string>
  {
    set x | x in keys
  }

  /** The record after the keys' completion callbacks ran, in order. */
  function ClearAll(m: map<string, bool>, keys: seq<string>, isExiting: bool): map<string, bool>
  {
    if keys == [] then m else Clear(ClearAll(m, keys[..|keys| - 1], isExiting), keys[|keys| - 1], isExiting)
  }

  /** While exiting, the record after any run of completions holds every
      original key and every completed key; completed keys are false and
      the rest keep their mark. It depends only on which keys completed,
      not on their order or repetitions. */
  lemma {:induction false} ClearAllContents(m: map<string, bool>, keys: seq<string>)
    ensures ClearAll(m, keys, true) == map k | k in m.Keys + Completed(keys) :: if k in keys then false else m[k]
  {
    if keys != [] {
      var init := keys[..|keys| - 1];
      ClearAllContents(m, init);
      assert forall x :: x in keys <==> x in init || x == keys[|keys| - 1] by {
        assert keys == init + [keys[|keys| - 1]];
      }
    }
  }

  /** Completions arriving in any order leave the same record. */
  lemma CompletionOrderIrrelevant(m: map<string, bool>, keys1: seq<string>, keys2: seq<string>)
    requires forall x :: x in keys1 <==> x in keys2
    ensures ClearAll(m, keys1, true) == ClearAll(m, keys2, true)
  {
    ClearAllContents(m, keys1);
    ClearAllContents(m, keys2);
    assert Completed(keys1) == Completed(keys2);
  }

  /** The pending keys are the initially pending ones that have not completed. */
  lemma PendingAfter(m: map<string, bool>, keys: seq<string>)
    ensures Pending(ClearAll(m, keys, true)) == Pending(m) - Completed(keys)
  {
    ClearAllContents(m, keys);
  }

  /** Completion number i (counting from 0) of an exiting render grants
      unmounting exactly when the completions up to and including it cover
      every initially pending key, whatever their order. */
  lemma UnmountGrantedWhenAllComplete(m: map<string, bool>, keys: seq<string>, i: nat, c: Completion,
                                      completed: Value, recentValue: Value, onDidAnimate: Value)
    requires i < |keys| && CompletionKey(c) == keys[i]
    ensures var before := ClearAll(m, keys[..i], true);
            var after := Clear(before, keys[i], true);
            && after == ClearAll(m, keys[..i + 1], true)
            && (SafeToUnmount in CompletionEvents(c, completed, recentValue, onDidAnimate, true, after)
                <==> Pending(m) <= Completed(keys[..i + 1]))
  {
    assert keys[..i + 1][..i] == keys[..i] && keys[..i + 1][i] == keys[i];
    PendingAfter(m, keys[..i + 1]);
    var after := ClearAll(m, keys[..i + 1], true);
    var es := CompletionEvents(c, completed, recentValue, onDidAnimate, true, after);
    var done := DefaultFalse(completed);
    assert Pending(after) == {} <==> Pending(m) <= Completed(keys[..i + 1]) by {
      var covered := Completed(keys[..i + 1]);
      if Pending(m) <= covered {
        assert Pending(m) - covered == {};
      } else {
        var x :| x in Pending(m) && x !in covered;
        assert x in Pending(m) - covered;
      }
    }
    match c
    case OnKey(cb) =>
      assert es == KeyCallbackEvents(cb, done, recentValue, Undefined, onDidAnimate, true, after);
    case OnStep(cb, stepValue, stepOnDidAnimate) =>
      var keyEvents := KeyCallbackEvents(cb, done, recentValue, stepValue, onDidAnimate, true, after);
      var tail := if Truthy(stepOnDidAnimate) then [StepDidAnimate(stepOnDidAnimate, done, recentValue, stepValue, recentValue)] else [];
      assert es == keyEvents + tail;
      assert SafeToUnmount !in tail;
  }

  /** Two exiting keys: whichever completes first grants nothing, the
      second grants unmounting, and both orders end in the same record. */
  lemma TwoKeysEitherOrder(a: string, b: string)
    requires a != b
    ensures var m := map[a := true, b := true];
            && Pending(Clear(m, a, true)) == {b} && Pending(Clear(m, b, true)) == {a}
            && Pending(Clear(Clear(m, a, true), b, true)) == {}
            && Clear(Clear(m, a, true), b, true) == Clear(Clear(m, b, true), a, true)
  {
    var m := map[a := true, b := true];
    assert Pending(m) == {a, b};
    assert Clear(Clear(m, a, true), b, true) == map[a := false, b := false];
    assert Clear(Clear(m, b, true), a, true) == map[a := false, b := false];
  }

  /** The record a render starts from marks exactly the exit style's keys
      that are not in the disabled set. */
  lemma InitialPending(p: Props)
    ensures Pending(ExitingStyleProps(p)) == KeySet(FieldsOf(Or(ExitStyle(p), EmptyObject))) - DisabledExitStyles
  {
  }

  /** Not present without an exit style: the effect grants unmounting at
      once, and the render is not exiting, so no callback will. */
  lemma NoExitStyleUnmountsAtOnce(p: Props)
    requires !p.isPresent && !HasExitStyle(p)
    ensures !IsExiting(p)
    ensures forall c, completed, recentValue, onDidAnimate, m ::
              SafeToUnmount !in CompletionEvents(c, completed, recentValue, onDidAnimate, IsExiting(p), m)
  {
    forall c, completed, recentValue, onDidAnimate, m
      ensures SafeToUnmount !in CompletionEvents(c, completed, recentValue, onDidAnimate, IsExiting(p), m)
    {
      var done := DefaultFalse(completed);
      match c
      case OnKey(cb) =>
      case OnStep(cb, stepValue, stepOnDidAnimate) =>
        var tail := if Truthy(stepOnDidAnimate) then [StepDidAnimate(stepOnDidAnimate, done, recentValue, stepValue, recentValue)] else [];
        assert CompletionEvents(c, completed, recentValue, onDidAnimate, false, m)
            == KeyCallbackEvents(cb, done, recentValue, stepValue, onDidAnimate, false, m) + tail;
    }
  }
}
