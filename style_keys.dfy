/** Classification of style keys and style values used throughout the
    style computation. */
module StyleKeys {
  import opened Records
  import opened JsValues

  /** The colour properties, which animate with `timing` by default. */
  const ColorKeys: set<string> := {
    "backgroundColor", "borderBottomColor", "borderLeftColor", "borderRightColor",
    "borderTopColor", "color", "shadowColor", "borderColor", "borderEndColor",
    "borderStartColor"
  }

  /** The keys that are written into the `transform` list. */
  const TransformKeys: set<string> := {
    "matrix", "perspective", "rotate", "rotateX", "rotateY", "rotateZ", "scale",
    "scaleX", "scaleY", "translate", "translateX", "translateY", "skewX", "skewY"
  }

  /** Exit-style keys that never hold up unmounting. */
  const DisabledExitStyles: set<string> := {
    "position", "zIndex", "borderTopStyle", "borderBottomStyle", "borderLeftStyle",
    "borderRightStyle", "borderStyle", "pointerEvents", "outline"
  }

  predicate IsColor(styleKey: string)
  {
    styleKey in ColorKeys
  }

  predicate IsTransform(styleKey: string)
  {
    styleKey in TransformKeys
  }

  /** A value of the shape `{ value, onDidAnimate }`: an object (not null)
      that has an `onDidAnimate` key. */
  predicate HasInlineOnDidAnimate(v: Value)
  {
    IsObjectType(v) && v != Null && HasKey(v, "onDidAnimate")
  }

  /** No key is both a colour and a transform, and `opacity` and `transform`
      are neither. */
  lemma KeyClassesDisjoint(k: string)
    ensures !(IsColor(k) && IsTransform(k))
    ensures !IsColor("opacity") && !IsTransform("opacity") && !IsTransform("transform")
  {
  }
}
