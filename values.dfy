/** The JavaScript values the style computation inspects, with the operators
    it applies to them: truthiness, `== null`, `??`, `||`, optional property
    reads, `in`, `typeof` and `Object.assign({}, a, b)`. */
module JsValues {
  import opened Records

  datatype Value =
    | Undefined
    | Null
    | Bool(b: bool)
    | Num(n: real)
    | Str(s: string)
    | Fn(id: nat)               // a function value (callback, easing, style factory)
    | Arr(items: seq<Value>)
    | Obj(fields: Record<Value>)

  const EmptyObject: Value := Obj([])

  /** JavaScript truthiness. */
  predicate Truthy(v: Value)
  {
    match v
    case Undefined => false
    case Null => false
    case Bool(b) => b
    case Num(n) => n != 0.0
    case Str(s) => s != ""
    case _ => true
  }

  /** `v == null`: loose equality with null holds for null and undefined. */
  predicate IsNullish(v: Value)
  {
    v.Undefined? || v.Null?
  }

  /** `typeof v === 'object'`. */
  predicate IsObjectType(v: Value)
  {
    v.Null? || v.Arr? || v.Obj?
  }

  /** `a ?? b` */
  function Coalesce(a: Value, b: Value): (r: Value)
    ensures !IsNullish(a) ==> r == a
    ensures IsNullish(a) ==> r == b
  {
    if IsNullish(a) then b else a
  }

  /** `a || b` */
  function Or(a: Value, b: Value): (r: Value)
    ensures Truthy(a) ==> r == a
    ensures !Truthy(a) ==> r == b
  {
    if Truthy(a) then a else b
  }

  /** `v?.[k]`: a missing key, or a value that is not an object, reads as undefined. */
  function Prop(v: Value, k: string): (r: Value)
    ensures !v.Obj? ==> r == Undefined
    ensures v.Obj? && k !in KeySet(v.fields) ==> r == Undefined
  {
    match v
    case Obj(fs) => (match Lookup(fs, k) case Some(x) => x case None => Undefined)
    case _ => Undefined
  }

  /** `k in v` */
  predicate HasKey(v: Value, k: string)
  {
    v.Obj? && k in KeySet(v.fields)
  }

  /** The own enumerable entries `Object.keys` and `Object.assign` see. */
  function FieldsOf(v: Value): Record<Value>
  {
    if v.Obj? then v.fields else []
  }

  /** `Object.assign({}, a, b)` */
  function Spread(a: Value, b: Value): (r: Record<Value>)
  {
    Assign(Assign([], FieldsOf(a)), FieldsOf(b))
  }

  /** A property of `Object.assign({}, a, b)` comes from b whenever b has
      that key, and from a otherwise: the later source wins key for key. */
  lemma SpreadLookup(a: Value, b: Value, k: string)
    requires DistinctKeys(FieldsOf(a)) && DistinctKeys(FieldsOf(b))
    ensures HasKey(b, k) ==> Prop(Obj(Spread(a, b)), k) == Prop(b, k)
    ensures !HasKey(b, k) ==> Prop(Obj(Spread(a, b)), k) == Prop(a, k)
    ensures k in KeySet(Spread(a, b)) <==> HasKey(a, k) || HasKey(b, k)
  {
    AssignCopy(FieldsOf(a));
    AssignLookup(FieldsOf(a), FieldsOf(b));
  }
}
