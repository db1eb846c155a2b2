/**
 * `JsValue` equality as .NET sees it: the virtual `Equals(JsValue)`, the
 * `==` / `!=` operators on possibly-null references and `Equals(object)`.
 */
module JsValueEquality {
  import opened Wrappers
  import opened JsValues
  import JsUndefinedClass
  import JsNullClass

  /**
   * The virtual `Equals(JsValue other)`. Undefined and Null use their own
   * overrides; the other subclasses' overrides are not part of this model and
   * are taken to be equality of contents (identity for objects and symbols).
   */
  function Equals(x: JsValue, other: Option<JsValue>): (r: bool)
    ensures r <==> other == Some(x)
  {
    match x
    case JsUndefined => JsUndefinedClass.Equals(other)
    case JsNull => JsNullClass.Equals(other)
    case _ => other == Some(x)
  }

  /** `operator ==`: two nulls are equal, one null is unequal, otherwise `a.Equals(b)`. */
  function OpEquals(a: Option<JsValue>, b: Option<JsValue>): (r: bool)
    ensures a.None? && b.None? ==> r
    ensures a.None? != b.None? ==> !r
    ensures a.Some? && b.Some? ==> r == Equals(a.value, b)
  {
    if a.None? then (if b.None? then true else false)
    else if b.None? then false
    else Equals(a.value, b)
  }

  /** `operator !=`, written out separately in the source. */
  function OpNotEquals(a: Option<JsValue>, b: Option<JsValue>): (r: bool)
    ensures a.None? && b.None? ==> !r
    ensures a.None? != b.None? ==> r
  {
    if a.None? then (if b.None? then false else true)
    else if b.None? then true
    else !Equals(a.value, b)
  }

  /** `!=` is the exact negation of `==`, and `==` is an equivalence on references. */
  lemma NotEqualsNegatesEquals(a: Option<JsValue>, b: Option<JsValue>, c: Option<JsValue>)
    ensures OpNotEquals(a, b) == !OpEquals(a, b)
    ensures OpEquals(a, a)
    ensures OpEquals(a, b) == OpEquals(b, a)
    ensures OpEquals(a, b) && OpEquals(b, c) ==> OpEquals(a, c)
    ensures OpEquals(a, b) <==> a == b
  {
  }

  /**
   * `Equals(object obj)`: null is unequal, the same reference is equal, a
   * non-`JsValue` is unequal, otherwise the typed `Equals`.
   */
  function EqualsObject(x: JsValue, obj: Option<ClrObject>): (r: bool)
    ensures obj.None? ==> !r
    ensures obj.Some? && obj.value.OtherClrObject? ==> !r
    ensures obj.Some? && obj.value.BoxedJsValue? ==> (r <==> Equals(x, Some(obj.value.v)))
  {
    if obj.None? then false
    else if obj == Some(BoxedJsValue(x)) then true
    else if !obj.value.BoxedJsValue? then false
    else Equals(x, Some(obj.value.v))
  }
}
