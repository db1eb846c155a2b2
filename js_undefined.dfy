/** The `JsUndefined` subclass: its tag, string form, CLR form and equality. */
module JsUndefinedClass {
  import opened Wrappers
  import opened JsValues

  /** The constructor passes the Undefined tag to the base class. */
  lemma TagIsUndefined()
    ensures Tag(JsUndefined) == Types.TypeUndefined && IsPrimitive(JsUndefined)
  {
  }

  /** `ToObject`: Undefined has no CLR counterpart. */
  function ToObject(): (r: Option<ClrObject>)
    ensures r.None?
  {
    None
  }

  function ToString(): (r: string)
    ensures r == "undefined"
  {
    "undefined"
  }

  /**
   * `Equals(JsValue obj)`: a class test, then the typed overload, which
   * accepts any non-null `JsUndefined`. The reference-equality shortcut in front of
   * them is subsumed by value equality here.
   */
  function Equals(obj: Option<JsValue>): (r: bool)
    ensures r <==> obj == Some(JsUndefined)
  {
    if !(obj.Some? && obj.value.JsUndefined?) then false
    else EqualsUndefined(obj)
  }

  /** `Equals(JsUndefined other)`: false only for null. */
  function EqualsUndefined(other: Option<JsValue>): (r: bool)
    requires other.None? || other.value.JsUndefined?
    ensures r <==> other.Some?
  {
    if other.None? then false else true
  }
}
