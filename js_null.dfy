/** The `JsNull` subclass: its tag, string form, CLR form and equality. */
module JsNullClass {
  import opened Wrappers
  import opened JsValues

  /** The constructor passes the Null tag to the base class. */
  lemma TagIsNull()
    ensures Tag(JsNull) == Types.TypeNull && IsPrimitive(JsNull)
  {
  }

  /** `ToObject`: Null has no CLR counterpart. */
  function ToObject(): (r: Option<ClrObject>)
    ensures r.None?
  {
    None
  }

  function ToString(): (r: string)
    ensures r == "null"
  {
    "null"
  }

  /**
   * `Equals(JsValue obj)`: a class test, then the typed overload, which
   * accepts any non-null `JsNull`. The reference-equality shortcut in front of
   * them is subsumed by value equality here.
   */
  function Equals(obj: Option<JsValue>): (r: bool)
    ensures r <==> obj == Some(JsNull)
  {
    if !(obj.Some? && obj.value.JsNull?) then false
    else EqualsNull(obj)
  }

  /** `Equals(JsNull other)`: false only for null. */
  function EqualsNull(other: Option<JsValue>): (r: bool)
    requires other.None? || other.value.JsNull?
    ensures r <==> other.Some?
  {
    if other.None? then false else true
  }
}
