/** Property descriptors as the interpreter inspects them. */
module Descriptors {
  import opened Wrappers
  import opened JsValues

  /**
   * A property descriptor: a data descriptor, or a get/set descriptor whose
   * getter and setter may each be null (`None`). `PropertyDescriptor.Undefined`,
   * the "no such property" sentinel, is `None` of an `Option<PropertyDescriptor>`.
   */
  datatype PropertyDescriptor =
    | DataDescriptor(value: JsValue, writable: bool, enumerable: bool, configurable: bool)
    | AccessorDescriptor(getter: Option<JsValue>, setter: Option<JsValue>, enumerable: bool, configurable: bool)
  {
    predicate IsDataDescriptor() { DataDescriptor? }
    /** A get/set descriptor counts as an accessor when it has a getter or a setter. */
    predicate IsAccessorDescriptor() { AccessorDescriptor? && (getter.Some? || setter.Some?) }
  }

  /** `PropertyFlag.ConfigurableEnumerableWritable` around a value. */
  function ConfigurableEnumerableWritable(v: JsValue): PropertyDescriptor {
    DataDescriptor(v, true, true, true)
  }
}
