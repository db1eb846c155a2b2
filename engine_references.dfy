/**
 * Reading and writing through references (`Engine.GetValue`,
 * `Engine.PutValue`, `Engine.PutPrimitiveBase`), after sections 8.7.1 and
 * 8.7.2 of ECMA-262 5.1.
 */
module EngineReferences {
  import opened Wrappers
  import opened JsValues
  import opened Descriptors
  import opened References
  import opened Hosts

  /** `(ICallable)x.AsObject()`: an ArgumentException for a non-object, an invalid cast for a non-callable object. */
  function AsCallable(x: JsValue): (r: Result<JsValue>)
    ensures r.Ok? <==> IsCallable(x)
    ensures r.Ok? ==> r.value == x
  {
    if !IsObject(x) then ClrThrow(ArgumentError)
    else if !IsCallable(x) then ClrThrow(InvalidCast)
    else Ok(x)
  }

  /**
   * The getter branch of `GetValue` for a primitive base: no property gives
   * Undefined, a data property its value, an Undefined getter Undefined,
   * and a callable getter is called with the primitive base as `this`. A
   * getter field that is null is dereferenced and fails.
   */
  function GetFromPrimitive(h: Host, w: World, baseValue: JsValue, o: JsValue, name: string): (r: Outcome<JsValue>)
    ensures h.getProperty(w, o, name).None? ==> r == Outcome(Ok(JsUndefined), w)
    ensures h.getProperty(w, o, name).Some? && h.getProperty(w, o, name).value.IsDataDescriptor() ==>
      r == Outcome(Ok(h.getProperty(w, o, name).value.value), w)
    ensures (h.getProperty(w, o, name).Some? && h.getProperty(w, o, name).value.AccessorDescriptor?
             && h.getProperty(w, o, name).value.getter == Some(JsUndefined)) ==> r == Outcome(Ok(JsUndefined), w)
    ensures (h.getProperty(w, o, name).Some? && h.getProperty(w, o, name).value.AccessorDescriptor?
             && h.getProperty(w, o, name).value.getter.Some? && IsCallable(h.getProperty(w, o, name).value.getter.value)) ==>
      r == h.call(w, h.getProperty(w, o, name).value.getter.value, baseValue, [])
  {
    match h.getProperty(w, o, name)
    case None => Outcome(Ok(JsUndefined), w)
    case Some(desc) =>
      if desc.IsDataDescriptor() then Outcome(Ok(desc.value), w)
      else if desc.getter.None? then Outcome(ClrThrow(NullReference), w)
      else if desc.getter.value.JsUndefined? then Outcome(Ok(JsUndefined), w)
      else
        var callable := AsCallable(desc.getter.value);
        if callable.Err? then Outcome(Err(callable.error), w)
        else h.call(w, callable.value, baseValue, [])
  }

  /**
   * `GetValue(value, returnReferenceToPool)` (section 8.7.1). The pool
   * flag only recycles the reference, so it has no counterpart here.
   */
  function GetValue(h: Host, w: World, value: Payload): (r: Outcome<JsValue>)
    // a value is returned as it is, and a completion's value is read out
    ensures value.PValue? ==> r == Outcome(Ok(value.v), w)
    ensures value.PCompletion? && value.c.value.Some? ==> r == Outcome(Ok(value.c.value.value), w)
    // a completion without a value: the null the source returns is not a JsValue here (see the README)
    ensures value.PCompletion? && value.c.value.None? ==> r == Outcome(ClrThrow(NullReference), w)
    // an unresolvable reference is a ReferenceError unless the resolver supplies a value
    ensures value.PReference? && value.r.IsUnresolvableReference() ==>
      r == Outcome(if h.resolveUnresolvable(w, value.r).Some? then Ok(h.resolveUnresolvable(w, value.r).value)
                   else JsThrow(ReferenceError), w)
    // a reference into an environment record reads the binding
    ensures value.PReference? && value.r.HasEnvironmentRecordBase() ==>
      r == Outcome(h.getBindingValue(w, value.r.baseValue, value.r.name, value.r.strict), w)
    // the case table for a primitive base the resolver leaves alone
    ensures value.PReference? && value.r.IsPropertyReference() && IsPrimitive(value.r.baseValue)
            && !value.r.IsUnresolvableReference() && h.resolveProperty(w, value.r).None? ==>
      r == (if value.r.baseValue.JsNull? then Outcome(JsThrow(TypeError), w)
            else GetFromPrimitive(h, w, value.r.baseValue, h.toObject(w, value.r.baseValue), value.r.name))
    // an object base is read with the object's own [[Get]]
    ensures value.PReference? && value.r.baseValue.JsObject? && !value.r.HasEnvironmentRecordBase()
            && h.resolveProperty(w, value.r).None? ==>
      r == h.get(w, h.toObject(w, value.r.baseValue), value.r.name)
  {
    match value
    case PValue(v) => Outcome(Ok(v), w)
    // `((Completion)value).Value` of a null object, and of an argument array
    case PNull => Outcome(ClrThrow(NullReference), w)
    case PArguments(_) => Outcome(ClrThrow(InvalidCast), w)
    case PCompletion(c) =>
      if c.value.Some? then Outcome(Ok(c.value.value), w) else Outcome(ClrThrow(NullReference), w)
    case PReference(reference) =>
      var baseValue := reference.baseValue;
      if Tag(baseValue) == TypeUndefined then
        match h.resolveUnresolvable(w, reference)
        case Some(v) => Outcome(Ok(v), w)
        case None => Outcome(JsThrow(ReferenceError), w)
      else if reference.IsPropertyReference() then
        match h.resolveProperty(w, reference)
        case Some(v) => Outcome(Ok(v), w)
        case None =>
          var o := ToObject(h, w, baseValue);
          if o.Err? then Outcome(Err(o.error), w)
          else if !(Tag(baseValue) != TypeObject && Tag(baseValue) != TypeNone) then h.get(w, o.value, reference.name)
          else GetFromPrimitive(h, w, baseValue, o.value, reference.name)
      // `(EnvironmentRecord)baseValue`
      else if !reference.HasEnvironmentRecordBase() then Outcome(ClrThrow(InvalidCast), w)
      else Outcome(h.getBindingValue(w, baseValue, reference.name, reference.strict), w)
  }

  /**
   * `PutPrimitiveBase(b, name, value, throwOnError)`: a write through a
   * primitive base only reaches an inherited setter; every other case is a
   * TypeError when `throwOnError` and otherwise does nothing.
   */
  function PutPrimitiveBase(h: Host, w: World, b: JsValue, name: string, value: JsValue, throwOnError: bool): (r: Outcome<()>)
    requires !b.JsUndefined? && !b.JsNull?
    ensures var o := h.toObject(w, b);
      var refused := !h.canPut(w, o, name)
        || (h.getOwnProperty(w, o, name).Some? && h.getOwnProperty(w, o, name).value.IsDataDescriptor())
        || !(h.getProperty(w, o, name).Some? && h.getProperty(w, o, name).value.IsAccessorDescriptor());
      refused ==> r == Outcome(if throwOnError then JsThrow(TypeError) else Ok(()), w)
    ensures var o := h.toObject(w, b);
      var desc := h.getProperty(w, o, name);
      && h.canPut(w, o, name)
      && !(h.getOwnProperty(w, o, name).Some? && h.getOwnProperty(w, o, name).value.IsDataDescriptor())
      && desc.Some? && desc.value.IsAccessorDescriptor() && desc.value.setter.Some? && IsCallable(desc.value.setter.value)
      ==> r == (var called := h.call(w, desc.value.setter.value, b, [value]);
                Outcome(if called.result.Ok? then Ok(()) else Err(called.result.error), called.world))
  {
    var o := h.toObject(w, b);
    if !h.canPut(w, o, name) then
      Outcome(if throwOnError then JsThrow(TypeError) else Ok(()), w)
    else
      var ownDesc := h.getOwnProperty(w, o, name);
      if ownDesc.Some? && ownDesc.value.IsDataDescriptor() then
        Outcome(if throwOnError then JsThrow(TypeError) else Ok(()), w)
      else
        var desc := h.getProperty(w, o, name);
        if desc.Some? && desc.value.IsAccessorDescriptor() then
          // `(ICallable)desc.Set.AsObject()`, with a null setter dereferenced
          if desc.value.setter.None? then Outcome(ClrThrow(NullReference), w)
          else
            var setter := AsCallable(desc.value.setter.value);
            if setter.Err? then Outcome(Err(setter.error), w)
            else
              var called := h.call(w, setter.value, b, [value]);
              Outcome(if called.result.Ok? then Ok(()) else Err(called.result.error), called.world)
        else Outcome(if throwOnError then JsThrow(TypeError) else Ok(()), w)
  }

  /**
   * `PutValue(reference, value)` (section 8.7.2): an unresolvable
   * reference is a ReferenceError in strict code and otherwise a property
   * of the global object; a property reference goes to the object or to
   * `PutPrimitiveBase`; an environment reference sets the binding.
   */
  function PutValue(h: Host, w: World, reference: Reference, value: JsValue): (r: Outcome<()>)
    ensures reference.IsUnresolvableReference() ==>
      r == (if reference.strict then Outcome(JsThrow(ReferenceError), w)
            else h.put(w, h.globalObject, reference.name, value, false))
    ensures reference.baseValue.JsObject? && !reference.HasEnvironmentRecordBase() ==>
      r == h.put(w, reference.baseValue, reference.name, value, reference.strict)
    ensures IsPrimitive(reference.baseValue) && !reference.IsUnresolvableReference() && !reference.baseValue.JsNull? ==>
      r == PutPrimitiveBase(h, w, reference.baseValue, reference.name, value, reference.strict)
    ensures reference.HasEnvironmentRecordBase() ==>
      r == h.setMutableBinding(w, reference.baseValue, reference.name, value, reference.strict)
  {
    var baseValue := reference.baseValue;
    if Tag(baseValue) == TypeUndefined then
      if reference.strict then Outcome(JsThrow(ReferenceError), w)
      else h.put(w, h.globalObject, reference.name, value, false)
    else if reference.IsPropertyReference() then
      if Tag(baseValue) == TypeObject || Tag(baseValue) == TypeNone then
        h.put(w, baseValue, reference.name, value, reference.strict)
      // `TypeConverter.ToObject(null)` inside PutPrimitiveBase
      else if baseValue.JsNull? then Outcome(JsThrow(TypeError), w)
      else PutPrimitiveBase(h, w, baseValue, reference.name, value, reference.strict)
    // `(EnvironmentRecord)baseValue`
    else if !reference.HasEnvironmentRecordBase() then Outcome(ClrThrow(InvalidCast), w)
    else h.setMutableBinding(w, baseValue, reference.name, value, reference.strict)
  }
}
