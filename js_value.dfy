/**
 * The tagged value representation (`JsValue` and its subclasses), the
 * completion record, and the tag predicates, casts and implicit conversions
 * of `JsValue`.
 */
module JsValues {
  import opened Wrappers
  import opened Numbers

  /** The runtime type tag `_type`. */
  datatype Types = TypeNone | TypeUndefined | TypeNull | TypeBoolean | TypeString | TypeNumber | TypeSymbol | TypeObject | TypeCompletion

  /** What kind of .NET object stands behind an Object-tagged value. */
  datatype ObjectKind =
    | PlainObject
    | ArrayInstance
    | DateInstance
    | RegExpInstance
    | ScriptFunction                       // ScriptFunctionInstance: callable and a constructor
    | NativeFunction(isConstructor: bool)  // any other FunctionInstance
    | ObjectWrapper(target: nat)           // IObjectWrapper around a CLR object
    | EnvironmentRecord                    // an environment record used as a reference base
    | ErrorInstance(errorKind: JsErrorKind)

  /**
   * A `JsValue`. Objects and symbols carry an identity; every other value is
   * its contents. `JsNone` is a value whose tag is None.
   */
  datatype JsValue =
    | JsNone
    | JsUndefined
    | JsNull
    | JsBoolean(b: bool)
    | JsString(s: string)
    | JsNumber(n: Num)
    | JsSymbol(symbolId: nat, description: string)
    | JsObject(id: nat, kind: ObjectKind)
    | JsCompletion

  /** The value `_type` holds for each subclass. */
  function Tag(v: JsValue): Types {
    match v
    case JsNone => Types.TypeNone
    case JsUndefined => Types.TypeUndefined
    case JsNull => Types.TypeNull
    case JsBoolean(_) => Types.TypeBoolean
    case JsString(_) => Types.TypeString
    case JsNumber(_) => Types.TypeNumber
    case JsSymbol(_, _) => Types.TypeSymbol
    case JsObject(_, _) => Types.TypeObject
    case JsCompletion => Types.TypeCompletion
  }

  /** The error object a `JavaScriptException` of this category carries. */
  function ErrorValue(kind: JsErrorKind): JsValue {
    JsObject(0, ErrorInstance(kind))
  }

  // ---- tag predicates -------------------------------------------------------

  predicate IsPrimitive(v: JsValue) { Tag(v) != Types.TypeObject && Tag(v) != Types.TypeNone }
  predicate IsUndefined(v: JsValue) { Tag(v) == Types.TypeUndefined }
  predicate IsObject(v: JsValue) { Tag(v) == Types.TypeObject }
  predicate IsString(v: JsValue) { Tag(v) == Types.TypeString }
  predicate IsNumber(v: JsValue) { Tag(v) == Types.TypeNumber }
  predicate IsBoolean(v: JsValue) { Tag(v) == Types.TypeBoolean }
  predicate IsNull(v: JsValue) { Tag(v) == Types.TypeNull }
  predicate IsCompletion(v: JsValue) { Tag(v) == Types.TypeCompletion }
  predicate IsSymbol(v: JsValue) { Tag(v) == Types.TypeSymbol }

  /** The three `is` tests look at the class, not at the tag. */
  predicate IsArray(v: JsValue) { v.JsObject? && v.kind.ArrayInstance? }
  predicate IsDate(v: JsValue) { v.JsObject? && v.kind.DateInstance? }
  predicate IsRegExp(v: JsValue) { v.JsObject? && v.kind.RegExpInstance? }

  /** A .NET `object` that is not null: a boxed `JsValue` or some other CLR object. */
  datatype ClrObject = BoxedJsValue(v: JsValue) | OtherClrObject(clrId: nat)

  type PrimitiveValue = v: JsValue | IsPrimitive(v) witness JsUndefined

  /** Callables are the function objects. */
  predicate IsCallable(v: JsValue) { v.JsObject? && (v.kind.ScriptFunction? || v.kind.NativeFunction?) }

  /** Each tag predicate agrees with the subclass the value belongs to. */
  lemma TagPredicatesMatchClasses(v: JsValue)
    ensures IsPrimitive(v) <==> !(v.JsObject? || v.JsNone?)
    ensures IsUndefined(v) <==> v == JsUndefined
    ensures IsNull(v) <==> v == JsNull
    ensures IsObject(v) <==> v.JsObject?
    ensures IsString(v) <==> v.JsString?
    ensures IsNumber(v) <==> v.JsNumber?
    ensures IsBoolean(v) <==> v.JsBoolean?
    ensures IsCompletion(v) <==> v == JsCompletion
    ensures IsSymbol(v) <==> v.JsSymbol?
    ensures IsArray(v) || IsDate(v) || IsRegExp(v) ==> IsObject(v)
  {
  }

  // ---- casts ----------------------------------------------------------------

  /** `AsObject`: the value itself when it is an object, else an ArgumentException. */
  function AsObject(v: JsValue): (r: Result<JsValue>)
    ensures r.Ok? <==> v.JsObject?
    ensures r.Ok? ==> r.value == v
    ensures r.Err? ==> r.error == ClrException(ArgumentError)
  {
    if !IsObject(v) then ClrThrow(ArgumentError) else Ok(v)
  }

  /** The .NET types the generic casts are instantiated with. */
  datatype ClrType =
    | ObjectInstanceType
    | FunctionInstanceType
    | ScriptFunctionInstanceType
    | ICallableType
    | IConstructorType
    | ArrayInstanceType
    | EnvironmentRecordType

  /** `v is T` for an Object-tagged value. */
  predicate InstanceOf(v: JsValue, t: ClrType) {
    v.JsObject? &&
    match t
    case ObjectInstanceType => true
    case FunctionInstanceType => v.kind.ScriptFunction? || v.kind.NativeFunction?
    case ScriptFunctionInstanceType => v.kind.ScriptFunction?
    case ICallableType => v.kind.ScriptFunction? || v.kind.NativeFunction?
    case IConstructorType => v.kind.ScriptFunction? || (v.kind.NativeFunction? && v.kind.isConstructor)
    case ArrayInstanceType => v.kind.ArrayInstance?
    case EnvironmentRecordType => v.kind.EnvironmentRecord?
  }

  /**
   * `TryCast<T>(fail)`: the value when it is an Object of type T; otherwise
   * the optional `fail` callback runs (modelled by the exception it throws,
   * if any) and the result is null.
   */
  function TryCast(v: JsValue, t: ClrType, fail: Option<Exception>): (r: Result<Option<JsValue>>)
    ensures r == Ok(Some(v)) <==> IsObject(v) && InstanceOf(v, t)
    ensures r.Ok? ==> r.value == None || r.value == Some(v)
    ensures !(IsObject(v) && InstanceOf(v, t)) ==> (r.Err? <==> fail.Some?)
  {
    if Tag(v) == Types.TypeObject && InstanceOf(v, t) then Ok(Some(v))
    else if fail.Some? then Err(fail.value)
    else Ok(None)
  }

  /** `Is<T>()`. */
  predicate Is(v: JsValue, t: ClrType) { IsObject(v) && InstanceOf(v, t) }

  /** `As<T>()`: the value when it is an object of type T, else null. */
  function As(v: JsValue, t: ClrType): (r: Option<JsValue>)
    ensures r.Some? <==> Is(v, t)
    ensures r.Some? ==> r.value == v
  {
    if IsObject(v) then (if InstanceOf(v, t) then Some(v) else None) else None
  }

  // ---- completion records -----------------------------------------------------

  datatype CompletionType = Normal | Break | Continue | Return | Throw

  /** A completion record: type, value (possibly null), target label, location. */
  datatype Completion = Completion(
    completionType: CompletionType,
    value: Option<JsValue>,
    identifier: Option<string>,
    location: Option<Location>)
  {
    predicate IsAbrupt() { completionType != Normal }

    /** `GetValueOrDefault`: the value, or Undefined when it is null. */
    function GetValueOrDefault(): JsValue {
      if value.Some? then value.value else JsUndefined
    }
  }

  function MakeCompletion(t: CompletionType, v: Option<JsValue>, id: Option<string>): Completion {
    Completion(t, v, id, None)
  }

  /** `AsCompletion`: not implemented in the source, it always yields Normal(Undefined). */
  function AsCompletion(v: JsValue): (r: Result<Completion>)
    ensures r.Ok? <==> IsCompletion(v)
    ensures r.Ok? ==> r.value.completionType == Normal && r.value.value == Some(JsUndefined)
  {
    if Tag(v) != Types.TypeCompletion then ClrThrow(ArgumentError)
    else Ok(MakeCompletion(Normal, Some(JsUndefined), None))
  }

  /**
   * `ReturnOnAbruptCompletion(ref argument)`: whether to return, and the new
   * value of `argument`.
   */
  function ReturnOnAbruptCompletion(argument: JsValue): (r: (bool, JsValue))
    ensures !IsCompletion(argument) ==> r == (false, argument)
    ensures IsCompletion(argument) ==> r == (false, JsUndefined)
  {
    if !IsCompletion(argument) then (false, argument)
    else
      var completion := AsCompletion(argument).value;
      if completion.IsAbrupt() then (true, argument)
      else (false, completion.GetValueOrDefault())
  }

  /** Whatever the argument, `ReturnOnAbruptCompletion` never asks its caller to return. */
  lemma ReturnOnAbruptCompletionNeverAborts(argument: JsValue)
    ensures !ReturnOnAbruptCompletion(argument).0
  {
  }

  // ---- implicit conversions -----------------------------------------------------

  function FromChar(c: char): (r: JsValue)
    ensures r == JsString([c])
  {
    JsString([c])
  }

  /** `int` and `uint` convert to the Number with the same mathematical value. */
  function FromInt(i: int): (r: JsValue)
    ensures r.JsNumber? && !IsNaN(r.n) && ToExtReal(r.n) == Real(i as real)
    ensures i == 0 ==> r == JsNumber(PosZero)
  {
    JsNumber(Numbers.FromInt(i))
  }

  function FromDouble(n: Num): (r: JsValue)
    ensures r.JsNumber? && r.n == n
  {
    JsNumber(n)
  }

  /** `bool` converts to the shared `JsBoolean.True` / `JsBoolean.False`. */
  function FromBool(b: bool): (r: JsValue)
    ensures IsBoolean(r) && r.b == b
  {
    if b then JsBoolean(true) else JsBoolean(false)
  }

  /** A null string converts to Null, any other string to a String. */
  function FromString(s: Option<string>): (r: JsValue)
    ensures s.None? <==> r == JsNull
    ensures s.Some? ==> r == JsString(s.value)
  {
    if s.None? then JsNull else JsString(s.value)
  }
}
