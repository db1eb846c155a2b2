/**
 * What the evaluators see of the engine beyond the frame stack: the heap of
 * objects and environment records (`World`), the values frames hand to each
 * other (`Payload`), and the collaborators whose code is not part of this
 * model (`ObjectInstance`, `LexicalEnvironment`, `EnvironmentRecord`,
 * `JintCallStack`, `StrictModeScope`, the reference resolver, the function
 * objects) as uninterpreted operations on the world.
 */
module Hosts {
  import opened Wrappers
  import opened JsValues
  import opened Descriptors
  import opened References
  import opened ExecutionContexts
  import opened Ast
  import opened Operators

  /** The engine's heap: objects, environment records, the call stack and the strict-mode scope. */
  type World

  /** The result of an operation that may run user code: a value or an exception, and the world after it. */
  datatype Outcome<T> = Outcome(result: Result<T>, world: World)

  /**
   * The `object`s frames pass around (`arg` aside): a `JsValue`, a
   * `Reference`, a `Completion`, the argument array `BuildArguments` hands
   * back, or null.
   */
  datatype Payload =
    | PNull
    | PValue(v: JsValue)
    | PReference(r: Reference)
    | PCompletion(c: Completion)
    | PArguments(arguments: seq<JsValue>)

  /** The record of an environment, as it appears as the base of a reference. */
  function RecordOf(env: EnvironmentId): JsValue {
    JsObject(env, EnvironmentRecord)
  }

  /** The collaborators, as functions of the world. */
  datatype Host = Host(
    conv: Converter,
    // Options.MaxRecursionDepth; negative means unlimited
    maxRecursionDepth: int,
    // the reference resolver's three hooks; None when there is no resolver or it declines
    resolveUnresolvable: (World, Reference) -> Option<JsValue>,
    resolveProperty: (World, Reference) -> Option<JsValue>,
    resolveCallable: (World, Payload) -> Option<JsValue>,
    // StrictModeScope.IsStrictModeCode
    isStrict: World -> bool,
    // the synchronous `EvaluateExpression(expression)` the statement evaluators call
    evalSync: (World, Expression) -> Outcome<Payload>,
    // TypeConverter.ToObject of a value that is neither undefined nor null
    toObject: (World, JsValue) -> JsValue,
    // ObjectInstance
    get: (World, JsValue, string) -> Outcome<JsValue>,
    getProperty: (World, JsValue, string) -> Option<PropertyDescriptor>,
    getOwnProperty: (World, JsValue, string) -> Option<PropertyDescriptor>,
    canPut: (World, JsValue, string) -> bool,
    put: (World, JsValue, string, JsValue, bool) -> Outcome<()>,
    defineOwnProperty: (World, JsValue, string, PropertyDescriptor) -> World,
    setOwnProperty: (World, JsValue, string, PropertyDescriptor) -> World,
    deleteProperty: (World, JsValue, string, bool) -> Outcome<bool>,
    hasProperty: (World, JsValue, string) -> bool,
    hasInstance: (World, JsValue, JsValue) -> Outcome<bool>,
    call: (World, JsValue, JsValue, seq<JsValue>) -> Outcome<JsValue>,
    construct: (World, JsValue, seq<JsValue>) -> Outcome<JsValue>,
    globalObject: JsValue,
    // the constructors the evaluators allocate with
    constructObject: (World, nat) -> (JsValue, World),
    constructArray: (World, nat) -> (JsValue, World),
    setIndexValue: (World, JsValue, nat, JsValue) -> World,
    constructRegExp: (World, string, string) -> (JsValue, World),
    createClosure: (World, FunctionInfo, EnvironmentId, bool) -> (JsValue, World),
    // JsValue.FromObject of a literal of another token type, and of a CLR object that is not a JsValue
    fromObject: string -> JsValue,
    fromClrObject: nat -> JsValue,
    // LexicalEnvironment and EnvironmentRecord
    identifierReference: (World, EnvironmentId, string, bool) -> Reference,
    getBindingValue: (World, JsValue, string, bool) -> Result<JsValue>,
    setMutableBinding: (World, JsValue, string, JsValue, bool) -> Outcome<()>,
    createMutableBinding: (World, EnvironmentId, string, Option<JsValue>) -> World,
    deleteBinding: (World, JsValue, string) -> (bool, World),
    implicitThisValue: (World, JsValue) -> JsValue,
    newDeclarativeEnvironment: (World, EnvironmentId) -> (EnvironmentId, World),
    newObjectEnvironment: (World, JsValue, EnvironmentId, bool) -> (EnvironmentId, World),
    // JintCallStack: Push returns the new depth
    callStackPush: (World, string) -> (nat, World),
    callStackPop: World -> World)

  /** `JsValue.FromObject`: null gives Null, a `JsValue` is itself, another CLR object is marshalled. */
  function FromObject(h: Host, o: Option<ClrObject>): (r: JsValue)
    ensures o.None? ==> r == JsNull
    ensures o.Some? && o.value.BoxedJsValue? ==> r == o.value.v
  {
    match o
    case None => JsNull
    case Some(BoxedJsValue(v)) => v
    case Some(OtherClrObject(id)) => h.fromClrObject(id)
  }

  /**
   * `TypeConverter.ToObject`: a TypeError for undefined and null
   * (section 9.9 of ECMA-262 5.1), otherwise the host's object for the value.
   */
  function ToObject(h: Host, w: World, v: JsValue): (r: Result<JsValue>)
    ensures r.Err? <==> v.JsUndefined? || v.JsNull?
    ensures r.Err? ==> r.error == JavaScriptException(TypeError, None)
  {
    if v.JsUndefined? || v.JsNull? then JsThrow(TypeError) else Ok(h.toObject(w, v))
  }
}
