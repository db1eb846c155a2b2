/**
 * The expression stage machines of `ExpressionInterpreter`. Each evaluator
 * is a function from the context and the frame it runs on to the frame's
 * new fields and what it does to the stack; the trampoline re-runs a frame
 * until it returns. `stage` and `calleeReturned` say where the machine is.
 */
module ExpressionInterpreters {
  import opened Wrappers
  import opened Numbers
  import opened JsValues
  import opened Descriptors
  import opened References
  import opened ExecutionContexts
  import opened Ast
  import opened Operators
  import opened Hosts
  import opened RuntimeStates
  import opened EngineReferences

  // ---- the inline evaluations ------------------------------------------------------

  /** `EvaluateIdentifier`: the reference the lexical environment resolves the name to. */
  function EvaluateIdentifier(c: Context, w: World, name: string): (r: Result<Reference>)
    ensures r.Err? <==> c.contexts == []
    ensures r.Ok? ==> r.value == c.host.identifierReference(w, c.LexicalEnvironment().value, name, c.host.isStrict(w))
  {
    var env := c.LexicalEnvironment();
    if env.Err? then Err(env.error)
    else Ok(c.host.identifierReference(w, env.value, name, c.host.isStrict(w)))
  }

  /**
   * `EvaluateLiteral`: booleans, null, numbers and strings are the values
   * they denote; a regular expression allocates a new RegExp object every
   * time; any other token type is marshalled.
   */
  function EvaluateLiteral(h: Host, w: World, literal: LiteralValue): (r: (JsValue, World))
    ensures !literal.RegularExpressionLiteral? ==> r.1 == w
    ensures literal.BooleanLiteral? ==> r.0 == JsBoolean(literal.truth)
    ensures literal.NullLiteral? ==> r.0 == JsNull
    ensures literal.NumericLiteral? ==> r.0 == JsNumber(literal.number)
    ensures literal.StringLiteral? ==> r.0 == JsString(literal.text)
  {
    match literal
    case BooleanLiteral(truth) => (FromBool(truth), w)
    case NullLiteral => (JsNull, w)
    case NumericLiteral(n) => (JsNumber(n), w)
    case StringLiteral(text) => (JsString(text), w)
    case RegularExpressionLiteral(pattern, flags) => h.constructRegExp(w, pattern, flags)
    case OtherLiteral(raw) => (h.fromObject(raw), w)
  }

  /**
   * `EvaluateFunctionExpression`: a closure over a fresh declarative
   * environment whose parent is the current lexical environment; a named
   * function expression binds its own name in that environment.
   */
  function EvaluateFunctionExpression(c: Context, w: World, info: FunctionInfo): (r: Result<(JsValue, World)>)
    ensures r.Err? <==> c.contexts == []
    ensures r.Ok? ==>
      var (funcEnv, w1) := c.host.newDeclarativeEnvironment(w, c.LexicalEnvironment().value);
      var (closure, w2) := c.host.createClosure(w1, info, funcEnv, info.strict);
      r.value.0 == closure
      && r.value.1 == (if info.id.Some? && info.id.value != "" then c.host.createMutableBinding(w2, funcEnv, info.id.value, Some(closure)) else w2)
  {
    var env := c.LexicalEnvironment();
    if env.Err? then Err(env.error)
    else
      var (funcEnv, w1) := c.host.newDeclarativeEnvironment(w, env.value);
      var (closure, w2) := c.host.createClosure(w1, info, funcEnv, info.strict);
      if info.id.Some? && info.id.value != "" then Ok((closure, c.host.createMutableBinding(w2, funcEnv, info.id.value, Some(closure))))
      else Ok((closure, w2))
  }

  /** `EvaluateThisExpression`: the this binding of the running execution context. */
  function EvaluateThisExpression(c: Context): (r: Result<JsValue>)
    ensures r.Ok? <==> c.contexts != []
    ensures r.Ok? ==> r.value == c.contexts[|c.contexts| - 1].thisBinding
  {
    c.ThisBinding()
  }

  /** `(JsValue)o` for a payload that is read as a value. */
  function JsValueOfLocal(l: Local): Result<JsValue> {
    match l
    case PayloadLocal(PValue(v)) => Ok(v)
    case NoLocal => ClrThrow(NullReference)
    case _ => ClrThrow(InvalidCast)
  }

  /** `o as Reference`. */
  function AsReference(o: Payload): (r: Option<Reference>)
    ensures r.Some? <==> o.PReference?
  {
    if o.PReference? then Some(o.r) else None
  }

  // ---- conditional ---------------------------------------------------------------------

  /**
   * `EvaluateConditionalExpression`: the test, then exactly one of the two
   * branches, whose value is the result.
   */
  function EvaluateConditionalExpression(c: Context, f: Frame): Effect {
    var (h, w) := (c.host, c.world);
    match f.arg
    case ExpressionArg(Conditional(test, consequent, alternate)) =>
      if f.stage == 0 then
        if f.calleeReturned then
          var f1 := f.(calleeReturned := false, stage := 1);
          var lref := GetValue(h, w, f.calleeReturnValue);
          if lref.result.Err? then RaisedBy(f1, lref)
          else if h.conv.toBoolean(lref.result.value) then Calling(f1, lref.world, EvaluateExpression, ExpressionArg(consequent))
          else Calling(f1, lref.world, EvaluateExpression, ExpressionArg(alternate))
        else Calling(f, w, EvaluateExpression, ExpressionArg(test))
      else if f.calleeReturned then
        var v := GetValue(h, w, f.calleeReturnValue);
        if v.result.Err? then RaisedBy(f, v) else Returning(f, v.world, PValue(v.result.value))
      else Staying(f, w)
    case _ => BadArg(f, w)
  }

  /** After the test returns, the conditional evaluates the branch the test's truth value selects. */
  lemma ConditionalSelectsBranch(c: Context, f: Frame, test: Expression, consequent: Expression, alternate: Expression, v: JsValue)
    requires f.arg == ExpressionArg(Conditional(test, consequent, alternate))
    requires f.stage == 0 && f.calleeReturned && f.calleeReturnValue == PValue(v)
    ensures var e := EvaluateConditionalExpression(c, f);
      && e.Done? && e.world == c.world && e.frame.stage == 1 && !e.frame.calleeReturned
      && e.action == Push(EvaluateExpression, ExpressionArg(if c.host.conv.toBoolean(v) then consequent else alternate))
  {
  }

  // ---- assignment ----------------------------------------------------------------------

  /**
   * Stage 2 of `EvaluateAssignmentExpression`: `=` checks and stores the
   * right value and yields it; a compound operator reads the target,
   * combines, stores and yields the combined value. A target that did not
   * evaluate to a reference is a ReferenceError.
   */
  function AssignmentStage2(c: Context, f: Frame, op: AssignmentOperator): (e: Effect)
    ensures !(f.local.PayloadLocal? && f.local.payload.PReference?) && GetValue(c.host, c.world, f.calleeReturnValue).result.Ok? ==>
      e.Raised? && e.error == JavaScriptException(ReferenceError, None)
    ensures op == Assign && f.local.PayloadLocal? && f.local.payload.PReference? && e.Done? ==>
      var rval := GetValue(c.host, c.world, f.calleeReturnValue);
      rval.result.Ok? && e.action == Pop(PValue(rval.result.value))
      && e.world == PutValue(c.host, rval.world, f.local.payload.r, rval.result.value).world
  {
    var (h, w) := (c.host, c.world);
    var lref := if f.local.PayloadLocal? then AsReference(f.local.payload) else None;
    var rval := GetValue(h, w, f.calleeReturnValue);
    if rval.result.Err? then RaisedBy(f, rval)
    else if lref.None? then Raised(f, rval.world, JavaScriptException(ReferenceError, None))
    else if op == Assign then
      var valid := AssertValid(lref.value);
      if valid.Err? then Raised(f, rval.world, valid.error)
      else
        var put := PutValue(h, rval.world, lref.value, rval.result.value);
        if put.result.Err? then RaisedBy(f, put) else Returning(f, put.world, PValue(rval.result.value))
    else
      var lval := GetValue(h, rval.world, PReference(lref.value));
      if lval.result.Err? then RaisedBy(f, lval)
      else
        var combined := CompoundAssignment(h.conv, op, lval.result.value, rval.result.value);
        if combined.Err? then Raised(f, lval.world, combined.error)
        else
          var put := PutValue(h, lval.world, lref.value, combined.value);
          if put.result.Err? then RaisedBy(f, put) else Returning(f, put.world, PValue(combined.value))
  }

  /** `EvaluateAssignmentExpression`: the target, then the value, then stage 2 in the same run. */
  function EvaluateAssignmentExpression(c: Context, f: Frame): Effect {
    match f.arg
    case ExpressionArg(Assignment(op, target, value)) =>
      if f.stage == 0 then
        if f.calleeReturned then
          // stage 1 follows in the same run, with no callee result: the value is evaluated
          Calling(f.(calleeReturned := false, local := PayloadLocal(f.calleeReturnValue), stage := 1), c.world,
                  EvaluateExpression, ExpressionArg(value))
        else Calling(f, c.world, EvaluateExpression, ExpressionArg(target))
      else if f.stage == 1 then
        if f.calleeReturned then AssignmentStage2(c, f.(calleeReturned := false, stage := 2), op)
        else Calling(f, c.world, EvaluateExpression, ExpressionArg(value))
      else AssignmentStage2(c, f, op)
    case _ => BadArg(f, c.world)
  }

  // ---- binary --------------------------------------------------------------------------

  /**
   * The operator switch of `EvaluateBinaryExpression` on the two operand
   * values: the heap-free operators, `instanceof` through the function's
   * `HasInstance`, and `in` through the object's `HasProperty`.
   */
  function BinaryOperation(h: Host, w: World, op: BinaryOperator, left: JsValue, right: JsValue): (r: Outcome<JsValue>)
    ensures IsValueOperator(op) ==> r == Outcome(Ok(ValueOperator(h.conv, op, left, right)), w)
    ensures op == InstanceOf && !IsCallable(right) ==> r == Outcome(JsThrow(TypeError), w)
    ensures op == In && !IsObject(right) ==> r == Outcome(JsThrow(TypeError), w)
    ensures op == In && IsObject(right) ==> r == Outcome(Ok(FromBool(h.hasProperty(w, right, h.conv.toString(left)))), w)
    ensures op == LogicalAnd || op == LogicalOr ==> r == Outcome(ClrThrow(NotImplemented), w)
  {
    if IsValueOperator(op) then Outcome(Ok(ValueOperator(h.conv, op, left, right)), w)
    else if op == InstanceOf then
      var fn := TryCast(right, FunctionInstanceType, None);
      if fn.Ok? && fn.value.Some? then
        var has := h.hasInstance(w, fn.value.value, left);
        if has.result.Err? then Outcome(Err(has.result.error), has.world) else Outcome(Ok(FromBool(has.result.value)), has.world)
      else Outcome(JsThrow(TypeError), w)
    else if op == In then
      if !IsObject(right) then Outcome(JsThrow(TypeError), w)
      else Outcome(Ok(FromBool(h.hasProperty(w, right, h.conv.toString(left)))), w)
    else Outcome(ClrThrow(NotImplemented), w)
  }

  /** Stage 2: both operand values are in the frame. */
  function BinaryStage2(c: Context, f: Frame, op: BinaryOperator): Effect {
    var left := JsValueOfLocal(f.local);
    if left.Err? then Raised(f, c.world, left.error)
    else if !f.calleeReturnValue.PValue? then Fail(f, c.world, if f.calleeReturnValue.PNull? then NullReference else InvalidCast)
    else
      var r := BinaryOperation(c.host, c.world, op, left.value, f.calleeReturnValue.v);
      if r.result.Err? then RaisedBy(f, r) else Returning(f, r.world, PValue(r.result.value))
  }

  /** Stage 1: the right operand, evaluated inline when it is a literal. */
  function BinaryStage1(c: Context, f: Frame, op: BinaryOperator, right: Expression): Effect {
    if f.calleeReturned then
      var f1 := f.(calleeReturned := false);
      var v := GetValue(c.host, c.world, f.calleeReturnValue);
      if v.result.Err? then RaisedBy(f1, v)
      else BinaryStage2(c.(world := v.world), f1.(calleeReturnValue := PValue(v.result.value), stage := 2), op)
    else if right.Literal? then
      var (v, w1) := EvaluateLiteral(c.host, c.world, right.literal);
      BinaryStage2(c.(world := w1), f.(calleeReturnValue := PValue(v), stage := 2), op)
    else Calling(f, c.world, EvaluateExpression, ExpressionArg(right))
  }

  /**
   * `EvaluateBinaryExpression`: the left operand, then the right one, each
   * read with `GetValue` (a literal operand is evaluated without a frame),
   * then the operator.
   */
  function EvaluateBinaryExpression(c: Context, f: Frame): Effect {
    match f.arg
    case ExpressionArg(Binary(_, op, left, right)) =>
      if f.stage == 0 then
        if f.calleeReturned then
          var f1 := f.(calleeReturned := false);
          var v := GetValue(c.host, c.world, f.calleeReturnValue);
          if v.result.Err? then RaisedBy(f1, v)
          else BinaryStage1(c.(world := v.world), f1.(local := PayloadLocal(PValue(v.result.value)), stage := 1), op, right)
        else if left.Literal? then
          var (v, w1) := EvaluateLiteral(c.host, c.world, left.literal);
          BinaryStage1(c.(world := w1), f.(local := PayloadLocal(PValue(v)), stage := 1), op, right)
        else Calling(f, c.world, EvaluateExpression, ExpressionArg(left))
      else if f.stage == 1 then BinaryStage1(c, f, op, right)
      else BinaryStage2(c, f, op)
    case _ => BadArg(f, c.world)
  }

  /** Two literal operands need no frames: the expression is computed in one run. */
  lemma BinaryOfLiterals(c: Context, f: Frame, op: BinaryOperator, t: Nodes, a: LiteralValue, b: LiteralValue)
    requires f.arg == ExpressionArg(Binary(t, op, Expression.Literal(a), Expression.Literal(b)))
    requires f.stage == 0 && !f.calleeReturned
    requires !a.RegularExpressionLiteral? && !b.RegularExpressionLiteral?
    requires IsValueOperator(op)
    ensures var e := EvaluateBinaryExpression(c, f);
      && e.Done? && e.world == c.world
      && e.action == Pop(PValue(ValueOperator(c.host.conv, op, EvaluateLiteral(c.host, c.world, a).0, EvaluateLiteral(c.host, c.world, b).0)))
  {
  }

  // ---- logical -------------------------------------------------------------------------

  /**
   * `EvaluateLogicalExpression`: the left value, kept in `local`; `&&`
   * returns it when it is falsy and `||` when it is truthy, and otherwise
   * the right operand's value is the result.
   */
  function EvaluateLogicalExpression(c: Context, f: Frame): Effect {
    match f.arg
    case ExpressionArg(Binary(_, op, left, right)) =>
      if f.stage == 0 && !f.calleeReturned then Calling(f, c.world, EvaluateExpression, ExpressionArg(left))
      else if f.stage == 0 then
        var f1 := f.(calleeReturned := false);
        var v := GetValue(c.host, c.world, f.calleeReturnValue);
        if v.result.Err? then RaisedBy(f1, v)
        else LogicalShortCircuit(f1.(local := PayloadLocal(PValue(v.result.value)), stage := 1), v.world, c.host.conv, op, right)
      else if f.stage == 1 && f.calleeReturned then
        var v := GetValue(c.host, c.world, f.calleeReturnValue);
        if v.result.Err? then RaisedBy(f, v) else Returning(f, v.world, PValue(v.result.value))
      else if f.stage == 1 then LogicalShortCircuit(f, c.world, c.host.conv, op, right)
      else Staying(f, c.world)
    case _ => BadArg(f, c.world)
  }

  /** Stage 1 before the right operand: return the left value or evaluate the right operand. */
  function LogicalShortCircuit(f: Frame, w: World, conv: Converter, op: BinaryOperator, right: Expression): Effect {
    var left := JsValueOfLocal(f.local);
    if left.Err? then Raised(f, w, left.error)
    else if op == LogicalAnd then
      if !conv.toBoolean(left.value) then Returning(f, w, PValue(left.value))
      else Calling(f, w, EvaluateExpression, ExpressionArg(right))
    else if op == LogicalOr then
      if conv.toBoolean(left.value) then Returning(f, w, PValue(left.value))
      else Calling(f, w, EvaluateExpression, ExpressionArg(right))
    else Fail(f, w, NotImplemented)
  }

  /**
   * Short-circuit: once the left operand of `&&` or `||` returns its value,
   * the expression returns that value, without a frame for the right
   * operand, exactly when it decides the result (falsy for `&&`, truthy
   * for `||`); otherwise the right operand is evaluated.
   */
  lemma {:induction false} LogicalShortCircuits(c: Context, f: Frame, t: Nodes, op: BinaryOperator, left: Expression, right: Expression, v: JsValue)
    requires f.arg == ExpressionArg(Binary(t, op, left, right))
    requires op == LogicalAnd || op == LogicalOr
    requires f.stage == 0 && f.calleeReturned && f.calleeReturnValue == PValue(v)
    ensures var e := EvaluateLogicalExpression(c, f);
      var decided := if op == LogicalAnd then !c.host.conv.toBoolean(v) else c.host.conv.toBoolean(v);
      && e.Done? && e.world == c.world
      && (decided ==> e.action == Pop(PValue(v)))
      && (!decided ==> e.action == Push(EvaluateExpression, ExpressionArg(right)) && e.frame.stage == 1)
  {
    var f1 := f.(calleeReturned := false, local := PayloadLocal(PValue(v)), stage := 1);
    assert GetValue(c.host, c.world, f.calleeReturnValue) == Outcome(Ok(v), c.world);
    assert EvaluateLogicalExpression(c, f) == LogicalShortCircuit(f1, c.world, c.host.conv, op, right);
  }

  /** When the right operand returns, its value is the value of the whole expression. */
  lemma LogicalReturnsRight(c: Context, f: Frame, t: Nodes, op: BinaryOperator, left: Expression, right: Expression, v: JsValue)
    requires f.arg == ExpressionArg(Binary(t, op, left, right))
    requires f.stage == 1 && f.calleeReturned && f.calleeReturnValue == PValue(v)
    ensures EvaluateLogicalExpression(c, f) == Returning(f, c.world, PValue(v))
  {
  }

  // ---- object literal ------------------------------------------------------------------

  /**
   * The duplicate-key rules of section 11.1.5 as the evaluator checks
   * them when a key is defined a second time: repeated data properties in
   * strict code, a data property meeting an accessor either way, and a
   * second getter or a second setter.
   */
  predicate DuplicateRejected(strict: bool, previous: PropertyDescriptor, propDesc: PropertyDescriptor) {
    || (strict && previous.IsDataDescriptor() && propDesc.IsDataDescriptor())
    || (previous.IsDataDescriptor() && propDesc.IsAccessorDescriptor())
    || (previous.IsAccessorDescriptor() && propDesc.IsDataDescriptor())
    || (previous.IsAccessorDescriptor() && propDesc.IsAccessorDescriptor()
        && ((propDesc.setter.Some? && previous.setter.Some?) || (propDesc.getter.Some? && previous.getter.Some?)))
  }

  /**
   * Storing one member's descriptor: a key seen before is checked against
   * the duplicate rules and redefined, a new key is written directly.
   */
  function DefineMember(h: Host, w: World, obj: JsValue, name: string, previous: Option<PropertyDescriptor>,
                        propDesc: PropertyDescriptor, strict: bool): (r: Result<World>)
    ensures previous.None? ==> r == Ok(h.setOwnProperty(w, obj, name, propDesc))
    ensures previous.Some? ==> (r.Err? <==> DuplicateRejected(strict, previous.value, propDesc))
    ensures r.Err? ==> r.error == JavaScriptException(SyntaxError, None)
    ensures previous.Some? && r.Ok? ==> r.value == h.defineOwnProperty(w, obj, name, propDesc)
  {
    if previous.None? then Ok(h.setOwnProperty(w, obj, name, propDesc))
    else if DuplicateRejected(strict, previous.value, propDesc) then JsThrow(SyntaxError)
    else Ok(h.defineOwnProperty(w, obj, name, propDesc))
  }

  /** The descriptor of a `get` or `set` member: a closure over the current environment, enumerable and configurable. */
  function AccessorMember(c: Context, w: World, p: Property): (r: Result<(PropertyDescriptor, World)>)
    requires p.kind == Get || p.kind == Set
    ensures !p.value.Function? ==> r == JsThrow(SyntaxError)
    ensures r.Ok? ==> r.value.0.IsAccessorDescriptor() && r.value.0.enumerable && r.value.0.configurable
    ensures r.Ok? ==> (r.value.0.getter.Some? <==> p.kind == Get) && (r.value.0.setter.Some? <==> p.kind == Set)
  {
    if !p.value.Function? then JsThrow(SyntaxError)
    else
      var env := c.LexicalEnvironment();
      if env.Err? then Err(env.error)
      else
        var info := p.value.info;
        var (closure, w1) := c.host.createClosure(w, info, env.value, info.strict || c.host.isStrict(w));
        var getter := if p.kind == Get then Some(closure) else None;
        var setter := if p.kind == Set then Some(closure) else None;
        Ok((AccessorDescriptor(getter, setter, true, true), w1))
  }

  /**
   * `EvaluateObjectExpression`: allocates the object on the first run, then
   * defines one member per stage (a data member after its value returns,
   * an accessor member at once) and finally returns the object.
   */
  function EvaluateObjectExpression(c: Context, f: Frame): Effect {
    match f.arg
    case ExpressionArg(Object(properties)) =>
      var count := |properties|;
      var (f0, w0) :=
        if f.stage == 0 && f.local.NoLocal? then
          var (o, w1) := c.host.constructObject(c.world, count); (f.(local := PayloadLocal(PValue(o))), w1)
        else (f, c.world);
      var obj := JsValueOfLocal(f0.local);
      if obj.Err? then Raised(f0, w0, obj.error)
      else if f0.stage < count then
        var p := properties[f0.stage];
        if p.kind == Init || p.kind == Data then
          if !f0.calleeReturned then Calling(f0, w0, EvaluateExpression, ExpressionArg(p.value))
          else
            var previous := c.host.getOwnProperty(w0, obj.value, p.key);
            var f1 := f0.(calleeReturned := false);
            var v := GetValue(c.host, w0, f1.calleeReturnValue);
            if v.result.Err? then RaisedBy(f1, v)
            else
              var defined := DefineMember(c.host, v.world, obj.value, p.key, previous,
                                          ConfigurableEnumerableWritable(v.result.value), c.host.isStrict(v.world));
              if defined.Err? then Raised(f1, v.world, defined.error)
              else Staying(f1.(stage := f1.stage + 1), defined.value)
        else if p.kind == Get || p.kind == Set then
          var previous := c.host.getOwnProperty(w0, obj.value, p.key);
          var desc := AccessorMember(c, w0, p);
          if desc.Err? then Raised(f0, w0, desc.error)
          else
            var (propDesc, w1) := desc.value;
            var defined := DefineMember(c.host, w1, obj.value, p.key, previous, propDesc, c.host.isStrict(w1));
            if defined.Err? then Raised(f0, w1, defined.error)
            else Staying(f0.(stage := f0.stage + 1), defined.value)
        else Fail(f0, w0, ArgumentOutOfRange)
      else Returning(f0, w0, PValue(obj.value))
    case _ => BadArg(f, c.world)
  }

  /**
   * A key that already holds a data property cannot be given an accessor:
   * the object literal raises a SyntaxError whatever the strictness.
   */
  lemma ObjectAccessorAfterData(c: Context, f: Frame, properties: seq<Property>, obj: JsValue)
    requires f.arg == ExpressionArg(Object(properties))
    requires f.local == PayloadLocal(PValue(obj)) && f.stage < |properties|
    requires properties[f.stage].kind == Get && properties[f.stage].value.Function? && c.contexts != []
    requires var previous := c.host.getOwnProperty(c.world, obj, properties[f.stage].key);
      previous.Some? && previous.value.IsDataDescriptor()
    ensures var e := EvaluateObjectExpression(c, f);
      e.Raised? && e.error == JavaScriptException(SyntaxError, None)
  {
  }

  /**
   * A data member whose key is new is stored as a writable, enumerable,
   * configurable property holding its value, and the machine moves to the
   * next member.
   */
  lemma ObjectNewDataMember(c: Context, f: Frame, properties: seq<Property>, obj: JsValue, v: JsValue)
    requires f.arg == ExpressionArg(Object(properties))
    requires f.local == PayloadLocal(PValue(obj)) && f.stage < |properties|
    requires properties[f.stage].kind == Data && f.calleeReturned && f.calleeReturnValue == PValue(v)
    requires c.host.getOwnProperty(c.world, obj, properties[f.stage].key).None?
    ensures var e := EvaluateObjectExpression(c, f);
      && e.Done? && e.action == Stay && e.frame.stage == f.stage + 1 && !e.frame.calleeReturned
      && e.world == c.host.setOwnProperty(c.world, obj, properties[f.stage].key, ConfigurableEnumerableWritable(v))
  {
  }

  // ---- member --------------------------------------------------------------------------

  /** Stage 2 of `EvaluateMemberExpression`: the base must be coercible to an object. */
  function MemberStage2(c: Context, f: Frame, w: World, name: string): (e: Effect)
    ensures var base := GetValue(c.host, w, if f.local.PayloadLocal? then f.local.payload else PNull);
      base.result.Ok? ==>
        if base.result.value.JsUndefined? || base.result.value.JsNull? then e == Raised(f, base.world, JavaScriptException(TypeError, None))
        else e == Returning(f, base.world, PReference(Reference(base.result.value, name, c.host.isStrict(base.world))))
  {
    var baseReference := if f.local.PayloadLocal? then f.local.payload else PNull;
    var baseValue := GetValue(c.host, w, baseReference);
    if baseValue.result.Err? then RaisedBy(f, baseValue)
    // TypeConverter.CheckObjectCoercible
    else if baseValue.result.value.JsUndefined? || baseValue.result.value.JsNull? then
      Raised(f, baseValue.world, JavaScriptException(TypeError, None))
    else Returning(f, baseValue.world, PReference(Reference(baseValue.result.value, name, c.host.isStrict(baseValue.world))))
  }

  /** Stage 1 before a computed property returns: a dotted name is read off the identifier. */
  function MemberProperty(c: Context, f: Frame, property: Expression, computed: bool): Effect {
    if !computed then
      if property.Identifier? then MemberStage2(c, f.(stage := 2), c.world, property.name)
      else Fail(f, c.world, InvalidCast)
    else Calling(f, c.world, EvaluateExpression, ExpressionArg(property))
  }

  /**
   * `EvaluateMemberExpression`: the object (kept unevaluated as a payload),
   * then the property name, then a reference with the object's value as
   * base.
   */
  function EvaluateMemberExpression(c: Context, f: Frame): Effect {
    match f.arg
    case ExpressionArg(Member(objectExpression, property, computed)) =>
      if f.stage == 0 then
        if f.calleeReturned then
          MemberProperty(c, f.(calleeReturned := false, local := PayloadLocal(f.calleeReturnValue), stage := 1), property, computed)
        else Calling(f, c.world, EvaluateExpression, ExpressionArg(objectExpression))
      else if f.stage == 1 then
        if f.calleeReturned then
          var f1 := f.(calleeReturned := false);
          var v := GetValue(c.host, c.world, f.calleeReturnValue);
          if v.result.Err? then RaisedBy(f1, v)
          else MemberStage2(c, f1.(stage := 2), v.world, c.host.conv.toString(v.result.value))
        else MemberProperty(c, f, property, computed)
      else MemberStage2(c, f, c.world, "")
    case _ => BadArg(f, c.world)
  }

  // ---- call ----------------------------------------------------------------------------

  /**
   * The `this` value of a call: Undefined for a callee that is not a
   * reference, the base of a property reference, and otherwise the
   * environment record's implicit this value.
   */
  function CallThis(h: Host, w: World, r: Option<Reference>): (t: Result<JsValue>)
    ensures r.None? ==> t == Ok(JsUndefined)
    ensures r.Some? && r.value.IsPropertyReference() ==> t == Ok(r.value.baseValue)
    ensures r.Some? && r.value.HasEnvironmentRecordBase() ==> t == Ok(h.implicitThisValue(w, r.value.baseValue))
  {
    if r.None? then Ok(JsUndefined)
    else if r.value.IsPropertyReference() then Ok(r.value.baseValue)
    else if !r.value.HasEnvironmentRecordBase() then ClrThrow(InvalidCast)
    else Ok(h.implicitThisValue(w, r.value.baseValue))
  }

  /** The callable a callee value stands for: an object as it is, anything else through the resolver. */
  function Callable(h: Host, w: World, callee: Payload, func: JsValue): (r: Result<JsValue>)
    ensures func.JsUndefined? ==> r == JsThrow(TypeError)
    ensures r.Ok? ==> IsCallable(r.value)
    ensures IsCallable(func) ==> r == Ok(func)
  {
    if func.JsUndefined? then JsThrow(TypeError)
    else
      var f := if IsObject(func) then Some(func) else h.resolveCallable(w, callee);
      if f.None? || !IsCallable(f.value) then JsThrow(TypeError) else Ok(f.value)
  }

  /**
   * Stage 1 of `EvaluateCallExpression` once the arguments are known: the
   * recursion-depth check, the callable, its `this`, and then either a
   * frame for a script function's body or the native call's result.
   */
  function Invocation(c: Context, f: Frame, callee: Payload, arguments: seq<JsValue>): Effect {
    var h := c.host;
    var func := GetValue(h, c.world, callee);
    if func.result.Err? then RaisedBy(f, func)
    else
      var r := AsReference(callee);
      var (depth, w1) := if h.maxRecursionDepth >= 0 then h.callStackPush(func.world, if r.Some? then r.value.name else "anonymous function")
                         else (0, func.world);
      if h.maxRecursionDepth >= 0 && depth > h.maxRecursionDepth then
        Fail(f, h.callStackPop(w1), RecursionDepthOverflow)
      else
        var callable := Callable(h, w1, callee, func.result.value);
        if callable.Err? then Raised(f, w1, callable.error)
        else
          var thisObject := CallThis(h, w1, r);
          if thisObject.Err? then Raised(f, w1, thisObject.error)
          else if callable.value.kind.ScriptFunction? then
            Calling(f.(stage := 2, local := PayloadLocal(PArguments(arguments)), local2 := if r.Some? then PReference(r.value) else PNull),
                    w1, CallState(callable.value), CallArg(thisObject.value, arguments))
          else
            var result := h.call(w1, callable.value, thisObject.value, arguments);
            if result.result.Err? then RaisedBy(f, result)
            else Returning(f, if h.maxRecursionDepth >= 0 then h.callStackPop(result.world) else result.world, PValue(result.result.value))
  }

  /** `_jsValueArrayPool.RentArray(n)`: an array of n slots, every one overwritten before it is read. */
  function RentArray(n: nat): (a: seq<JsValue>)
    ensures |a| == n
  {
    seq(n, _ => JsUndefined)
  }

  /**
   * `EvaluateCallExpression`: the callee, then the arguments through a
   * `BuildArguments` frame (when there are any), then the invocation; a
   * script function's result comes back at stage 2.
   */
  function EvaluateCallExpression(c: Context, f: Frame): Effect {
    match f.arg
    case ExpressionArg(Call(calleeExpression, arguments)) =>
      var f1 :=
        if f.stage == 0 && f.calleeReturned then f.(calleeReturned := false, local := CallExpressionLocal(f.calleeReturnValue, []), stage := 1)
        else f;
      if f1.stage == 0 then Calling(f1, c.world, EvaluateExpression, ExpressionArg(calleeExpression))
      else if f1.stage == 1 then
        if !f1.local.CallExpressionLocal? then Fail(f1, c.world, if f1.local.NoLocal? then NullReference else InvalidCast)
        else if |arguments| > 0 && !f1.calleeReturned then
          Calling(f1, c.world, BuildArguments, BuildArgumentsArg(arguments, RentArray(|arguments|)))
        else if |arguments| > 0 then
          var f2 := f1.(calleeReturned := false);
          match f2.calleeReturnValue
          case PArguments(values) => Invocation(c, f2.(local := CallExpressionLocal(f2.local.callee, values)), f2.local.callee, values)
          case PNull => Fail(f2, c.world, NullReference)
          case _ => Fail(f2, c.world, InvalidCast)
        else Invocation(c, f1, f1.local.callee, f1.local.callArgumentValues)
      else if f1.stage == 2 && f1.calleeReturned then
        var w1 := if c.host.maxRecursionDepth >= 0 then c.host.callStackPop(c.world) else c.world;
        if !(f1.local.PayloadLocal? && f1.local.payload.PArguments?) then Fail(f1, w1, if f1.local.NoLocal? then NullReference else InvalidCast)
        else if f1.calleeReturnValue.PValue? || f1.calleeReturnValue.PNull? then Returning(f1, w1, f1.calleeReturnValue)
        else Fail(f1, w1, InvalidCast)
      else Staying(f1, c.world)
    case _ => BadArg(f, c.world)
  }

  /**
   * A call of a native function with no arguments, once the callee has
   * returned a property reference to it: the function is called with the
   * reference's base as `this`, and its result is the value of the call.
   */
  lemma CallNativeMethod(c: Context, f: Frame, callee: Expression, r: Reference, fn: JsValue)
    requires f.arg == ExpressionArg(Call(callee, []))
    requires f.stage == 0 && f.calleeReturned && f.calleeReturnValue == PReference(r)
    requires c.host.maxRecursionDepth < 0
    requires GetValue(c.host, c.world, PReference(r)) == Outcome(Ok(fn), c.world)
    requires fn.JsObject? && fn.kind.NativeFunction? && r.IsPropertyReference()
    ensures var e := EvaluateCallExpression(c, f);
      var result := c.host.call(c.world, fn, r.baseValue, []);
      result.result.Ok? ==> e.Done? && e.action == Pop(PValue(result.result.value)) && e.world == result.world
  {
  }

  // ---- sequence ------------------------------------------------------------------------

  /**
   * `EvaluateSequenceExpression`: each expression in turn; the value of the
   * last one is the result, and an empty sequence yields Undefined.
   */
  function EvaluateSequenceExpression(c: Context, f: Frame): Effect {
    match f.arg
    case ExpressionArg(Sequence(expressions)) =>
      var f1 := if f.calleeReturned then f.(calleeReturned := false) else f;
      var result := if f.calleeReturned then GetValue(c.host, c.world, f.calleeReturnValue) else Outcome(Ok(JsUndefined), c.world);
      if result.result.Err? then RaisedBy(f1, result)
      else if f1.stage < |expressions| then
        Calling(f1.(stage := f1.stage + 1), result.world, EvaluateExpression, ExpressionArg(expressions[f1.stage]))
      else Returning(f1, result.world, PValue(result.result.value))
    case _ => BadArg(f, c.world)
  }

  /** Each run of a sequence frame before the end starts exactly the next expression. */
  lemma SequenceAdvances(c: Context, f: Frame, expressions: seq<Expression>)
    requires f.arg == ExpressionArg(Sequence(expressions)) && f.stage < |expressions| && !f.calleeReturned
    ensures var e := EvaluateSequenceExpression(c, f);
      e.Done? && e.action == Push(EvaluateExpression, ExpressionArg(expressions[f.stage])) && e.frame.stage == f.stage + 1
  {
  }

  /** After the last expression returns, the sequence returns that expression's value. */
  lemma SequenceReturnsLast(c: Context, f: Frame, expressions: seq<Expression>, v: JsValue)
    requires f.arg == ExpressionArg(Sequence(expressions)) && f.stage == |expressions|
    requires f.calleeReturned && f.calleeReturnValue == PValue(v)
    ensures EvaluateSequenceExpression(c, f) == Returning(f.(calleeReturned := false), c.world, PValue(v))
  {
  }

  // ---- update --------------------------------------------------------------------------

  /**
   * `x++`, `x--`, `++x`, `--x` once the argument's reference has returned:
   * the old value as a number, one added or subtracted, the new value
   * stored, and the new value (prefix) or the old one (postfix) returned.
   */
  function UpdateValue(c: Context, f: Frame, op: UnaryOperator, prefix: bool): (e: Effect)
    ensures !f.calleeReturnValue.PReference? ==> e.Raised?
    ensures op != Increment && op != Decrement && f.calleeReturnValue.PReference? ==>
      e.Raised? && (AssertValid(f.calleeReturnValue.r).Ok? && GetValue(c.host, c.world, f.calleeReturnValue).result.Ok? ==> e.error == ClrException(ArgumentError))
    ensures e.Done? ==>
      && f.calleeReturnValue.PReference? && GetValue(c.host, c.world, f.calleeReturnValue).result.Ok?
      && var current := GetValue(c.host, c.world, f.calleeReturnValue);
         var oldValue := c.host.conv.toNumber(current.result.value);
         var newValue := if op == Increment then c.host.conv.add(oldValue, Finite(1.0)) else c.host.conv.subtract(oldValue, Finite(1.0));
         var put := PutValue(c.host, current.world, f.calleeReturnValue.r, JsNumber(newValue));
         && put.result.Ok? && e.world == put.world
         && e.action == Pop(PValue(JsNumber(if prefix then newValue else oldValue)))
  {
    var value := f.calleeReturnValue;
    if value.PNull? then Fail(f, c.world, NullReference)
    else if !value.PReference? then Fail(f, c.world, InvalidCast)
    else
      var valid := AssertValid(value.r);
      if valid.Err? then Raised(f, c.world, valid.error)
      else
        var current := GetValue(c.host, c.world, value);
        if current.result.Err? then RaisedBy(f, current)
        else
          var oldValue := c.host.conv.toNumber(current.result.value);
          if op != Increment && op != Decrement then Fail(f, current.world, ArgumentError)
          else
            var newValue := if op == Increment then c.host.conv.add(oldValue, Finite(1.0)) else c.host.conv.subtract(oldValue, Finite(1.0));
            var put := PutValue(c.host, current.world, value.r, JsNumber(newValue));
            if put.result.Err? then RaisedBy(f, put)
            else Returning(f, put.world, PValue(JsNumber(if prefix then newValue else oldValue)))
  }

  /** `EvaluateUpdateExpression`: the argument, then `UpdateValue`. */
  function EvaluateUpdateExpression(c: Context, f: Frame): Effect {
    match f.arg
    case ExpressionArg(Unary(_, op, argument, prefix)) =>
      if f.calleeReturned then UpdateValue(c, f.(calleeReturned := false), op, prefix)
      else Calling(f, c.world, EvaluateExpression, ExpressionArg(argument))
    case _ => BadArg(f, c.world)
  }

  // ---- new -----------------------------------------------------------------------------

  /** The construction once the arguments and then the callee have returned. */
  function Construction(c: Context, f: Frame): Effect {
    var callee := GetValue(c.host, c.world, f.calleeReturnValue);
    if callee.result.Err? then RaisedBy(f, callee)
    else if !(f.local.PayloadLocal? && f.local.payload.PArguments?) then
      Fail(f, callee.world, if f.local.NoLocal? then NullReference else InvalidCast)
    else
      var ctor := TryCast(callee.result.value, IConstructorType, None);
      if !(ctor.Ok? && ctor.value.Some?) then Raised(f, callee.world, JavaScriptException(TypeError, None))
      else
        var instance := c.host.construct(callee.world, ctor.value.value, f.local.payload.arguments);
        if instance.result.Err? then RaisedBy(f, instance) else Returning(f, instance.world, PValue(instance.result.value))
  }

  /**
   * `EvaluateNewExpression`: the arguments first (a `BuildArguments` frame
   * even when there are none), then the callee, then its `Construct`; a
   * callee that is not a constructor is a TypeError.
   */
  function EvaluateNewExpression(c: Context, f: Frame): Effect {
    match f.arg
    case ExpressionArg(New(newCallee, newArguments)) =>
      if f.stage == 0 && !f.calleeReturned then
        var args := RentArray(|newArguments|);
        Calling(f.(local := PayloadLocal(PArguments(args))), c.world, BuildArguments, BuildArgumentsArg(newArguments, args))
      else if f.stage == 0 then
        var f1 := f.(calleeReturned := false, stage := 1);
        match f.calleeReturnValue
        case PArguments(values) => Calling(f1.(local := PayloadLocal(PArguments(values))), c.world, EvaluateExpression, ExpressionArg(newCallee))
        case PNull => Fail(f1, c.world, NullReference)
        case _ => Fail(f1, c.world, InvalidCast)
      else if f.calleeReturned then Construction(c, f.(calleeReturned := false))
      else Calling(f, c.world, EvaluateExpression, ExpressionArg(newCallee))
    case _ => BadArg(f, c.world)
  }

  /** `new` evaluates its arguments before its callee: the first frame it pushes is `BuildArguments`. */
  lemma NewEvaluatesArgumentsFirst(c: Context, f: Frame, callee: Expression, arguments: seq<Expression>)
    requires f.arg == ExpressionArg(New(callee, arguments)) && f.stage == 0 && !f.calleeReturned
    ensures var e := EvaluateNewExpression(c, f);
      e.Done? && e.action.Push? && e.action.evaluator == BuildArguments
      && e.action.arg.BuildArgumentsArg? && e.action.arg.expressionArguments == arguments
  {
  }

  /** The array `BuildArguments` hands back is kept in the frame while the callee is evaluated. */
  lemma NewKeepsBuiltArguments(c: Context, f: Frame, callee: Expression, arguments: seq<Expression>, values: seq<JsValue>)
    requires f.arg == ExpressionArg(New(callee, arguments)) && f.stage == 0
    requires f.calleeReturned && f.calleeReturnValue == PArguments(values)
    ensures EvaluateNewExpression(c, f) ==
      Calling(f.(calleeReturned := false, stage := 1, local := PayloadLocal(PArguments(values))), c.world,
              EvaluateExpression, ExpressionArg(callee))
  {
  }

  /**
   * When the callee's value comes back: a callee that is not an
   * `IConstructor` object is a TypeError; a constructor is called with the
   * kept arguments, and the object it builds is the result.
   */
  lemma NewConstructsWithBuiltArguments(c: Context, f: Frame, callee: Expression, arguments: seq<Expression>, values: seq<JsValue>)
    requires f.arg == ExpressionArg(New(callee, arguments)) && f.stage != 0
    requires f.calleeReturned && f.local == PayloadLocal(PArguments(values))
    ensures var cv := GetValue(c.host, c.world, f.calleeReturnValue);
      var f1 := f.(calleeReturned := false);
      var e := EvaluateNewExpression(c, f);
      && (cv.result.Err? ==> e == Raised(f1, cv.world, cv.result.error))
      && (cv.result.Ok? && !Is(cv.result.value, IConstructorType) ==> e == Raised(f1, cv.world, JavaScriptException(TypeError, None)))
      && (cv.result.Ok? && Is(cv.result.value, IConstructorType) ==>
            var instance := c.host.construct(cv.world, cv.result.value, values);
            e == if instance.result.Err? then Raised(f1, instance.world, instance.result.error)
                 else Returning(f1, instance.world, PValue(instance.result.value)))
  {
  }

  // ---- array ---------------------------------------------------------------------------

  /**
   * `EvaluateArrayExpression`: every run at stage 0 allocates the array
   * (so it is allocated again when the first element's value returns);
   * each element's value is stored at its index, a hole is skipped, and
   * the array is returned after the last element.
   */
  function EvaluateArrayExpression(c: Context, f: Frame): Effect {
    match f.arg
    case ExpressionArg(Array(elements)) =>
      var count := |elements|;
      var (f0, w0) :=
        if f.stage == 0 then
          var (a, w1) := c.host.constructArray(c.world, count); (f.(local := PayloadLocal(PValue(a))), w1)
        else (f, c.world);
      if f0.stage < count then
        if f0.calleeReturned then
          var f1 := f0.(calleeReturned := false);
          var arrayValue := JsValueOfLocal(f1.local);
          if arrayValue.Err? then Raised(f1, w0, arrayValue.error)
          else if !IsArray(arrayValue.value) then Fail(f1, w0, InvalidCast)
          else
            var v := GetValue(c.host, w0, f1.calleeReturnValue);
            if v.result.Err? then RaisedBy(f1, v)
            else Staying(f1.(stage := f1.stage + 1), c.host.setIndexValue(v.world, arrayValue.value, f1.stage, v.result.value))
        else if elements[f0.stage].Some? then Calling(f0, w0, EvaluateExpression, ExpressionArg(elements[f0.stage].value))
        else Staying(f0.(stage := f0.stage + 1), w0)
      else
        var arrayValue := JsValueOfLocal(f0.local);
        if arrayValue.Err? then Raised(f0, w0, arrayValue.error) else Returning(f0, w0, PValue(arrayValue.value))
    case _ => BadArg(f, c.world)
  }

  /** A hole in an array literal is skipped without evaluating anything. */
  lemma ArrayHoleSkipped(c: Context, f: Frame, elements: seq<Option<Expression>>)
    requires f.arg == ExpressionArg(Array(elements)) && 0 < f.stage < |elements|
    requires !f.calleeReturned && elements[f.stage].None?
    ensures EvaluateArrayExpression(c, f) == Staying(f.(stage := f.stage + 1), c.world)
  {
  }

  /**
   * Past the first stage, an element's value that comes back is stored at
   * the element's index of the array the frame keeps, and the machine moves
   * on to the next element.
   */
  lemma ArrayElementStored(c: Context, f: Frame, elements: seq<Option<Expression>>, a: JsValue)
    requires f.arg == ExpressionArg(Array(elements)) && 0 < f.stage < |elements|
    requires f.calleeReturned && f.local == PayloadLocal(PValue(a)) && IsArray(a)
    ensures var v := GetValue(c.host, c.world, f.calleeReturnValue);
      EvaluateArrayExpression(c, f) ==
        if v.result.Err? then Raised(f.(calleeReturned := false), v.world, v.result.error)
        else Staying(f.(calleeReturned := false, stage := f.stage + 1), c.host.setIndexValue(v.world, a, f.stage, v.result.value))
  {
  }

  /**
   * At the first stage the array is allocated on every run, so the first
   * element's value is stored in a second, new array, which replaces the
   * one the frame kept.
   */
  lemma ArrayFirstElementReallocates(c: Context, f: Frame, elements: seq<Option<Expression>>)
    requires f.arg == ExpressionArg(Array(elements)) && f.stage == 0 < |elements| && f.calleeReturned
    ensures var (a, w1) := c.host.constructArray(c.world, |elements|);
      var v := GetValue(c.host, w1, f.calleeReturnValue);
      var f1 := f.(local := PayloadLocal(PValue(a)), calleeReturned := false);
      IsArray(a) ==>
        EvaluateArrayExpression(c, f) ==
          if v.result.Err? then Raised(f1, v.world, v.result.error)
          else Staying(f1.(stage := 1), c.host.setIndexValue(v.world, a, 0, v.result.value))
  {
  }

  /** After the last element the kept array is the result. */
  lemma ArrayReturnedAfterLastElement(c: Context, f: Frame, elements: seq<Option<Expression>>, a: JsValue)
    requires f.arg == ExpressionArg(Array(elements)) && 0 < f.stage && |elements| <= f.stage
    requires f.local == PayloadLocal(PValue(a))
    ensures EvaluateArrayExpression(c, f) == Returning(f, c.world, PValue(a))
  {
  }

  /** `[]` allocates an empty array and returns it in one run. */
  lemma EmptyArrayLiteral(c: Context, f: Frame)
    requires f.arg == ExpressionArg(Array([])) && f.stage == 0
    ensures var (a, w1) := c.host.constructArray(c.world, 0);
      EvaluateArrayExpression(c, f) == Returning(f.(local := PayloadLocal(PValue(a))), w1, PValue(a))
  {
  }

  // ---- unary ---------------------------------------------------------------------------

  /**
   * `delete` of what the argument evaluated to (section 11.4.1): true for
   * a non-reference; for an unresolvable reference a SyntaxError in strict
   * code and otherwise true; a property reference deletes from its base
   * converted to an object; an environment reference is a SyntaxError in
   * strict code and otherwise removes the binding.
   */
  function DeleteOperand(h: Host, w: World, value: Payload): (r: Outcome<JsValue>)
    ensures !value.PReference? ==> r == Outcome(Ok(JsBoolean(true)), w)
    ensures value.PReference? && value.r.IsUnresolvableReference() ==>
      r == Outcome(if value.r.strict then JsThrow(SyntaxError) else Ok(JsBoolean(true)), w)
    ensures value.PReference? && value.r.HasEnvironmentRecordBase() ==>
      (r.result.Err? <==> value.r.strict)
    ensures value.PReference? && value.r.HasEnvironmentRecordBase() && !value.r.strict ==>
      r == (var (deleted, w1) := h.deleteBinding(w, value.r.baseValue, value.r.name); Outcome(Ok(FromBool(deleted)), w1))
  {
    if !value.PReference? then Outcome(Ok(FromBool(true)), w)
    else
      var r := value.r;
      if r.IsUnresolvableReference() then
        if r.strict then Outcome(JsThrow(SyntaxError), w) else Outcome(Ok(FromBool(true)), w)
      else if r.IsPropertyReference() then
        var o := ToObject(h, w, r.baseValue);
        if o.Err? then Outcome(Err(o.error), w)
        else
          var deleted := h.deleteProperty(w, o.value, r.name, r.strict);
          if deleted.result.Err? then Outcome(Err(deleted.result.error), deleted.world)
          else Outcome(Ok(FromBool(deleted.result.value)), deleted.world)
      else if r.strict then Outcome(JsThrow(SyntaxError), w)
      // `TryCast<EnvironmentRecord>()` gives null for a base that is not a record
      else if !r.HasEnvironmentRecordBase() then Outcome(ClrThrow(NullReference), w)
      else
        var (deleted, w1) := h.deleteBinding(w, r.baseValue, r.name);
        Outcome(Ok(FromBool(deleted)), w1)
  }

  /**
   * `typeof` of what the argument evaluated to (section 11.4.3): an
   * unresolvable reference is "undefined" without being read; otherwise
   * the type name of its value.
   */
  function TypeOfOperand(h: Host, w: World, value: Payload): (r: Outcome<JsValue>)
    ensures value.PReference? && value.r.IsUnresolvableReference() ==> r == Outcome(Ok(JsString("undefined")), w)
    ensures !(value.PReference? && value.r.IsUnresolvableReference()) ==>
      var v := GetValue(h, w, value);
      r == Outcome(if v.result.Err? then Err(v.result.error) else Ok(JsString(TypeOfValue(v.result.value))), v.world)
  {
    if value.PReference? && value.r.IsUnresolvableReference() then Outcome(Ok(JsString("undefined")), w)
    else
      var v := GetValue(h, w, value);
      if v.result.Err? then Outcome(Err(v.result.error), v.world)
      else Outcome(Ok(JsString(TypeOfValue(v.result.value))), v.world)
  }

  /** `typeof` never raises for an undeclared name, and `typeof null` is "object". */
  lemma TypeOfUndeclaredAndNull(h: Host, w: World, r: Reference)
    requires r.IsUnresolvableReference()
    ensures TypeOfOperand(h, w, PReference(r)).result == Ok(JsString("undefined"))
    ensures TypeOfOperand(h, w, PValue(JsNull)).result == Ok(JsString("object"))
    ensures TypeOfOperand(h, w, PValue(JsUndefined)).result == Ok(JsString("undefined"))
  {
  }

  /** The operator switch of `EvaluateUnaryExpression` on what the argument evaluated to. */
  function UnaryOperation(h: Host, w: World, op: UnaryOperator, value: Payload): (r: Outcome<JsValue>)
    ensures op == Delete ==> r == DeleteOperand(h, w, value)
    ensures op == TypeOf ==> r == TypeOfOperand(h, w, value)
    ensures op == Increment || op == Decrement ==> r == Outcome(ClrThrow(ArgumentError), w)
    ensures op == Void && GetValue(h, w, value).result.Ok? ==> r == Outcome(Ok(JsUndefined), GetValue(h, w, value).world)
    ensures op == UnaryMinus && GetValue(h, w, value).result.Ok? ==>
      r.result == Ok(JsNumber(Negate(h.conv.toNumber(GetValue(h, w, value).result.value))))
  {
    match op
    case Delete => DeleteOperand(h, w, value)
    case TypeOf => TypeOfOperand(h, w, value)
    case Increment => Outcome(ClrThrow(ArgumentError), w)
    case Decrement => Outcome(ClrThrow(ArgumentError), w)
    case _ =>
      var v := GetValue(h, w, value);
      if v.result.Err? then v
      else
        var x := v.result.value;
        var result := match op
          case UnaryPlus => JsNumber(h.conv.toNumber(x))
          case UnaryMinus => JsNumber(Negate(h.conv.toNumber(x)))
          case BitwiseNot => Int(Int32Not(h.conv.toInt32(x)))
          case LogicalNot => FromBool(!h.conv.toBoolean(x))
          case _ => JsUndefined;
        Outcome(Ok(result), v.world)
  }

  /** `EvaluateUnaryExpression`: the argument, then the operator. */
  function EvaluateUnaryExpression(c: Context, f: Frame): Effect {
    match f.arg
    case ExpressionArg(Unary(_, op, argument, _)) =>
      if f.calleeReturned then
        var f1 := f.(calleeReturned := false);
        var r := UnaryOperation(c.host, c.world, op, f.calleeReturnValue);
        if r.result.Err? then RaisedBy(f1, r) else Returning(f1, r.world, PValue(r.result.value))
      else Calling(f, c.world, EvaluateExpression, ExpressionArg(argument))
    case _ => BadArg(f, c.world)
  }

  // ---- arguments -----------------------------------------------------------------------

  /**
   * `BuildArguments`: one argument expression per stage, its value written
   * into the target array at the stage's index, and the filled array
   * returned at the end.
   */
  function EvaluateBuildArguments(c: Context, f: Frame): Effect {
    match f.arg
    case BuildArgumentsArg(expressions, target) =>
      var f1 := f.(local := Flag);
      if f1.stage < |target| then
        if f1.stage >= |expressions| then Fail(f1, c.world, ArgumentOutOfRange)
        else if f1.calleeReturned then
          var v := GetValue(c.host, c.world, f1.calleeReturnValue);
          if v.result.Err? then RaisedBy(f1, v)
          else Staying(f1.(arg := BuildArgumentsArg(expressions, target[f1.stage := v.result.value]),
                           calleeReturned := false, stage := f1.stage + 1), v.world)
        else Calling(f1, c.world, EvaluateExpression, ExpressionArg(expressions[f1.stage]))
      else Returning(f1, c.world, PArguments(target))
    case _ => BadArg(f, c.world)
  }

  /**
   * Each returned argument lands in its own slot: the slot at the stage
   * gets the value and every other slot keeps its contents.
   */
  lemma BuildArgumentsFillsSlot(c: Context, f: Frame, expressions: seq<Expression>, target: seq<JsValue>, v: JsValue)
    requires f.arg == BuildArgumentsArg(expressions, target) && f.stage < |target| && |target| == |expressions|
    requires f.calleeReturned && f.calleeReturnValue == PValue(v)
    ensures var e := EvaluateBuildArguments(c, f);
      && e.Done? && e.action == Stay && e.frame.stage == f.stage + 1 && !e.frame.calleeReturned
      && e.frame.arg.BuildArgumentsArg? && |e.frame.arg.targetArray| == |target|
      && e.frame.arg.targetArray[f.stage] == v
      && (forall j :: 0 <= j < |target| && j != f.stage ==> e.frame.arg.targetArray[j] == target[j])
  {
  }

  /** After the last slot, the target array itself is handed back. */
  lemma BuildArgumentsReturnsTarget(c: Context, f: Frame, expressions: seq<Expression>, target: seq<JsValue>)
    requires f.arg == BuildArgumentsArg(expressions, target) && f.stage >= |target|
    ensures EvaluateBuildArguments(c, f) == Returning(f.(local := Flag), c.world, PArguments(target))
  {
  }

  /**
   * Private `EvaluateExpression` of the expression interpreter: it passes
   * its own frame as the argument of the engine's evaluator.
   */
  function InterpreterEvaluateExpression(c: Context, f: Frame): (e: Effect)
    ensures f.calleeReturned ==> e == Returning(f, c.world, f.calleeReturnValue)
    ensures !f.calleeReturned ==> e == Calling(f, c.world, EvaluateExpression, RuntimeStateArg)
  {
    if f.calleeReturned then Returning(f, c.world, f.calleeReturnValue)
    else Calling(f, c.world, EvaluateExpression, RuntimeStateArg)
  }
}
