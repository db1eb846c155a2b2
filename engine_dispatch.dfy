/**
 * The engine's three frame evaluators: `Engine.ExecuteStatement` and
 * `Engine.EvaluateExpression`, which dispatch on a node's type to the
 * evaluator for that kind of node (or answer at once for the nodes that
 * need no frame of their own), and `Engine.StateInvoke`, the frame a host
 * call of a script function starts from.
 */
module EngineEvaluators {
  import opened Wrappers
  import opened JsValues
  import opened Ast
  import opened Hosts
  import opened RuntimeStates
  import opened EngineReferences
  import opened ExpressionInterpreters

  // ---- statements ----------------------------------------------------------------------

  /** The statement types whose frame is handed back unchanged when their evaluator returns. */
  predicate PassesResultThrough(t: Nodes) {
    t in {Nodes.BlockStatement, Nodes.VariableDeclaration, Nodes.BreakStatement, Nodes.ContinueStatement,
          Nodes.DoWhileStatement, Nodes.ForStatement, Nodes.ForInStatement, Nodes.IfStatement,
          Nodes.LabeledStatement, Nodes.SwitchStatement, Nodes.ThrowStatement, Nodes.TryStatement,
          Nodes.WhileStatement, Nodes.WithStatement, Nodes.Program}
  }

  /** The interpreter evaluator a statement type is called with, its node being the argument. */
  function StatementEvaluator(t: Nodes): Option<Evaluator> {
    match t
    case VariableDeclaration => Some(ExecuteVariableDeclaration)
    case BreakStatement => Some(ExecuteBreakStatement)
    case ContinueStatement => Some(ExecuteContinueStatement)
    case DoWhileStatement => Some(ExecuteDoWhileStatement)
    case ForStatement => Some(ExecuteForStatement)
    case ForInStatement => Some(ExecuteForInStatement)
    case IfStatement => Some(ExecuteIfStatement)
    case LabeledStatement => Some(ExecuteLabeledStatement)
    case SwitchStatement => Some(ExecuteSwitchStatement)
    case ThrowStatement => Some(ExecuteThrowStatement)
    case TryStatement => Some(ExecuteTryStatement)
    case WhileStatement => Some(ExecuteWhileStatement)
    case WithStatement => Some(ExecuteWithStatement)
    case Program => Some(ExecuteProgram)
    case _ => None
  }

  /**
   * The first run of a statement frame: a block's body goes to the list
   * evaluator, a `return`'s argument and an expression statement's
   * expression to `EvaluateExpression`, an empty statement and a function
   * declaration complete normally at once, and every other handled kind is
   * called with its node. The cast of the node to its class fails for a
   * node whose class does not match its type.
   */
  function StatementDispatch(c: Context, f: Frame, s: Statement): Effect {
    var t := StatementType(s);
    if t == Nodes.EmptyStatement || t == Nodes.FunctionDeclaration then
      Returning(f, c.world, CompletionPayload(Normal, None, None))
    else if t == Nodes.BlockStatement || t == Nodes.ReturnStatement || t == Nodes.ExpressionStatement || StatementEvaluator(t).Some? then
      match s.node
      case OtherStatement(_) => Fail(f, c.world, InvalidCast)
      case Block(body) => Calling(f, c.world, ExecuteStatementList, StatementListArg(body))
      case Return(argument) => Calling(f, c.world, EvaluateExpression, if argument.Some? then ExpressionArg(argument.value) else NullArg)
      case ExpressionStmt(e) => Calling(f, c.world, EvaluateExpression, ExpressionArg(e))
      case _ => Calling(f, c.world, StatementEvaluator(t).value, StatementArg(s))
    else Fail(f, c.world, ArgumentOutOfRange)
  }

  /**
   * A statement frame whose callee returned: most kinds hand the result
   * back as it is; `return` wraps its argument's value (Undefined when it
   * has none) in a Return completion, and an expression statement wraps
   * its value in a Normal completion.
   */
  function StatementReturned(c: Context, f: Frame, s: Statement): Effect {
    var t := StatementType(s);
    if PassesResultThrough(t) then Returning(f, c.world, f.calleeReturnValue)
    else if t == Nodes.ReturnStatement then
      if !s.node.Return? then Fail(f, c.world, InvalidCast)
      else if s.node.returnArgument.None? then Returning(f, c.world, CompletionPayload(CompletionType.Return, Some(JsUndefined), None))
      else
        var v := GetValue(c.host, c.world, f.calleeReturnValue);
        if v.result.Err? then RaisedBy(f, v) else Returning(f, v.world, CompletionPayload(CompletionType.Return, Some(v.result.value), None))
    else if t == Nodes.ExpressionStatement then
      var v := GetValue(c.host, c.world, f.calleeReturnValue);
      if v.result.Err? then RaisedBy(f, v) else Returning(f, v.world, CompletionPayload(Normal, Some(v.result.value), None))
    else Fail(f, c.world, ArgumentOutOfRange)
  }

  /** `Engine.ExecuteStatement`: the argument is cast to a statement before anything else. */
  function EngineExecuteStatement(c: Context, f: Frame): Effect {
    match f.arg
    // `statement.Type` of a null statement
    case NullArg => Fail(f, c.world, NullReference)
    case StatementArg(s) => if f.calleeReturned then StatementReturned(c, f, s) else StatementDispatch(c, f, s)
    case _ => Fail(f, c.world, InvalidCast)
  }

  /**
   * When the pushed frame returns a value `v`, a `return e;` frame
   * completes with Return and `v`, an expression statement with Normal and
   * `v`, and the other kinds pass the callee's result through unchanged.
   */
  lemma StatementResultMapping(c: Context, f: Frame, s: Statement, v: JsValue)
    requires f.arg == StatementArg(s) && f.calleeReturned && f.calleeReturnValue == PValue(v)
    ensures s.node.Return? && s.node.returnArgument.Some? ==>
      EngineExecuteStatement(c, f) == Returning(f, c.world, CompletionPayload(CompletionType.Return, Some(v), None))
    ensures s.node.ExpressionStmt? ==>
      EngineExecuteStatement(c, f) == Returning(f, c.world, CompletionPayload(Normal, Some(v), None))
    ensures PassesResultThrough(StatementType(s)) ==> EngineExecuteStatement(c, f) == Returning(f, c.world, PValue(v))
  {
  }

  /**
   * Every statement of a handled kind starts without touching the world:
   * the first run either completes normally at once (empty statements and
   * function declarations) or pushes exactly one frame.
   */
  lemma StatementDispatchPushesOneFrame(c: Context, f: Frame, s: Statement)
    requires f.arg == StatementArg(s) && !f.calleeReturned && !s.node.OtherStatement?
    ensures var e := EngineExecuteStatement(c, f);
      && e.Done? && e.world == c.world && e.frame == f && e.newLexicalEnvironment.None?
      && (s.node.Empty? || s.node.FunctionDecl? <==> e.action == Pop(CompletionPayload(Normal, None, None)))
      && (!(s.node.Empty? || s.node.FunctionDecl?) ==> e.action.Push?)
  {
  }

  /**
   * `return;` never completes: the engine pushes `EvaluateExpression` with
   * the absent argument as a null node, and that frame fails with a
   * NullReferenceException when it reads the node's type. (The statement
   * interpreter's own `ExecuteReturnStatement`, which handles the absent
   * argument, is not on this path.)
   */
  lemma ReturnWithoutArgumentFails(c: Context, f: Frame, location: Location)
    requires f.arg == StatementArg(Statement(StatementNode.Return(None), location)) && !f.calleeReturned
    ensures var e := EngineExecuteStatement(c, f);
      && e == Calling(f, c.world, EvaluateExpression, NullArg)
      && EngineEvaluateExpression(c, NewFrame(EvaluateExpression, NullArg)).Raised?
      && EngineEvaluateExpression(c, NewFrame(EvaluateExpression, NullArg)).error == ClrException(NullReference)
  {
  }

  // ---- expressions ---------------------------------------------------------------------

  /** The expression evaluator a node type is called with; the four kinds answered inline have none. */
  function ExpressionEvaluator(t: Nodes): Option<Evaluator> {
    match t
    case AssignmentExpression => Some(EvaluateAssignmentExpression)
    case ArrayExpression => Some(EvaluateArrayExpression)
    case BinaryExpression => Some(EvaluateBinaryExpression)
    case CallExpression => Some(EvaluateCallExpression)
    case ConditionalExpression => Some(EvaluateConditionalExpression)
    case LogicalExpression => Some(EvaluateLogicalExpression)
    case MemberExpression => Some(EvaluateMemberExpression)
    case NewExpression => Some(EvaluateNewExpression)
    case ObjectExpression => Some(EvaluateObjectExpression)
    case SequenceExpression => Some(EvaluateSequenceExpression)
    case UpdateExpression => Some(EvaluateUpdateExpression)
    case UnaryExpression => Some(EvaluateUnaryExpression)
    case _ => None
  }

  predicate InlineExpressionType(t: Nodes) {
    t in {Nodes.FunctionExpression, Nodes.Identifier, Nodes.Literal, Nodes.ThisExpression}
  }

  /**
   * The cast of a node to the class its type names: binary and logical
   * expressions share a class, and so do unary and update expressions.
   */
  predicate CastsTo(e: Expression, t: Nodes) {
    match t
    case AssignmentExpression => e.Assignment?
    case ArrayExpression => e.Array?
    case BinaryExpression => e.Binary?
    case LogicalExpression => e.Binary?
    case CallExpression => e.Call?
    case ConditionalExpression => e.Conditional?
    case MemberExpression => e.Member?
    case NewExpression => e.New?
    case ObjectExpression => e.Object?
    case SequenceExpression => e.Sequence?
    case UpdateExpression => e.Unary?
    case UnaryExpression => e.Unary?
    case FunctionExpression => e.Function?
    case Identifier => e.Identifier?
    case Literal => e.Literal?
    case ThisExpression => e.This?
    case _ => false
  }

  /**
   * The first run of an expression frame: the kinds with a stage machine
   * are pushed with the node as argument; functions, identifiers, literals
   * and `this` are evaluated here and returned.
   */
  function ExpressionDispatch(c: Context, f: Frame, e: Expression): Effect {
    var t := ExpressionType(e);
    if ExpressionEvaluator(t).None? && !InlineExpressionType(t) then Fail(f, c.world, ArgumentOutOfRange)
    else if !CastsTo(e, t) then Fail(f, c.world, InvalidCast)
    else if ExpressionEvaluator(t).Some? then Calling(f, c.world, ExpressionEvaluator(t).value, ExpressionArg(e))
    else
      match e
      case Function(info) =>
        var r := EvaluateFunctionExpression(c, c.world, info);
        if r.Err? then Raised(f, c.world, r.error) else Returning(f, r.value.1, PValue(r.value.0))
      case Identifier(name) =>
        var r := EvaluateIdentifier(c, c.world, name);
        if r.Err? then Raised(f, c.world, r.error) else Returning(f, c.world, PReference(r.value))
      case Literal(literal) =>
        var (v, w1) := EvaluateLiteral(c.host, c.world, literal);
        Returning(f, w1, PValue(v))
      case _ =>
        var r := EvaluateThisExpression(c);
        if r.Err? then Raised(f, c.world, r.error) else Returning(f, c.world, PValue(r.value))
  }

  /**
   * `Engine.EvaluateExpression`: the argument is cast to a node first, so
   * anything but a node (or null) fails the cast even after a return; a
   * returned value is handed back unchanged. A statement is a node but no
   * case matches its type.
   */
  function EngineEvaluateExpression(c: Context, f: Frame): Effect {
    match f.arg
    case NullArg => if f.calleeReturned then Returning(f, c.world, f.calleeReturnValue) else Fail(f, c.world, NullReference)
    case ExpressionArg(e) => if f.calleeReturned then Returning(f, c.world, f.calleeReturnValue) else ExpressionDispatch(c, f, e)
    case StatementArg(s) =>
      if f.calleeReturned then Returning(f, c.world, f.calleeReturnValue)
      else
        var t := StatementType(s);
        if ExpressionEvaluator(t).Some? || InlineExpressionType(t) then Fail(f, c.world, InvalidCast)
        else Fail(f, c.world, ArgumentOutOfRange)
    case _ => Fail(f, c.world, InvalidCast)
  }

  /**
   * A node whose class matches its type is never rejected: it is pushed to
   * the evaluator that its type names, or answered inline; and whatever it
   * pushed returns through this frame unchanged.
   */
  lemma ExpressionDispatchTotal(c: Context, f: Frame, e: Expression)
    requires f.arg == ExpressionArg(e) && CastsTo(e, ExpressionType(e))
    ensures var r := EngineEvaluateExpression(c, f);
      && (f.calleeReturned ==> r == Returning(f, c.world, f.calleeReturnValue))
      && (!f.calleeReturned && ExpressionEvaluator(ExpressionType(e)).Some? ==>
            r == Calling(f, c.world, ExpressionEvaluator(ExpressionType(e)).value, ExpressionArg(e)))
      && (!f.calleeReturned && ExpressionEvaluator(ExpressionType(e)).None? ==> r.Raised? || r.action.Pop?)
  {
  }

  /** An identifier is answered with a reference, not a value: the reading is left to the consumer. */
  lemma IdentifierYieldsReference(c: Context, f: Frame, name: string)
    requires f.arg == ExpressionArg(Expression.Identifier(name)) && !f.calleeReturned && c.contexts != []
    ensures EngineEvaluateExpression(c, f) ==
      Returning(f, c.world, PReference(c.host.identifierReference(c.world, c.LexicalEnvironment().value, name, c.host.isStrict(c.world))))
  {
  }

  /**
   * The private `EvaluateExpression` of the expression interpreter hands
   * its frame to the engine's evaluator as the node, which cannot be cast:
   * the pair fails on the first run.
   */
  lemma InterpreterExpressionWrapperFails(c: Context, f: Frame)
    requires !f.calleeReturned
    ensures ExpressionInterpreters.InterpreterEvaluateExpression(c, f) == Calling(f, c.world, EvaluateExpression, RuntimeStateArg)
    ensures EngineEvaluateExpression(c, NewFrame(EvaluateExpression, RuntimeStateArg)) ==
      Fail(NewFrame(EvaluateExpression, RuntimeStateArg), c.world, InvalidCast)
  {
  }

  // ---- host calls ----------------------------------------------------------------------

  /** The CLR arguments of a host call marshalled into script values, one by one. */
  function Marshalled(h: Host, arguments: seq<Option<ClrObject>>): (r: seq<JsValue>)
    ensures |r| == |arguments|
    ensures forall i :: 0 <= i < |arguments| ==> r[i] == FromObject(h, arguments[i])
  {
    if arguments == [] then [] else Marshalled(h, arguments[..|arguments| - 1]) + [FromObject(h, arguments[|arguments| - 1])]
  }

  /** The marshalling loop of `StateInvoke`: a rented array filled slot by slot. */
  method MarshalArguments(h: Host, arguments: seq<Option<ClrObject>>) returns (values: seq<JsValue>)
    ensures values == Marshalled(h, arguments)
  {
    var a := new JsValue[|arguments|](_ => JsUndefined);
    for i := 0 to |arguments|
      invariant forall j :: 0 <= j < i ==> a[j] == FromObject(h, arguments[j])
    {
      a[i] := FromObject(h, arguments[i]);
    }
    values := a[..];
  }

  /**
   * `Engine.StateInvoke`: only callables can be invoked; the arguments are
   * marshalled into the frame's local; a script function gets a frame for
   * its body with the marshalled `this` and arguments, and any other
   * callable returns null without being called. When the body's frame
   * returns, its result is handed back.
   */
  function EngineStateInvoke(c: Context, f: Frame): Effect {
    match f.arg
    case InvokeArg(value, thisObject, arguments) =>
      if f.calleeReturned then
        // `(JsValue[])state.local` handed back to the pool
        if f.local.NoLocal? || (f.local.PayloadLocal? && f.local.payload.PArguments?) then Returning(f, c.world, f.calleeReturnValue)
        else Fail(f, c.world, InvalidCast)
      else if As(value, ICallableType).None? then Fail(f, c.world, ArgumentError)
      else
        var values := Marshalled(c.host, arguments);
        var f1 := f.(local := PayloadLocal(PArguments(values)));
        if value.kind.ScriptFunction? then Calling(f1, c.world, CallState(value), CallArg(FromObject(c.host, thisObject), values))
        else Returning(f1, c.world, PNull)
    // `args.value` of a null argument
    case NullArg => Fail(f, c.world, NullReference)
    case _ => Fail(f, c.world, InvalidCast)
  }

  /**
   * The three outcomes of a first `StateInvoke` run: a non-callable is an
   * ArgumentException, a native function is never called (null comes
   * back), and a script function's body frame receives each argument as
   * `JsValue.FromObject` marshals it, with a null `this` as Null.
   */
  lemma {:induction false} StateInvokeOutcomes(c: Context, f: Frame, value: JsValue, thisObject: Option<ClrObject>, arguments: seq<Option<ClrObject>>)
    requires f.arg == InvokeArg(value, thisObject, arguments) && !f.calleeReturned
    ensures !IsCallable(value) ==> EngineStateInvoke(c, f) == Fail(f, c.world, ArgumentError)
    ensures IsCallable(value) && value.kind.NativeFunction? ==>
      var e := EngineStateInvoke(c, f); e.Done? && e.action == Pop(PNull) && e.world == c.world
    ensures IsCallable(value) && value.kind.ScriptFunction? ==>
      var e := EngineStateInvoke(c, f);
      && e.Done? && e.action.Push? && e.action.evaluator == CallState(value) && e.action.arg.CallArg?
      && (thisObject.None? ==> e.action.arg.callThis == JsNull)
      && |e.action.arg.callArguments| == |arguments|
      && (forall i :: 0 <= i < |arguments| && arguments[i].Some? && arguments[i].value.BoxedJsValue? ==>
            e.action.arg.callArguments[i] == arguments[i].value.v)
  {
    if IsCallable(value) {
      assert As(value, ICallableType) == Some(value);
    } else {
      assert As(value, ICallableType) == None;
    }
  }
}
