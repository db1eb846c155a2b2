/**
 * The frames of the trampoline (`RuntimeState`): which evaluator a frame
 * runs, its argument, its evaluator-specific locals, the value its last
 * callee returned, and what one run of an evaluator does to the frame
 * stack and the engine.
 */
module RuntimeStates {
  import opened Wrappers
  import opened JsValues
  import opened References
  import opened ExecutionContexts
  import opened Ast
  import opened Hosts

  /**
   * The `Action<RuntimeState>` a frame stores, named after the method it
   * delegates to. The two `Interpreter...` members are the private
   * re-dispatching wrappers of the statement and expression interpreters.
   */
  datatype Evaluator =
    // StatementInterpreter
    | InterpreterExecuteStatement
    | ExecuteEmptyStatement
    | ExecuteExpressionStatement
    | ExecuteIfStatement
    | ExecuteLabeledStatement
    | ExecuteDoWhileStatement
    | ExecuteWhileStatement
    | ExecuteForStatement
    | ExecuteForInStatement
    | ExecuteContinueStatement
    | ExecuteBreakStatement
    | ExecuteReturnStatement
    | ExecuteWithStatement
    | ExecuteSwitchStatement
    | ExecuteSwitchBlock
    | ExecuteMultipleStatements
    | ExecuteSingleStatement
    | ExecuteThrowStatement
    | ExecuteTryStatement
    | ExecuteProgram
    | ExecuteStatementList
    | ExecuteVariableDeclaration
    | ExecuteBlockStatement
    // Engine
    | ExecuteStatement
    | EvaluateExpression
    | StateInvoke
    // ScriptFunctionInstance.CallState of the given function object
    | CallState(functionObject: JsValue)
    // ExpressionInterpreter
    | InterpreterEvaluateExpression
    | EvaluateConditionalExpression
    | EvaluateAssignmentExpression
    | EvaluateBinaryExpression
    | EvaluateLogicalExpression
    | EvaluateObjectExpression
    | EvaluateMemberExpression
    | EvaluateCallExpression
    | EvaluateSequenceExpression
    | EvaluateUpdateExpression
    | EvaluateNewExpression
    | EvaluateArrayExpression
    | EvaluateUnaryExpression
    | BuildArguments

  /**
   * The `object arg` of a frame. `BuildArgumentsArg` carries the contents
   * of the target array it fills; `InvokeArg` carries the CLR `this`
   * object and arguments, null as `None`. `RuntimeStateArg` is a frame
   * passed as the argument of another frame.
   */
  datatype Arg =
    | NullArg
    | StatementArg(statement: Statement)
    | ExpressionArg(expression: Expression)
    | StatementListArg(statements: seq<Statement>)
    | SwitchBlockArg(switchBlock: seq<SwitchCase>, input: JsValue)
    | BuildArgumentsArg(expressionArguments: seq<Expression>, targetArray: seq<JsValue>)
    | InvokeArg(value: JsValue, thisObject: Option<ClrObject>, invokeArguments: seq<Option<ClrObject>>)
    | CallArg(callThis: JsValue, callArguments: seq<JsValue>)
    | RuntimeStateArg

  /** The `object local` of a frame: null, one of the evaluators' local records, or a plain value. */
  datatype Local =
    | NoLocal
    | Flag                                  // BuildArguments' `state.local = true`
    | PayloadLocal(payload: Payload)
    | DoWhileLocal(v: JsValue, iterating: bool)
    | WhileLocal(v: JsValue)
    | ForLocal(init: ForInit, v: JsValue, forStage: nat)
    | ForInLocal(forInStage: nat, identifier: Option<string>, varRef: Option<Reference>, experValue: Option<JsValue>,
                 cursor: Option<JsValue>, forInV: Option<JsValue>)
    | WithLocal(oldEnv: Option<EnvironmentId>)
    | SwitchBlockLocal(defaultCase: Option<SwitchCase>, v: JsValue, hit: bool, blockStage: nat,
                       switchBlockCount: nat, i: nat)
    | MultipleLocal(sl: Completion, c: Completion, statementListCount: nat, i: nat, listStage: nat)
    | TryLocal(tryStage: nat, tryOldEnv: Option<EnvironmentId>, b: Option<Completion>)
    | CallExpressionLocal(callee: Payload, callArgumentValues: seq<JsValue>)

  /** A snapshot of a `RuntimeState`'s fields. */
  datatype Frame = Frame(
    evaluator: Evaluator,   // the `method` field
    arg: Arg,
    local: Local,
    local2: Payload,
    calleeReturnValue: Payload,
    calleeReturned: bool,
    stage: nat)

  /** `new RuntimeState(method, arg)`: the field initialisers of the class. */
  function NewFrame(evaluator: Evaluator, arg: Arg): (f: Frame)
    ensures f.evaluator == evaluator && f.arg == arg
    ensures f.stage == 0 && !f.calleeReturned && f.local == NoLocal && f.local2 == PNull
  {
    Frame(evaluator, arg, NoLocal, PNull, PNull, false, 0)
  }

  /**
   * What a run of an evaluator did to the frame stack after writing its own
   * frame: nothing, `Call(method, arg)`, `Return(value)`, or both a
   * `Return` and then a `Call` (which then pushes onto the parent).
   */
  datatype Action =
    | Stay
    | Push(evaluator: Evaluator, arg: Arg)
    | Pop(value: Payload)
    | PopPush(popValue: Payload, pushMethod: Evaluator, pushArg: Arg)

  /**
   * One run of an evaluator: the frame's new fields and the world after
   * it, and then either the environment it installed with
   * `UpdateLexicalEnvironment` and its action, or the exception it raised.
   */
  datatype Effect =
    | Done(frame: Frame, world: World, newLexicalEnvironment: Option<EnvironmentId>, action: Action)
    | Raised(frame: Frame, world: World, error: Exception)

  /** The world and the execution contexts the evaluators read. */
  datatype Context = Context(host: Host, world: World, contexts: seq<ExecutionContext>)
  {
    /** `ExecutionContext.LexicalEnvironment`: `Peek` fails on an empty stack. */
    function LexicalEnvironment(): (r: Result<EnvironmentId>)
      ensures r.Err? <==> contexts == []
      ensures r.Err? ==> r.error == ClrException(InvalidOperation)
      ensures r.Ok? ==> r.value == contexts[|contexts| - 1].lexicalEnvironment
    {
      if |contexts| == 0 then ClrThrow(InvalidOperation) else Ok(contexts[|contexts| - 1].lexicalEnvironment)
    }

    function ThisBinding(): (r: Result<JsValue>)
      ensures r.Err? <==> contexts == []
      ensures r.Ok? ==> r.value == contexts[|contexts| - 1].thisBinding
    {
      if |contexts| == 0 then ClrThrow(InvalidOperation) else Ok(contexts[|contexts| - 1].thisBinding)
    }

    function Strict(): bool { host.isStrict(world) }
  }

  // ---- what an evaluator run ends with ---------------------------------------

  /** `Return(o)` after the frame's own writes. */
  function Returning(f: Frame, w: World, o: Payload): Effect {
    Done(f, w, None, Pop(o))
  }

  /** `Call(method, arg)` after the frame's own writes. */
  function Calling(f: Frame, w: World, m: Evaluator, a: Arg): Effect {
    Done(f, w, None, Push(m, a))
  }

  /** A plain `return` from the evaluator: the trampoline runs the frame again next step. */
  function Staying(f: Frame, w: World): Effect {
    Done(f, w, None, Stay)
  }

  /** The exception of a failed operation, with the world it left behind. */
  function RaisedBy<T>(f: Frame, o: Outcome<T>): Effect
    requires o.result.Err?
  {
    Raised(f, o.world, o.result.error)
  }

  function Fail(f: Frame, w: World, kind: ClrErrorKind): Effect {
    Raised(f, w, ClrException(kind))
  }

  /** `new Completion(type, value, identifier)`: the three-argument constructor leaves the location null. */
  function CompletionPayload(t: CompletionType, v: Option<JsValue>, id: Option<string>): Payload {
    PCompletion(Completion(t, v, id, None))
  }

  /**
   * `(Completion)o` where the completion is used straight away: null fails
   * with a NullReference at the first member access, any other object with
   * an invalid cast.
   */
  function CompletionOf(o: Payload): (r: Result<Completion>)
    ensures r.Ok? <==> o.PCompletion?
    ensures r.Ok? ==> r.value == o.c
  {
    match o
    case PCompletion(c) => Ok(c)
    case PNull => ClrThrow(NullReference)
    case _ => ClrThrow(InvalidCast)
  }

  /** A frame argument of the wrong class: null is dereferenced, anything else fails the cast. */
  function BadArg(f: Frame, w: World): Effect {
    if f.arg.NullArg? then Fail(f, w, NullReference) else Fail(f, w, InvalidCast)
  }

  class RuntimeState {
    var evaluator: Evaluator   // `method`
    var arg: Arg
    var local: Local
    var local2: Payload
    var calleeReturnValue: Payload
    var calleeReturned: bool
    var stage: nat

    /** The fields as a value. */
    function Snapshot(): Frame
      reads this
    {
      Frame(evaluator, arg, local, local2, calleeReturnValue, calleeReturned, stage)
    }

    /** A fresh frame: stage 0, no callee result, no locals, `method` and `arg` as given. */
    constructor(evaluator: Evaluator, arg: Arg)
      ensures Snapshot() == NewFrame(evaluator, arg)
    {
      this.evaluator := evaluator;
      this.arg := arg;
      local := NoLocal;
      local2 := PNull;
      calleeReturnValue := PNull;
      calleeReturned := false;
      stage := 0;
    }

    /**
     * `Call()`: runs the stored evaluator on this frame. `run` interprets an
     * evaluator on a frame; the frame itself is not changed here, the
     * caller stores the evaluator's writes.
     */
    method Call(run: Frame -> Effect) returns (e: Effect)
      ensures e == run(Snapshot())
    {
      e := run(Snapshot());
    }

    /** Writes the fields an evaluator left behind. */
    method Store(f: Frame)
      modifies this
      ensures Snapshot() == f
    {
      evaluator, arg, local, local2 := f.evaluator, f.arg, f.local, f.local2;
      calleeReturnValue, calleeReturned, stage := f.calleeReturnValue, f.calleeReturned, f.stage;
    }

    /** The part of `Return` that writes the parent: the callee's value, and the flag. */
    method Receive(o: Payload)
      modifies this
      ensures Snapshot() == old(Snapshot()).(calleeReturnValue := o, calleeReturned := true)
    {
      calleeReturnValue := o;
      calleeReturned := true;
    }
  }
}
