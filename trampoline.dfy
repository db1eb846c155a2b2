/**
 * The trampoline of `StatementInterpreter`: a stack of frames, of which
 * `Step` runs the top one once. What a run does is `Dispatch`, from the
 * frame's evaluator to its stage machine; what a step does to the stack,
 * the world and the execution contexts is `StepWith`, for any dispatcher,
 * which the class's `Step` method is proved to implement; `StepSpec` is
 * the step of `Dispatch` itself.
 */
module StatementInterpreters {
  import opened Wrappers
  import opened JsValues
  import opened ExecutionContexts
  import opened Ast
  import opened Hosts
  import opened RuntimeStates
  import opened EngineEvaluators
  import S = StatementEvaluators
  import X = ExpressionInterpreters

  /** `ScriptFunctionInstance.CallState` for a function object, whose code is not part of this model. */
  type CallStateBodies = (Context, JsValue, Frame) -> Effect

  /** What a frame's run does, from the frame and the context it runs in. */
  type Dispatcher = (Context, Frame) -> Effect

  /** The method a frame stores: the stage machine of each evaluator. */
  function EvaluatorMethod(bodies: CallStateBodies, m: Evaluator): Dispatcher {
    match m
    case InterpreterExecuteStatement => S.InterpreterExecuteStatement
    case ExecuteEmptyStatement => S.ExecuteEmptyStatement
    case ExecuteExpressionStatement => S.ExecuteExpressionStatement
    case ExecuteIfStatement => S.ExecuteIfStatement
    case ExecuteLabeledStatement => S.ExecuteLabeledStatement
    case ExecuteDoWhileStatement => S.ExecuteDoWhileStatement
    case ExecuteWhileStatement => S.ExecuteWhileStatement
    case ExecuteForStatement => S.ExecuteForStatement
    case ExecuteForInStatement => S.ExecuteForInStatement
    case ExecuteContinueStatement => S.ExecuteContinueStatement
    case ExecuteBreakStatement => S.ExecuteBreakStatement
    case ExecuteReturnStatement => S.ExecuteReturnStatement
    case ExecuteWithStatement => S.ExecuteWithStatement
    case ExecuteSwitchStatement => S.ExecuteSwitchStatement
    case ExecuteSwitchBlock => S.ExecuteSwitchBlock
    case ExecuteMultipleStatements => S.ExecuteMultipleStatements
    case ExecuteSingleStatement => S.ExecuteSingleStatement
    case ExecuteThrowStatement => S.ExecuteThrowStatement
    case ExecuteTryStatement => S.ExecuteTryStatement
    case ExecuteProgram => S.ExecuteProgram
    case ExecuteStatementList => S.ExecuteStatementList
    case ExecuteVariableDeclaration => S.ExecuteVariableDeclaration
    case ExecuteBlockStatement => S.ExecuteBlockStatement
    case ExecuteStatement => EngineExecuteStatement
    case EvaluateExpression => EngineEvaluateExpression
    case StateInvoke => EngineStateInvoke
    case CallState(functionObject) => (c: Context, f: Frame) => bodies(c, functionObject, f)
    case InterpreterEvaluateExpression => X.InterpreterEvaluateExpression
    case EvaluateConditionalExpression => X.EvaluateConditionalExpression
    case EvaluateAssignmentExpression => X.EvaluateAssignmentExpression
    case EvaluateBinaryExpression => X.EvaluateBinaryExpression
    case EvaluateLogicalExpression => X.EvaluateLogicalExpression
    case EvaluateObjectExpression => X.EvaluateObjectExpression
    case EvaluateMemberExpression => X.EvaluateMemberExpression
    case EvaluateCallExpression => X.EvaluateCallExpression
    case EvaluateSequenceExpression => X.EvaluateSequenceExpression
    case EvaluateUpdateExpression => X.EvaluateUpdateExpression
    case EvaluateNewExpression => X.EvaluateNewExpression
    case EvaluateArrayExpression => X.EvaluateArrayExpression
    case EvaluateUnaryExpression => X.EvaluateUnaryExpression
    case BuildArguments => X.EvaluateBuildArguments
  }

  /** `RuntimeState.Call()`: the method the frame stores, run on the frame. */
  function Dispatch(c: Context, bodies: CallStateBodies, f: Frame): Effect {
    EvaluatorMethod(bodies, f.evaluator)(c, f)
  }

  /** The engine's dispatcher: `Dispatch`, with the given bodies for calls of function objects. */
  function StatementDispatch(bodies: CallStateBodies): Dispatcher {
    (c: Context, f: Frame) => Dispatch(c, bodies, f)
  }

  // ---- the step as a function of the whole machine ----------------------------------

  /** The frames (bottom first), the world and the execution contexts. */
  datatype Machine = Machine(frames: seq<Frame>, world: World, contexts: seq<ExecutionContext>)

  /** What `Step` returned (or the .NET exception that escaped it), and the machine after it. */
  datatype StepResult = StepResult(stepped: Result<bool>, machine: Machine)

  /** `Return(o)` on a non-empty stack: the top frame goes, and the frame below it receives `o`. */
  function ReturnFrames(frames: seq<Frame>, o: Payload): (r: seq<Frame>)
    requires frames != []
    ensures |r| == |frames| - 1
  {
    var rest := frames[..|frames| - 1];
    if rest == [] then []
    else rest[..|rest| - 1] + [rest[|rest| - 1].(calleeReturnValue := o, calleeReturned := true)]
  }

  /** The evaluator's stack action, applied after its own frame was written. */
  function ApplyAction(frames: seq<Frame>, a: Action): seq<Frame>
    requires frames != []
  {
    match a
    case Stay => frames
    case Push(m, x) => frames + [NewFrame(m, x)]
    case Pop(o) => ReturnFrames(frames, o)
    case PopPush(o, m, x) => ReturnFrames(frames, o) + [NewFrame(m, x)]
  }

  /** `UpdateLexicalEnvironment(env)` on a non-empty context stack. */
  function ReplaceTop(contexts: seq<ExecutionContext>, env: Option<EnvironmentId>): seq<ExecutionContext>
    requires env.None? || contexts != []
  {
    if env.None? then contexts
    else contexts[..|contexts| - 1] + [contexts[|contexts| - 1].UpdateLexicalEnvironment(env.value)]
  }

  /**
   * The completion a caught `JavaScriptException` becomes: a throw of the
   * error value at the exception's location or, failing that, at the
   * location of the frame's statement (none for a null argument).
   */
  function ThrowPayload(err: Exception, arg: Arg): Payload
    requires err.JavaScriptException?
  {
    var location := if err.location.Some? then err.location
                    else if arg.StatementArg? then Some(arg.statement.location) else None;
    PCompletion(Completion(CompletionType.Throw, Some(ErrorValue(err.kind)), None, location))
  }

  /**
   * `Step()`: false on an empty stack; otherwise the top frame runs once. A
   * `JavaScriptException` it raises is turned into a Throw completion
   * returned to the frame below, but only after `(Statement)current.arg`,
   * which fails for every frame whose argument is not a statement (or
   * null); every other exception escapes.
   */
  function StepWith(h: Host, dispatch: Dispatcher, m: Machine): StepResult {
    if m.frames == [] then StepResult(Ok(false), m)
    else
      var n := |m.frames|;
      var e := dispatch(Context(h, m.world, m.contexts), m.frames[n - 1]);
      Completed(m.frames[..n - 1] + [e.frame], e, m.contexts)
  }

  /**
   * The rest of `Step` once the top frame has run with effect `e` and its
   * fields were written back, giving the frames `stored`.
   */
  function Completed(stored: seq<Frame>, e: Effect, contexts: seq<ExecutionContext>): StepResult
    requires stored != []
  {
    match e
    case Raised(f, w, err) =>
      if err.ClrException? then StepResult(Err(err), Machine(stored, w, contexts))
      else if !(f.arg.StatementArg? || f.arg.NullArg?) then StepResult(ClrThrow(InvalidCast), Machine(stored, w, contexts))
      else StepResult(Ok(true), Machine(ReturnFrames(stored, ThrowPayload(err, f.arg)), w, contexts))
    case Done(f, w, env, a) =>
      if env.Some? && contexts == [] then StepResult(ClrThrow(IndexOutOfRange), Machine(stored, w, contexts))
      else StepResult(Ok(true), Machine(ApplyAction(stored, a), w, ReplaceTop(contexts, env)))
  }

  /** The step of the engine's own dispatcher. */
  function StepSpec(h: Host, bodies: CallStateBodies, m: Machine): StepResult {
    StepWith(h, StatementDispatch(bodies), m)
  }

  // ---- what a step does ---------------------------------------------------------------

  /** Nothing runs on an empty stack. */
  lemma StepOnEmptyStack(h: Host, dispatch: Dispatcher, w: World, contexts: seq<ExecutionContext>)
    ensures StepWith(h, dispatch, Machine([], w, contexts)) == StepResult(Ok(false), Machine([], w, contexts))
  {
  }

  /**
   * A step on a non-empty stack either reports true or lets a .NET
   * exception escape; it changes the height of the stack by at most one,
   * and leaves every frame below the top two as it was.
   */
  lemma {:induction false} StepKeepsLowerFrames(h: Host, dispatch: Dispatcher, m: Machine)
    requires m.frames != []
    ensures var r := StepWith(h, dispatch, m);
      && (r.stepped == Ok(true) || (r.stepped.Err? && r.stepped.error.ClrException?))
      && |m.frames| - 1 <= |r.machine.frames| <= |m.frames| + 1
      && (forall i :: 0 <= i < |m.frames| - 2 ==> r.machine.frames[i] == m.frames[i])
  {
    var n := |m.frames|;
    var e := dispatch(Context(h, m.world, m.contexts), m.frames[n - 1]);
    var stored := m.frames[..n - 1] + [e.frame];
    assert forall i :: 0 <= i < n - 1 ==> stored[i] == m.frames[i];
    forall o: Payload ensures forall i :: 0 <= i < n - 2 ==> ReturnFrames(stored, o)[i] == m.frames[i] {
      ReturnFramesKeepsLower(stored, o);
    }
  }

  /** Below the new top, `Return` leaves the frames alone, and the new top is the receiver. */
  lemma ReturnFramesKeepsLower(frames: seq<Frame>, o: Payload)
    requires frames != []
    ensures forall i :: 0 <= i < |frames| - 2 ==> ReturnFrames(frames, o)[i] == frames[i]
    ensures |frames| >= 2 ==>
      ReturnFrames(frames, o)[|frames| - 2] == frames[|frames| - 2].(calleeReturnValue := o, calleeReturned := true)
  {
  }

  /**
   * A `JavaScriptException` in a frame whose argument is a statement
   * becomes a Throw completion delivered to the frame below, located at the
   * exception's location or else at the statement.
   */
  lemma JsExceptionInStatementFrame(h: Host, dispatch: Dispatcher, m: Machine, kind: JsErrorKind, location: Option<Location>)
    requires |m.frames| >= 2
    requires var e := dispatch(Context(h, m.world, m.contexts), m.frames[|m.frames| - 1]);
      e.Raised? && e.error == JavaScriptException(kind, location) && e.frame.arg.StatementArg?
    ensures var e := dispatch(Context(h, m.world, m.contexts), m.frames[|m.frames| - 1]);
      var r := StepWith(h, dispatch, m);
      var n := |m.frames|;
      && r.stepped == Ok(true) && r.machine.world == e.world && |r.machine.frames| == n - 1
      && r.machine.frames[n - 2].calleeReturned
      && r.machine.frames[n - 2].calleeReturnValue ==
         PCompletion(Completion(CompletionType.Throw, Some(ErrorValue(kind)), None,
                                if location.Some? then location else Some(e.frame.arg.statement.location)))
  {
    var e := dispatch(Context(h, m.world, m.contexts), m.frames[|m.frames| - 1]);
    ReturnFramesKeepsLower(m.frames[..|m.frames| - 1] + [e.frame], ThrowPayload(e.error, e.frame.arg));
  }

  /**
   * A `JavaScriptException` in an expression frame (or any frame whose
   * argument is not a statement) is not turned into a completion: the cast
   * of the argument fails, and the step ends with an InvalidCastException
   * while the frame stays on the stack.
   */
  lemma JsExceptionInExpressionFrame(h: Host, dispatch: Dispatcher, m: Machine)
    requires m.frames != []
    requires var e := dispatch(Context(h, m.world, m.contexts), m.frames[|m.frames| - 1]);
      e.Raised? && e.error.JavaScriptException? && (e.frame.arg.ExpressionArg? || e.frame.arg.BuildArgumentsArg?)
    ensures var r := StepWith(h, dispatch, m);
      r.stepped == ClrThrow(InvalidCast) && |r.machine.frames| == |m.frames|
  {
  }

  /** An escaping .NET exception leaves the frame (with its writes) on the stack. */
  lemma ClrExceptionEscapes(h: Host, dispatch: Dispatcher, m: Machine)
    requires m.frames != []
    requires var e := dispatch(Context(h, m.world, m.contexts), m.frames[|m.frames| - 1]);
      e.Raised? && e.error.ClrException?
    ensures var e := dispatch(Context(h, m.world, m.contexts), m.frames[|m.frames| - 1]);
      var r := StepWith(h, dispatch, m);
      r.stepped == Err(e.error) && r.machine.frames == m.frames[..|m.frames| - 1] + [e.frame]
  {
  }

  /**
   * The while loop's extra push at the level of the stack: a fresh while
   * frame whose test fails leaves its parent holding the loop's Normal
   * completion and, above the parent, a new frame for the loop's body.
   */
  lemma WhileFalseTestLeavesBodyFrame(h: Host, bodies: CallStateBodies, m: Machine, test: Expression, body: Statement,
                                      labelSet: Option<string>, location: Location)
    requires |m.frames| >= 2
    requires m.frames[|m.frames| - 1] == NewFrame(ExecuteWhileStatement, StatementArg(Statement(While(test, body, labelSet), location)))
    requires var t := S.EvalValue(h, m.world, test); t.result.Ok? && !h.conv.toBoolean(t.result.value)
    ensures var r := StepSpec(h, bodies, m);
      var n := |m.frames|;
      && r.stepped == Ok(true) && |r.machine.frames| == n
      && r.machine.frames[n - 2] ==
         m.frames[n - 2].(calleeReturnValue := PCompletion(Completion(Normal, Some(JsUndefined), None, None)), calleeReturned := true)
      && r.machine.frames[n - 1] == NewFrame(ExecuteStatement, StatementArg(body))
  {
    var c := Context(h, m.world, m.contexts);
    var f := m.frames[|m.frames| - 1];
    S.WhileFalseTestAlsoPushesBody(c, f, test, body, labelSet, location);
    var e := Dispatch(c, bodies, f);
    var o := PCompletion(Completion(Normal, Some(JsUndefined), None, None));
    ReturnFramesKeepsLower(m.frames[..|m.frames| - 1] + [e.frame], o);
  }

  /** The last frame's return empties the stack, and the next step reports false. */
  lemma {:induction false} LastReturnEndsRun(h: Host, dispatch: Dispatcher, m: Machine)
    requires |m.frames| == 1
    requires var e := dispatch(Context(h, m.world, m.contexts), m.frames[0]); e.Done? && e.action.Pop? && e.newLexicalEnvironment.None?
    ensures var r := StepWith(h, dispatch, m);
      r.stepped == Ok(true) && r.machine.frames == [] && StepWith(h, dispatch, r.machine).stepped == Ok(false)
  {
  }

  // ---- the class ------------------------------------------------------------------------

  /** `StatementInterpreter`'s frame stack, bottom first. */
  class StatementInterpreter {
    var stack: seq<RuntimeState>

    /** No frame object is on the stack twice. */
    ghost predicate Valid()
      reads this
    {
      forall i, j :: 0 <= i < j < |stack| ==> stack[i] != stack[j]
    }

    /** The frames' fields, bottom first. */
    function Frames(): (r: seq<Frame>)
      reads this, stack
      ensures |r| == |stack|
      ensures forall i :: 0 <= i < |stack| ==> r[i] == stack[i].Snapshot()
    {
      seq(|stack|, i reads this, stack requires 0 <= i < |stack| => stack[i].Snapshot())
    }

    constructor()
      ensures Valid() && Frames() == []
    {
      stack := [];
    }

    /** `Call(method, arg)`: a new frame on top. */
    method Call(m: Evaluator, a: Arg)
      requires Valid()
      modifies this
      ensures Valid()
      ensures Frames() == old(Frames()) + [NewFrame(m, a)]
      ensures forall i :: 0 <= i < |old(stack)| ==> stack[i] == old(stack)[i]
      ensures forall o :: o in stack ==> o in old(stack) || fresh(o)
    {
      var frame := new RuntimeState(m, a);
      stack := stack + [frame];
      assert forall i :: 0 <= i < |old(stack)| ==> stack[i] == old(stack)[i];
    }

    /**
     * `Return(o)`: pops the top frame and hands `o` to the one below, if
     * any; on an empty stack `Stack.Pop` throws.
     */
    method Return(o: Payload) returns (r: Result<()>)
      requires Valid()
      modifies this, stack
      ensures Valid()
      ensures old(stack) == [] ==> r == ClrThrow(InvalidOperation) && Frames() == old(Frames())
      ensures old(stack) != [] ==> r == Ok(()) && Frames() == ReturnFrames(old(Frames()), o)
      ensures forall o :: o in stack ==> o in old(stack) || fresh(o)
    {
      if |stack| == 0 {
        return ClrThrow(InvalidOperation);
      }
      ghost var before := Frames();
      stack := stack[..|stack| - 1];
      if |stack| > 0 {
        var top := stack[|stack| - 1];
        top.Receive(o);
        assert forall i :: 0 <= i < |stack| - 1 ==> stack[i] != top;
      }
      ReturnFramesKeepsLower(before, o);
      return Ok(());
    }

    /** `Clear()`: drops every frame. */
    method Clear()
      modifies this
      ensures Valid() && stack == [] && Frames() == []
    {
      stack := [];
    }

    /** `ExecuteProgram(program)`: the program's body as the frame on top. */
    method ExecuteProgram(body: seq<Statement>)
      requires Valid()
      modifies this
      ensures Valid()
      ensures Frames() == old(Frames()) + [NewFrame(ExecuteStatementList, StatementListArg(body))]
      ensures forall o :: o in stack ==> o in old(stack) || fresh(o)
    {
      Call(ExecuteStatementList, StatementListArg(body));
    }

    /** The stack action of an evaluator run, on a non-empty stack. */
    method Perform(a: Action)
      requires Valid() && stack != []
      modifies this, stack
      ensures Valid()
      ensures Frames() == ApplyAction(old(Frames()), a)
      ensures forall o :: o in stack ==> o in old(stack) || fresh(o)
    {
      match a {
        case Stay =>
        case Push(m, x) =>
          Call(m, x);
        case Pop(o) =>
          var _ := Return(o);
        case PopPush(o, m, x) =>
          var _ := Return(o);
          Call(m, x);
      }
    }

    /**
     * `Step()`, with the world and the engine's execution contexts passed
     * in and handed back; the result is `StepWith`'s for the dispatcher given.
     */
    method Step(h: Host, dispatch: Dispatcher, world: World, contexts: seq<ExecutionContext>)
      returns (stepped: Result<bool>, newWorld: World, newContexts: seq<ExecutionContext>)
      requires Valid()
      modifies this, stack
      ensures Valid()
      ensures StepResult(stepped, Machine(Frames(), newWorld, newContexts)) == StepWith(h, dispatch, Machine(old(Frames()), world, contexts))
      ensures forall o :: o in stack ==> o in old(stack) || fresh(o)
    {
      if |stack| == 0 {
        return Ok(false), world, contexts;
      }
      ghost var before := Frames();
      var c := Context(h, world, contexts);
      var current := stack[|stack| - 1];
      var e := current.Call(f => dispatch(c, f));
      current.Store(e.frame);
      assert forall i :: 0 <= i < |stack| - 1 ==> stack[i] != current;
      assert Frames() == before[..|before| - 1] + [e.frame];
      stepped, newWorld, newContexts := Complete(e, contexts);
    }

    /** The rest of `Step`, as `Completed` describes, once the top frame holds the run's writes. */
    method Complete(e: Effect, contexts: seq<ExecutionContext>)
      returns (stepped: Result<bool>, newWorld: World, newContexts: seq<ExecutionContext>)
      requires Valid() && stack != []
      modifies this, stack
      ensures Valid()
      ensures StepResult(stepped, Machine(Frames(), newWorld, newContexts)) == Completed(old(Frames()), e, contexts)
      ensures forall o :: o in stack ==> o in old(stack) || fresh(o)
    {
      newWorld, newContexts := e.world, contexts;
      match e {
        case Raised(f, _, err) =>
          if err.ClrException? {
            stepped := Err(err);
          } else if !(f.arg.StatementArg? || f.arg.NullArg?) {
            stepped := ClrThrow(InvalidCast);
          } else {
            var _ := Return(ThrowPayload(err, f.arg));
            stepped := Ok(true);
          }
        case Done(_, _, env, a) =>
          if env.Some? && |contexts| == 0 {
            stepped := ClrThrow(IndexOutOfRange);
            return;
          }
          newContexts := ReplaceTop(contexts, env);
          Perform(a);
          stepped := Ok(true);
      }
    }
  }
}
