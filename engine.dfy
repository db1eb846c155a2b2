/**
 * The parts of `Engine` a host drives: `Step` and `Clear` forward to the
 * statement interpreter, `Invoke` queues a call of a function value,
 * `Execute` hoists a program's declarations into the global record and
 * queues its body. `Run` is what a host's throttled loop of `Step` calls
 * does to the machine.
 */
module Engines {
  import opened Wrappers
  import opened JsValues
  import opened ExecutionContexts
  import opened Ast
  import opened Hosts
  import opened RuntimeStates
  import opened StatementInterpreters
  import opened DeclarationBindings

  /** How a run of at most `k` steps ends: the exception that escaped a step, if any, and the machine after it. */
  datatype RunResult = RunResult(error: Option<Exception>, machine: Machine)

  /**
   * `for (i = 0; i < k && engine.Step(); i++);` for any step function:
   * at most `k` steps, stopping after the first that reports false, or at
   * the first exception.
   */
  function RunWith(step: Machine -> StepResult, m: Machine, k: nat): RunResult
    decreases k
  {
    if k == 0 then RunResult(None, m)
    else
      var r := step(m);
      if r.stepped.Err? then RunResult(Some(r.stepped.error), r.machine)
      else if !r.stepped.value then RunResult(None, r.machine)
      else RunWith(step, r.machine, k - 1)
  }

  /** The throttled loop over the engine's own `Step`. */
  function Run(h: Host, dispatch: Dispatcher, m: Machine, k: nat): RunResult
  {
    RunWith(m' => StepWith(h, dispatch, m'), m, k)
  }

  /** The rest of a run after a step with result `r`, with `k` steps still allowed. */
  function RunAfter(h: Host, dispatch: Dispatcher, r: StepResult, k: nat): RunResult
  {
    if r.stepped.Err? then RunResult(Some(r.stepped.error), r.machine)
    else if !r.stepped.value then RunResult(None, r.machine)
    else Run(h, dispatch, r.machine, k)
  }

  /** A run of `k + 1` steps is one step, then the rest. */
  lemma RunFirstStep(h: Host, dispatch: Dispatcher, m: Machine, k: nat, r: StepResult)
    requires r == StepWith(h, dispatch, m)
    ensures Run(h, dispatch, m, k + 1) == RunAfter(h, dispatch, r, k)
  {
  }

  /** A step that reports false found the stack empty and changed nothing. */
  lemma {:induction false} FalseStepChangesNothing(h: Host, dispatch: Dispatcher, m: Machine)
    requires StepWith(h, dispatch, m).stepped == Ok(false)
    ensures m.frames == [] && StepWith(h, dispatch, m).machine == m
  {
    if m.frames != [] {
      StepKeepsLowerFrames(h, dispatch, m);
    }
  }

  /** Steps on an empty stack do nothing, however many are allowed. */
  lemma {:induction false} RunOnEmptyStack(h: Host, dispatch: Dispatcher, m: Machine, k: nat)
    requires m.frames == []
    ensures Run(h, dispatch, m, k) == RunResult(None, m)
  {
  }

  /** Splitting a run of any step function whose false steps change nothing. */
  lemma {:induction false} RunWithSplits(step: Machine -> StepResult, m: Machine, a: nat, b: nat)
    requires forall m' :: step(m').stepped == Ok(false) ==> step(m').machine == m'
    ensures var first := RunWith(step, m, a);
      RunWith(step, m, a + b) == if first.error.Some? then first else RunWith(step, first.machine, b)
    decreases a
  {
    if a > 0 {
      var r := step(m);
      if r.stepped.Ok? && r.stepped.value {
        RunWithSplits(step, r.machine, a - 1, b);
        assert a + b - 1 == (a - 1) + b;
      }
    }
  }

  /**
   * Throttling does not change what runs: `a` steps in one tick and `b` in
   * the next do what `a + b` steps in one tick do, unless the first tick
   * ended with an exception.
   */
  lemma {:induction false} RunSplits(h: Host, dispatch: Dispatcher, m: Machine, a: nat, b: nat)
    ensures var first := Run(h, dispatch, m, a);
      Run(h, dispatch, m, a + b) == if first.error.Some? then first else Run(h, dispatch, first.machine, b)
  {
    var step := m' => StepWith(h, dispatch, m');
    forall m' | step(m').stepped == Ok(false)
      ensures step(m').machine == m'
    {
      FalseStepChangesNothing(h, dispatch, m');
    }
    RunWithSplits(step, m, a, b);
  }

  class Engine {
    const host: Host
    const dispatch: Dispatcher
    var world: World
    var contexts: seq<ExecutionContext>   // `_executionContexts`, bottom first
    const statements: StatementInterpreter

    ghost predicate Valid()
      reads this, statements
    {
      statements.Valid()
    }

    /** The frames, the world and the execution contexts. */
    function State(): Machine
      reads this, statements, statements.stack
    {
      Machine(statements.Frames(), world, contexts)
    }

    constructor(host: Host, bodies: CallStateBodies, world: World, contexts: seq<ExecutionContext>)
      ensures Valid() && fresh(statements)
      ensures this.host == host && dispatch == StatementDispatch(bodies)
      ensures State() == Machine([], world, contexts)
    {
      this.host := host;
      dispatch := StatementDispatch(bodies);
      this.world := world;
      this.contexts := contexts;
      statements := new StatementInterpreter();
    }

    /** `Step()`: one step of the trampoline. */
    method Step() returns (r: Result<bool>)
      requires Valid()
      modifies this, statements, statements.stack
      ensures Valid()
      ensures StepResult(r, State()) == StepWith(host, dispatch, old(State()))
      ensures forall o :: o in statements.stack ==> o in old(statements.stack) || fresh(o)
    {
      r, world, contexts := statements.Step(host, dispatch, world, contexts);
    }

    /** `Clear()`: drops every frame; the world and the contexts stay. */
    method Clear()
      requires Valid()
      modifies statements
      ensures Valid()
      ensures State() == old(State()).(frames := [])
      ensures statements.stack == [] && world == old(world) && contexts == old(contexts)
    {
      statements.Clear();
    }

    /** `Invoke(value, thisObj, arguments)`: queues a `StateInvoke` frame for the call. */
    method Invoke(value: JsValue, thisObject: Option<ClrObject>, arguments: seq<Option<ClrObject>>)
      requires Valid()
      modifies statements
      ensures Valid()
      ensures State() == old(State()).(frames := old(State()).frames + [NewFrame(StateInvoke, InvokeArg(value, thisObject, arguments))])
      ensures forall o :: o in statements.stack ==> o in old(statements.stack) || fresh(o)
    {
      statements.Call(StateInvoke, InvokeArg(value, thisObject, arguments));
    }

    /**
     * `Execute(program)`: the global code's declarations are instantiated
     * in the variable environment's record, then the body is queued. An
     * exception of the instantiation leaves the stack as it was.
     */
    method Execute(env: ObjectEnvironmentRecord, body: seq<Statement>, functionDeclarations: seq<FunctionInfo>,
                   variableDeclarations: seq<seq<VariableDeclarator>>, createFunction: FunctionInfo -> JsValue, strict: bool)
      returns (r: Result<()>)
      requires Valid()
      modifies env, statements
      ensures Valid()
      ensures var b := Instantiated(old(env.properties), env.inherited, env.isGlobal, GlobalCode, functionDeclarations, variableDeclarations,
                                    [], [], JsUndefined, strict, createFunction);
        && env.properties == b.properties && r == b.result
        && State() == if r.Ok? then old(State()).(frames := old(State()).frames + [NewFrame(ExecuteStatementList, StatementListArg(body))])
                      else old(State())
      ensures forall o :: o in statements.stack ==> o in old(statements.stack) || fresh(o)
    {
      ghost var b := Instantiated(env.properties, env.inherited, env.isGlobal, GlobalCode, functionDeclarations, variableDeclarations,
                                  [], [], JsUndefined, strict, createFunction);
      var d := DeclarationBindingInstantiation(env, GlobalCode, functionDeclarations, variableDeclarations, [], [], JsUndefined,
                                               strict, createFunction);
      if d.Err? {
        return Err(d.error);
      }
      statements.ExecuteProgram(body);
      r := Ok(());
      assert b.result.Ok?;
      assert b.result.value == ();
      assert b.result == Ok(());
    }
  }
}
