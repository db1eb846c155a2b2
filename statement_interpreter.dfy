/**
 * The statement stage machines of `StatementInterpreter`, one function per
 * evaluator: from the context and the frame to the frame's new fields,
 * the world after the run, and what the run does to the stack. The
 * synchronous `Engine.EvaluateExpression(node)` the statements call for
 * their tests and operands is the host's `evalSync`.
 */
module StatementEvaluators {
  import opened Wrappers
  import opened JsValues
  import opened References
  import opened ExecutionContexts
  import opened Ast
  import opened Operators
  import opened Hosts
  import opened RuntimeStates
  import opened EngineReferences
  import ExpressionInterpreters

  /** `_engine.GetValue(_engine.EvaluateExpression(e), true)`. */
  function EvalValue(h: Host, w: World, e: Expression): (r: Outcome<JsValue>)
    ensures h.evalSync(w, e).result.Err? ==> r == Outcome(Err(h.evalSync(w, e).result.error), h.evalSync(w, e).world)
    ensures h.evalSync(w, e).result.Ok? ==> r == GetValue(h, h.evalSync(w, e).world, h.evalSync(w, e).result.value)
  {
    var r := h.evalSync(w, e);
    if r.result.Err? then Outcome(Err(r.result.error), r.world) else GetValue(h, r.world, r.result.value)
  }

  /** `new Completion(CompletionType.Normal, value, null)`. */
  function NormalPayload(v: Option<JsValue>): Payload {
    CompletionPayload(Normal, v, None)
  }

  /** A completion value that is not null replaces the loop's running value. */
  function UpdatedValue(v: JsValue, c: Completion): JsValue {
    if c.value.Some? then c.value.value else v
  }

  // ---- dispatch wrappers and simple statements --------------------------------------

  /** Private `ExecuteStatement`: hands the statement (or null) to the engine's dispatcher and returns what it returns. */
  function InterpreterExecuteStatement(c: Context, f: Frame): (e: Effect)
    ensures f.arg.StatementArg? || f.arg.NullArg? ==>
      e == if f.calleeReturned then Returning(f, c.world, f.calleeReturnValue) else Calling(f, c.world, ExecuteStatement, f.arg)
  {
    if !(f.arg.StatementArg? || f.arg.NullArg?) then Fail(f, c.world, InvalidCast)
    else if f.calleeReturned then Returning(f, c.world, f.calleeReturnValue)
    else Calling(f, c.world, ExecuteStatement, f.arg)
  }

  /** `ExecuteEmptyStatement`: completes normally without a value. */
  function ExecuteEmptyStatement(c: Context, f: Frame): Effect {
    match f.arg
    case NullArg => Returning(f, c.world, NormalPayload(None))
    case StatementArg(Statement(Empty, _)) => Returning(f, c.world, NormalPayload(None))
    case _ => Fail(f, c.world, InvalidCast)
  }

  /** `ExecuteExpressionStatement`: the expression's value as a Normal completion. */
  function ExecuteExpressionStatement(c: Context, f: Frame): Effect {
    match f.arg
    case StatementArg(Statement(ExpressionStmt(expression), _)) =>
      var v := EvalValue(c.host, c.world, expression);
      if v.result.Err? then RaisedBy(f, v) else Returning(f, v.world, NormalPayload(Some(v.result.value)))
    case _ => BadArg(f, c.world)
  }

  /** `ExecuteIfStatement`: the branch the test selects, or a Normal completion when the test fails and there is no else. */
  function ExecuteIfStatement(c: Context, f: Frame): Effect {
    match f.arg
    case StatementArg(Statement(If(test, consequent, alternate), _)) =>
      if f.calleeReturned then Returning(f, c.world, f.calleeReturnValue)
      else
        var v := EvalValue(c.host, c.world, test);
        if v.result.Err? then RaisedBy(f, v)
        else if c.host.conv.toBoolean(v.result.value) then Calling(f, v.world, ExecuteStatement, StatementArg(consequent))
        else if alternate.Some? then Calling(f, v.world, ExecuteStatement, StatementArg(alternate.value))
        else Returning(f, v.world, NormalPayload(None))
    case _ => BadArg(f, c.world)
  }

  /** An expression statement completes Normal with the expression's value, or raises what evaluating it raised. */
  lemma ExpressionStatementCompletes(c: Context, f: Frame, expression: Expression, location: Location)
    requires f.arg == StatementArg(Statement(ExpressionStmt(expression), location))
    ensures var v := EvalValue(c.host, c.world, expression);
      var e := ExecuteExpressionStatement(c, f);
      && (v.result.Ok? ==> e == Returning(f, v.world, PCompletion(Completion(Normal, Some(v.result.value), None, None))))
      && (v.result.Err? ==> e == Raised(f, v.world, v.result.error))
  {
  }

  /**
   * An if statement runs exactly the branch its test selects, ends Normal
   * without a value when the test fails and there is no else branch, and
   * hands its branch's completion back unchanged.
   */
  lemma IfSelectsBranch(c: Context, f: Frame, test: Expression, consequent: Statement, alternate: Option<Statement>, location: Location)
    requires f.arg == StatementArg(Statement(If(test, consequent, alternate), location))
    ensures f.calleeReturned ==> ExecuteIfStatement(c, f) == Returning(f, c.world, f.calleeReturnValue)
    ensures !f.calleeReturned ==>
      var t := EvalValue(c.host, c.world, test);
      var e := ExecuteIfStatement(c, f);
      && (t.result.Err? ==> e == Raised(f, t.world, t.result.error))
      && (t.result.Ok? && c.host.conv.toBoolean(t.result.value) ==> e == Calling(f, t.world, ExecuteStatement, StatementArg(consequent)))
      && (t.result.Ok? && !c.host.conv.toBoolean(t.result.value) && alternate.Some? ==>
            e == Calling(f, t.world, ExecuteStatement, StatementArg(alternate.value)))
      && (t.result.Ok? && !c.host.conv.toBoolean(t.result.value) && alternate.None? ==>
            e == Returning(f, t.world, PCompletion(Completion(Normal, None, None, None))))
  {
  }

  /** `ExecuteLabeledStatement`: a `break` to this label ends normally with the break's value; every other completion passes. */
  function ExecuteLabeledStatement(c: Context, f: Frame): Effect {
    match f.arg
    case StatementArg(Statement(Labeled(labelName, body), _)) =>
      if f.calleeReturned then
        var result := CompletionOf(f.calleeReturnValue);
        if result.Err? then Raised(f, c.world, result.error)
        else if result.value.completionType == CompletionType.Break && result.value.identifier == Some(labelName) then
          Returning(f, c.world, NormalPayload(result.value.value))
        else Returning(f, c.world, PCompletion(result.value))
      else Calling(f, c.world, ExecuteStatement, StatementArg(body))
    case _ => BadArg(f, c.world)
  }

  /** The completion a labeled statement ends with, given its body's completion. */
  lemma LabeledMapsBreak(c: Context, f: Frame, labelName: string, body: Statement, location: Location, r: Completion)
    requires f.arg == StatementArg(Statement(Labeled(labelName, body), location))
    requires f.calleeReturned && f.calleeReturnValue == PCompletion(r)
    ensures r.completionType == CompletionType.Break && r.identifier == Some(labelName) ==>
      ExecuteLabeledStatement(c, f) == Returning(f, c.world, PCompletion(Completion(Normal, r.value, None, None)))
    ensures !(r.completionType == CompletionType.Break && r.identifier == Some(labelName)) ==>
      ExecuteLabeledStatement(c, f) == Returning(f, c.world, PCompletion(r))
  {
  }

  function ExecuteContinueStatement(c: Context, f: Frame): Effect {
    match f.arg
    case StatementArg(Statement(Continue(labelName), _)) => Returning(f, c.world, CompletionPayload(CompletionType.Continue, None, labelName))
    case _ => BadArg(f, c.world)
  }

  function ExecuteBreakStatement(c: Context, f: Frame): Effect {
    match f.arg
    case StatementArg(Statement(Break(labelName), _)) => Returning(f, c.world, CompletionPayload(CompletionType.Break, None, labelName))
    case _ => BadArg(f, c.world)
  }

  /** `ExecuteReturnStatement`: a Return completion with the argument's value, Undefined without one. */
  function ExecuteReturnStatement(c: Context, f: Frame): Effect {
    match f.arg
    case StatementArg(Statement(Return(argument), _)) =>
      if argument.None? then Returning(f, c.world, CompletionPayload(CompletionType.Return, Some(JsUndefined), None))
      else
        var v := EvalValue(c.host, c.world, argument.value);
        if v.result.Err? then RaisedBy(f, v) else Returning(f, v.world, CompletionPayload(CompletionType.Return, Some(v.result.value), None))
    case _ => BadArg(f, c.world)
  }

  /** `ExecuteThrowStatement`: a Throw completion carrying the value and the statement's location. */
  function ExecuteThrowStatement(c: Context, f: Frame): Effect {
    match f.arg
    case StatementArg(Statement(Throw(argument), location)) =>
      var v := EvalValue(c.host, c.world, argument);
      if v.result.Err? then RaisedBy(f, v)
      else Returning(f, v.world, PCompletion(Completion(CompletionType.Throw, Some(v.result.value), None, Some(location))))
    case _ => BadArg(f, c.world)
  }

  /** The simple statements complete in one run with the completion their kind prescribes. */
  lemma SimpleStatementCompletions(c: Context, f: Frame, location: Location, labelName: Option<string>)
    ensures f.arg == StatementArg(Statement(StatementNode.Break(labelName), location)) ==>
      ExecuteBreakStatement(c, f) == Returning(f, c.world, PCompletion(Completion(CompletionType.Break, None, labelName, None)))
    ensures f.arg == StatementArg(Statement(StatementNode.Continue(labelName), location)) ==>
      ExecuteContinueStatement(c, f) == Returning(f, c.world, PCompletion(Completion(CompletionType.Continue, None, labelName, None)))
    ensures f.arg == StatementArg(Statement(StatementNode.Return(None), location)) ==>
      ExecuteReturnStatement(c, f) == Returning(f, c.world, PCompletion(Completion(CompletionType.Return, Some(JsUndefined), None, None)))
    ensures f.arg == StatementArg(Statement(Empty, location)) || f.arg == NullArg ==>
      ExecuteEmptyStatement(c, f) == Returning(f, c.world, PCompletion(Completion(Normal, None, None, None)))
  {
  }

  /** A thrown value's completion points at the `throw` statement. */
  lemma ThrowCarriesLocation(c: Context, f: Frame, argument: Expression, location: Location, v: JsValue)
    requires f.arg == StatementArg(Statement(StatementNode.Throw(argument), location))
    requires EvalValue(c.host, c.world, argument).result == Ok(v)
    ensures ExecuteThrowStatement(c, f) ==
      Returning(f, EvalValue(c.host, c.world, argument).world, PCompletion(Completion(CompletionType.Throw, Some(v), None, Some(location))))
  {
  }

  // ---- loops ---------------------------------------------------------------------------

  /**
   * `ExecuteDoWhileStatement`: the body first; after each body completion
   * a `break` aimed at the loop ends it normally, another abrupt completion
   * ends it as it is, and otherwise the test decides whether the body runs
   * again. A `continue` aimed at the loop goes straight to the test.
   */
  function ExecuteDoWhileStatement(c: Context, f: Frame): Effect {
    match f.arg
    case StatementArg(Statement(DoWhile(body, test, labelSet), _)) =>
      if !(f.local.NoLocal? || f.local.DoWhileLocal?) then Fail(f, c.world, InvalidCast)
      else
        var local := if f.local.NoLocal? then DoWhileLocal(JsUndefined, false) else f.local;
        var f0 := f.(local := local);
        if !f0.calleeReturned then Calling(f0, c.world, ExecuteStatement, StatementArg(body))
        else
          var stmt := CompletionOf(f0.calleeReturnValue);
          if stmt.Err? then Raised(f0, c.world, stmt.error)
          else
            var r := stmt.value;
            var v := UpdatedValue(local.v, r);
            var f1 := f0.(local := DoWhileLocal(v, local.iterating));
            if (r.completionType != CompletionType.Continue || r.identifier != labelSet)
               && r.completionType == CompletionType.Break && (r.identifier.None? || r.identifier == labelSet) then
              Returning(f1, c.world, NormalPayload(Some(v)))
            else if (r.completionType != CompletionType.Continue || r.identifier != labelSet) && r.completionType != Normal then
              Returning(f1, c.world, PCompletion(r))
            else
              var t := EvalValue(c.host, c.world, test);
              if t.result.Err? then RaisedBy(f1, t)
              else
                var iterating := c.host.conv.toBoolean(t.result.value);
                var f2 := f1.(local := DoWhileLocal(v, iterating));
                if !iterating then Returning(f2, t.world, NormalPayload(Some(v)))
                else Calling(f2, t.world, ExecuteStatement, StatementArg(body))
    case _ => BadArg(f, c.world)
  }

  /** A `break` aimed at a loop: one without a label, or one carrying the loop's label. */
  predicate IsBreakOf(r: Completion, labelSet: Option<string>) {
    r.completionType == CompletionType.Break && (r.identifier.None? || r.identifier == labelSet)
  }

  /**
   * The do-while loop's decision after each body completion. A `break`
   * aimed at the loop ends it normally with the running value. A
   * `continue` whose label is the loop's label (both absent included) and
   * a Normal completion go to the test. Every other abrupt completion
   * (`return`, `throw`, a `break` or `continue` aimed elsewhere, and an
   * unlabelled `continue` inside a labelled loop) leaves the loop as it is.
   */
  lemma {:induction false} DoWhileAbruptCompletions(c: Context, f: Frame, body: Statement, test: Expression, labelSet: Option<string>,
                                                    location: Location, r: Completion)
    requires f.arg == StatementArg(Statement(DoWhile(body, test, labelSet), location))
    requires f.local.DoWhileLocal? && f.calleeReturned && f.calleeReturnValue == PCompletion(r)
    ensures IsBreakOf(r, labelSet) ==>
      var e := ExecuteDoWhileStatement(c, f);
      e.Done? && e.world == c.world && e.action == Pop(NormalPayload(Some(UpdatedValue(f.local.v, r))))
    ensures r.completionType != Normal && !IsBreakOf(r, labelSet)
            && !(r.completionType == CompletionType.Continue && r.identifier == labelSet) ==>
      var e := ExecuteDoWhileStatement(c, f);
      e.Done? && e.world == c.world && e.action == Pop(PCompletion(r))
    ensures r.completionType == Normal || (r.completionType == CompletionType.Continue && r.identifier == labelSet) ==>
      var e := ExecuteDoWhileStatement(c, f);
      var t := EvalValue(c.host, c.world, test);
      && (t.result.Err? ==> e.Raised? && e.world == t.world && e.error == t.result.error)
      && (t.result.Ok? && c.host.conv.toBoolean(t.result.value) ==>
            e.Done? && e.world == t.world && e.action == Push(ExecuteStatement, StatementArg(body)))
      && (t.result.Ok? && !c.host.conv.toBoolean(t.result.value) ==>
            e.Done? && e.world == t.world && e.action == Pop(NormalPayload(Some(UpdatedValue(f.local.v, r)))))
  {
    assert CompletionOf(f.calleeReturnValue) == Ok(r);
  }

  /**
   * `ExecuteWhileStatement`: after the body's completion is handled as in
   * the do-while loop, the test runs on every run of the frame. When it
   * fails the loop returns its Normal completion and then still pushes the
   * body, onto the parent's frame.
   */
  function ExecuteWhileStatement(c: Context, f: Frame): Effect {
    match f.arg
    case StatementArg(Statement(While(test, body, labelSet), _)) =>
      if !(f.local.NoLocal? || f.local.WhileLocal?) then Fail(f, c.world, InvalidCast)
      else
        var local := if f.local.NoLocal? then WhileLocal(JsUndefined) else f.local;
        var f0 := f.(local := local);
        var stmt := if f0.calleeReturned then CompletionOf(f0.calleeReturnValue) else Ok(Completion(Normal, None, None, None));
        if stmt.Err? then Raised(f0, c.world, stmt.error)
        else
          var r := stmt.value;
          var v := if f0.calleeReturned then UpdatedValue(local.v, r) else local.v;
          var f1 := f0.(local := WhileLocal(v));
          if f0.calleeReturned && (r.completionType != CompletionType.Continue || r.identifier != labelSet)
             && r.completionType == CompletionType.Break && (r.identifier.None? || r.identifier == labelSet) then
            Returning(f1, c.world, NormalPayload(Some(v)))
          else if f0.calleeReturned && (r.completionType != CompletionType.Continue || r.identifier != labelSet) && r.completionType != Normal then
            Returning(f1, c.world, PCompletion(r))
          else
            var t := EvalValue(c.host, c.world, test);
            if t.result.Err? then RaisedBy(f1, t)
            else if !c.host.conv.toBoolean(t.result.value) then
              Done(f1, t.world, None, PopPush(NormalPayload(Some(v)), ExecuteStatement, StatementArg(body)))
            else Calling(f1, t.world, ExecuteStatement, StatementArg(body))
    case _ => BadArg(f, c.world)
  }

  /** A while loop whose test fails returns its completion and pushes its body as well. */
  lemma WhileFalseTestAlsoPushesBody(c: Context, f: Frame, test: Expression, body: Statement, labelSet: Option<string>, location: Location)
    requires f.arg == StatementArg(Statement(While(test, body, labelSet), location)) && f.local == NoLocal && !f.calleeReturned
    requires EvalValue(c.host, c.world, test).result.Ok? && !c.host.conv.toBoolean(EvalValue(c.host, c.world, test).result.value)
    ensures ExecuteWhileStatement(c, f).Done?
    ensures ExecuteWhileStatement(c, f).action ==
      PopPush(PCompletion(Completion(Normal, Some(JsUndefined), None, None)), ExecuteStatement, StatementArg(body))
  {
  }

  /**
   * The while loop's decision after each body completion: as in the
   * do-while loop, except that a failing test returns the Normal
   * completion and still pushes the body.
   */
  lemma {:induction false} WhileBodyCompletions(c: Context, f: Frame, test: Expression, body: Statement, labelSet: Option<string>,
                                                location: Location, r: Completion)
    requires f.arg == StatementArg(Statement(While(test, body, labelSet), location))
    requires f.local.WhileLocal? && f.calleeReturned && f.calleeReturnValue == PCompletion(r)
    ensures IsBreakOf(r, labelSet) ==>
      var e := ExecuteWhileStatement(c, f);
      e.Done? && e.world == c.world && e.action == Pop(NormalPayload(Some(UpdatedValue(f.local.v, r))))
    ensures r.completionType != Normal && !IsBreakOf(r, labelSet)
            && !(r.completionType == CompletionType.Continue && r.identifier == labelSet) ==>
      var e := ExecuteWhileStatement(c, f);
      e.Done? && e.world == c.world && e.action == Pop(PCompletion(r))
    ensures r.completionType == Normal || (r.completionType == CompletionType.Continue && r.identifier == labelSet) ==>
      var e := ExecuteWhileStatement(c, f);
      var t := EvalValue(c.host, c.world, test);
      && (t.result.Err? ==> e.Raised? && e.world == t.world && e.error == t.result.error)
      && (t.result.Ok? && c.host.conv.toBoolean(t.result.value) ==>
            e.Done? && e.world == t.world && e.action == Push(ExecuteStatement, StatementArg(body)))
      && (t.result.Ok? && !c.host.conv.toBoolean(t.result.value) ==>
            e.Done? && e.world == t.world
            && e.action == PopPush(NormalPayload(Some(UpdatedValue(f.local.v, r))), ExecuteStatement, StatementArg(body)))
  {
    assert CompletionOf(f.calleeReturnValue) == Ok(r);
  }

  /** Stage 1 of the for loop: the body's completion, the update, the test and the next body. */
  function ForStage1(c: Context, f: Frame, local: Local, test: Option<Expression>, update: Option<Expression>,
                     body: Statement, labelSet: Option<string>): Effect
    requires local.ForLocal?
  {
    var f0 := f.(local := local);
    var stmt := if f0.calleeReturned then CompletionOf(f0.calleeReturnValue) else Ok(Completion(Normal, None, None, None));
    if stmt.Err? then Raised(f0, c.world, stmt.error)
    else
      var r := stmt.value;
      var v := if f0.calleeReturned then UpdatedValue(local.v, r) else local.v;
      var f1 := if f0.calleeReturned then f0.(calleeReturned := false, calleeReturnValue := PNull, local := ForLocal(local.init, v, local.forStage)) else f0;
      if f0.calleeReturned && r.completionType == CompletionType.Break && (r.identifier.None? || r.identifier == labelSet) then
        Returning(f1, c.world, NormalPayload(Some(v)))
      else if f0.calleeReturned && (r.completionType != CompletionType.Continue || (r.identifier.Some? && r.identifier != labelSet))
              && r.completionType != Normal then
        Returning(f1, c.world, PCompletion(r))
      else
        var u := if f0.calleeReturned && update.Some? then EvalValue(c.host, c.world, update.value) else Outcome(Ok(JsUndefined), c.world);
        if u.result.Err? then RaisedBy(f1, u)
        else
          var t := if test.Some? then EvalValue(c.host, u.world, test.value) else Outcome(Ok(JsBoolean(true)), u.world);
          if t.result.Err? then RaisedBy(f1, t)
          else if test.Some? && !c.host.conv.toBoolean(t.result.value) then Returning(f1, t.world, NormalPayload(Some(v)))
          else Calling(f1, t.world, ExecuteStatement, StatementArg(body))
  }

  /**
   * `ExecuteForStatement`: the initialiser (a declaration in a frame of
   * its own, an expression inline), then the body, update and test in
   * stage 1 until the test fails or the body breaks out.
   */
  function ExecuteForStatement(c: Context, f: Frame): Effect {
    match f.arg
    case StatementArg(Statement(For(init, test, update, body, labelSet), _)) =>
      if !(f.local.NoLocal? || f.local.ForLocal?) then Fail(f, c.world, InvalidCast)
      else
        var local := if f.local.NoLocal? then ForLocal(init, JsUndefined, 0) else f.local;
        var f0 := f.(local := local);
        if local.forStage == 0 then
          if f0.calleeReturned then
            Staying(f0.(calleeReturned := false, calleeReturnValue := PNull, local := local.(forStage := 1)), c.world)
          else
            match local.init
            case InitDeclaration(declarations, location) =>
              Calling(f0, c.world, ExecuteStatement, StatementArg(Statement(VarDecl(declarations), location)))
            case InitExpression(e) =>
              var v := EvalValue(c.host, c.world, e);
              if v.result.Err? then RaisedBy(f0, v)
              else ForStage1(c.(world := v.world), f0, local.(forStage := 1), test, update, body, labelSet)
            case NoInit => ForStage1(c, f0, local.(forStage := 1), test, update, body, labelSet)
        else if local.forStage == 1 then ForStage1(c, f0, local, test, update, body, labelSet)
        else Staying(f0, c.world)
    case _ => BadArg(f, c.world)
  }

  /**
   * The for loop's decision after each body completion. A `break` aimed at
   * the loop ends it normally with the running value. A Normal completion,
   * or a `continue` that is unlabelled or carries the loop's label, runs
   * the update and then the test: a failing test ends the loop normally,
   * and otherwise the body runs again. Every other abrupt completion
   * leaves the loop as it is.
   */
  lemma {:induction false} ForBreakAndContinue(c: Context, f: Frame, init: ForInit, test: Option<Expression>, update: Option<Expression>,
                                              body: Statement, labelSet: Option<string>, location: Location, r: Completion)
    requires f.arg == StatementArg(Statement(For(init, test, update, body, labelSet), location))
    requires f.local.ForLocal? && f.local.forStage == 1 && f.calleeReturned && f.calleeReturnValue == PCompletion(r)
    ensures IsBreakOf(r, labelSet) ==>
      var e := ExecuteForStatement(c, f);
      e.Done? && e.world == c.world && e.action == Pop(NormalPayload(Some(UpdatedValue(f.local.v, r))))
    ensures r.completionType != Normal && !IsBreakOf(r, labelSet)
            && !(r.completionType == CompletionType.Continue && (r.identifier.None? || r.identifier == labelSet)) ==>
      var e := ExecuteForStatement(c, f);
      e.Done? && e.world == c.world && e.action == Pop(PCompletion(r))
    ensures r.completionType == Normal || (r.completionType == CompletionType.Continue && (r.identifier.None? || r.identifier == labelSet)) ==>
      var e := ExecuteForStatement(c, f);
      var u := if update.Some? then EvalValue(c.host, c.world, update.value) else Outcome(Ok(JsUndefined), c.world);
      var t := if test.Some? then EvalValue(c.host, u.world, test.value) else Outcome(Ok(JsBoolean(true)), u.world);
      && (u.result.Err? ==> e.Raised? && e.world == u.world && e.error == u.result.error)
      && (u.result.Ok? && t.result.Err? ==> e.Raised? && e.world == t.world && e.error == t.result.error)
      && (u.result.Ok? && t.result.Ok? && test.Some? && !c.host.conv.toBoolean(t.result.value) ==>
            e.Done? && e.world == t.world && e.action == Pop(NormalPayload(Some(UpdatedValue(f.local.v, r)))))
      && (u.result.Ok? && t.result.Ok? && (test.None? || c.host.conv.toBoolean(t.result.value)) ==>
            e.Done? && e.world == t.world && e.action == Push(ExecuteStatement, StatementArg(body)))
  {
    assert ExecuteForStatement(c, f) == ForStage1(c, f, f.local, test, update, body, labelSet);
    assert CompletionOf(f.calleeReturnValue) == Ok(r);
  }

  /** The left side of a for-in: the declared or assigned identifier's name. */
  function ForInIdentifier(left: ForInLeft): Result<string> {
    match left
    case LeftDeclaration(declarations) =>
      if |declarations| == 0 then ClrThrow(ArgumentOutOfRange)
      else if declarations[0].id.Identifier? then Ok(declarations[0].id.name)
      else ClrThrow(InvalidCast)
    case LeftExpression(e) => if e.Identifier? then Ok(e.name) else ClrThrow(InvalidCast)
  }

  /**
   * The first run of `ExecuteForInStatement`: the identifier and its
   * reference, then the object expression's value; an undefined or null
   * value ends the loop at once. Otherwise the object becomes the cursor.
   */
  function ForInSetup(c: Context, f: Frame, left: ForInLeft, right: Expression): (r: Outcome<Frame>)
    // a throw keeps whatever the identifier and the object expression already did to the world
    ensures ForInIdentifier(left).Err? ==> r == Outcome(Err(ForInIdentifier(left).error), c.world)
    ensures ForInIdentifier(left).Ok? ==>
      var varRef := c.host.evalSync(c.world, Expression.Identifier(ForInIdentifier(left).value));
      && (varRef.result.Err? ==> r == Outcome(Err(varRef.result.error), varRef.world))
      && (varRef.result.Ok? ==> r.world == EvalValue(c.host, varRef.world, right).world)
  {
    var identifier := ForInIdentifier(left);
    if identifier.Err? then Outcome(Err(identifier.error), c.world)
    else
      var varRef := c.host.evalSync(c.world, Expression.Identifier(identifier.value));
      if varRef.result.Err? then Outcome(Err(varRef.result.error), varRef.world)
      else
        var experValue := EvalValue(c.host, varRef.world, right);
        if experValue.result.Err? then Outcome(Err(experValue.result.error), experValue.world)
        else
          var v := experValue.result.value;
          var cursor := if v.JsUndefined? || v.JsNull? then None else Some(c.host.toObject(experValue.world, v));
          Outcome(Ok(f.(local := ForInLocal(0, Some(identifier.value), ExpressionInterpreters.AsReference(varRef.result.value), Some(v), cursor, None))),
                  experValue.world)
  }

  /**
   * `ExecuteForInStatement` as written: at stage 0 the loop ends as soon
   * as the cursor is set (the test is the inverse of "no more prototypes"),
   * so a for-in over an object completes normally without running its
   * body. Only a frame whose cursor is null reaches the enumeration
   * stages from 1 on, and such a frame is what a .NET exception escaping
   * the set-up leaves on the stack (see `ClrExceptionEscapes`). Those
   * stages are not modelled: the frame stays and does nothing. Both hosts
   * clear the engine when a step throws, so it never runs again.
   */
  function ExecuteForInStatement(c: Context, f: Frame): Effect {
    match f.arg
    case StatementArg(Statement(ForIn(left, right, _, _), _)) =>
      if !(f.local.NoLocal? || f.local.ForInLocal?) then Fail(f, c.world, InvalidCast)
      else
        var start := f.(local := ForInLocal(0, None, None, None, None, None));
        var setup := if f.local.NoLocal? then ForInSetup(c, start, left, right) else Outcome(Ok(f), c.world);
        if setup.result.Err? then Raised(start, setup.world, setup.result.error)
        else
          var f0, w0 := setup.result.value, setup.world;
          var local := f0.local;
          if f.local.NoLocal? && local.experValue.Some? && (local.experValue.value.JsUndefined? || local.experValue.value.JsNull?) then
            Returning(f0, w0, NormalPayload(None))
          else
            var stmt := if f0.calleeReturned then CompletionOf(f0.calleeReturnValue) else Ok(Completion(Normal, None, None, None));
            if stmt.Err? then Raised(f0, w0, stmt.error)
            else
              var r := stmt.value;
              var v := if f0.calleeReturned && r.value.Some? then r.value else local.forInV;
              var f1 := f0.(local := local.(forInV := v));
              if f0.calleeReturned && r.completionType == CompletionType.Break then Returning(f1, w0, NormalPayload(v))
              else if f0.calleeReturned && r.completionType != CompletionType.Continue && r.completionType != Normal then Returning(f1, w0, PCompletion(r))
              else if local.forInStage == 0 then
                if local.cursor.Some? then Returning(f1, w0, NormalPayload(v))
                else Staying(f1.(local := f1.local.(forInStage := 1)), w0)
              else Staying(f1, w0)
    case _ => BadArg(f, c.world)
  }

  /**
   * A for-in statement never runs its body: the first run of a fresh frame
   * either raises or completes normally without a value.
   */
  lemma ForInNeverRunsBody(c: Context, f: Frame, left: ForInLeft, right: Expression, body: Statement,
                           labelSet: Option<string>, location: Location)
    requires f.arg == StatementArg(Statement(ForIn(left, right, body, labelSet), location))
    requires f.local == NoLocal && !f.calleeReturned
    ensures var e := ExecuteForInStatement(c, f);
      e.Raised? || e.action == Pop(NormalPayload(None))
  {
  }

  /**
   * A for-in whose object expression throws raises with the world that
   * evaluation left behind: what the identifier and the expression already
   * did stays done.
   */
  lemma ForInThrowKeepsWorld(c: Context, f: Frame, name: string, right: Expression, body: Statement,
                             labelSet: Option<string>, location: Location)
    requires f.arg == StatementArg(Statement(ForIn(LeftExpression(Expression.Identifier(name)), right, body, labelSet), location))
    requires f.local == NoLocal
    requires c.host.evalSync(c.world, Expression.Identifier(name)).result.Ok?
    requires EvalValue(c.host, c.host.evalSync(c.world, Expression.Identifier(name)).world, right).result.Err?
    ensures var v := EvalValue(c.host, c.host.evalSync(c.world, Expression.Identifier(name)).world, right);
      var e := ExecuteForInStatement(c, f);
      e.Raised? && e.world == v.world && e.error == v.result.error
  {
  }

  // ---- with and switch ------------------------------------------------------------------

  /**
   * `ExecuteWithStatement`: the first run installs an object environment
   * for the object's value and remembers the old one; the body is never
   * called, so the frame then stays on the stack without doing anything.
   */
  function ExecuteWithStatement(c: Context, f: Frame): Effect {
    match f.arg
    case StatementArg(Statement(With(objectExpression, _), _)) =>
      if f.local.NoLocal? then
        var f0 := f.(local := WithLocal(None));
        var v := EvalValue(c.host, c.world, objectExpression);
        if v.result.Err? then RaisedBy(f0, v)
        else
          var obj := ToObject(c.host, v.world, v.result.value);
          if obj.Err? then Raised(f0, v.world, obj.error)
          else
            var oldEnv := c.LexicalEnvironment();
            if oldEnv.Err? then Raised(f0, v.world, oldEnv.error)
            else
              var (newEnv, w1) := c.host.newObjectEnvironment(v.world, obj.value, oldEnv.value, true);
              var f1 := f0.(local := WithLocal(Some(oldEnv.value)));
              if f.calleeReturned then Done(f1, w1, Some(oldEnv.value), Pop(f.calleeReturnValue))
              else Done(f1, w1, Some(newEnv), Stay)
      else if !f.local.WithLocal? then Fail(f, c.world, InvalidCast)
      else if f.calleeReturned then
        // Only a frame whose first run failed gets here. The source stores the null
        // environment back without reading it; the model has no null environment,
        // so here it fails with a NullReferenceException instead.
        if f.local.oldEnv.None? then Fail(f, c.world, NullReference)
        else Done(f, c.world, Some(f.local.oldEnv.value), Pop(f.calleeReturnValue))
      else Staying(f, c.world)
    case _ => BadArg(f, c.world)
  }

  /**
   * After its first run a with statement does nothing at all: its frame,
   * the world and the environment stay as they are, run after run.
   */
  lemma WithNeverRunsBody(c: Context, f: Frame, objectExpression: Expression, body: Statement, location: Location)
    requires f.arg == StatementArg(Statement(With(objectExpression, body), location)) && !f.calleeReturned
    ensures f.local.NoLocal? ==> var e := ExecuteWithStatement(c, f); e.Raised? || (e.action == Stay && e.newLexicalEnvironment.Some?)
    ensures f.local.WithLocal? ==> ExecuteWithStatement(c, f) == Staying(f, c.world)
  {
  }

  /** `ExecuteSwitchStatement`: the discriminant's value, then the case block; a `break` aimed at the switch ends it normally. */
  function ExecuteSwitchStatement(c: Context, f: Frame): Effect {
    match f.arg
    case StatementArg(Statement(Switch(discriminant, cases, labelSet), _)) =>
      if f.calleeReturned then
        var r := CompletionOf(f.calleeReturnValue);
        if r.Err? then Raised(f, c.world, r.error)
        else if r.value.completionType == CompletionType.Break && r.value.identifier == labelSet then Returning(f, c.world, NormalPayload(r.value.value))
        else Returning(f, c.world, PCompletion(r.value))
      else
        var v := EvalValue(c.host, c.world, discriminant);
        if v.result.Err? then RaisedBy(f, v)
        else Calling(f, v.world, Evaluator.ExecuteSwitchBlock, SwitchBlockArg(cases, v.result.value))
    case _ => BadArg(f, c.world)
  }

  /**
   * A switch statement evaluates its discriminant and hands it with the
   * clauses to a case-block frame; when that frame returns, a `break`
   * whose label is the switch's (both absent included) becomes Normal with
   * the break's value, and any other completion passes unchanged.
   */
  lemma SwitchStatementOutcome(c: Context, f: Frame, discriminant: Expression, cases: seq<SwitchCase>, labelSet: Option<string>,
                               location: Location, r: Completion)
    requires f.arg == StatementArg(Statement(Switch(discriminant, cases, labelSet), location))
    ensures !f.calleeReturned ==>
      var v := EvalValue(c.host, c.world, discriminant);
      var e := ExecuteSwitchStatement(c, f);
      && (v.result.Err? ==> e == Raised(f, v.world, v.result.error))
      && (v.result.Ok? ==> e == Calling(f, v.world, Evaluator.ExecuteSwitchBlock, SwitchBlockArg(cases, v.result.value)))
    ensures f.calleeReturned && f.calleeReturnValue == PCompletion(r) ==>
      && (r.completionType == CompletionType.Break && r.identifier == labelSet ==>
            ExecuteSwitchStatement(c, f) == Returning(f, c.world, PCompletion(Completion(Normal, r.value, None, None))))
      && (!(r.completionType == CompletionType.Break && r.identifier == labelSet) ==>
            ExecuteSwitchStatement(c, f) == Returning(f, c.world, PCompletion(r)))
  {
  }

  /**
   * The clause at `i` of the case block: the default clause is remembered,
   * a clause whose test equals the input strictly sets `hit`, and once hit
   * the clause's statements run; otherwise the next clause is tried.
   */
  function SwitchClause(c: Context, f: Frame, cases: seq<SwitchCase>, input: JsValue, local: Local): Effect
    requires local.SwitchBlockLocal?
  {
    var f0 := f.(local := local);
    var r := if f0.calleeReturned then CompletionOf(f0.calleeReturnValue) else Ok(Completion(Normal, Some(local.v), None, None));
    if r.Err? then Raised(f0, c.world, r.error)
    else if r.value.completionType != Normal then Returning(f0, c.world, PCompletion(r.value))
    else
      var l1 := SwitchBlockLocal(local.defaultCase, r.value.GetValueOrDefault(), local.hit, local.blockStage, local.switchBlockCount, local.i);
      if l1.i >= |cases| then Fail(f0.(local := l1), c.world, ArgumentOutOfRange)
      else
        var clause := cases[l1.i];
        var selected := if clause.test.None? then Outcome(Ok(false), c.world) else
          var s := EvalValue(c.host, c.world, clause.test.value);
          if s.result.Err? then Outcome(Err(s.result.error), s.world) else Outcome(Ok(Operators.StrictlyEqual(s.result.value, input)), s.world);
        var l2 := if clause.test.None? then l1.(defaultCase := Some(clause)) else l1;
        if selected.result.Err? then RaisedBy(f0.(local := l2), selected)
        else
          var l3 := if selected.result.value then l2.(hit := true) else l2;
          if l3.hit then Calling(f0.(local := l3), selected.world, Evaluator.ExecuteStatementList, StatementListArg(clause.consequent))
          else Staying(f0.(local := l3.(i := l3.i + 1, blockStage := 0)), selected.world)
  }

  /** After the clauses: the default clause's statements when no clause was hit, then the Normal completion. */
  function SwitchDefault(c: Context, f: Frame, local: Local): Effect
    requires local.SwitchBlockLocal?
  {
    var f0 := f.(local := local);
    var r := if f0.calleeReturned then CompletionOf(f0.calleeReturnValue) else Ok(Completion(Normal, Some(local.v), None, None));
    if r.Err? then Raised(f0, c.world, r.error)
    else if r.value.completionType != Normal then Returning(f0, c.world, PCompletion(r.value))
    else
      var l1 := SwitchBlockLocal(local.defaultCase, r.value.GetValueOrDefault(), local.hit, local.blockStage, local.switchBlockCount, local.i);
      if !l1.hit && l1.defaultCase.Some? then
        Calling(f0.(local := l1), c.world, Evaluator.ExecuteStatementList, StatementListArg(l1.defaultCase.value.consequent))
      else Returning(f0.(local := l1), c.world, NormalPayload(Some(l1.v)))
  }

  /**
   * `ExecuteSwitchBlock` as written: the frame's `calleeReturned` is never
   * cleared and `i` does not move past a clause that was hit, so each run
   * after the clause's statements return evaluates the same clause again.
   */
  function ExecuteSwitchBlock(c: Context, f: Frame): Effect {
    match f.arg
    case SwitchBlockArg(cases, input) =>
      if !(f.local.NoLocal? || f.local.SwitchBlockLocal?) then Fail(f, c.world, InvalidCast)
      else
        var local := if f.local.NoLocal? then SwitchBlockLocal(None, JsUndefined, false, 0, |cases|, 0) else f.local;
        var local1 := if local.blockStage == 0 then local.(blockStage := if local.i < local.switchBlockCount then 1 else 2) else local;
        if local1.blockStage == 1 then SwitchClause(c, f, cases, input, local1)
        else if local1.blockStage == 2 then SwitchDefault(c, f, local1)
        else Staying(f.(local := local1), c.world)
    case _ => BadArg(f, c.world)
  }

  /**
   * Once a clause's statements complete normally, the case block starts
   * them again instead of falling through: the frame is still at the same
   * clause, a clause with a test evaluates that test again (its side
   * effects included) and stays hit whatever it yields, and the same
   * statement list is pushed with `calleeReturned` still set.
   */
  lemma SwitchBlockRepeatsClause(c: Context, f: Frame, cases: seq<SwitchCase>, input: JsValue, i: nat,
                                 d: Option<SwitchCase>, v: JsValue, count: nat, r: Completion)
    requires f.arg == SwitchBlockArg(cases, input) && i < |cases|
    requires f.local == SwitchBlockLocal(d, v, true, 1, count, i)
    requires f.calleeReturned && f.calleeReturnValue == PCompletion(r) && r.completionType == Normal
    ensures var e := ExecuteSwitchBlock(c, f);
      cases[i].test.None? ==>
        && e.Done? && e.world == c.world && e.action == Push(Evaluator.ExecuteStatementList, StatementListArg(cases[i].consequent))
        && e.frame.calleeReturned && e.frame.local.i == i && e.frame.local.blockStage == 1 && e.frame.local.hit
    ensures var e := ExecuteSwitchBlock(c, f);
      cases[i].test.Some? ==>
        var s := EvalValue(c.host, c.world, cases[i].test.value);
        && (s.result.Err? ==> e.Raised? && e.world == s.world && e.error == s.result.error)
        && (s.result.Ok? ==>
              && e.Done? && e.world == s.world && e.action == Push(Evaluator.ExecuteStatementList, StatementListArg(cases[i].consequent))
              && e.frame.calleeReturned && e.frame.local.i == i && e.frame.local.blockStage == 1 && e.frame.local.hit)
  {
  }

  /** A clause that does not match and is not hit moves the block to the next clause. */
  lemma SwitchBlockSkipsUnmatchedClause(c: Context, f: Frame, cases: seq<SwitchCase>, input: JsValue, i: nat, test: Expression)
    requires f.arg == SwitchBlockArg(cases, input) && i < |cases| && cases[i].test == Some(test)
    requires f.local.SwitchBlockLocal? && f.local.blockStage == 0 && f.local.i == i && i < f.local.switchBlockCount
    requires !f.local.hit && !f.calleeReturned
    requires var s := EvalValue(c.host, c.world, test); s.result.Ok? && !Operators.StrictlyEqual(s.result.value, input)
    ensures var e := ExecuteSwitchBlock(c, f);
      e.Done? && e.action == Stay && e.frame.local.i == i + 1 && e.frame.local.blockStage == 0 && !e.frame.local.hit
  {
  }

  // ---- statement lists ------------------------------------------------------------------

  /**
   * `ExecuteMultipleStatements`: the statements one per stage; the first
   * abrupt completion ends the list, carrying the value of the last normal
   * completion when it has none of its own; after the last statement the
   * list completes with the last completion's type and value.
   */
  function ExecuteMultipleStatements(c: Context, f: Frame): Effect {
    match f.arg
    case StatementListArg(statements) =>
      if !(f.local.NoLocal? || f.local.MultipleLocal?) then Fail(f, c.world, InvalidCast)
      else
        var local := if f.local.NoLocal? then MultipleLocal(Completion(Normal, None, None, None), Completion(Normal, None, None, None), |statements|, 0, 0)
                     else f.local;
        var local1 := if local.listStage == 0 then local.(listStage := if local.i < local.statementListCount then 1 else 2) else local;
        var f0 := f.(local := local1);
        if local1.listStage == 1 then
          if f0.calleeReturned then
            var r := CompletionOf(f0.calleeReturnValue);
            if r.Err? then Raised(f0, c.world, r.error)
            else
              var cc := r.value;
              var f1 := f0.(local := local1.(c := cc));
              if cc.completionType != Normal then
                Returning(f1, c.world, PCompletion(Completion(cc.completionType, if cc.value.Some? then cc.value else local1.sl.value,
                                                              cc.identifier, cc.location)))
              else Staying(f1.(calleeReturned := false, local := local1.(c := cc, sl := cc, i := local1.i + 1, listStage := 0)), c.world)
          else if local1.i >= |statements| then Fail(f0, c.world, ArgumentOutOfRange)
          else Calling(f0, c.world, ExecuteStatement, StatementArg(statements[local1.i]))
        else if local1.listStage == 2 then
          Returning(f0, c.world, CompletionPayload(local1.c.completionType, Some(local1.c.GetValueOrDefault()), local1.c.identifier))
        else Staying(f0, c.world)
    case _ => BadArg(f, c.world)
  }

  /**
   * The first abrupt completion in a statement list ends it; a Normal one
   * moves the list on to the next statement and becomes the value that an
   * abrupt completion without a value of its own inherits.
   */
  lemma {:induction false} MultipleStopsAtAbrupt(c: Context, f: Frame, statements: seq<Statement>, r: Completion)
    requires f.arg == StatementListArg(statements) && f.local.MultipleLocal? && f.local.listStage == 1
    requires f.calleeReturned && f.calleeReturnValue == PCompletion(r)
    ensures r.completionType != Normal ==>
      var e := ExecuteMultipleStatements(c, f);
      e.Done? && e.action == Pop(PCompletion(r.(value := if r.value.Some? then r.value else f.local.sl.value)))
    ensures r.completionType == Normal ==>
      var e := ExecuteMultipleStatements(c, f);
      && e.Done? && e.action == Stay && !e.frame.calleeReturned
      && e.frame.local == f.local.(c := r, sl := r, i := f.local.i + 1, listStage := 0)
  {
    assert CompletionOf(f.calleeReturnValue) == Ok(r);
  }

  /** An empty statement list completes normally with Undefined in one run. */
  lemma EmptyListCompletesNormally(c: Context, f: Frame)
    requires f.arg == StatementListArg([]) && f.local == NoLocal
    ensures ExecuteMultipleStatements(c, f).Done?
    ensures ExecuteMultipleStatements(c, f).action == Pop(PCompletion(Completion(Normal, Some(JsUndefined), None, None)))
  {
  }

  /**
   * `ExecuteSingleStatement`: the one statement of a list; an abrupt
   * completion passes unchanged and a Normal one gets Undefined for a
   * missing value (and no location).
   */
  function ExecuteSingleStatement(c: Context, f: Frame): (e: Effect)
    ensures f.calleeReturned && f.calleeReturnValue.PCompletion? && f.calleeReturnValue.c.completionType != Normal ==>
      e == Returning(f, c.world, f.calleeReturnValue)
    ensures f.calleeReturned && f.calleeReturnValue.PCompletion? && f.calleeReturnValue.c.completionType == Normal ==>
      e == Returning(f, c.world, CompletionPayload(Normal, Some(f.calleeReturnValue.c.GetValueOrDefault()), f.calleeReturnValue.c.identifier))
  {
    if f.calleeReturned then
      var r := CompletionOf(f.calleeReturnValue);
      if r.Err? then Raised(f, c.world, r.error)
      else if r.value.completionType != Normal then Returning(f, c.world, PCompletion(r.value))
      else Returning(f, c.world, CompletionPayload(Normal, Some(r.value.GetValueOrDefault()), r.value.identifier))
    else if f.arg.StatementArg? || f.arg.NullArg? then Calling(f, c.world, ExecuteStatement, f.arg)
    else Fail(f, c.world, InvalidCast)
  }

  /** `ExecuteStatementList`: one statement goes to the single-statement frame, any other number to the loop. */
  function ExecuteStatementList(c: Context, f: Frame): Effect {
    if f.calleeReturned then Returning(f, c.world, f.calleeReturnValue)
    else
      match f.arg
      case StatementListArg(statements) =>
        if |statements| == 1 then Calling(f, c.world, Evaluator.ExecuteSingleStatement, StatementArg(statements[0]))
        else Calling(f, c.world, Evaluator.ExecuteMultipleStatements, StatementListArg(statements))
      case _ => BadArg(f, c.world)
  }

  /** `ExecuteBlockStatement`: the body as a statement list. */
  function ExecuteBlockStatement(c: Context, f: Frame): Effect {
    match f.arg
    case StatementArg(Statement(Block(body), _)) =>
      if f.calleeReturned then Returning(f, c.world, f.calleeReturnValue)
      else Calling(f, c.world, Evaluator.ExecuteStatementList, StatementListArg(body))
    case _ => BadArg(f, c.world)
  }

  /**
   * A block pushes one statement-list frame for its body; a list of one
   * statement pushes the single-statement frame, any other list the loop
   * over its statements; both hand the returned completion back unchanged.
   */
  lemma BlockAndListPushOneFrame(c: Context, f: Frame, body: seq<Statement>, location: Location)
    ensures f.arg == StatementArg(Statement(Block(body), location)) ==>
      ExecuteBlockStatement(c, f) ==
        if f.calleeReturned then Returning(f, c.world, f.calleeReturnValue)
        else Calling(f, c.world, Evaluator.ExecuteStatementList, StatementListArg(body))
    ensures f.arg == StatementListArg(body) && !f.calleeReturned && |body| == 1 ==>
      ExecuteStatementList(c, f) == Calling(f, c.world, Evaluator.ExecuteSingleStatement, StatementArg(body[0]))
    ensures f.arg == StatementListArg(body) && !f.calleeReturned && |body| != 1 ==>
      ExecuteStatementList(c, f) == Calling(f, c.world, Evaluator.ExecuteMultipleStatements, StatementListArg(body))
    ensures f.calleeReturned ==> ExecuteStatementList(c, f) == Returning(f, c.world, f.calleeReturnValue)
  {
  }

  /** `ExecuteProgram(state)`: the program body as a statement list. */
  function ExecuteProgram(c: Context, f: Frame): Effect {
    match f.arg
    case StatementArg(Statement(ProgramNode(body, _), _)) =>
      if f.calleeReturned then Returning(f, c.world, f.calleeReturnValue)
      else Calling(f, c.world, Evaluator.ExecuteStatementList, StatementListArg(body))
    case _ => BadArg(f, c.world)
  }

  // ---- try ------------------------------------------------------------------------------

  /** `(Completion)o` where null is allowed and kept. */
  function OptionalCompletion(o: Payload): (r: Result<Option<Completion>>)
    ensures r.Ok? <==> o.PCompletion? || o.PNull?
  {
    match o
    case PCompletion(c) => Ok(Some(c))
    case PNull => Ok(None)
    case _ => ClrThrow(InvalidCast)
  }

  function OptionalPayload(b: Option<Completion>): Payload {
    if b.Some? then PCompletion(b.value) else PNull
  }

  /**
   * Stage 1 of the try statement without a returned callee: with a catch
   * clause, a declarative environment binding the parameter to the block's
   * completion value becomes the lexical environment and the catch body
   * runs, whatever kind of completion the block ended with; without one,
   * stage 2 follows.
   */
  function TryCatch(c: Context, f: Frame, local: Local, handler: Option<CatchClause>, finalizer: Option<Statement>): Effect
    requires local.TryLocal?
  {
    var f0 := f.(local := local);
    if handler.Some? then
      if local.b.None? then Fail(f0, c.world, NullReference)
      else
        var cv := local.b.value.value;
        var oldEnv := c.LexicalEnvironment();
        if oldEnv.Err? then Raised(f0, c.world, oldEnv.error)
        else
          var f1 := f0.(local := local.(tryOldEnv := Some(oldEnv.value)));
          var (catchEnv, w1) := c.host.newDeclarativeEnvironment(c.world, oldEnv.value);
          if !handler.value.param.Identifier? then Fail(f1, w1, InvalidCast)
          else
            var w2 := c.host.createMutableBinding(w1, catchEnv, handler.value.param.name, cv);
            Done(f1, w2, Some(catchEnv), Push(ExecuteStatement, StatementArg(handler.value.body)))
    else TryFinally(c, f0.(local := local.(tryStage := 2)), finalizer)
  }

  /** Stage 2: the finaliser, whose abrupt completion replaces the block's (or catch's) completion. */
  function TryFinally(c: Context, f: Frame, finalizer: Option<Statement>): Effect
    requires f.local.TryLocal?
  {
    if f.calleeReturned then
      var fc := CompletionOf(f.calleeReturnValue);
      if fc.Err? then Raised(f, c.world, fc.error)
      else if fc.value.completionType == Normal then Returning(f, c.world, OptionalPayload(f.local.b))
      else Returning(f, c.world, PCompletion(fc.value))
    else if finalizer.Some? then Calling(f, c.world, ExecuteStatement, StatementArg(finalizer.value))
    else Returning(f, c.world, OptionalPayload(f.local.b))
  }

  /**
   * `ExecuteTryStatement`: the block, then the catch clause (if any), then
   * the finaliser (if any). The environment the catch clause installs is
   * never put back.
   */
  function ExecuteTryStatement(c: Context, f: Frame): Effect {
    match f.arg
    case StatementArg(Statement(Try(block, handler, finalizer), _)) =>
      if !(f.local.NoLocal? || f.local.TryLocal?) then Fail(f, c.world, InvalidCast)
      else
        var local := if f.local.NoLocal? then TryLocal(0, None, None) else f.local;
        var f0 := f.(local := local);
        if local.tryStage == 0 then
          if f0.calleeReturned then
            var b := OptionalCompletion(f0.calleeReturnValue);
            if b.Err? then Raised(f0.(calleeReturned := false, local := local.(tryStage := 1)), c.world, b.error)
            else Staying(f0.(calleeReturned := false, local := local.(tryStage := 1, b := b.value)), c.world)
          else Calling(f0, c.world, ExecuteStatement, StatementArg(block))
        else if local.tryStage == 1 then
          if f0.calleeReturned then
            var b := OptionalCompletion(f0.calleeReturnValue);
            if b.Err? then Raised(f0.(calleeReturned := false, local := local.(tryStage := 2)), c.world, b.error)
            else Staying(f0.(calleeReturned := false, local := local.(tryStage := 2, b := b.value)), c.world)
          else TryCatch(c, f0, local, handler, finalizer)
        else if local.tryStage == 2 then TryFinally(c, f0, finalizer)
        else Staying(f0, c.world)
    case _ => BadArg(f, c.world)
  }

  /**
   * The catch clause runs even when the block completed normally: the
   * parameter is bound to the block's completion value in a new
   * declarative environment, which becomes the lexical environment.
   */
  lemma TryCatchRunsForAnyCompletion(c: Context, f: Frame, block: Statement, param: string, body: Statement,
                                     finalizer: Option<Statement>, location: Location, b: Completion)
    requires f.arg == StatementArg(Statement(Try(block, Some(CatchClause(Expression.Identifier(param), body)), finalizer), location))
    requires f.local == TryLocal(1, None, Some(b)) && !f.calleeReturned && c.contexts != []
    ensures var e := ExecuteTryStatement(c, f);
      var (catchEnv, w1) := c.host.newDeclarativeEnvironment(c.world, c.LexicalEnvironment().value);
      && e.Done? && e.action == Push(ExecuteStatement, StatementArg(body))
      && e.newLexicalEnvironment == Some(catchEnv)
      && e.world == c.host.createMutableBinding(w1, catchEnv, param, b.value)
  {
  }

  /**
   * The finaliser's completion wins only when it is abrupt; a normal one
   * hands back the completion the block (or the catch clause) ended with.
   */
  lemma TryFinallyOutcome(c: Context, f: Frame, block: Statement, handler: Option<CatchClause>, fin: Statement,
                          location: Location, b: Option<Completion>, r: Completion)
    requires f.arg == StatementArg(Statement(Try(block, handler, Some(fin)), location))
    requires f.local.TryLocal? && f.local.tryStage == 2 && f.local.b == b
    requires f.calleeReturned && f.calleeReturnValue == PCompletion(r)
    ensures r.completionType == Normal ==> ExecuteTryStatement(c, f) == Returning(f, c.world, OptionalPayload(b))
    ensures r.completionType != Normal ==> ExecuteTryStatement(c, f) == Returning(f, c.world, PCompletion(r))
  {
  }

  // ---- variable declarations ------------------------------------------------------------

  /**
   * One declarator: without an initialiser nothing happens; otherwise the
   * identifier's reference is checked, the initialiser's value computed
   * and stored through it.
   */
  function DeclareVariable(h: Host, w: World, d: VariableDeclarator): (r: Outcome<()>)
    ensures d.init.None? ==> r == Outcome(Ok(()), w)
    // with an initialiser: the identifier must evaluate to a valid reference ...
    ensures d.init.Some? && h.evalSync(w, d.id).result.Err? ==>
      r == Outcome(Err(h.evalSync(w, d.id).result.error), h.evalSync(w, d.id).world)
    ensures d.init.Some? && h.evalSync(w, d.id).result.Ok? && !h.evalSync(w, d.id).result.value.PReference? ==>
      r.result.Err? && r.result.error.ClrException? && r.world == h.evalSync(w, d.id).world
    ensures d.init.Some? && h.evalSync(w, d.id).result.Ok? && h.evalSync(w, d.id).result.value.PReference?
            && AssertValid(h.evalSync(w, d.id).result.value.r).Err? ==>
      r == Outcome(Err(AssertValid(h.evalSync(w, d.id).result.value.r).error), h.evalSync(w, d.id).world)
    // ... and then the initialiser's value is stored through it
    ensures d.init.Some? && h.evalSync(w, d.id).result.Ok? && h.evalSync(w, d.id).result.value.PReference?
            && AssertValid(h.evalSync(w, d.id).result.value.r).Ok? ==>
      var lhs := h.evalSync(w, d.id);
      var v := EvalValue(h, lhs.world, d.init.value);
      && (v.result.Err? ==> r == Outcome(Err(v.result.error), v.world))
      && (v.result.Ok? ==> r == PutValue(h, v.world, lhs.result.value.r, v.result.value))
  {
    if d.init.None? then Outcome(Ok(()), w)
    else
      var lhs := h.evalSync(w, d.id);
      if lhs.result.Err? then Outcome(Err(lhs.result.error), lhs.world)
      // `(Reference)` of something else fails the cast; of null, `AssertValid` dereferences it
      else if !lhs.result.value.PReference? then Outcome(ClrThrow(if lhs.result.value.PNull? then NullReference else InvalidCast), lhs.world)
      else
        var valid := AssertValid(lhs.result.value.r);
        if valid.Err? then Outcome(Err(valid.error), lhs.world)
        else
          var v := EvalValue(h, lhs.world, d.init.value);
          if v.result.Err? then Outcome(Err(v.result.error), v.world)
          else PutValue(h, v.world, lhs.result.value.r, v.result.value)
  }

  /** The declarators in order, stopping at the first that raises. */
  function DeclareVariables(h: Host, w: World, declarations: seq<VariableDeclarator>): (r: Outcome<()>)
    decreases |declarations|
  {
    if declarations == [] then Outcome(Ok(()), w)
    else
      var first := DeclareVariable(h, w, declarations[0]);
      if first.result.Err? then first else DeclareVariables(h, first.world, declarations[1..])
  }

  /** Declaring a list in two parts is declaring the first part and then, unless it raised, the second. */
  lemma {:induction false} DeclareVariablesAppend(h: Host, w: World, xs: seq<VariableDeclarator>, ys: seq<VariableDeclarator>)
    ensures DeclareVariables(h, w, xs + ys) ==
      var first := DeclareVariables(h, w, xs);
      if first.result.Err? then first else DeclareVariables(h, first.world, ys)
    decreases |xs|
  {
    if xs != [] {
      var head := DeclareVariable(h, w, xs[0]);
      assert (xs + ys)[0] == xs[0];
      assert (xs + ys)[1..] == xs[1..] + ys;
      if head.result.Ok? {
        DeclareVariablesAppend(h, head.world, xs[1..], ys);
      }
    } else {
      assert xs + ys == ys;
    }
  }

  /** Declarators without initialisers leave the world alone (the hoisting already created the bindings). */
  lemma {:induction false} UninitialisedDeclarationsDoNothing(h: Host, w: World, declarations: seq<VariableDeclarator>)
    requires forall i :: 0 <= i < |declarations| ==> declarations[i].init.None?
    ensures DeclareVariables(h, w, declarations) == Outcome(Ok(()), w)
    decreases |declarations|
  {
    if declarations != [] {
      UninitialisedDeclarationsDoNothing(h, w, declarations[1..]);
    }
  }

  /** The loop of `ExecuteVariableDeclaration` over the declarators. */
  method DeclareVariablesLoop(h: Host, w: World, declarations: seq<VariableDeclarator>) returns (r: Outcome<()>)
    ensures r == DeclareVariables(h, w, declarations)
  {
    var world := w;
    var i := 0;
    while i < |declarations|
      invariant 0 <= i <= |declarations|
      invariant DeclareVariables(h, w, declarations) == DeclareVariables(h, world, declarations[i..])
    {
      var one := DeclareVariable(h, world, declarations[i]);
      assert declarations[i..][0] == declarations[i];
      assert declarations[i..][1..] == declarations[i + 1..];
      if one.result.Err? {
        return one;
      }
      world := one.world;
      i := i + 1;
    }
    return Outcome(Ok(()), world);
  }

  /** `ExecuteVariableDeclaration`: every initialised declarator stored, then a Normal completion with Undefined. */
  function ExecuteVariableDeclaration(c: Context, f: Frame): Effect {
    match f.arg
    case StatementArg(Statement(VarDecl(declarations), _)) =>
      var r := DeclareVariables(c.host, c.world, declarations);
      if r.result.Err? then RaisedBy(f, r) else Returning(f, r.world, NormalPayload(Some(JsUndefined)))
    case _ => BadArg(f, c.world)
  }

  /**
   * A variable declaration stores its declarators in order and completes
   * Normal with Undefined; the first declarator that raises makes the
   * statement raise, with the world it left behind.
   */
  lemma VariableDeclarationOutcome(c: Context, f: Frame, declarations: seq<VariableDeclarator>, location: Location)
    requires f.arg == StatementArg(Statement(VarDecl(declarations), location))
    ensures var d := DeclareVariables(c.host, c.world, declarations);
      var e := ExecuteVariableDeclaration(c, f);
      && (d.result.Ok? ==> e == Returning(f, d.world, PCompletion(Completion(Normal, Some(JsUndefined), None, None))))
      && (d.result.Err? ==> e == Raised(f, d.world, d.result.error))
  {
  }
}
