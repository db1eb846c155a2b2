# SpaceJS interpreter core in Dafny

SpaceJS is a Space Engineers mod. It runs JavaScript on programmable blocks through a fork of the Jint
interpreter. The fork replaces Jint's recursive evaluator with a trampoline. Every statement and
expression is a small state machine. A machine runs on a `RuntimeState` frame that holds a stage
counter, two locals and the value its last callee returned. `StatementInterpreter.Step` runs the top
frame once, and `Call`/`Return` push and pop frames. Each game tick, the host gives each block a
budget of steps. An exception clears that block's engine and is appended to the block's custom info,
which is capped at 1000 characters.

This project models that core:

- **Trampoline and frames.** `RuntimeStates` holds the frame record, `Frame`, and the class
  `RuntimeState` whose fields are updated in place. `StatementInterpreters` holds the frame stack, as
  the class `StatementInterpreter` over a `seq<RuntimeState>`, with `Call`, `Return`, `Step` and
  `Clear`.
- **Evaluators.** Every evaluator is a pure function from the context and the frame to an `Effect`.
  The effect gives the frame's new fields, the new world, and the stack action: stay, push, pop, or
  pop-and-push. It can also be an exception, either a JavaScript error or a .NET one.
  `Step` applies the effect imperatively.
- **Statement state machines.** These are in `StatementEvaluators`.
- **Expression state machines.** These are in `ExpressionInterpreters`.
- **Operator semantics.** `Operators` covers division, the abstract and strict equalities,
  `SameValue`, `Compare`, the Int32 operators and compound assignment.
- **Engine.** `EngineEvaluators` holds the engine's dispatchers. `EngineReferences` holds
  `GetValue`/`PutValue`. `DeclarationBindings` holds declaration hoisting.
- **Smaller pieces.** Tagged values, the growable execution-context stack, argument helpers, the
  operator parsers, the 64-bit logical shift, and the event registry.
- **Host loops.** `SpaceJsHosts` models the per-tick host loops of `Block` and `SpaceJS`.

Numbers are IEEE doubles in the abstract: NaN, the two infinities, the two zeros, or a non-zero real.
Division and comparison are written out case by case. The other arithmetic and every
`TypeConverter` conversion are uninterpreted fields of a `Converter`. Objects, environment
records and the call stack are only reachable through the uninterpreted operations of a `Host` over
an abstract `World`.

Script strings are Dafny strings, which are sequences of Unicode characters, while .NET strings are
sequences of UTF-16 code units. Where the source depends on the code units, the model goes through
`Utf16.Encode`, whose round trip with `Utf16.Decode` is proved. That is the case for
`String.CompareOrdinal` in `Compare`, and for `Length` and `Substring` on a block's custom info.

The statement interpreter also calls `_engine.EvaluateExpression(expr)` synchronously, for example
at StatementInterpreter.cs:61. The engine has no such overload; only the frame-based one at
Engine.cs:618 exists. So the model treats the synchronous call as the host's `evalSync` oracle.

The code is modelled as written, including these behaviours:

- `ExecuteWhileStatement` returns and then still pushes the body onto the parent frame.
- `ExecuteForInStatement` never pushes its body.
- `ExecuteWithStatement` never calls its body.
- `ExecuteSwitchBlock` pushes the clause it hit again and again, because it never clears
  `calleeReturned`.
- `ExecuteTryStatement` runs the catch clause for every completion type and never restores the old
  environment.
- `return;` pushes an expression frame for a null node, and that frame fails.
- `Step` casts every failing frame's argument to `Statement`. So a JavaScript error raised in an
  expression frame escapes as an InvalidCastException instead of becoming a Throw completion.

## Model

| member | source | states |
|---|---|---|
| Numbers.Negate | Data/Scripts/SpaceJS/Jint/Runtime/ExpressionIntepreter.cs:1365-1368 | unary minus keeps NaN, maps a finite value x to -x, +Infinity to -Infinity and +0 to -0 and back, and flips the sign of every non-NaN number |
| Numbers.NumEqualsZeros | Data/Scripts/SpaceJS/Jint/Runtime/ExpressionIntepreter.cs:609-647 | the double comparison behind `===` makes +0 equal to -0 and NaN unequal to itself |
| Numbers.NumLessIsStrictOrder | Data/Scripts/SpaceJS/Jint/Runtime/ExpressionIntepreter.cs:694-752 | the numeric `<` used by `Compare` is irreflexive, asymmetric and transitive, and total on non-NaN values up to numeric equality |
| Numbers.ShiftRight | Data/Scripts/SpaceJS/Jint/Runtime/ExpressionIntepreter.cs:464-466 | the arithmetic `>>` by k is floor division by 2^k: it keeps the sign and never moves a value away from zero |
| JsValues.TagPredicatesMatchClasses | Data/Scripts/Jint/Native/JsValue.cs:30-88 | each `IsX` tag predicate holds exactly for the values of class X; arrays, dates and regexps are objects |
| JsValues.AsObject | Data/Scripts/Jint/Native/JsValue.cs:90-97 | succeeds exactly on objects and returns the value itself; otherwise an ArgumentException |
| JsValues.TryCast | Data/Scripts/Jint/Native/JsValue.cs:180-193 | returns the value exactly when it is an object of the requested type; otherwise null, or the failure callback's exception when one is given |
| JsValues.As | Data/Scripts/Jint/Native/JsValue.cs:195-207 | returns the value exactly when `Is` holds for it, null otherwise |
| JsValues.AsCompletion | Data/Scripts/Jint/Native/JsValue.cs:169-178 | succeeds exactly on completion-tagged values and then always yields a Normal completion holding Undefined |
| JsValues.ReturnOnAbruptCompletion | Data/Scripts/Jint/Native/JsValue.cs:340-356 | a non-completion is kept and reported as not abrupt; a completion is replaced by Undefined |
| JsValues.ReturnOnAbruptCompletionNeverAborts | Data/Scripts/Jint/Native/JsValue.cs:340-356 | the abrupt branch is unreachable, because `AsCompletion` only builds Normal completions |
| JsValues.FromChar | Data/Scripts/Jint/Native/JsValue.cs:403-406 | a character converts to the one-character string |
| JsValues.FromInt | Data/Scripts/Jint/Native/JsValue.cs:408-411 | an int converts to the number with that value, 0 to +0 |
| JsValues.FromDouble | Data/Scripts/Jint/Native/JsValue.cs:418-421 | a double converts to the number holding it |
| JsValues.FromBool | Data/Scripts/Jint/Native/JsValue.cs:423-426 | a bool converts to the boolean holding it |
| JsValues.FromString | Data/Scripts/Jint/Native/JsValue.cs:428-436 | a null string converts to Null, any other string to itself |
| JsValueEquality.Equals | Data/Scripts/Jint/Native/JsValue.cs:455 | typed `Equals` holds exactly when the other value is present and the same value |
| JsValueEquality.OpEquals | Data/Scripts/Jint/Native/JsValue.cs:363-381 | two nulls are equal, one null is unequal, otherwise the typed `Equals` decides |
| JsValueEquality.OpNotEquals | Data/Scripts/Jint/Native/JsValue.cs:383-401 | two nulls are not unequal, exactly one null is unequal |
| JsValueEquality.NotEqualsNegatesEquals | Data/Scripts/Jint/Native/JsValue.cs:363-401 | `!=` is the exact negation of `==`, and `==` is reflexive, symmetric and transitive, coinciding with equality |
| JsValueEquality.EqualsObject | Data/Scripts/Jint/Native/JsValue.cs:438-453 | `Equals(object)` is false for null and for non-`JsValue` objects, otherwise the typed `Equals` |
| JsValueExtensions.AsBoolean | Data/Scripts/Jint/JsValueExtensions.cs:9-17 | succeeds exactly on booleans, returning their truth value; otherwise an ArgumentException |
| JsValueExtensions.AsNumber | Data/Scripts/Jint/JsValueExtensions.cs:19-27 | succeeds exactly on numbers, returning the double; otherwise an ArgumentException |
| JsValueExtensions.AsString | Data/Scripts/Jint/JsValueExtensions.cs:29-37 | succeeds exactly on strings, returning the text; otherwise an ArgumentException |
| JsValueExtensions.AsSymbol | Data/Scripts/Jint/JsValueExtensions.cs:44-52 | succeeds exactly on symbols, returning the description; otherwise an ArgumentException |
| JsValueExtensions.AccessorsInvertConversions | Data/Scripts/Jint/JsValueExtensions.cs:9-37 | reading back a converted bool, double or non-null string gives the original; a null string does not read back as a string |
| JsNullClass.TagIsNull | Data/Scripts/Jint/Native/JsNull.cs:8-10 | Null carries the Null tag and is primitive |
| JsNullClass.ToObject | Data/Scripts/Jint/Native/JsNull.cs:12-15 | Null converts to the null CLR object |
| JsNullClass.ToString | Data/Scripts/Jint/Native/JsNull.cs:17-20 | Null prints as "null" |
| JsNullClass.Equals | Data/Scripts/Jint/Native/JsNull.cs:22-35 | Null equals exactly Null |
| JsNullClass.EqualsNull | Data/Scripts/Jint/Native/JsNull.cs:37-45 | the typed overload is true exactly for a non-null argument |
| JsUndefinedClass.TagIsUndefined | Data/Scripts/SpaceJS/Jint/Native/JsUndefined.cs:8-10 | Undefined carries the Undefined tag and is primitive |
| JsUndefinedClass.ToObject | Data/Scripts/SpaceJS/Jint/Native/JsUndefined.cs:12-15 | Undefined converts to the null CLR object |
| JsUndefinedClass.ToString | Data/Scripts/SpaceJS/Jint/Native/JsUndefined.cs:17-20 | Undefined prints as "undefined" |
| JsUndefinedClass.Equals | Data/Scripts/SpaceJS/Jint/Native/JsUndefined.cs:22-35 | Undefined equals exactly Undefined |
| JsUndefinedClass.EqualsUndefined | Data/Scripts/SpaceJS/Jint/Native/JsUndefined.cs:37-45 | the typed overload is true exactly for a non-null argument |
| Arguments.At | Data/Scripts/Jint/Runtime/Arguments.cs:23-26 | an index inside the array gives that argument; one past the end gives the default; a negative index is an IndexOutOfRangeException |
| Arguments.AtOrUndefined | Data/Scripts/Jint/Runtime/Arguments.cs:28-31 | like `At`, with Undefined as the default |
| Arguments.Subtract32 | Data/Scripts/Jint/Runtime/Arguments.cs:35 | C# `int` subtraction: the exact difference when it fits in 32 bits, and the difference less 2^32, a negative number, when it overflows upwards |
| Arguments.Skip | Data/Scripts/Jint/Runtime/Arguments.cs:33-44 | the new length is the 32-bit difference `args.Length - count`: a count at or past the length, or a negative count whose difference overflows, gives an empty array; any other negative count makes the copy fail with ArgumentOutOfRange; otherwise a fresh array holding exactly the arguments after the first `count` |
| NumberExtensions.UnsignedShift | Data/Scripts/Jint/Native/Number/Dtoa/NumberExtensions.cs:7-10 | a shift count that is a multiple of 64 leaves the value alone; any other count k gives the unsigned bit pattern of the value divided by 2^k, rounded down, which is non-negative |
| NumberExtensions.UnsignedShiftCountModulo64 | Data/Scripts/Jint/Native/Number/Dtoa/NumberExtensions.cs:7-10 | only the count modulo 64 matters |
| NumberExtensions.UnsignedShiftOfNonNegative | Data/Scripts/Jint/Native/Number/Dtoa/NumberExtensions.cs:7-10 | on a non-negative value the logical shift is the arithmetic one |
| NumberExtensions.UnsignedShiftOfMinusOne | Data/Scripts/Jint/Native/Number/Dtoa/NumberExtensions.cs:7-10 | -1 shifted right once is 2^63 - 1, so the sign bit is not copied |
| NumberExtensions.UnsignedShiftOfNegative | Data/Scripts/Jint/Native/Number/Dtoa/NumberExtensions.cs:7-10 | on a negative value the logical shift by k in 1..63 is the arithmetic shift plus 2^(64-k): zeros come in instead of sign bits |
| BinaryExpressions.ParseBinaryOperator | Data/Scripts/TestNetwork/Esprima/Ast/BinaryExpression.cs:49-102 | parses exactly the operator texts, to the operator whose text it was; anything else raises "Invalid binary operator" |
| BinaryExpressions.ParseOperatorText | Data/Scripts/TestNetwork/Esprima/Ast/BinaryExpression.cs:49-102 | printing an operator and parsing the text gives the operator back |
| BinaryExpressions.ParseBinaryOperatorInjective | Data/Scripts/TestNetwork/Esprima/Ast/BinaryExpression.cs:49-102 | different accepted texts parse to different operators |
| BinaryExpressions.NewBinaryExpression | Data/Scripts/TestNetwork/Esprima/Ast/BinaryExpression.cs:40-47 | the node holds the parsed operator and both operands; its type is LogicalExpression exactly for `&&` and `||`; a bad operator fails as the parser does |
| UnaryExpressions.ParseUnaryOperator | Data/Scripts/Esprima/Ast/UnaryExpression.cs:26-55 | parses exactly the operator texts, to the operator whose text it was; anything else raises "Invalid unary operator" |
| UnaryExpressions.ParseOperatorText | Data/Scripts/Esprima/Ast/UnaryExpression.cs:26-55 | printing an operator and parsing the text gives the operator back |
| UnaryExpressions.ParseUnaryOperatorInjective | Data/Scripts/Esprima/Ast/UnaryExpression.cs:26-55 | different accepted texts parse to different operators |
| UnaryExpressions.NewUnaryExpression | Data/Scripts/Esprima/Ast/UnaryExpression.cs:56-62 | a UnaryExpression node with the parsed operator, the argument and `Prefix` set; a bad operator fails as the parser does |
| ExecutionContexts.ExecutionContextStack.constructor | Data/Scripts/Jint/Runtime/RefStack.cs:14-18 | an empty stack over a fresh array of the default capacity 4 |
| ExecutionContexts.ExecutionContextStack.Peek | Data/Scripts/Jint/Runtime/RefStack.cs:20-27 | the top context, or an InvalidOperationException on an empty stack |
| ExecutionContexts.ExecutionContextStack.Pop | Data/Scripts/Jint/Runtime/RefStack.cs:29-36 | removes exactly the top context, or fails on an empty stack and changes nothing |
| ExecutionContexts.ExecutionContextStack.Push | Data/Scripts/Jint/Runtime/RefStack.cs:38-49 | appends the context; a full array is replaced by one of twice the length, and otherwise the array is kept |
| ExecutionContexts.ExecutionContextStack.ReplaceTopLexicalEnvironment | Data/Scripts/Jint/Runtime/RefStack.cs:51-54 | only the top context's lexical environment changes; an empty stack is an IndexOutOfRangeException |
| EventInstances.FireAppend | Data/Scripts/SpaceJS/SpaceJS/Api/Event/EventInstance.cs:65-83 | firing two listener lists in turn is firing their concatenation |
| EventInstances.RemoveFirstRemovesOne | Data/Scripts/SpaceJS/SpaceJS/Api/Event/EventInstance.cs:113-143 | removing a listener takes exactly one occurrence out of the list (as a multiset) and leaves a list without it unchanged |
| EventInstances.EventInstance.OnAction | Data/Scripts/SpaceJS/SpaceJS/Api/Event/EventInstance.cs:86-110 | fewer than two arguments or an empty name gives false; a registration past the limit of 50 throws; otherwise the listener is appended to the name's list and true is returned |
| EventInstances.EventInstance.OffAction | Data/Scripts/SpaceJS/SpaceJS/Api/Event/EventInstance.cs:113-143 | fewer than two arguments, an empty name or an unregistered name gives false and changes nothing; otherwise one occurrence of the listener is removed and true is returned |
| EventInstances.EventInstance.TriggerAction | Data/Scripts/SpaceJS/SpaceJS/Api/Event/EventInstance.cs:65-83 | an unknown action invokes nothing; a known one invokes its listeners in registration order |
| RuntimeStates.NewFrame | Data/Scripts/SpaceJS/Jint/Runtime/RuntimeState.cs:14-24 | a new frame stores method and argument as given, at stage 0, with no callee result and null locals |
| RuntimeStates.RuntimeState.constructor | Data/Scripts/SpaceJS/Jint/Runtime/RuntimeState.cs:20-24 | the constructed frame's fields are those of `NewFrame` |
| RuntimeStates.RuntimeState.Call | Data/Scripts/SpaceJS/Jint/Runtime/RuntimeState.cs:26-29 | invokes the stored method on the frame's own fields and changes nothing itself |
| RuntimeStates.RuntimeState.Receive | Data/Scripts/SpaceJS/Jint/Runtime/StatementInterpreter.cs:952-961 | the parent frame records the returned payload and sets `calleeReturned`, and nothing else changes |
| StatementInterpreters.ReturnFrames | Data/Scripts/SpaceJS/Jint/Runtime/StatementInterpreter.cs:952-961 | `Return` removes exactly one frame |
| StatementInterpreters.ReturnFramesKeepsLower | Data/Scripts/SpaceJS/Jint/Runtime/StatementInterpreter.cs:952-961 | frames below the parent are untouched, and the parent receives the payload |
| StatementInterpreters.StepOnEmptyStack | Data/Scripts/SpaceJS/Jint/Runtime/StatementInterpreter.cs:968-973 | a step on an empty stack reports false and changes nothing |
| StatementInterpreters.StepKeepsLowerFrames | Data/Scripts/SpaceJS/Jint/Runtime/StatementInterpreter.cs:968-988 | a step on a non-empty stack reports true or lets a .NET exception escape; it changes the height by at most one and keeps every frame below the top two |
| StatementInterpreters.JsExceptionInStatementFrame | Data/Scripts/SpaceJS/Jint/Runtime/StatementInterpreter.cs:980-985 | a JavaScript error in a statement frame pops it and delivers a Throw completion with the error value, located at the error's location or else the statement's |
| StatementInterpreters.JsExceptionInExpressionFrame | Data/Scripts/SpaceJS/Jint/Runtime/StatementInterpreter.cs:982 | a JavaScript error in an expression or argument-list frame fails the `(Statement)` cast: InvalidCastException, and no frame is popped |
| StatementInterpreters.ClrExceptionEscapes | Data/Scripts/SpaceJS/Jint/Runtime/StatementInterpreter.cs:975-986 | a .NET exception escapes `Step` and leaves the frame, with its writes, on the stack |
| StatementInterpreters.WhileFalseTestLeavesBodyFrame | Data/Scripts/SpaceJS/Jint/Runtime/StatementInterpreter.cs:192-225 | a while loop whose test fails returns Normal to its parent, and the stack still gains a frame for the body |
| StatementInterpreters.LastReturnEndsRun | Data/Scripts/SpaceJS/Jint/Runtime/StatementInterpreter.cs:952-988 | the last frame's return empties the stack, and the next step reports false |
| StatementInterpreters.StatementInterpreter.Call | Data/Scripts/SpaceJS/Jint/Runtime/StatementInterpreter.cs:963-966 | pushes exactly one new frame and keeps the others |
| StatementInterpreters.StatementInterpreter.Return | Data/Scripts/SpaceJS/Jint/Runtime/StatementInterpreter.cs:952-961 | pops exactly one frame and hands the payload to the new top; an empty stack is an InvalidOperationException |
| StatementInterpreters.StatementInterpreter.Clear | Data/Scripts/SpaceJS/Jint/Runtime/StatementInterpreter.cs:990-993 | the stack is empty afterwards |
| StatementInterpreters.StatementInterpreter.ExecuteProgram | Data/Scripts/SpaceJS/Jint/Runtime/StatementInterpreter.cs:915-918 | pushes one statement-list frame for the program body |
| StatementInterpreters.StatementInterpreter.Step | Data/Scripts/SpaceJS/Jint/Runtime/StatementInterpreter.cs:968-988 | the new frames, world and contexts are exactly those of the step specification, whose properties are the lemmas above |
| StatementEvaluators.InterpreterExecuteStatement | Data/Scripts/SpaceJS/Jint/Runtime/StatementInterpreter.cs:23-33 | pushes the engine's statement evaluator, then passes its result through unchanged |
| StatementEvaluators.ExpressionStatementCompletes | Data/Scripts/SpaceJS/Jint/Runtime/StatementInterpreter.cs:42-49 | an expression statement completes Normal with the expression's value, or raises what the evaluation raised with the world it left |
| StatementEvaluators.IfSelectsBranch | Data/Scripts/SpaceJS/Jint/Runtime/StatementInterpreter.cs:51-75 | exactly the branch the test selects is pushed; a false test without else completes Normal without a value; a throwing test raises; the branch's completion is handed back unchanged |
| StatementEvaluators.LabeledMapsBreak | Data/Scripts/SpaceJS/Jint/Runtime/StatementInterpreter.cs:84-95 | only a Break carrying this label becomes Normal with the same value; every other completion passes through |
| StatementEvaluators.SimpleStatementCompletions | Data/Scripts/SpaceJS/Jint/Runtime/StatementInterpreter.cs:489-533 | break, continue, `return;` and the empty statement complete in one run with the completion of their kind |
| StatementEvaluators.ThrowCarriesLocation | Data/Scripts/SpaceJS/Jint/Runtime/StatementInterpreter.cs:816-822 | `throw e` completes with Throw, e's value and the statement's location |
| StatementEvaluators.DoWhileAbruptCompletions | Data/Scripts/SpaceJS/Jint/Runtime/StatementInterpreter.cs:129-149 | a Break that is unlabeled or carries the loop's label ends the loop Normal with the last value; a Normal completion or a Continue carrying the loop's label (both absent included) goes to the test, which pushes the body again when true, ends Normal when false, and raises what it raised; every other abrupt completion (Return, Throw, a Break or Continue aimed elsewhere, an unlabeled Continue in a labeled loop) passes unchanged |
| StatementEvaluators.WhileBodyCompletions | Data/Scripts/SpaceJS/Jint/Runtime/StatementInterpreter.cs:192-225 | the same decision for the while loop, except that a false test returns Normal with the last value and still pushes the body |
| StatementEvaluators.WhileFalseTestAlsoPushesBody | Data/Scripts/SpaceJS/Jint/Runtime/StatementInterpreter.cs:192-225 | a failing test returns Normal and then still pushes the body |
| StatementEvaluators.ForBreakAndContinue | Data/Scripts/SpaceJS/Jint/Runtime/StatementInterpreter.cs:287-324 | a Break that is unlabeled or carries the loop's label ends the loop Normal with the last value; a Normal completion, or a Continue that is unlabeled or carries the loop's label, runs the update and then the test, ending Normal on a false test and pushing the body otherwise, each raising what its evaluation raised; every other abrupt completion passes unchanged |
| StatementEvaluators.ForInNeverRunsBody | Data/Scripts/SpaceJS/Jint/Runtime/StatementInterpreter.cs:348-482 | the first run of a for-in either raises or completes normally without a value, and never pushes the body |
| StatementEvaluators.ForInSetup | Data/Scripts/SpaceJS/Jint/Runtime/StatementInterpreter.cs:352-373 | a throw while resolving the identifier or evaluating the object expression keeps the world that evaluation reached |
| StatementEvaluators.ForInThrowKeepsWorld | Data/Scripts/SpaceJS/Jint/Runtime/StatementInterpreter.cs:348-482 | a for-in whose object expression throws raises that error with the world the expression left, so its side effects stay |
| StatementEvaluators.WithNeverRunsBody | Data/Scripts/SpaceJS/Jint/Runtime/StatementInterpreter.cs:544-568 | `with` installs the object environment and then stays without ever calling its body |
| StatementEvaluators.SwitchStatementOutcome | Data/Scripts/SpaceJS/Jint/Runtime/StatementInterpreter.cs:580-602 | the discriminant's value and the clauses go to one case-block frame (a throwing discriminant raises); on return a Break whose label is the switch's becomes Normal with its value, and every other completion passes unchanged |
| StatementEvaluators.SwitchBlockRepeatsClause | Data/Scripts/SpaceJS/Jint/Runtime/StatementInterpreter.cs:649-705 | after a hit clause's body completes normally, the block stays at that clause and pushes its statements again with `calleeReturned` still set; a clause with a test evaluates the test again, raising with the world it left when it throws, and stays hit whatever it yields |
| StatementEvaluators.SwitchBlockSkipsUnmatchedClause | Data/Scripts/SpaceJS/Jint/Runtime/StatementInterpreter.cs:613-710 | a clause whose test is not strictly equal to the input moves the block to the next clause |
| StatementEvaluators.MultipleStopsAtAbrupt | Data/Scripts/SpaceJS/Jint/Runtime/StatementInterpreter.cs:752-777 | the first abrupt completion ends the list, inheriting the last normal value when it has none; a Normal one advances to the next statement |
| StatementEvaluators.EmptyListCompletesNormally | Data/Scripts/SpaceJS/Jint/Runtime/StatementInterpreter.cs:722-785 | an empty list completes Normal with Undefined in one run |
| StatementEvaluators.BlockAndListPushOneFrame | Data/Scripts/SpaceJS/Jint/Runtime/StatementInterpreter.cs:932-950 | a block pushes one statement-list frame for its body; a one-statement list pushes the single-statement frame and any other list the multiple-statement frame; both return the completion they receive unchanged |
| StatementEvaluators.ExecuteSingleStatement | Data/Scripts/SpaceJS/Jint/Runtime/StatementInterpreter.cs:787-809 | an abrupt completion passes unchanged; a Normal one gets Undefined for a missing value |
| StatementEvaluators.TryCatchRunsForAnyCompletion | Data/Scripts/SpaceJS/Jint/Runtime/StatementInterpreter.cs:874-885 | the catch clause runs even after a normal block, with the parameter bound to the block's value in a new declarative environment |
| StatementEvaluators.TryFinallyOutcome | Data/Scripts/SpaceJS/Jint/Runtime/StatementInterpreter.cs:889-911 | a Normal finally yields the block's or catch's completion; an abrupt finally replaces it |
| StatementEvaluators.DeclareVariable | Data/Scripts/SpaceJS/Jint/Runtime/StatementInterpreter.cs:995-1015 | a declarator without an initialiser does nothing; otherwise the identifier must evaluate to a reference (else the cast fails) that `AssertValid` accepts, and the initialiser's value is stored through it with `PutValue`; each failure raises with the world reached so far |
| References.AssertValid | Data/Scripts/SpaceJS/Jint/Runtime/StatementInterpreter.cs:1005 | the reference check before a declaration's store fails exactly for a strict reference to `eval` or `arguments` through an environment record, with a SyntaxError |
| StatementEvaluators.DeclareVariablesAppend | Data/Scripts/SpaceJS/Jint/Runtime/StatementInterpreter.cs:995-1015 | declaring two lists in turn is declaring their concatenation, stopping at the first error |
| StatementEvaluators.UninitialisedDeclarationsDoNothing | Data/Scripts/SpaceJS/Jint/Runtime/StatementInterpreter.cs:995-1015 | declarators without initialisers leave the world alone |
| StatementEvaluators.DeclareVariablesLoop | Data/Scripts/SpaceJS/Jint/Runtime/StatementInterpreter.cs:995-1015 | the declarator loop computes the specification `DeclareVariables` |
| StatementEvaluators.VariableDeclarationOutcome | Data/Scripts/SpaceJS/Jint/Runtime/StatementInterpreter.cs:995-1015 | the statement declares its declarators in order and completes Normal with Undefined, or raises the first declarator's error with the world it left |
| Operators.Divide | Data/Scripts/SpaceJS/Jint/Runtime/ExpressionIntepreter.cs:240-288 | Undefined exactly when an operand is Undefined, otherwise the IEEE quotient of the two numbers |
| Operators.DivideNumbersIsIeeeDivision | Data/Scripts/SpaceJS/Jint/Runtime/ExpressionIntepreter.cs:240-288 | the quotient is NaN exactly in the IEEE cases; otherwise its sign is the XOR of the signs, it is infinite exactly for an infinite dividend or zero divisor, zero exactly for a zero dividend or infinite divisor, and exact on finite values |
| Operators.DivideRows | Data/Scripts/SpaceJS/Jint/Runtime/ExpressionIntepreter.cs:240-288 | each row of the case table (NaN, infinity over infinity, zero over zero, signed zeros as divisors) |
| Operators.StrictlyEqualRows | Data/Scripts/SpaceJS/Jint/Runtime/ExpressionIntepreter.cs:609-647 | different tags are unequal; NaN is unequal to everything; +0 equals -0; numbers, strings and booleans compare by content |
| Operators.StrictlyEqualSymmetric | Data/Scripts/SpaceJS/Jint/Runtime/ExpressionIntepreter.cs:609-647 | `===` is symmetric and reflexive except on NaN |
| Operators.SameValueNumbers | Data/Scripts/SpaceJS/Jint/Runtime/ExpressionIntepreter.cs:649-692 | on numbers SameValue is identity: NaN equals NaN, +0 differs from -0, and otherwise it agrees with `===` |
| Operators.EqualRows | Data/Scripts/SpaceJS/Jint/Runtime/ExpressionIntepreter.cs:559-607 | each rule of `==`: same tag is `===`; null equals undefined; number against string and boolean against anything convert with ToNumber; object against string or number converts with ToPrimitive; undefined or null against any other type, and a symbol against a non-symbol non-boolean, are unequal |
| Operators.EqualSymmetric | Data/Scripts/SpaceJS/Jint/Runtime/ExpressionIntepreter.cs:559-607 | `==` is symmetric |
| Operators.StrictlyEqualImpliesEqual | Data/Scripts/SpaceJS/Jint/Runtime/ExpressionIntepreter.cs:559-647 | strictly equal values are equal |
| Operators.OrdinalLessAsymmetric | Data/Scripts/SpaceJS/Jint/Runtime/ExpressionIntepreter.cs:694-752 | the ordinal order on UTF-16 code units is irreflexive and asymmetric |
| Operators.OrdinalLessTransitive | Data/Scripts/SpaceJS/Jint/Runtime/ExpressionIntepreter.cs:694-752 | the ordinal order on UTF-16 code units is transitive |
| Operators.OrdinalLessTotal | Data/Scripts/SpaceJS/Jint/Runtime/ExpressionIntepreter.cs:694-752 | two different code-unit sequences are ordered one way or the other |
| Operators.Compare | Data/Scripts/SpaceJS/Jint/Runtime/ExpressionIntepreter.cs:694-752 | the result is Undefined or a boolean |
| Operators.CompareNumbers | Data/Scripts/SpaceJS/Jint/Runtime/ExpressionIntepreter.cs:694-752 | on numbers: Undefined when either is NaN, otherwise the IEEE `<` |
| Operators.CompareStrings | Data/Scripts/SpaceJS/Jint/Runtime/ExpressionIntepreter.cs:694-752 | on strings: the ordinal order of their UTF-16 code units, as `String.CompareOrdinal` |
| Operators.CompareStringsByCodeUnits | Data/Scripts/SpaceJS/Jint/Runtime/ExpressionIntepreter.cs:694-752 | the order is the code units', not the characters': U+10000 (0xD800 0xDC00) sorts before U+FFFF |
| Operators.ShiftCount | Data/Scripts/SpaceJS/Jint/Runtime/ExpressionIntepreter.cs:460-469 | the shift count is ToUint32 of the right operand masked to five bits |
| Operators.Uint32ShiftRight | Data/Scripts/SpaceJS/Jint/Runtime/ExpressionIntepreter.cs:468-469 | `>>>` by k is the unsigned bit pattern of the operand divided by 2^k, rounded down: a uint32, equal to the arithmetic shift on non-negative operands |
| Operators.Uint32ShiftRightOfNegative | Data/Scripts/SpaceJS/Jint/Runtime/ExpressionIntepreter.cs:468-469 | on a negative operand `>>>` by k in 1..31 is `>>` plus 2^(32-k) |
| Operators.Int32Not | Data/Scripts/SpaceJS/Jint/Runtime/ExpressionIntepreter.cs:1370-1371 | `~x` is `-x - 1` |
| Operators.TimesModuloUndefined | Data/Scripts/SpaceJS/Jint/Runtime/ExpressionIntepreter.cs:366-391 | `*` and `%` yield Undefined exactly when an operand is Undefined, otherwise a number |
| Operators.RelationalOperators | Data/Scripts/SpaceJS/Jint/Runtime/ExpressionIntepreter.cs:400-438 | `<`, `>`, `>=`, `<=` through `Compare`, with swapped operands and leftFirst false for `>` and `<=`, and Undefined counting as false |
| Operators.RelationalOperatorsOnNumbers | Data/Scripts/SpaceJS/Jint/Runtime/ExpressionIntepreter.cs:400-438 | on numbers the four operators are the IEEE comparisons, all false on NaN |
| Operators.NegatedOperators | Data/Scripts/SpaceJS/Jint/Runtime/ExpressionIntepreter.cs:392-446 | `!=` and `!==` are the negations of `==` and `===` |
| Operators.CompoundAssignmentMatchesBinary | Data/Scripts/SpaceJS/Jint/Runtime/ExpressionIntepreter.cs:149-236 | every compound assignment combines like its binary operator; an unknown one fails |
| Operators.ArithmeticAssignmentMatchesBinary | Data/Scripts/SpaceJS/Jint/Runtime/ExpressionIntepreter.cs:149-202 | `+=`, `-=`, `*=`, `/=`, `%=` combine as `+ - * / %`, including Undefined for `*=` and `%=` |
| Operators.IntegerAssignmentMatchesBinary | Data/Scripts/SpaceJS/Jint/Runtime/ExpressionIntepreter.cs:203-228 | the bitwise and shift assignments combine as their binary operators |
| Operators.ValueOperatorOnIntegers | Data/Scripts/SpaceJS/Jint/Runtime/ExpressionIntepreter.cs:448-470 | the bitwise and shift operators are the Int32 operations |
| Operators.TypeOfValue | Data/Scripts/SpaceJS/Jint/Runtime/ExpressionIntepreter.cs:1433-1457 | null is "object", undefined is "undefined", an object is "function" exactly when callable |
| ExpressionInterpreters.EvaluateIdentifier | Data/Scripts/SpaceJS/Jint/Runtime/ExpressionIntepreter.cs:754-760 | the reference the current lexical environment resolves the name to; no execution context is an error |
| ExpressionInterpreters.EvaluateLiteral | Data/Scripts/SpaceJS/Jint/Runtime/ExpressionIntepreter.cs:762-788 | booleans, null, numbers and strings evaluate to themselves without touching the world; only a regexp allocates |
| ExpressionInterpreters.EvaluateFunctionExpression | Data/Scripts/SpaceJS/Jint/Runtime/ExpressionIntepreter.cs:987-1005 | a closure over a new environment whose parent is the current one; a named function binds its name there |
| ExpressionInterpreters.EvaluateThisExpression | Data/Scripts/SpaceJS/Jint/Runtime/ExpressionIntepreter.cs:1243-1246 | the running context's this binding |
| ExpressionInterpreters.ConditionalSelectsBranch | Data/Scripts/SpaceJS/Jint/Runtime/ExpressionIntepreter.cs:55-93 | after the test returns, exactly the branch its truth value selects is evaluated |
| ExpressionInterpreters.AssignmentStage2 | Data/Scripts/SpaceJS/Jint/Runtime/ExpressionIntepreter.cs:113-236 | a target that is not a reference is a ReferenceError; `=` stores the right value with `PutValue` and yields it |
| ExpressionInterpreters.BinaryOperation | Data/Scripts/SpaceJS/Jint/Runtime/ExpressionIntepreter.cs:347-496 | the value operators by their case table; `instanceof` on a non-function and `in` on a non-object are TypeErrors; `in` asks `HasProperty` with the key's string; the logical operators are not handled here |
| ExpressionInterpreters.BinaryOfLiterals | Data/Scripts/SpaceJS/Jint/Runtime/ExpressionIntepreter.cs:290-346 | two literal operands are combined in a single run, with no frames pushed |
| ExpressionInterpreters.LogicalShortCircuits | Data/Scripts/SpaceJS/Jint/Runtime/ExpressionIntepreter.cs:528-548 | a falsy left operand of `&&` or a truthy one of `\|\|` is returned without evaluating the right operand; otherwise the right operand is pushed |
| ExpressionInterpreters.LogicalReturnsRight | Data/Scripts/SpaceJS/Jint/Runtime/ExpressionIntepreter.cs:518-523 | the right operand's value is the result |
| ExpressionInterpreters.DefineMember | Data/Scripts/SpaceJS/Jint/Runtime/ExpressionIntepreter.cs:873-911 | a new key is written directly; a repeated key is a SyntaxError exactly under the duplicate rules, and is redefined otherwise |
| ExpressionInterpreters.AccessorMember | Data/Scripts/SpaceJS/Jint/Runtime/ExpressionIntepreter.cs:840-864 | a get/set member whose value is not a function is a SyntaxError; otherwise an enumerable, configurable accessor with only the getter or only the setter |
| ExpressionInterpreters.ObjectAccessorAfterData | Data/Scripts/SpaceJS/Jint/Runtime/ExpressionIntepreter.cs:873-882 | a getter for a key that already holds a data property is a SyntaxError |
| ExpressionInterpreters.ObjectNewDataMember | Data/Scripts/SpaceJS/Jint/Runtime/ExpressionIntepreter.cs:790-917 | a new data member is stored as a writable, enumerable, configurable property, and the machine moves to the next member |
| ExpressionInterpreters.MemberStage2 | Data/Scripts/SpaceJS/Jint/Runtime/ExpressionIntepreter.cs:966-983 | an undefined or null base is a TypeError; otherwise a reference to the property with the base's value |
| ExpressionInterpreters.CallThis | Data/Scripts/SpaceJS/Jint/Runtime/ExpressionIntepreter.cs:1100-1113 | `this` is Undefined for a non-reference callee, the base of a property reference, and the record's implicit this value otherwise |
| ExpressionInterpreters.Callable | Data/Scripts/SpaceJS/Jint/Runtime/ExpressionIntepreter.cs:1080-1098 | an Undefined callee is a TypeError; any result is callable; a callable value is used as it is |
| ExpressionInterpreters.CallNativeMethod | Data/Scripts/SpaceJS/Jint/Runtime/ExpressionIntepreter.cs:1013-1177 | a native method with no arguments is called with the reference's base as `this`, and its result is the value of the call |
| ExpressionInterpreters.SequenceAdvances | Data/Scripts/SpaceJS/Jint/Runtime/ExpressionIntepreter.cs:1179-1202 | each run before the end pushes exactly the next expression |
| ExpressionInterpreters.SequenceReturnsLast | Data/Scripts/SpaceJS/Jint/Runtime/ExpressionIntepreter.cs:1179-1202 | the last expression's value is the result |
| ExpressionInterpreters.UpdateValue | Data/Scripts/SpaceJS/Jint/Runtime/ExpressionIntepreter.cs:1204-1241 | a non-reference fails; on success the old value is converted to a number, one is added or subtracted, the result is stored, and the new value (prefix) or the old one (postfix) is returned |
| ExpressionInterpreters.NewEvaluatesArgumentsFirst | Data/Scripts/SpaceJS/Jint/Runtime/ExpressionIntepreter.cs:1252-1269 | `new` pushes the argument list before evaluating its callee |
| ExpressionInterpreters.NewKeepsBuiltArguments | Data/Scripts/SpaceJS/Jint/Runtime/ExpressionIntepreter.cs:1252-1284 | the array `BuildArguments` returns is kept in the frame, which moves to stage 1 and evaluates the callee |
| ExpressionInterpreters.NewConstructsWithBuiltArguments | Data/Scripts/SpaceJS/Jint/Runtime/ExpressionIntepreter.cs:1286-1300 | a callee whose value is not an `IConstructor` object is a TypeError; otherwise `Construct` is called with the kept arguments and the object it builds is the result; errors of `GetValue` and `Construct` raise with the world they left |
| ExpressionInterpreters.ArrayHoleSkipped | Data/Scripts/SpaceJS/Jint/Runtime/ExpressionIntepreter.cs:1304-1342 | a hole is skipped without evaluating anything |
| ExpressionInterpreters.ArrayElementStored | Data/Scripts/SpaceJS/Jint/Runtime/ExpressionIntepreter.cs:1316-1323 | past the first stage, a returned element value goes through `GetValue` and is stored at the element's index of the kept array, and the next stage follows |
| ExpressionInterpreters.ArrayFirstElementReallocates | Data/Scripts/SpaceJS/Jint/Runtime/ExpressionIntepreter.cs:1311-1323 | at stage 0 the array is allocated again on the run that receives the first element's value, and the value is stored in that new array |
| ExpressionInterpreters.ArrayReturnedAfterLastElement | Data/Scripts/SpaceJS/Jint/Runtime/ExpressionIntepreter.cs:1337-1340 | after the last element the kept array is returned |
| ExpressionInterpreters.EmptyArrayLiteral | Data/Scripts/SpaceJS/Jint/Runtime/ExpressionIntepreter.cs:1311-1340 | `[]` allocates an empty array and returns it in one run |
| ExpressionInterpreters.DeleteOperand | Data/Scripts/SpaceJS/Jint/Runtime/ExpressionIntepreter.cs:1378-1414 | `delete` of a non-reference is true; of an unresolvable reference a SyntaxError in strict code, true otherwise; of an environment reference a SyntaxError exactly in strict code, otherwise the binding is deleted |
| ExpressionInterpreters.TypeOfOperand | Data/Scripts/SpaceJS/Jint/Runtime/ExpressionIntepreter.cs:1421-1457 | an unresolvable reference is "undefined" without being read; otherwise the type name of its value |
| ExpressionInterpreters.TypeOfUndeclaredAndNull | Data/Scripts/SpaceJS/Jint/Runtime/ExpressionIntepreter.cs:1421-1443 | `typeof` an undeclared name is "undefined", `typeof null` is "object" |
| ExpressionInterpreters.UnaryOperation | Data/Scripts/SpaceJS/Jint/Runtime/ExpressionIntepreter.cs:1359-1464 | `delete` and `typeof` as above; `void` yields Undefined; `-` negates ToNumber; `++`/`--` here are an ArgumentException |
| ExpressionInterpreters.BuildArgumentsFillsSlot | Data/Scripts/SpaceJS/Jint/Runtime/ExpressionIntepreter.cs:1475-1511 | each returned argument lands in its own slot, and every other slot is kept |
| ExpressionInterpreters.BuildArgumentsReturnsTarget | Data/Scripts/SpaceJS/Jint/Runtime/ExpressionIntepreter.cs:1475-1511 | after the last slot the filled array itself is returned |
| ExpressionInterpreters.InterpreterEvaluateExpression | Data/Scripts/SpaceJS/Jint/Runtime/ExpressionIntepreter.cs:34-43 | pushes the engine's evaluator with the frame itself as argument, then passes its result through |
| EngineReferences.GetFromPrimitive | Data/Scripts/SpaceJS/Jint/Engine.cs:767-789 | a missing property is Undefined, a data property its value, an Undefined getter Undefined, and a callable getter is called with the primitive as `this` |
| EngineReferences.GetValue | Data/Scripts/SpaceJS/Jint/Engine.cs:721-806 | a value is itself and a completion with a value is that value (one without raises NullReference, see Left out); an unresolvable reference is a ReferenceError unless resolved; environment references read the binding; primitive bases go through the case table; object bases use `[[Get]]` |
| EngineReferences.PutPrimitiveBase | Data/Scripts/SpaceJS/Jint/Engine.cs:846-883 | a write through a primitive base only reaches an inherited setter, called with the primitive as `this`; every other case is a TypeError when `throwOnError` and otherwise does nothing |
| EngineReferences.PutValue | Data/Scripts/SpaceJS/Jint/Engine.cs:813-841 | an unresolvable reference is a ReferenceError in strict code and otherwise a global property; object and primitive bases and environment records each take their own path |
| EngineEvaluators.StatementResultMapping | Data/Scripts/SpaceJS/Jint/Engine.cs:461-501 | when the child returns, `return e;` completes Return with the value, an expression statement Normal with it, and the other kinds pass the result through |
| EngineEvaluators.StatementDispatchPushesOneFrame | Data/Scripts/SpaceJS/Jint/Engine.cs:503-587 | a handled statement starts by pushing exactly one frame, or completes Normal at once for the empty statement and function declarations |
| EngineEvaluators.ReturnWithoutArgumentFails | Data/Scripts/SpaceJS/Jint/Engine.cs:510-512 | `return;` pushes an expression frame for a null node, which fails with a NullReferenceException |
| EngineEvaluators.ExpressionDispatchTotal | Data/Scripts/SpaceJS/Jint/Engine.cs:618-700 | every expression type either pushes its evaluator or is answered inline, and the callee's result is passed through |
| EngineEvaluators.IdentifierYieldsReference | Data/Scripts/SpaceJS/Jint/Engine.cs:655-657 | an identifier is answered with a reference, not a value |
| EngineEvaluators.InterpreterExpressionWrapperFails | Data/Scripts/SpaceJS/Jint/Runtime/ExpressionIntepreter.cs:34-43 | the expression interpreter's private wrapper hands its frame to the engine as the node, and the cast fails |
| EngineEvaluators.Marshalled | Data/Scripts/SpaceJS/Jint/Engine.cs:950-954 | one script value per CLR argument, each converted by `FromObject` |
| EngineEvaluators.MarshalArguments | Data/Scripts/SpaceJS/Jint/Engine.cs:950-954 | the array loop computes `Marshalled` |
| EngineEvaluators.StateInvokeOutcomes | Data/Scripts/SpaceJS/Jint/Engine.cs:933-968 | a non-callable is an ArgumentException; a native function is never called and null comes back; a script function's body frame receives the marshalled arguments |
| DeclarationBindings.ArgumentAt | Data/Scripts/SpaceJS/Jint/Engine.cs:1032 | the i-th argument, or Undefined past the end |
| DeclarationBindings.GetProperty | Data/Scripts/SpaceJS/Jint/Engine.cs:1107 | the own property, else the inherited one |
| DeclarationBindings.PutBinding | Data/Scripts/SpaceJS/Jint/Engine.cs:1037 | `SetMutableBinding` as a `Put`: a missing name, or one inherited as a writable data property, becomes an own writable, enumerable, configurable property; an own writable data property takes the value; a read-only property, own or inherited, is kept, a TypeError exactly in strict code; nothing else changes |
| DeclarationBindings.ObjectEnvironmentRecord.HasBinding | Data/Scripts/SpaceJS/Jint/Engine.cs:1071-1074 | true exactly for names the binding object owns or inherits |
| DeclarationBindings.DeclaratorsCreateOnlyMissing | Data/Scripts/SpaceJS/Jint/Engine.cs:1063-1078 | hoisting keeps existing bindings and leaves each declared name bound; a name neither owned nor inherited gets an own Undefined, and no other property is created, so no inherited name is shadowed |
| DeclarationBindings.DeclaratorNotIdentifier | Data/Scripts/SpaceJS/Jint/Engine.cs:1071 | a declarator that is not an identifier fails the cast |
| DeclarationBindings.ParametersBindArguments | Data/Scripts/SpaceJS/Jint/Engine.cs:1028-1040 | distinct parameters neither owned nor inherited are bound to their arguments in order, Undefined past the end, and other properties are kept |
| DeclarationBindings.GlobalFunctionRedeclaration | Data/Scripts/SpaceJS/Jint/Engine.cs:1098-1123 | redeclaring a global whose property, own or inherited, is a non-configurable accessor or non-enumerable is a TypeError; over a configurable one it is redefined as an own property and holds the function |
| DeclarationBindings.FreshFunctionDeclaration | Data/Scripts/SpaceJS/Jint/Engine.cs:1091-1097 | a function name neither owned nor inherited binds the function object, configurable only in eval code |
| DeclarationBindings.InstantiateParameters | Data/Scripts/SpaceJS/Jint/Engine.cs:1028-1040 | the parameter loop computes `BoundParameters` on the record |
| DeclarationBindings.AddFunctionDeclarations | Data/Scripts/SpaceJS/Jint/Engine.cs:1084-1126 | the function loop computes `BoundFunctions` on the record |
| DeclarationBindings.InstantiateVariables | Data/Scripts/SpaceJS/Jint/Engine.cs:1060-1078 | the variable loop computes `BoundVariables` on the record |
| DeclarationBindings.DeclarationBindingInstantiation | Data/Scripts/SpaceJS/Jint/Engine.cs:1003-1082 | parameters and `arguments` (function code), then functions, then variables, exactly as `Instantiated`; the result is true exactly for function code |
| DeclarationBindings.VariablesCreateOnlyMissing | Data/Scripts/SpaceJS/Jint/Engine.cs:1060-1078 | hoisting a program's `var` statements keeps every existing binding, leaves every declared name bound, and creates no own property for an inherited name (`var toString;` keeps `Object.prototype.toString`) |
| Engines.RunFirstStep | Data/Scripts/SpaceJS/SpaceJS/Block.cs:88 | a run of k+1 steps is one step followed by a run of k |
| Engines.FalseStepChangesNothing | Data/Scripts/SpaceJS/Jint/Runtime/StatementInterpreter.cs:970-973 | a step reports false only on an empty stack, and then changes nothing |
| Engines.RunOnEmptyStack | Data/Scripts/SpaceJS/SpaceJS/Block.cs:88 | a run on an empty stack stops at once and changes nothing |
| Engines.RunWithSplits | Data/Scripts/SpaceJS/SpaceJS/Block.cs:81-96 | for any step whose false result changes nothing, a+b steps are a steps then b steps, unless the first run threw |
| Engines.RunSplits | Data/Scripts/SpaceJS/SpaceJS/Block.cs:81-96 | throttling does not change what runs: a steps in one tick and b in the next equal a+b steps in one tick, unless the first tick threw |
| Engines.Engine.Step | Data/Scripts/SpaceJS/Jint/Engine.cs:438-441 | the engine's step is the statement interpreter's step |
| Engines.Engine.Clear | Data/Scripts/SpaceJS/Jint/Engine.cs:443-446 | all frames go; the world and contexts stay |
| Engines.Engine.Invoke | Data/Scripts/SpaceJS/Jint/Engine.cs:928-931 | pushes one `StateInvoke` frame with the value, `this` and arguments |
| Engines.Engine.Execute | Data/Scripts/SpaceJS/Jint/Engine.cs:402-423 | the given global record is instantiated as `Instantiated` says, then one program frame is pushed; the record is not connected to the world the evaluators read (see Left out) |
| SpaceJsHosts.Truncated | Data/Scripts/SpaceJS/SpaceJS/Block.cs:119-133 | text longer than 1000 UTF-16 code units keeps its last 1000; shorter text is kept |
| SpaceJsHosts.TruncationCanSplitSurrogatePair | Data/Scripts/SpaceJS/SpaceJS/Block.cs:119-133 | U+10000 followed by 999 basic-plane characters keeps a text that starts with an unpaired low surrogate |
| SpaceJsHosts.TruncatedAppend | Data/Scripts/SpaceJS/SpaceJS/Block.cs:135-149 | truncating after each append is truncating once at the end |
| SpaceJsHosts.TruncatedKeepsShortText | Data/Scripts/SpaceJS/SpaceJS/Block.cs:119-133 | truncation changes the text exactly when it is over 1000 code units |
| SpaceJsHosts.StepBudget | Data/Scripts/SpaceJS/SpaceJS/Block.cs:69-79 | the per-block budget is `maxStepsPerTick / count`, the largest k with k * count <= 10000 |
| SpaceJsHosts.TickStaysWithinBudget | Data/Scripts/SpaceJS/SpaceJS/Settings.cs:13 | one tick never runs more than 10000 steps over all blocks |
| SpaceJsHosts.TickedOnError | Data/Scripts/SpaceJS/SpaceJS/Block.cs:90-94 | a throwing tick clears the engine and appends "Error: " with the message, truncated |
| SpaceJsHosts.TickKeepsCustomInfoBounded | Data/Scripts/SpaceJS/SpaceJS/Block.cs:81-96 | a tick keeps the custom info within 1000 characters and adds to it only when a step throws |
| SpaceJsHosts.TickAfterErrorIsIdle | Data/Scripts/SpaceJS/SpaceJS/Block.cs:81-96 | after a thrown exception the engine has no frames, so the next tick does nothing |
| SpaceJsHosts.Block.UpdateCustomInfo | Data/Scripts/SpaceJS/SpaceJS/Block.cs:119-133 | the custom info becomes the truncated UTF-16 form of the text |
| SpaceJsHosts.Block.AppendCustomInfo | Data/Scripts/SpaceJS/SpaceJS/Block.cs:135-149 | the custom info becomes the truncated old info plus the UTF-16 form of the text |
| SpaceJsHosts.Block.ExecuteSteps | Data/Scripts/SpaceJS/SpaceJS/Block.cs:81-96 | with an engine, the info and machine are as `Ticked` with the given budget; without one nothing changes |
| SpaceJsHosts.StepBlock | Data/Scripts/SpaceJS/SpaceJS/Block.cs:74-77 | stepping one block ticks it and leaves every other block as it was |
| SpaceJsHosts.StepBlocks | Data/Scripts/SpaceJS/SpaceJS/Block.cs:69-79 | every block is ticked once with the shared budget `StepBudget(count)` |
| SpaceJsHosts.SpaceJS.UpdateCustomInfo | Data/Scripts/SpaceJS/SpaceJS/SpaceJS.cs:130-144 | the custom info becomes the truncated UTF-16 form of the text |
| SpaceJsHosts.SpaceJS.AppendCustomInfo | Data/Scripts/SpaceJS/SpaceJS/SpaceJS.cs:146-160 | the custom info becomes the truncated old info plus the UTF-16 form of the text |
| SpaceJsHosts.SpaceJS.ExecuteStep | Data/Scripts/SpaceJS/SpaceJS/SpaceJS.cs:168-185 | with an engine, at most 100 steps, as `Ticked` with budget 100; without one nothing changes |
| SpaceJsHosts.StepSpaceJsBlock | Data/Scripts/SpaceJS/SpaceJS/SpaceJS.cs:40-43 | stepping one block ticks it and leaves every other block as it was |
| SpaceJsHosts.StepSpaceJs | Data/Scripts/SpaceJS/SpaceJS/SpaceJS.cs:38-44 | every block is ticked once with 100 steps |

## Left out

- Floating point rounding: the results of `+`, `-`, `*` and `%` come from the uninterpreted converter. Division and comparisons are exact on the abstract numbers, so they do not round.
- `TypeConverter` (ToNumber, ToString, ToPrimitive, ToBoolean, ToInt32, ToUint32) is not part of this model. Its operations are uninterpreted fields of `Converter`. `Faithful` states only their identity laws on values already of the target type.
- Object internals are uninterpreted `Host` operations over an abstract `World`. This covers `ObjectInstance` (`Get`, `Put`, `HasProperty`, `Delete`, `DefineOwnProperty`), environment records other than the object record of the hoisting, function objects and `Construct`.
- `Reference.cs` is not modelled. `References.AssertValid` follows section 8.7 of ECMA-262 5th edition: `eval` or `arguments` on an environment record in strict code is a SyntaxError.
- The object and argument pools (`_referencePool`, `_jsValueArrayPool`, `_argumentsInstancePool`) only recycle memory, and have no counterpart.
- The call stack is modelled only through the recursion-depth check in the call expression. `BeforeExecuteStatement`, with its statement count, memory and clock limits, is commented out at its call site and is not modelled.
- The synchronous `_engine.EvaluateExpression(expr)` calls are the host's `evalSync` oracle, because no such overload exists.
- `ReferenceEquals` on values is approximated by value equality. Identities of error objects are not modelled: a raised error carries its kind and location.
- JsValueEquality.Equals: the `Equals(JsValue)` overrides of the classes other than Undefined and Null are not part of this model. They are taken to be equality of contents.
- Engine setup is not modelled: `SetValue`, the options, the realm and the built-in constructors, including the Map and Set constructors. The parser and `Esprima` nodes beyond the two operator parsers are not modelled either. CLR interop (`ClrFunctionInstance`, `FromObject` beyond boxed script values) is not modelled.
- DeclarationBindings.PutBinding models `SetMutableBinding` on the object record as the `Put` of section 8.12.5 of ECMA-262 5.1 on the binding object. Setters reached through it, own or inherited, are not called, and the binding object is taken to be extensible. `ObjectEnvironmentRecord.cs` is not part of this model. The binding object's prototype chain enters only as the fixed map of inherited properties.
- Engines.Engine.Execute: the hoisted record is separate from the `World` the evaluators read. Identifier resolution is the host's uninterpreted `identifierReference`, so the model cannot show that a hoisted name, such as `f` in `f(); function f(){}`, resolves when the program runs.
- StatementEvaluators.ExecuteWithStatement: a frame whose first run raised a .NET exception restores a null environment when its callee returns. The source stores the null back; the model has no null environment and raises a NullReferenceException there.
- StatementEvaluators.ExecuteForInStatement: the enumeration stages from 1 on (the walk over `GetOwnPropertyNames` of the cursor and its prototypes) are not modelled. A frame that reaches them stays and does nothing. Only a frame left on the stack by a .NET exception escaping the set-up reaches them, and both hosts clear the engine when a step throws (Block.cs:91-94, SpaceJS.cs:178-181), so such a frame never runs again.
- StatementInterpreters.CallStateBodies: `ScriptFunctionInstance.cs` is not part of this model. The body of a called script function (`CallState`, pushed at Engine.cs:959 and ExpressionIntepreter.cs:1131) is a parameter returning an `Effect`, which can only replace the top lexical environment. Entering and leaving an execution context around a call (`EnterExecutionContext`, `LeaveExecutionContext`, Engine.cs:306-360) is not modelled.
- The fast paths of `DeclarationBindingInstantiation` for declarative records are not modelled: the `der` branches for `AddFunctionParameters` and `AddVariableDeclarations`. Only the object-record slow paths are.
- Host plumbing is not modelled: terminal controls, `RefreshCustomInfo`, the Enabled toggle, the game events, the event object's `AddActions`/`Configure`, and the listener invocation itself, which is an `Invoker` parameter.
- SpaceJsHosts.Ticked takes the exception message as a parameter, because .NET's `Exception.Message` and `ToString` texts are not modelled.
- EngineReferences.GetValue: a completion without a value raises a NullReferenceException here, while Engine.cs:727-729 returns a null `JsValue`; the model's value type has no null, so the model raises at the read, where the source would carry the null on to its caller.
- Arguments.From has no contract: it returns its parameter array as it is.
- The statement and expression stage machines (`StatementEvaluators.Execute*`, `ExpressionInterpreters.Evaluate*`), the operator functions (`Operators.Equal`, `StrictlyEqual`, `SameValue`, `DivideNumbers`, `ValueOperator`, `CompoundAssignment`, `OrdinalLess`), `StepWith`, `Fire`, `RemoveFirst`, `Ticked` and `Instantiated` carry no contracts of their own. The lemmas and methods in the table state what they do.
