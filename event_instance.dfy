/**
 * The script-visible `event` object of a programmable block: listeners
 * registered per action name with `onAction`, removed with `offAction`, and
 * invoked in registration order when the block's action fires.
 */
module EventInstances {
  import opened Wrappers
  import opened JsValues
  import opened Operators
  import Arguments

  /** `Settings.maxEventActions`: the most action names one block may listen on. */
  const MaxEventActions: nat := 50

  const TooManyActions: Exception :=
    JavaScriptException(GenericError("Max number of action events (50) exceeded."), None)

  /** The state of the engine that runs the listeners; its contents are not modelled. */
  type EngineState

  /**
   * `engine.Invoke(listener, actionName)`: the engine state after calling
   * one listener; an exception it throws is swallowed by the caller, so
   * only the state it leaves behind is seen.
   */
  datatype Invoker = Invoker(invoke: (EngineState, JsValue, string) -> EngineState)

  /** The state after invoking `listeners` one after another. */
  function Fire(inv: Invoker, listeners: seq<JsValue>, actionName: string, s: EngineState): EngineState
    decreases |listeners|
  {
    if |listeners| == 0 then s
    else inv.invoke(Fire(inv, listeners[..|listeners| - 1], actionName, s), listeners[|listeners| - 1], actionName)
  }

  /** Firing a list is firing its first part, then its second. */
  lemma {:induction false} FireAppend(inv: Invoker, xs: seq<JsValue>, ys: seq<JsValue>, actionName: string, s: EngineState)
    ensures Fire(inv, xs + ys, actionName, s) == Fire(inv, ys, actionName, Fire(inv, xs, actionName, s))
    decreases |ys|
  {
    if |ys| > 0 {
      assert (xs + ys)[..|xs + ys| - 1] == xs + ys[..|ys| - 1];
      FireAppend(inv, xs, ys[..|ys| - 1], actionName, s);
    } else {
      assert xs + ys == xs;
    }
  }

  /** `List.Remove(x)`: drops the first element equal to `x`, if there is one. */
  function RemoveFirst(xs: seq<JsValue>, x: JsValue): seq<JsValue> {
    if |xs| == 0 then []
    else if xs[0] == x then xs[1..]
    else [xs[0]] + RemoveFirst(xs[1..], x)
  }

  /** Exactly one occurrence goes, and only when there is one. */
  lemma {:induction false} RemoveFirstRemovesOne(xs: seq<JsValue>, x: JsValue)
    ensures x in xs ==> multiset(RemoveFirst(xs, x)) == multiset(xs) - multiset{x}
    ensures x in xs ==> |RemoveFirst(xs, x)| == |xs| - 1
    ensures x !in xs ==> RemoveFirst(xs, x) == xs
  {
    if |xs| > 0 {
      RemoveFirstRemovesOne(xs[1..], x);
      assert xs == [xs[0]] + xs[1..];
      if xs[0] != x && x in xs {
        assert x in xs[1..];
      }
    }
  }

  class EventInstance {
    /** The listeners registered under each action name, oldest first. */
    var actions: map<string, seq<JsValue>>

    /** At most 50 names, none empty, each with at least one listener. */
    ghost predicate Valid()
      reads this
    {
      && |actions| <= MaxEventActions
      && forall name :: name in actions ==> name != "" && |actions[name]| > 0
    }

    constructor()
      ensures Valid() && actions == map[]
    {
      actions := map[];
    }

    /**
     * `onAction(name, listener)`: false unless there are two arguments and
     * the name converts to a non-empty string; a JavaScript error once the
     * object already listens on 50 names (even for a name it knows);
     * otherwise the listener is appended under the name.
     */
    method OnAction(conv: Converter, arguments: seq<JsValue>) returns (r: Result<JsValue>)
      requires Valid()
      modifies this
      ensures Valid()
      ensures |arguments| < 2 ==> r == Ok(JsBoolean(false)) && actions == old(actions)
      ensures |arguments| >= 2 && conv.toString(arguments[0]) == "" ==>
        r == Ok(JsBoolean(false)) && actions == old(actions)
      ensures |arguments| >= 2 && conv.toString(arguments[0]) != "" && |old(actions)| + 1 > MaxEventActions ==>
        r == Err(TooManyActions) && actions == old(actions)
      ensures |arguments| >= 2 && conv.toString(arguments[0]) != "" && |old(actions)| + 1 <= MaxEventActions ==>
        var name := conv.toString(arguments[0]);
        && r == Ok(JsBoolean(true))
        && actions == old(actions)[name := (if name in old(actions) then old(actions)[name] else []) + [arguments[1]]]
    {
      if |arguments| < 2 {
        return Ok(FromBool(false));
      }
      var first := Arguments.AtOrUndefined(arguments, 0);
      var actionName := conv.toString(first.value);
      if actionName == "" {
        return Ok(FromBool(false));
      }
      if |actions| + 1 > MaxEventActions {
        return Err(TooManyActions);
      }
      if actionName !in actions {
        actions := actions[actionName := []];
      }
      actions := actions[actionName := actions[actionName] + [arguments[1]]];
      return Ok(FromBool(true));
    }

    /**
     * `offAction(name, listener)`: false unless there are two arguments, the
     * name is non-empty and has listeners; otherwise the first listener
     * equal to the second argument is removed (the name goes with its last
     * listener) and the result is true even when nothing matched.
     */
    method OffAction(conv: Converter, arguments: seq<JsValue>) returns (r: Result<JsValue>)
      requires Valid()
      modifies this
      ensures Valid()
      ensures |arguments| < 2 ==> r == Ok(JsBoolean(false)) && actions == old(actions)
      ensures |arguments| >= 2 && (conv.toString(arguments[0]) == "" || conv.toString(arguments[0]) !in old(actions)) ==>
        r == Ok(JsBoolean(false)) && actions == old(actions)
      ensures |arguments| >= 2 && conv.toString(arguments[0]) in old(actions) ==>
        var name := conv.toString(arguments[0]);
        var rest := RemoveFirst(old(actions)[name], arguments[1]);
        && r == Ok(JsBoolean(true))
        && actions == if |rest| == 0 then old(actions) - {name} else old(actions)[name := rest]
    {
      if |arguments| < 2 {
        return Ok(FromBool(false));
      }
      var first := Arguments.AtOrUndefined(arguments, 0);
      var actionName := conv.toString(first.value);
      if actionName == "" {
        return Ok(FromBool(false));
      }
      if actionName !in actions {
        return Ok(FromBool(false));
      }
      var listener := Arguments.AtOrUndefined(arguments, 1);
      actions := actions[actionName := RemoveFirst(actions[actionName], listener.value)];
      if |actions[actionName]| == 0 {
        actions := actions - {actionName};
      }
      return Ok(FromBool(true));
    }

    /**
     * `TriggerAction(name)`: every listener registered under the name, in
     * registration order; exceptions they throw do not stop the others.
     */
    method TriggerAction(inv: Invoker, actionName: string, s: EngineState) returns (after: EngineState)
      ensures actionName !in actions ==> after == s
      ensures actionName in actions ==> after == Fire(inv, actions[actionName], actionName, s)
    {
      if actionName !in actions {
        return s;
      }
      var listeners := actions[actionName];
      after := s;
      var i := 0;
      while i < |listeners|
        invariant 0 <= i <= |listeners|
        invariant after == Fire(inv, listeners[..i], actionName, s)
      {
        assert listeners[..i + 1][..i] == listeners[..i];
        after := inv.invoke(after, listeners[i], actionName);
        i := i + 1;
      }
      assert listeners[..i] == listeners;
    }
  }
}
