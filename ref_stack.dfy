/**
 * The execution-context stack of the engine (`ExecutionContextStack`): an
 * array that doubles when full, with a count of the occupied slots.
 */
module ExecutionContexts {
  import opened Wrappers
  import opened JsValues

  /** Environments are identified by number; their records live in the engine's heap. */
  type EnvironmentId = nat

  /** An execution context: lexical environment, variable environment and this binding. */
  datatype ExecutionContext = ExecutionContext(
    lexicalEnvironment: EnvironmentId,
    variableEnvironment: EnvironmentId,
    thisBinding: JsValue)
  {
    /** A copy with another lexical environment. */
    function UpdateLexicalEnvironment(newEnv: EnvironmentId): ExecutionContext {
      ExecutionContext(newEnv, variableEnvironment, thisBinding)
    }
  }

  const DefaultCapacity: nat := 4

  class ExecutionContextStack {
    var items: array<ExecutionContext>
    var size: nat

    /** The occupied slots fit the array, which has never shrunk below its first size. */
    ghost predicate Valid()
      reads this
    {
      DefaultCapacity <= items.Length && size <= items.Length
    }

    /** The contexts on the stack, bottom first. */
    function Contents(): seq<ExecutionContext>
      reads this, items
      requires Valid()
    {
      items[..size]
    }

    constructor()
      ensures Valid() && fresh(items)
      ensures items.Length == DefaultCapacity && Contents() == []
    {
      items := new ExecutionContext[DefaultCapacity](_ => ExecutionContext(0, 0, JsUndefined));
      size := 0;
    }

    /** The top context, or InvalidOperation ("stack is empty"). */
    method Peek() returns (r: Result<ExecutionContext>)
      requires Valid()
      ensures r.Err? <==> Contents() == []
      ensures r.Err? ==> r.error == ClrException(InvalidOperation)
      ensures r.Ok? ==> r.value == Contents()[|Contents()| - 1]
    {
      if size == 0 {
        return ClrThrow(InvalidOperation);
      }
      return Ok(items[size - 1]);
    }

    /** Drops the top context, or fails with InvalidOperation on an empty stack. */
    method Pop() returns (r: Result<()>)
      requires Valid()
      modifies this
      ensures Valid() && items == old(items)
      ensures old(size) == 0 ==> r == ClrThrow(InvalidOperation) && Contents() == []
      ensures old(size) > 0 ==> r == Ok(()) && Contents() == old(Contents())[..old(size) - 1]
    {
      if size == 0 {
        return ClrThrow(InvalidOperation);
      }
      size := size - 1;
      return Ok(());
    }

    /** Pushes a context, first moving to an array twice as long when the current one is full. */
    method Push(item: ExecutionContext)
      requires Valid()
      modifies this, items
      ensures Valid()
      ensures Contents() == old(Contents()) + [item]
      ensures old(size) == old(items.Length) ==> fresh(items) && items.Length == 2 * old(items.Length)
      ensures old(size) < old(items.Length) ==> items == old(items)
    {
      if size == items.Length {
        var newArray := new ExecutionContext[2 * items.Length](_ => ExecutionContext(0, 0, JsUndefined));
        forall k | 0 <= k < size {
          newArray[k] := items[k];
        }
        items := newArray;
      }
      items[size] := item;
      size := size + 1;
    }

    /**
     * Replaces the top context by a copy with another lexical environment;
     * on an empty stack `_size - 1` wraps around and the index is out of range.
     */
    method ReplaceTopLexicalEnvironment(newEnv: EnvironmentId) returns (r: Result<()>)
      requires Valid()
      modifies items
      ensures Valid()
      ensures old(size) == 0 ==> r == ClrThrow(IndexOutOfRange) && Contents() == old(Contents())
      ensures old(size) > 0 ==>
        && r == Ok(())
        && Contents() == old(Contents())[..size - 1] + [old(Contents())[size - 1].UpdateLexicalEnvironment(newEnv)]
    {
      if size == 0 {
        return ClrThrow(IndexOutOfRange);
      }
      items[size - 1] := items[size - 1].UpdateLexicalEnvironment(newEnv);
      return Ok(());
    }
  }
}
