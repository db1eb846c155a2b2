/** The helpers native functions use to read their argument arrays (`Arguments`). */
module Arguments {
  import opened Wrappers
  import opened JsValues
  import opened Operators

  /** `From(params o)`: the argument list is the array itself. */
  function From(o: seq<JsValue>): seq<JsValue> { o }

  /**
   * `At(args, index, undefinedValue)`: the argument at `index`, the fallback
   * past the end, and IndexOutOfRange for a negative index, which passes the
   * `index < args.Length` test.
   */
  function At(args: seq<JsValue>, index: int, undefinedValue: JsValue): (r: Result<JsValue>)
    ensures 0 <= index < |args| ==> r == Ok(args[index])
    ensures index >= |args| ==> r == Ok(undefinedValue)
    ensures index < 0 ==> r == ClrThrow(IndexOutOfRange)
  {
    if index < |args| then
      (if index < 0 then ClrThrow(IndexOutOfRange) else Ok(args[index]))
    else Ok(undefinedValue)
  }

  /** `At(args, index)`: the fallback is Undefined. */
  function AtOrUndefined(args: seq<JsValue>, index: int): (r: Result<JsValue>)
    ensures 0 <= index < |args| ==> r == Ok(args[index])
    ensures index >= |args| ==> r == Ok(JsUndefined)
    ensures index < 0 ==> r.Err?
  {
    At(args, index, JsUndefined)
  }

  /** `a - b` on C# `int`: the difference wrapped into 32 bits. */
  function Subtract32(a: Int32, b: Int32): (r: Int32)
    ensures -0x8000_0000 <= a - b < 0x8000_0000 ==> r == a - b
    ensures a - b >= 0x8000_0000 ==> r == a - b - 0x1_0000_0000 && r < 0
  {
    var d := (a - b) % 0x1_0000_0000;
    if d >= 0x8000_0000 then d - 0x1_0000_0000 else d
  }

  /**
   * `Skip(args, count)`: a new array holding the arguments after the first
   * `count`; the shared empty array when nothing is left. The new length
   * `args.Length - count` is a 32-bit subtraction: a negative count whose
   * difference overflows wraps to a negative length and also gives the
   * empty array; any other negative count makes `Array.Copy` reject its
   * source index.
   */
  method Skip(args: array<JsValue>, count: Int32) returns (r: Result<array<JsValue>>)
    requires args.Length < 0x8000_0000
    ensures count < 0 && args.Length - count < 0x8000_0000 ==> r == ClrThrow(ArgumentOutOfRange)
    ensures count < 0 && args.Length - count >= 0x8000_0000 ==> r.Ok? && r.value.Length == 0
    ensures count >= args.Length ==> r.Ok? && r.value.Length == 0
    ensures 0 <= count < args.Length ==> r.Ok? && fresh(r.value) && r.value[..] == args[count..]
  {
    var newLength := Subtract32(args.Length, count);
    if newLength <= 0 {
      var empty := new JsValue[0];
      return Ok(empty);
    }
    if count < 0 {
      return ClrThrow(ArgumentOutOfRange);
    }
    var copy := new JsValue[newLength](_ => JsUndefined);
    var i := 0;
    while i < newLength
      invariant 0 <= i <= newLength
      invariant forall k :: 0 <= k < i ==> copy[k] == args[count + k]
    {
      copy[i] := args[count + i];
      i := i + 1;
    }
    assert copy[..] == args[count..];
    return Ok(copy);
  }
}
