/**
 * The game-side hosts of an engine: a programmable block steps its
 * engine a bounded number of times per game tick, clears it and logs the
 * exception's text when a step throws, and keeps only the last 1000
 * UTF-16 code units of its terminal's custom info, which is a .NET
 * string. `Block` (the
 * `JSSmallProgrammableBlock` / `JSLargeProgrammableBlock` component)
 * shares the step budget of a tick among all blocks; the older `SpaceJS`
 * component gives every block 100 steps.
 */
module SpaceJsHosts {
  import opened Wrappers
  import opened Utf16
  import opened Hosts
  import opened StatementInterpreters
  import opened Engines

  /** `Settings.maxStepsPerTick`: the steps of one game tick, over all blocks. */
  const MaxStepsPerTick: nat := 10000
  /** `Settings.maxEventActions`: the action event listeners one block may create. */
  const MaxEventActions: nat := 50
  /** The longest custom info a block keeps. */
  const MaxCustomInfo: nat := 1000
  /** The steps the `SpaceJS` component gives its engine per update. */
  const SpaceJsStepsPerUpdate: nat := 100

  /** The custom info after a write of `s`: its last 1000 code units when it is longer. */
  function Truncated(s: seq<CodeUnit>): (r: seq<CodeUnit>)
    ensures |r| == if |s| <= MaxCustomInfo then |s| else MaxCustomInfo
    ensures r == s[|s| - |r|..]
  {
    if |s| > MaxCustomInfo then s[|s| - MaxCustomInfo..] else s
  }

  /** Truncating after every append keeps what truncating once at the end keeps: the log's tail. */
  lemma {:induction false} TruncatedAppend(a: seq<CodeUnit>, b: seq<CodeUnit>)
    ensures Truncated(Truncated(a) + b) == Truncated(a + b)
  {
    if |a| > MaxCustomInfo {
      var t := a[|a| - MaxCustomInfo..];
      assert |t + b| >= MaxCustomInfo;
      calc {
        Truncated(t + b);
        (t + b)[|t + b| - MaxCustomInfo..];
        { assert t + b == (a + b)[|a| - MaxCustomInfo..]; }
        (a + b)[|a + b| - MaxCustomInfo..];
      }
    }
  }

  /** A text written whole is kept whole exactly when it fits. */
  lemma TruncatedKeepsShortText(s: seq<CodeUnit>)
    ensures Truncated(s) == s <==> |s| <= MaxCustomInfo
  {
  }

  /**
   * Keeping the last 1000 code units can cut a surrogate pair in two: a
   * text that starts with U+10000 and goes on with 999 basic-plane
   * characters is 1001 code units long, and what is kept starts with an
   * unpaired low surrogate, which reads back as no text at all.
   */
  lemma TruncationCanSplitSurrogatePair(rest: string)
    requires |rest| == MaxCustomInfo - 1
    requires forall i :: 0 <= i < |rest| ==> (rest[i] as int) < 0x1_0000
    ensures |Encode("\U{10000}" + rest)| == MaxCustomInfo + 1
    ensures Truncated(Encode("\U{10000}" + rest)) == [0xDC00] + Encode(rest)
    ensures Decode(Truncated(Encode("\U{10000}" + rest))).None?
  {
    EncodeAppend("\U{10000}", rest);
    EncodeBasicPlane(rest);
    assert Encode("\U{10000}") == [0xD800, 0xDC00];
    assert Encode("\U{10000}" + rest)[1..] == [0xDC00] + Encode(rest);
  }

  /** `Block.Step`'s share of the tick for each of `count` blocks: `maxStepsPerTick / count`, nothing without blocks. */
  function StepBudget(count: nat): (k: nat)
    ensures count == 0 ==> k == 0
    ensures count > 0 ==> k * count <= MaxStepsPerTick < (k + 1) * count
  {
    if count == 0 then 0 else MaxStepsPerTick / count
  }

  /** However many blocks there are, one tick never runs more than `maxStepsPerTick` steps in all. */
  lemma TickStaysWithinBudget(count: nat)
    ensures count * StepBudget(count) <= MaxStepsPerTick
  {
  }

  /**
   * A block's custom info and its engine's machine after a throttled run
   * of at most `k` steps: when a step throws, the engine is cleared and
   * `"Error: " + message + "\n"` is appended, `message` being the text the
   * host takes from the exception.
   */
  function Ticked(info: seq<CodeUnit>, message: Exception -> string, h: Host, dispatch: Dispatcher, m: Machine, k: nat): (seq<CodeUnit>, Machine)
  {
    var run := Run(h, dispatch, m, k);
    match run.error
    case None => (info, run.machine)
    case Some(e) => (Truncated(info + Encode("Error: " + message(e) + "\n")), run.machine.(frames := []))
  }

  /** A tick whose run ends with `err` logs it and leaves no frames. */
  lemma TickedOnError(info: seq<CodeUnit>, message: Exception -> string, h: Host, dispatch: Dispatcher, m: Machine, k: nat,
                      err: Exception, stopped: Machine)
    requires Run(h, dispatch, m, k) == RunResult(Some(err), stopped)
    ensures Ticked(info, message, h, dispatch, m, k) == (Truncated(info + Encode("Error: " + message(err) + "\n")), stopped.(frames := []))
  {
  }

  /** A tick keeps the custom info within its bound, and adds to it only when a step throws. */
  lemma TickKeepsCustomInfoBounded(info: seq<CodeUnit>, message: Exception -> string, h: Host, dispatch: Dispatcher, m: Machine, k: nat)
    requires |info| <= MaxCustomInfo
    ensures var (info', m') := Ticked(info, message, h, dispatch, m, k);
      |info'| <= MaxCustomInfo && (Run(h, dispatch, m, k).error.None? ==> info' == info)
  {
  }

  /** A thrown exception leaves the engine with no frames, so the next tick does nothing. */
  lemma {:induction false} TickAfterErrorIsIdle(info: seq<CodeUnit>, message: Exception -> string, h: Host, dispatch: Dispatcher, m: Machine, k: nat, k': nat)
    requires Run(h, dispatch, m, k).error.Some?
    ensures var (info', m') := Ticked(info, message, h, dispatch, m, k);
      m'.frames == [] && Ticked(info', message, h, dispatch, m', k') == (info', m')
  {
    var (info', m') := Ticked(info, message, h, dispatch, m, k);
    RunOnEmptyStack(h, dispatch, m', k');
  }

  /** The `Block` game logic component. */
  class Block {
    var engine: Engine?
    var customInfo: seq<CodeUnit>

    /** The block, its engine, the engine's interpreter and its frames. */
    ghost function Footprint(): set<object>
      reads this, if engine == null then {} else {engine.statements}
    {
      if engine == null then {this} else {this, engine, engine.statements} + set o: object | o in engine.statements.stack
    }

    constructor(engine: Engine?)
      ensures this.engine == engine && customInfo == []
    {
      this.engine := engine;
      customInfo := [];
    }

    /** `UpdateCustomInfo(text)`: replaces the custom info, keeping its tail. */
    method UpdateCustomInfo(text: string)
      modifies this
      ensures engine == old(engine)
      ensures customInfo == Truncated(Encode(text))
    {
      customInfo := Encode(text);
      if |customInfo| > MaxCustomInfo {
        customInfo := customInfo[|customInfo| - MaxCustomInfo..];
      }
    }

    /** `AppendCustomInfo(text)`: appends to the custom info, keeping its tail. */
    method AppendCustomInfo(text: string)
      modifies this
      ensures engine == old(engine)
      ensures customInfo == Truncated(old(customInfo) + Encode(text))
    {
      customInfo := customInfo + Encode(text);
      if |customInfo| > MaxCustomInfo {
        customInfo := customInfo[|customInfo| - MaxCustomInfo..];
      }
    }

    /**
     * `ExecuteSteps(numberOfSteps)`: at most `k` steps, as `Ticked`
     * describes, with the exception's `Message` as the logged text; a
     * block without an engine does nothing.
     */
    method ExecuteSteps(k: nat, message: Exception -> string)
      requires engine != null ==> engine.Valid()
      modifies Footprint()
      ensures engine == old(engine) && (engine != null ==> engine.Valid())
      ensures forall o :: o in Footprint() ==> o in old(Footprint()) || fresh(o)
      ensures engine == null ==> customInfo == old(customInfo)
      ensures engine != null ==>
        (customInfo, engine.State()) == Ticked(old(customInfo), message, engine.host, engine.dispatch, old(engine.State()), k)
    {
      if engine == null {
        return;
      }
      var e := engine;
      ghost var m0 := e.State();
      var i := 0;
      while i < k
        invariant 0 <= i <= k
        invariant engine == e && e.Valid() && customInfo == old(customInfo)
        invariant forall o :: o in e.statements.stack ==> o in old(Footprint()) || fresh(o)
        invariant Run(e.host, e.dispatch, m0, k) == Run(e.host, e.dispatch, e.State(), k - i)
        decreases k - i
      {
        ghost var before := e.State();
        var r := e.Step();
        RunFirstStep(e.host, e.dispatch, before, k - i - 1, StepResult(r, e.State()));
        if r.Err? {
          TickedOnError(old(customInfo), message, e.host, e.dispatch, m0, k, r.error, e.State());
          e.Clear();
          AppendCustomInfo("Error: " + message(r.error) + "\n");
          return;
        }
        if !r.value {
          return;
        }
        i := i + 1;
      }
    }
  }

  /** The blocks' footprints are pairwise disjoint: no two blocks share an engine, an interpreter or a frame. */
  ghost predicate SeparateBlocks(blocks: seq<Block>)
    reads set b | b in blocks, set b | b in blocks && b.engine != null :: b.engine.statements
  {
    forall i, j :: 0 <= i < j < |blocks| ==> blocks[i].Footprint() !! blocks[j].Footprint()
  }

  /** `ExecuteSteps` on the `n`-th of the blocks, which leaves every other block as it was. */
  method StepBlock(blocks: seq<Block>, n: nat, k: nat, message: Exception -> string)
    requires n < |blocks|
    requires forall i :: 0 <= i < |blocks| && blocks[i].engine != null ==> blocks[i].engine.Valid()
    requires SeparateBlocks(blocks)
    modifies blocks[n].Footprint()
    ensures SeparateBlocks(blocks)
    ensures forall o :: o in blocks[n].Footprint() ==> o in old(blocks[n].Footprint()) || fresh(o)
    ensures forall i :: 0 <= i < |blocks| ==> blocks[i].engine == old(blocks[i].engine)
    ensures forall i :: 0 <= i < |blocks| && blocks[i].engine != null ==> blocks[i].engine.Valid()
    ensures blocks[n].engine == null ==> blocks[n].customInfo == old(blocks[n].customInfo)
    ensures blocks[n].engine != null ==>
      (blocks[n].customInfo, blocks[n].engine.State())
        == Ticked(old(blocks[n].customInfo), message, blocks[n].engine.host, blocks[n].engine.dispatch, old(blocks[n].engine.State()), k)
    ensures forall i :: 0 <= i < |blocks| && i != n ==>
      && blocks[i].Footprint() == old(blocks[i].Footprint())
      && blocks[i].customInfo == old(blocks[i].customInfo)
      && (blocks[i].engine != null ==> blocks[i].engine.State() == old(blocks[i].engine.State()))
  {
    blocks[n].ExecuteSteps(k, message);
    forall i, j | 0 <= i < j < |blocks|
      ensures blocks[i].Footprint() !! blocks[j].Footprint()
    {
      if i == n || j == n {
        var other := if i == n then j else i;
        assert old(blocks[n].Footprint()) !! old(blocks[other].Footprint());
        forall o | o in blocks[n].Footprint()
          ensures o !in blocks[other].Footprint()
        {
          if o in old(blocks[n].Footprint()) {
            assert o !in old(blocks[other].Footprint());
          }
        }
      }
    }
  }

  /**
   * `Block.Step()`: every registered block, in list order, runs its share
   * `StepBudget(|blocks|)` of the tick, as its `ExecuteSteps` does.
   */
  method StepBlocks(blocks: seq<Block>, message: Exception -> string)
    requires forall i :: 0 <= i < |blocks| && blocks[i].engine != null ==> blocks[i].engine.Valid()
    requires SeparateBlocks(blocks)
    modifies set i, o | 0 <= i < |blocks| && o in blocks[i].Footprint() :: o
    ensures forall i :: 0 <= i < |blocks| ==> blocks[i].engine == old(blocks[i].engine)
    ensures forall i :: 0 <= i < |blocks| && blocks[i].engine == null ==> blocks[i].customInfo == old(blocks[i].customInfo)
    ensures forall i :: 0 <= i < |blocks| && blocks[i].engine != null ==>
      (blocks[i].customInfo, blocks[i].engine.State())
        == Ticked(old(blocks[i].customInfo), message, blocks[i].engine.host, blocks[i].engine.dispatch,
                  old(blocks[i].engine.State()), StepBudget(|blocks|))
  {
    var k := StepBudget(|blocks|);
    var n := 0;
    while n < |blocks|
      invariant 0 <= n <= |blocks|
      invariant SeparateBlocks(blocks)
      invariant forall i :: 0 <= i < |blocks| ==> blocks[i].engine == old(blocks[i].engine)
      invariant forall i :: 0 <= i < |blocks| && blocks[i].engine != null ==> blocks[i].engine.Valid()
      invariant forall i :: 0 <= i < n ==> forall o :: o in blocks[i].Footprint() ==> o in old(blocks[i].Footprint()) || fresh(o)
      invariant forall i :: n <= i < |blocks| ==> blocks[i].Footprint() == old(blocks[i].Footprint())
      invariant forall i :: n <= i < |blocks| ==> blocks[i].customInfo == old(blocks[i].customInfo)
      invariant forall i :: n <= i < |blocks| && blocks[i].engine != null ==> blocks[i].engine.State() == old(blocks[i].engine.State())
      invariant forall i :: 0 <= i < n && blocks[i].engine == null ==> blocks[i].customInfo == old(blocks[i].customInfo)
      invariant forall i :: 0 <= i < n && blocks[i].engine != null ==>
        (blocks[i].customInfo, blocks[i].engine.State())
          == Ticked(old(blocks[i].customInfo), message, blocks[i].engine.host, blocks[i].engine.dispatch, old(blocks[i].engine.State()), k)
    {
      StepBlock(blocks, n, k, message);
      n := n + 1;
    }
  }

  /** The `SpaceJS` game logic component, which runs a script in any programmable block of the two JavaScript subtypes. */
  class SpaceJS {
    var engine: Engine?
    var customInfo: seq<CodeUnit>

    /** The block, its engine, the engine's interpreter and its frames. */
    ghost function Footprint(): set<object>
      reads this, if engine == null then {} else {engine.statements}
    {
      if engine == null then {this} else {this, engine, engine.statements} + set o: object | o in engine.statements.stack
    }

    constructor(engine: Engine?)
      ensures this.engine == engine && customInfo == []
    {
      this.engine := engine;
      customInfo := [];
    }

    /** `UpdateCustomInfo(text)`: replaces the custom info, keeping its tail. */
    method UpdateCustomInfo(text: string)
      modifies this
      ensures engine == old(engine)
      ensures customInfo == Truncated(Encode(text))
    {
      customInfo := Encode(text);
      if |customInfo| > MaxCustomInfo {
        customInfo := customInfo[|customInfo| - MaxCustomInfo..];
      }
    }

    /** `AppendCustomInfo(text)`: appends to the custom info, keeping its tail. */
    method AppendCustomInfo(text: string)
      modifies this
      ensures engine == old(engine)
      ensures customInfo == Truncated(old(customInfo) + Encode(text))
    {
      customInfo := customInfo + Encode(text);
      if |customInfo| > MaxCustomInfo {
        customInfo := customInfo[|customInfo| - MaxCustomInfo..];
      }
    }

    /**
     * `ExecuteStep()`: at most 100 steps, as `Ticked` describes, with the
     * exception's `ToString()` as the logged text; a block without an
     * engine does nothing.
     */
    method ExecuteStep(describe: Exception -> string)
      requires engine != null ==> engine.Valid()
      modifies Footprint()
      ensures engine == old(engine) && (engine != null ==> engine.Valid())
      ensures forall o :: o in Footprint() ==> o in old(Footprint()) || fresh(o)
      ensures engine == null ==> customInfo == old(customInfo)
      ensures engine != null ==>
        (customInfo, engine.State()) == Ticked(old(customInfo), describe, engine.host, engine.dispatch, old(engine.State()), SpaceJsStepsPerUpdate)
    {
      if engine == null {
        return;
      }
      var k := SpaceJsStepsPerUpdate;
      var e := engine;
      ghost var m0 := e.State();
      var i := 0;
      while i < k
        invariant 0 <= i <= k
        invariant engine == e && e.Valid() && customInfo == old(customInfo)
        invariant forall o :: o in e.statements.stack ==> o in old(Footprint()) || fresh(o)
        invariant Run(e.host, e.dispatch, m0, k) == Run(e.host, e.dispatch, e.State(), k - i)
        decreases k - i
      {
        ghost var before := e.State();
        var r := e.Step();
        RunFirstStep(e.host, e.dispatch, before, k - i - 1, StepResult(r, e.State()));
        if r.Err? {
          TickedOnError(old(customInfo), describe, e.host, e.dispatch, m0, k, r.error, e.State());
          e.Clear();
          AppendCustomInfo("Error: " + describe(r.error) + "\n");
          return;
        }
        if !r.value {
          return;
        }
        i := i + 1;
      }
    }
  }

  /** No two `SpaceJS` components share an engine, an interpreter or a frame. */
  ghost predicate SeparateSpaceJs(blocks: seq<SpaceJS>)
    reads set b | b in blocks, set b | b in blocks && b.engine != null :: b.engine.statements
  {
    forall i, j :: 0 <= i < j < |blocks| ==> blocks[i].Footprint() !! blocks[j].Footprint()
  }

  /** `ExecuteStep` on the `n`-th of the blocks, which leaves every other block as it was. */
  method StepSpaceJsBlock(blocks: seq<SpaceJS>, n: nat, describe: Exception -> string)
    requires n < |blocks|
    requires forall i :: 0 <= i < |blocks| && blocks[i].engine != null ==> blocks[i].engine.Valid()
    requires SeparateSpaceJs(blocks)
    modifies blocks[n].Footprint()
    ensures SeparateSpaceJs(blocks)
    ensures forall o :: o in blocks[n].Footprint() ==> o in old(blocks[n].Footprint()) || fresh(o)
    ensures forall i :: 0 <= i < |blocks| ==> blocks[i].engine == old(blocks[i].engine)
    ensures forall i :: 0 <= i < |blocks| && blocks[i].engine != null ==> blocks[i].engine.Valid()
    ensures blocks[n].engine == null ==> blocks[n].customInfo == old(blocks[n].customInfo)
    ensures blocks[n].engine != null ==>
      (blocks[n].customInfo, blocks[n].engine.State())
        == Ticked(old(blocks[n].customInfo), describe, blocks[n].engine.host, blocks[n].engine.dispatch, old(blocks[n].engine.State()), SpaceJsStepsPerUpdate)
    ensures forall i :: 0 <= i < |blocks| && i != n ==>
      && blocks[i].Footprint() == old(blocks[i].Footprint())
      && blocks[i].customInfo == old(blocks[i].customInfo)
      && (blocks[i].engine != null ==> blocks[i].engine.State() == old(blocks[i].engine.State()))
  {
    blocks[n].ExecuteStep(describe);
    forall i, j | 0 <= i < j < |blocks|
      ensures blocks[i].Footprint() !! blocks[j].Footprint()
    {
      if i == n || j == n {
        var other := if i == n then j else i;
        assert old(blocks[n].Footprint()) !! old(blocks[other].Footprint());
        forall o | o in blocks[n].Footprint()
          ensures o !in blocks[other].Footprint()
        {
          if o in old(blocks[n].Footprint()) {
            assert o !in old(blocks[other].Footprint());
          }
        }
      }
    }
  }

  /** `SpaceJS.Step()`: every registered block, in list order, runs its 100 steps, as its `ExecuteStep` does. */
  method StepSpaceJs(blocks: seq<SpaceJS>, describe: Exception -> string)
    requires forall i :: 0 <= i < |blocks| && blocks[i].engine != null ==> blocks[i].engine.Valid()
    requires SeparateSpaceJs(blocks)
    modifies set i, o | 0 <= i < |blocks| && o in blocks[i].Footprint() :: o
    ensures forall i :: 0 <= i < |blocks| ==> blocks[i].engine == old(blocks[i].engine)
    ensures forall i :: 0 <= i < |blocks| && blocks[i].engine == null ==> blocks[i].customInfo == old(blocks[i].customInfo)
    ensures forall i :: 0 <= i < |blocks| && blocks[i].engine != null ==>
      (blocks[i].customInfo, blocks[i].engine.State())
        == Ticked(old(blocks[i].customInfo), describe, blocks[i].engine.host, blocks[i].engine.dispatch,
                  old(blocks[i].engine.State()), SpaceJsStepsPerUpdate)
  {
    var k := SpaceJsStepsPerUpdate;
    var n := 0;
    while n < |blocks|
      invariant 0 <= n <= |blocks|
      invariant SeparateSpaceJs(blocks)
      invariant forall i :: 0 <= i < |blocks| ==> blocks[i].engine == old(blocks[i].engine)
      invariant forall i :: 0 <= i < |blocks| && blocks[i].engine != null ==> blocks[i].engine.Valid()
      invariant forall i :: 0 <= i < n ==> forall o :: o in blocks[i].Footprint() ==> o in old(blocks[i].Footprint()) || fresh(o)
      invariant forall i :: n <= i < |blocks| ==> blocks[i].Footprint() == old(blocks[i].Footprint())
      invariant forall i :: n <= i < |blocks| ==> blocks[i].customInfo == old(blocks[i].customInfo)
      invariant forall i :: n <= i < |blocks| && blocks[i].engine != null ==> blocks[i].engine.State() == old(blocks[i].engine.State())
      invariant forall i :: 0 <= i < n && blocks[i].engine == null ==> blocks[i].customInfo == old(blocks[i].customInfo)
      invariant forall i :: 0 <= i < n && blocks[i].engine != null ==>
        (blocks[i].customInfo, blocks[i].engine.State())
          == Ticked(old(blocks[i].customInfo), describe, blocks[i].engine.host, blocks[i].engine.dispatch, old(blocks[i].engine.State()), k)
    {
      StepSpaceJsBlock(blocks, n, describe);
      n := n + 1;
    }
  }
}
