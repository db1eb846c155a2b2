/**
 * Declaration binding instantiation (section 10.5 of ECMA-262 5.1) as
 * `Engine.DeclarationBindingInstantiation` and `AddFunctionDeclarations`
 * perform it when the variable environment's record is an object
 * environment record (the global one, or a `with` object's): formal
 * parameters, function declarations and `var` names become bindings, that
 * is, properties of the record's binding object.
 */
module DeclarationBindings {
  import opened Wrappers
  import opened JsValues
  import opened Descriptors
  import opened Ast

  datatype DeclarationBindingType = GlobalCode | FunctionCode | EvalCode

  /** The binding object's properties after a step of the instantiation, and whether the step threw. */
  datatype Bound = Bound(result: Result<()>, properties: map<string, PropertyDescriptor>)

  // ---- the record's operations, on its property map ---------------------------------

  /** `CreateMutableBinding(name, value, configurable)`: a writable, enumerable data property. */
  function Created(properties: map<string, PropertyDescriptor>, name: string, v: JsValue, configurable: bool): map<string, PropertyDescriptor> {
    properties[name := DataDescriptor(v, true, true, configurable)]
  }

  /**
   * `HasProperty(name)` on the binding object: an own property, or one
   * its prototype chain provides (`inherited` holds, for each name the
   * object does not own, the nearest descriptor along the chain).
   */
  predicate HasProperty(properties: map<string, PropertyDescriptor>, inherited: map<string, PropertyDescriptor>, name: string) {
    name in properties || name in inherited
  }

  /** `GetProperty(name)` on the binding object: the own property, else the inherited one. */
  function GetProperty(properties: map<string, PropertyDescriptor>, inherited: map<string, PropertyDescriptor>, name: string): (d: PropertyDescriptor)
    requires HasProperty(properties, inherited, name)
    ensures name in properties ==> d == properties[name]
    ensures name !in properties ==> d == inherited[name]
  {
    if name in properties then properties[name] else inherited[name]
  }

  /** Whether a `Put` of `name` stores the value: the property is missing, or is a writable data property. */
  predicate PutStores(properties: map<string, PropertyDescriptor>, inherited: map<string, PropertyDescriptor>, name: string) {
    !HasProperty(properties, inherited, name) || (GetProperty(properties, inherited, name).DataDescriptor? && GetProperty(properties, inherited, name).writable)
  }

  /**
   * `SetMutableBinding(name, value, strict)`, a `Put` on the binding object
   * (section 8.12.5 of ECMA-262 5.1): a missing property, or one inherited
   * as a writable data property, becomes an own property holding the
   * value; an own writable data property takes the value; a read-only
   * property, own or inherited, is left alone, with a TypeError in strict
   * code.
   */
  function PutBinding(properties: map<string, PropertyDescriptor>, inherited: map<string, PropertyDescriptor>, name: string,
                      v: JsValue, strict: bool): (b: Bound)
    ensures b.result.Err? <==> strict && HasProperty(properties, inherited, name)
                               && GetProperty(properties, inherited, name).DataDescriptor? && !GetProperty(properties, inherited, name).writable
    ensures PutStores(properties, inherited, name) ==>
      && b.result.Ok? && name in b.properties
      && b.properties[name] == (if name in properties then properties[name].(value := v) else ConfigurableEnumerableWritable(v))
    ensures !PutStores(properties, inherited, name) ==> b.properties == properties
    ensures forall n :: n in properties && n != name ==> n in b.properties && b.properties[n] == properties[n]
    ensures forall n :: n in b.properties ==> n in properties || n == name
  {
    if name in properties then
      match properties[name]
      case DataDescriptor(_, writable, enumerable, configurable) =>
        if writable then Bound(Ok(()), properties[name := DataDescriptor(v, true, enumerable, configurable)])
        else if strict then Bound(JsThrow(TypeError), properties)
        else Bound(Ok(()), properties)
      // the setter call is not part of this model
      case AccessorDescriptor(_, _, _, _) => Bound(Ok(()), properties)
    else if name !in inherited then Bound(Ok(()), properties[name := ConfigurableEnumerableWritable(v)])
    else
      match inherited[name]
      case DataDescriptor(_, writable, _, _) =>
        if writable then Bound(Ok(()), properties[name := ConfigurableEnumerableWritable(v)])
        else if strict then Bound(JsThrow(TypeError), properties)
        else Bound(Ok(()), properties)
      // the inherited setter's call is not part of this model
      case AccessorDescriptor(_, _, _, _) => Bound(Ok(()), properties)
  }

  /** The value of the `i`-th formal parameter: the argument, or Undefined past the end of the arguments. */
  function ArgumentAt(arguments: seq<JsValue>, i: nat): (v: JsValue)
    ensures i < |arguments| ==> v == arguments[i]
    ensures i >= |arguments| ==> v == JsUndefined
  {
    if i + 1 > |arguments| then JsUndefined else arguments[i]
  }

  /**
   * The parameter loop from the `k`-th parameter on: each parameter is
   * created (not configurable) when unbound, and then set to its argument.
   */
  function BoundParameters(properties: map<string, PropertyDescriptor>, inherited: map<string, PropertyDescriptor>, names: seq<string>,
                           arguments: seq<JsValue>, strict: bool, k: nat): Bound
    decreases |names|
  {
    if names == [] then Bound(Ok(()), properties)
    else
      var v := ArgumentAt(arguments, k);
      var created := if HasProperty(properties, inherited, names[0]) then properties else Created(properties, names[0], v, false);
      var putResult := PutBinding(created, inherited, names[0], v, strict);
      if putResult.result.Err? then putResult else BoundParameters(putResult.properties, inherited, names[1..], arguments, strict, k + 1)
  }

  /** `f.Id.Name`: a function declaration always has a name; a missing one is dereferenced. */
  function FunctionName(f: FunctionInfo): Result<string> {
    if f.id.Some? then Ok(f.id.value) else ClrThrow(NullReference)
  }

  /**
   * One function declaration: an unbound name is created (configurable
   * only in eval code); on the global record a bound name, own or
   * inherited, is redefined as an own plain data property when its
   * property is configurable, and is a TypeError when that property is
   * neither configurable nor an enumerable data property. Then the
   * function object is stored.
   */
  function BoundFunction(properties: map<string, PropertyDescriptor>, inherited: map<string, PropertyDescriptor>, isGlobal: bool, f: FunctionInfo, fo: JsValue,
                         configurableBindings: bool, strict: bool): Bound
  {
    var fn := FunctionName(f);
    if fn.Err? then Bound(Err(fn.error), properties)
    else
      var name := fn.value;
      if !HasProperty(properties, inherited, name) then
        PutBinding(Created(properties, name, JsUndefined, configurableBindings), inherited, name, fo, strict)
      else if !isGlobal then PutBinding(properties, inherited, name, fo, strict)
      else
        var existing := GetProperty(properties, inherited, name);
        if existing.configurable then
          PutBinding(properties[name := DataDescriptor(JsUndefined, true, true, configurableBindings)], inherited, name, fo, strict)
        else if existing.IsAccessorDescriptor() || !existing.enumerable then Bound(JsThrow(TypeError), properties)
        else PutBinding(properties, inherited, name, fo, strict)
  }

  /** The function declarations in order, stopping at the first that throws. */
  function BoundFunctions(properties: map<string, PropertyDescriptor>, inherited: map<string, PropertyDescriptor>, isGlobal: bool, fs: seq<FunctionInfo>,
                          createFunction: FunctionInfo -> JsValue, configurableBindings: bool, strict: bool): Bound
    decreases |fs|
  {
    if fs == [] then Bound(Ok(()), properties)
    else
      var one := BoundFunction(properties, inherited, isGlobal, fs[0], createFunction(fs[0]), configurableBindings, strict);
      if one.result.Err? then one else BoundFunctions(one.properties, inherited, isGlobal, fs[1..], createFunction, configurableBindings, strict)
  }

  /** `((Identifier)d.Id).Name`. */
  function DeclaredName(d: VariableDeclarator): Result<string> {
    if d.id.Identifier? then Ok(d.id.name) else ClrThrow(InvalidCast)
  }

  /** The declarators of one `var` statement: a name the binding object neither owns nor inherits becomes Undefined. */
  function BoundDeclarators(properties: map<string, PropertyDescriptor>, inherited: map<string, PropertyDescriptor>, ds: seq<VariableDeclarator>): Bound
    decreases |ds|
  {
    if ds == [] then Bound(Ok(()), properties)
    else
      var dn := DeclaredName(ds[0]);
      if dn.Err? then Bound(Err(dn.error), properties)
      else
        var next := if HasProperty(properties, inherited, dn.value) then properties else Created(properties, dn.value, JsUndefined, false);
        BoundDeclarators(next, inherited, ds[1..])
  }

  /** Every `var` statement of the scope in order. */
  function BoundVariables(properties: map<string, PropertyDescriptor>, inherited: map<string, PropertyDescriptor>, vs: seq<seq<VariableDeclarator>>): Bound
    decreases |vs|
  {
    if vs == [] then Bound(Ok(()), properties)
    else
      var one := BoundDeclarators(properties, inherited, vs[0]);
      if one.result.Err? then one else BoundVariables(one.properties, inherited, vs[1..])
  }

  // ---- what the instantiation promises ----------------------------------------------

  /** The names a scope's `var` statements declare, when every declarator is an identifier. */
  predicate Declares(vs: seq<seq<VariableDeclarator>>, name: string) {
    exists i, j :: 0 <= i < |vs| && 0 <= j < |vs[i]| && vs[i][j].id == Expression.Identifier(name)
  }

  predicate AllIdentifiers(ds: seq<VariableDeclarator>) {
    forall j :: 0 <= j < |ds| ==> ds[j].id.Identifier?
  }

  /**
   * `var` hoisting creates only what is missing: properties that exist are
   * left exactly as they were, each declared name ends up bound (to an own
   * Undefined when the binding object neither owned nor inherited it), and
   * nothing else is created, in particular no own property shadows an
   * inherited one.
   */
  lemma {:induction false} DeclaratorsCreateOnlyMissing(properties: map<string, PropertyDescriptor>, inherited: map<string, PropertyDescriptor>,
                                                        ds: seq<VariableDeclarator>)
    requires AllIdentifiers(ds)
    ensures var b := BoundDeclarators(properties, inherited, ds);
      && b.result.Ok?
      && (forall n :: n in properties ==> n in b.properties && b.properties[n] == properties[n])
      && (forall j :: 0 <= j < |ds| ==> HasProperty(b.properties, inherited, ds[j].id.name))
      && (forall j :: 0 <= j < |ds| && !HasProperty(properties, inherited, ds[j].id.name) ==>
            b.properties[ds[j].id.name] == DataDescriptor(JsUndefined, true, true, false))
      && (forall n :: n in b.properties && n !in properties ==> n !in inherited && exists j :: 0 <= j < |ds| && ds[j].id.name == n)
    decreases |ds|
  {
    if ds != [] {
      var name := ds[0].id.name;
      var next := if HasProperty(properties, inherited, name) then properties else Created(properties, name, JsUndefined, false);
      assert AllIdentifiers(ds[1..]) by {
        forall j | 0 <= j < |ds[1..]| ensures ds[1..][j].id.Identifier? { assert ds[1..][j] == ds[j + 1]; }
      }
      DeclaratorsCreateOnlyMissing(next, inherited, ds[1..]);
      var b := BoundDeclarators(next, inherited, ds[1..]);
      assert BoundDeclarators(properties, inherited, ds) == b;
      forall j | 0 <= j < |ds| ensures HasProperty(b.properties, inherited, ds[j].id.name) {
        if j > 0 { assert ds[1..][j - 1] == ds[j]; }
      }
      forall j | 0 <= j < |ds| && !HasProperty(properties, inherited, ds[j].id.name)
        ensures b.properties[ds[j].id.name] == DataDescriptor(JsUndefined, true, true, false)
      {
        if j > 0 { assert ds[1..][j - 1] == ds[j]; }
      }
      forall n | n in b.properties && n !in properties
        ensures n !in inherited && exists j :: 0 <= j < |ds| && ds[j].id.name == n
      {
        if n !in next {
          var j :| 0 <= j < |ds[1..]| && ds[1..][j].id.name == n;
          assert ds[j + 1].id.name == n;
        } else {
          assert ds[0].id.name == n;
        }
      }
    }
  }

  /** A declarator that is not an identifier stops the hoisting with an invalid cast. */
  lemma DeclaratorNotIdentifier(properties: map<string, PropertyDescriptor>, inherited: map<string, PropertyDescriptor>,
                                d: VariableDeclarator, rest: seq<VariableDeclarator>)
    requires !d.id.Identifier?
    ensures BoundDeclarators(properties, inherited, [d] + rest) == Bound(ClrThrow(InvalidCast), properties)
  {
    assert ([d] + rest)[0] == d;
  }

  predicate Distinct(names: seq<string>) {
    forall i, j :: 0 <= i < j < |names| ==> names[i] != names[j]
  }

  /**
   * Fresh, distinct formal parameters are bound to their arguments in
   * order, Undefined past the last argument, as writable, enumerable,
   * non-configurable properties; other properties are kept.
   */
  lemma {:induction false} ParametersBindArguments(properties: map<string, PropertyDescriptor>, inherited: map<string, PropertyDescriptor>,
                                                   names: seq<string>, arguments: seq<JsValue>, strict: bool, k: nat)
    requires Distinct(names)
    requires forall i :: 0 <= i < |names| ==> !HasProperty(properties, inherited, names[i])
    ensures var b := BoundParameters(properties, inherited, names, arguments, strict, k);
      && b.result.Ok?
      && (forall i :: 0 <= i < |names| ==> (names[i] in b.properties
            && b.properties[names[i]] == DataDescriptor(ArgumentAt(arguments, k + i), true, true, false)))
      && (forall n :: n in properties ==> n in b.properties && b.properties[n] == properties[n])
    decreases |names|
  {
    if names != [] {
      var v := ArgumentAt(arguments, k);
      var created := Created(properties, names[0], v, false);
      var putResult := PutBinding(created, inherited, names[0], v, strict);
      assert putResult.properties == created;
      assert Distinct(names[1..]) by {
        forall i, j | 0 <= i < j < |names[1..]| ensures names[1..][i] != names[1..][j] {
          assert names[1..][i] == names[i + 1] && names[1..][j] == names[j + 1];
        }
      }
      forall i | 0 <= i < |names[1..]| ensures !HasProperty(putResult.properties, inherited, names[1..][i]) {
        assert names[1..][i] == names[i + 1];
      }
      ParametersBindArguments(putResult.properties, inherited, names[1..], arguments, strict, k + 1);
      var b := BoundParameters(putResult.properties, inherited, names[1..], arguments, strict, k + 1);
      forall i | 0 <= i < |names|
        ensures names[i] in b.properties && b.properties[names[i]] == DataDescriptor(ArgumentAt(arguments, k + i), true, true, false)
      {
        if i > 0 { assert names[1..][i - 1] == names[i]; }
      }
    }
  }

  /**
   * On the global record, a function declaration whose name is bound, own
   * or inherited, to a non-configurable accessor or non-enumerable
   * property is a TypeError; a name bound to a configurable property is
   * redefined as an own property and then holds the function object.
   */
  lemma GlobalFunctionRedeclaration(properties: map<string, PropertyDescriptor>, inherited: map<string, PropertyDescriptor>,
                                    f: FunctionInfo, fo: JsValue, configurableBindings: bool, strict: bool)
    requires f.id.Some? && HasProperty(properties, inherited, f.id.value)
    ensures var existing := GetProperty(properties, inherited, f.id.value);
      !existing.configurable && (existing.IsAccessorDescriptor() || !existing.enumerable) ==>
        BoundFunction(properties, inherited, true, f, fo, configurableBindings, strict) == Bound(JsThrow(TypeError), properties)
    ensures GetProperty(properties, inherited, f.id.value).configurable ==>
      BoundFunction(properties, inherited, true, f, fo, configurableBindings, strict) ==
        Bound(Ok(()), properties[f.id.value := DataDescriptor(fo, true, true, configurableBindings)])
  {
  }

  /** A function declaration with a name neither owned nor inherited binds the function object, configurable only in eval code. */
  lemma FreshFunctionDeclaration(properties: map<string, PropertyDescriptor>, inherited: map<string, PropertyDescriptor>, isGlobal: bool,
                                 f: FunctionInfo, fo: JsValue, configurableBindings: bool, strict: bool)
    requires f.id.Some? && !HasProperty(properties, inherited, f.id.value)
    ensures BoundFunction(properties, inherited, isGlobal, f, fo, configurableBindings, strict) ==
      Bound(Ok(()), properties[f.id.value := DataDescriptor(fo, true, true, configurableBindings)])
  {
  }

  // ---- the record and the loops -------------------------------------------------------

  /**
   * An object environment record: its binding object's own properties,
   * the properties the object inherits through its prototype chain (which
   * the instantiation never changes), and whether it is the global record.
   */
  class ObjectEnvironmentRecord {
    var properties: map<string, PropertyDescriptor>
    const inherited: map<string, PropertyDescriptor>
    const isGlobal: bool

    constructor(properties: map<string, PropertyDescriptor>, inherited: map<string, PropertyDescriptor>, isGlobal: bool)
      ensures this.properties == properties && this.inherited == inherited && this.isGlobal == isGlobal
    {
      this.properties := properties;
      this.inherited := inherited;
      this.isGlobal := isGlobal;
    }

    /** `HasBinding(name)`: the binding object's `HasProperty`, which follows the prototype chain. */
    function HasBinding(name: string): (r: bool)
      reads this
      ensures r <==> name in properties || name in inherited
    {
      name in properties || name in inherited
    }

    method CreateMutableBinding(name: string, v: JsValue, configurable: bool)
      modifies this
      ensures properties == Created(old(properties), name, v, configurable)
    {
      properties := properties[name := DataDescriptor(v, true, true, configurable)];
    }

    method SetMutableBinding(name: string, v: JsValue, strict: bool) returns (r: Result<()>)
      modifies this
      ensures Bound(r, properties) == PutBinding(old(properties), inherited, name, v, strict)
    {
      var b := PutBinding(properties, inherited, name, v, strict);
      r, properties := b.result, b.properties;
    }

    /** The global object's `DefineOwnProperty(name, descriptor, true)` over a configurable property. */
    method DefineOwnProperty(name: string, d: PropertyDescriptor)
      modifies this
      ensures properties == old(properties)[name := d]
    {
      properties := properties[name := d];
    }
  }

  /** The slow path of the parameter loop in `DeclarationBindingInstantiation`. */
  method InstantiateParameters(env: ObjectEnvironmentRecord, names: seq<string>, arguments: seq<JsValue>, strict: bool)
    returns (r: Result<()>)
    modifies env
    ensures Bound(r, env.properties) == BoundParameters(old(env.properties), env.inherited, names, arguments, strict, 0)
  {
    var i := 0;
    while i < |names|
      invariant 0 <= i <= |names|
      invariant BoundParameters(old(env.properties), env.inherited, names, arguments, strict, 0) ==
                BoundParameters(env.properties, env.inherited, names[i..], arguments, strict, i)
    {
      assert names[i..][0] == names[i] && names[i..][1..] == names[i + 1..];
      var v := if i + 1 > |arguments| then JsUndefined else arguments[i];
      if !env.HasBinding(names[i]) {
        env.CreateMutableBinding(names[i], v, false);
      }
      var putResult := env.SetMutableBinding(names[i], v, strict);
      if putResult.Err? {
        return putResult;
      }
      i := i + 1;
    }
    return Ok(());
  }

  /** `AddFunctionDeclarations`: the declarations in order, each as `BoundFunction` says. */
  method AddFunctionDeclarations(env: ObjectEnvironmentRecord, fs: seq<FunctionInfo>, createFunction: FunctionInfo -> JsValue,
                                 configurableBindings: bool, strict: bool) returns (r: Result<()>)
    modifies env
    ensures Bound(r, env.properties) == BoundFunctions(old(env.properties), env.inherited, env.isGlobal, fs, createFunction, configurableBindings, strict)
  {
    var i := 0;
    while i < |fs|
      invariant 0 <= i <= |fs|
      invariant BoundFunctions(old(env.properties), env.inherited, env.isGlobal, fs, createFunction, configurableBindings, strict) ==
                BoundFunctions(env.properties, env.inherited, env.isGlobal, fs[i..], createFunction, configurableBindings, strict)
    {
      assert fs[i..][0] == fs[i] && fs[i..][1..] == fs[i + 1..];
      var f := fs[i];
      if f.id.None? {
        return ClrThrow(NullReference);
      }
      var fn := f.id.value;
      var fo := createFunction(f);
      if !env.HasBinding(fn) {
        env.CreateMutableBinding(fn, JsUndefined, configurableBindings);
      } else if env.isGlobal {
        var existing := GetProperty(env.properties, env.inherited, fn);
        if existing.configurable {
          env.DefineOwnProperty(fn, DataDescriptor(JsUndefined, true, true, configurableBindings));
        } else if existing.IsAccessorDescriptor() || !existing.enumerable {
          return JsThrow(TypeError);
        }
      }
      var putResult := env.SetMutableBinding(fn, fo, strict);
      if putResult.Err? {
        return putResult;
      }
      i := i + 1;
    }
    return Ok(());
  }

  /** The slow path of the `var` loop: statement by statement, declarator by declarator. */
  method InstantiateVariables(env: ObjectEnvironmentRecord, vs: seq<seq<VariableDeclarator>>) returns (r: Result<()>)
    modifies env
    ensures Bound(r, env.properties) == BoundVariables(old(env.properties), env.inherited, vs)
  {
    var i := 0;
    while i < |vs|
      invariant 0 <= i <= |vs|
      invariant BoundVariables(old(env.properties), env.inherited, vs) == BoundVariables(env.properties, env.inherited, vs[i..])
    {
      assert vs[i..][0] == vs[i] && vs[i..][1..] == vs[i + 1..];
      ghost var start := env.properties;
      var ds := vs[i];
      var j := 0;
      while j < |ds|
        invariant 0 <= j <= |ds|
        invariant BoundDeclarators(start, env.inherited, ds) == BoundDeclarators(env.properties, env.inherited, ds[j..])
      {
        assert ds[j..][0] == ds[j] && ds[j..][1..] == ds[j + 1..];
        if !ds[j].id.Identifier? {
          return ClrThrow(InvalidCast);
        }
        var dn := ds[j].id.name;
        if !env.HasBinding(dn) {
          env.CreateMutableBinding(dn, JsUndefined, false);
        }
        j := j + 1;
      }
      i := i + 1;
    }
    return Ok(());
  }

  /** The whole instantiation: what a run ends with, and whether it threw. */
  function Instantiated(properties: map<string, PropertyDescriptor>, inherited: map<string, PropertyDescriptor>, isGlobal: bool, codeType: DeclarationBindingType,
                        functionDeclarations: seq<FunctionInfo>, variableDeclarations: seq<seq<VariableDeclarator>>,
                        formalParameters: seq<string>, arguments: seq<JsValue>, argsObj: JsValue, strict: bool,
                        createFunction: FunctionInfo -> JsValue): Bound
  {
    var afterParameters :=
      if codeType == FunctionCode then
        var p := BoundParameters(properties, inherited, formalParameters, arguments, strict, 0);
        if p.result.Err? then p else Bound(Ok(()), Created(p.properties, "arguments", argsObj, false))
      else Bound(Ok(()), properties);
    if afterParameters.result.Err? then afterParameters
    else
      var afterFunctions := BoundFunctions(afterParameters.properties, inherited, isGlobal, functionDeclarations, createFunction, codeType == EvalCode, strict);
      if afterFunctions.result.Err? then afterFunctions
      else BoundVariables(afterFunctions.properties, inherited, variableDeclarations)
  }

  /**
   * `DeclarationBindingInstantiation` on an object environment record: the
   * parameters and the `arguments` object (function code only), the
   * function declarations, then the `var` names. In function code it
   * reports that the pooled arguments object may be released.
   */
  method DeclarationBindingInstantiation(env: ObjectEnvironmentRecord, codeType: DeclarationBindingType,
                                         functionDeclarations: seq<FunctionInfo>, variableDeclarations: seq<seq<VariableDeclarator>>,
                                         formalParameters: seq<string>, arguments: seq<JsValue>, argsObj: JsValue, strict: bool,
                                         createFunction: FunctionInfo -> JsValue)
    returns (r: Result<bool>)
    modifies env
    ensures r.Ok? ==> r.value == (codeType == FunctionCode)
    ensures var b := Instantiated(old(env.properties), env.inherited, env.isGlobal, codeType, functionDeclarations, variableDeclarations,
                                  formalParameters, arguments, argsObj, strict, createFunction);
      (r.Ok? <==> b.result.Ok?) && (r.Err? ==> b.result == Err(r.error)) && env.properties == b.properties
  {
    var configurableBindings := codeType == EvalCode;
    var canReleaseArgumentsInstance := false;
    if codeType == FunctionCode {
      canReleaseArgumentsInstance := true;
      var p := InstantiateParameters(env, formalParameters, arguments, strict);
      if p.Err? {
        return Err(p.error);
      }
      env.CreateMutableBinding("arguments", argsObj, false);
    }
    var fr := AddFunctionDeclarations(env, functionDeclarations, createFunction, configurableBindings, strict);
    if fr.Err? {
      return Err(fr.error);
    }
    var vr := InstantiateVariables(env, variableDeclarations);
    if vr.Err? {
      return Err(vr.error);
    }
    return Ok(canReleaseArgumentsInstance);
  }

  /**
   * Hoisting a global program's `var` statements keeps every existing
   * global, leaves each declared name bound, and never shadows an
   * inherited property: `var toString;` leaves `Object.prototype.toString`
   * visible.
   */
  lemma {:induction false} VariablesCreateOnlyMissing(properties: map<string, PropertyDescriptor>, inherited: map<string, PropertyDescriptor>,
                                                      vs: seq<seq<VariableDeclarator>>)
    requires forall i :: 0 <= i < |vs| ==> AllIdentifiers(vs[i])
    ensures var b := BoundVariables(properties, inherited, vs);
      && b.result.Ok?
      && (forall n :: n in properties ==> n in b.properties && b.properties[n] == properties[n])
      && (forall n :: Declares(vs, n) ==> HasProperty(b.properties, inherited, n))
      && (forall n :: n in inherited && n !in properties ==> n !in b.properties)
    decreases |vs|
  {
    if vs != [] {
      DeclaratorsCreateOnlyMissing(properties, inherited, vs[0]);
      var one := BoundDeclarators(properties, inherited, vs[0]);
      assert forall i :: 0 <= i < |vs[1..]| ==> vs[1..][i] == vs[i + 1];
      VariablesCreateOnlyMissing(one.properties, inherited, vs[1..]);
      var b := BoundVariables(one.properties, inherited, vs[1..]);
      forall n | Declares(vs, n) ensures HasProperty(b.properties, inherited, n) {
        var i, j :| 0 <= i < |vs| && 0 <= j < |vs[i]| && vs[i][j].id == Expression.Identifier(n);
        if i == 0 {
          assert HasProperty(one.properties, inherited, n);
        } else {
          assert vs[1..][i - 1][j].id == Expression.Identifier(n);
          assert Declares(vs[1..], n);
        }
      }
    }
  }
}
