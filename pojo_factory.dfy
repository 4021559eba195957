/** `PojoFactory`: a plain object built with the constructor that has the
    fewest parameters, then populated through its one-argument setters. */
module PojoFactory {
  import opened Types
  import Spy = DefaultClassSpy
  import Engine

  /** `canCreate`: neither an interface nor an enum. */
  predicate CanCreate(d: ClassDesc)
  {
    !d.isInterface && !d.isEnum
  }

  /** `create`: `null` unless `canCreate`; otherwise `createObject`, and the
      object built (never `null` or an exception) is populated. */
  method Create(w: Engine.World, fuel: nat, g: set<ClassName>, c: ClassName, t: nat) returns (s: Step)
    ensures s == Engine.PojoCreate(w, fuel, g, c, t)
  {
    if !CanCreate(w.classOf(c)) {
      return Step(Ok(Null), t);
    }
    var obj := CreateObject(w, fuel, g, c, t);
    if obj.out.Ok? && obj.out.value.Instance? {
      s := PopulateFields(w, fuel, g, c, obj.out.value.ctorArgs, obj.next);
    } else {
      s := obj;
    }
  }

  /** `createObject`: the argument list is built by a loop over the generic
      parameter types of the chosen constructor. */
  method CreateObject(w: Engine.World, fuel: nat, g: set<ClassName>, c: ClassName, t: nat) returns (s: Step)
    ensures s == Engine.CreateObject(w, fuel, g, c, t)
  {
    var d := w.classOf(c);
    var chosen := Spy.FindConstructor(d.ctors);
    if chosen.None? {
      return Step(Thrown(NullPointer), t);
    }
    var k := chosen.value;
    var params := d.ctors[k].params;
    var constructorArgs: seq<Value> := [];
    var next: nat := t;
    var i := 0;
    while i < |params|
      invariant i <= |params|
      invariant Engine.CtorArgs(w, fuel, g, params[i..], constructorArgs, next)
             == Engine.CtorArgs(w, fuel, g, params, [], t)
    {
      assert params[i..][1..] == params[i + 1..];
      var arg := Engine.CreateTyped(w, fuel, g, params[i], next);
      if arg.out.Thrown? {
        return arg;
      }
      constructorArgs := constructorArgs + [arg.out.value];
      next := arg.next;
      i := i + 1;
    }
    assert params[i..] == [];
    if d.isAbstract || d.ctors[k].fails {
      return Step(Ok(Null), next);
    }
    s := Step(Ok(Instance(c, constructorArgs, [])), next);
  }

  /** `populateFields`: every `set`-prefixed method with one parameter is
      called with a created argument; a reflective failure is ignored. */
  method PopulateFields(w: Engine.World, fuel: nat, g: set<ClassName>, c: ClassName, args: seq<Value>, t: nat)
    returns (s: Step)
    ensures s == Engine.Populate(w, fuel, g, Spy.WithPrefix(w.classOf(c).methods, "set"), c, args, [], t)
  {
    var setters := Spy.FindMethods(w.classOf(c).methods, "set");
    s := CallSetters(w, fuel, g, setters, c, args, t);
  }

  /** The loop of `populateFields` over the setters found. */
  method CallSetters(w: Engine.World, fuel: nat, g: set<ClassName>, setters: seq<MethodInfo>, c: ClassName,
                     args: seq<Value>, t: nat)
    returns (s: Step)
    ensures s == Engine.Populate(w, fuel, g, setters, c, args, [], t)
  {
    var applied: seq<SetterCall> := [];
    var next: nat := t;
    var i := 0;
    while i < |setters|
      invariant i <= |setters|
      invariant Engine.Populate(w, fuel, g, setters[i..], c, args, applied, next)
             == Engine.Populate(w, fuel, g, setters, c, args, [], t)
    {
      var setter := setters[i];
      ghost var rest := setters[i + 1..];
      assert setters[i..] == [setter] + rest;
      assert setters[i..][1..] == rest;
      if |setter.params| == 1 {
        var arg := Engine.CreateTyped(w, fuel, g, setter.params[0], next);
        if arg.out.Thrown? {
          return arg;
        }
        if !setter.fails {
          applied := applied + [SetterCall(setter.name, arg.out.value)];
        }
        next := arg.next;
      }
      i := i + 1;
    }
    assert setters[i..] == [];
    s := Step(Ok(Instance(c, args, applied)), next);
  }

  /** The setters that take effect: one parameter, and the call succeeds. */
  function Effective(setters: seq<MethodInfo>): (r: seq<MethodInfo>)
    ensures forall m :: m in r <==> m in setters && |m.params| == 1 && !m.fails
  {
    if setters == [] then []
    else (if |setters[0].params| == 1 && !setters[0].fails then [setters[0]] else []) + Effective(setters[1..])
  }

  /** The constructor arguments are one value per parameter type, in order,
      each one the resolver's value for that type. */
  lemma {:induction false} ArgsPerParameter(w: Engine.World, fuel: nat, g: set<ClassName>,
                                            params: seq<JType>, acc: seq<Value>, t: nat)
    ensures var s := Engine.CtorArgs(w, fuel, g, params, acc, t);
      s.out.Ok? ==> forall i | 0 <= i < |params| ::
        Engine.Produces(w, fuel, g, params[i], s.out.value.elems[|acc| + i])
    decreases |params|
  {
    if params != [] {
      var a := Engine.CreateTyped(w, fuel, g, params[0], t);
      if a.out.Ok? {
        var acc' := acc + [a.out.value];
        ArgsPerParameter(w, fuel, g, params[1..], acc', a.next);
        var s := Engine.CtorArgs(w, fuel, g, params, acc, t);
        if s.out.Ok? {
          forall i | 0 <= i < |params|
            ensures Engine.Produces(w, fuel, g, params[i], s.out.value.elems[|acc| + i])
          {
            if i == 0 {
              assert s.out.value.elems[|acc|] == acc'[|acc|];
            } else {
              assert params[i] == params[1..][i - 1];
            }
          }
        }
      }
    }
  }

  /** The applied setter calls are exactly the effective setters, in order,
      each with a value the resolver yields for its parameter type: a failing
      setter is skipped and the later ones still run. */
  lemma {:induction false} SettersApplied(w: Engine.World, fuel: nat, g: set<ClassName>, setters: seq<MethodInfo>,
                                          c: ClassName, args: seq<Value>, applied: seq<SetterCall>, t: nat)
    ensures var s := Engine.Populate(w, fuel, g, setters, c, args, applied, t);
      s.out.Ok? ==> AppliedAll(w, fuel, g, s.out.value.applied, |applied|, Effective(setters))
    decreases |setters|
  {
    var s := Engine.Populate(w, fuel, g, setters, c, args, applied, t);
    if setters == [] || !s.out.Ok? {
      return;
    }
    var m := setters[0];
    var rest := setters[1..];
    if |m.params| != 1 {
      assert s == Engine.Populate(w, fuel, g, rest, c, args, applied, t);
      SettersApplied(w, fuel, g, rest, c, args, applied, t);
      assert Effective(setters) == Effective(rest);
      return;
    }
    var a := Engine.CreateTyped(w, fuel, g, m.params[0], t);
    if m.fails {
      assert s == Engine.Populate(w, fuel, g, rest, c, args, applied, a.next);
      SettersApplied(w, fuel, g, rest, c, args, applied, a.next);
      assert Effective(setters) == Effective(rest);
    } else {
      var applied' := applied + [SetterCall(m.name, a.out.value)];
      assert s == Engine.Populate(w, fuel, g, rest, c, args, applied', a.next);
      SettersApplied(w, fuel, g, rest, c, args, applied', a.next);
      ShiftNames(w, fuel, g, s.out.value.applied, applied, m, a.out.value, t, Effective(rest));
      assert Effective(setters) == [m] + Effective(rest);
    }
  }

  /** A recorded setter call is the call of setter `m` with a value the
      resolver yields for `m`'s parameter type. */
  ghost predicate AppliedAs(w: Engine.World, fuel: nat, g: set<ClassName>, call: SetterCall, m: MethodInfo)
  {
    call.setter == m.name && |m.params| == 1 && Engine.Produces(w, fuel, g, m.params[0], call.arg)
  }

  /** The calls after the first `from` are those of the setters `eff`, one
      each, in order. */
  ghost predicate AppliedAll(w: Engine.World, fuel: nat, g: set<ClassName>, calls: seq<SetterCall>, from: nat,
                             eff: seq<MethodInfo>)
  {
    |calls| == from + |eff| && forall i | 0 <= i < |eff| :: AppliedAs(w, fuel, g, calls[from + i], eff[i])
  }

  /** Index bookkeeping for `SettersApplied`: the call of setter `m` with
      the value the resolver produced at tick `u`, in front of the calls
      applied by the rest of the setters. */
  lemma ShiftNames(w: Engine.World, fuel: nat, g: set<ClassName>, r: seq<SetterCall>, applied: seq<SetterCall>,
                   m: MethodInfo, v: Value, u: nat, rest: seq<MethodInfo>)
    requires |m.params| == 1 && Engine.CreateTyped(w, fuel, g, m.params[0], u).out == Ok(v)
    requires |applied| < |r| && r[..|applied| + 1] == applied + [SetterCall(m.name, v)]
    requires AppliedAll(w, fuel, g, r, |applied| + 1, rest)
    ensures AppliedAll(w, fuel, g, r, |applied|, [m] + rest)
  {
    var from := |applied|;
    assert r[from] == r[..from + 1][from];
    assert AppliedAs(w, fuel, g, r[from], m);
    forall i | 0 <= i < |[m] + rest|
      ensures AppliedAs(w, fuel, g, r[from + i], ([m] + rest)[i])
    {
      if i > 0 {
        assert AppliedAs(w, fuel, g, r[from + 1 + (i - 1)], rest[i - 1]);
      }
    }
  }

  /** `create` end to end: interfaces and enums give `null`; a constructor
      that cannot run gives `null` and no setter is called (no call is made
      after the arguments); a built object is the constructor's object, with
      its class and arguments, populated by the effective `set` methods. */
  lemma PojoContract(w: Engine.World, fuel: nat, g: set<ClassName>, c: ClassName, t: nat)
    ensures var s := Engine.PojoCreate(w, fuel, g, c, t);
      var d := w.classOf(c);
      var o := Engine.CreateObject(w, fuel, g, c, t);
      && (!CanCreate(d) ==> s == Step(Ok(Null), t))
      && (CanCreate(d) && o.out == Ok(Null) ==> s == o)
      && (CanCreate(d) && s.out.Ok? && s.out.value != Null ==>
            && o.out.Ok? && o.out.value == Instance(c, s.out.value.ctorArgs, [])
            && s.out.value.Instance? && s.out.value.cls == c
            && AppliedAll(w, fuel, g, s.out.value.applied, 0, Effective(Spy.WithPrefix(d.methods, "set"))))
  {
    var d := w.classOf(c);
    var o := Engine.CreateObject(w, fuel, g, c, t);
    if CanCreate(d) && o.out.Ok? && o.out.value.Instance? {
      SettersApplied(w, fuel, g, Spy.WithPrefix(d.methods, "set"), c, o.out.value.ctorArgs, [], o.next);
    }
  }

  /** A constructor chosen, its arguments: one resolved value per parameter of
      the constructor `findConstructor` picks, and a constructor that cannot
      run gives `null`. */
  lemma CreateObjectContract(w: Engine.World, fuel: nat, g: set<ClassName>, c: ClassName, t: nat)
    ensures var s := Engine.CreateObject(w, fuel, g, c, t);
      var d := w.classOf(c);
      var k := Spy.FewestParameters(d.ctors);
      && (k.None? ==> s == Step(Thrown(NullPointer), t))
      && (k.Some? && (d.isAbstract || d.ctors[k.value].fails) ==> s.out.Thrown? || s.out == Ok(Null))
      && (s.out.Ok? && s.out.value != Null ==>
            && k.Some? && !d.isAbstract && !d.ctors[k.value].fails
            && s.out.value.Instance? && s.out.value.cls == c && s.out.value.applied == []
            && |s.out.value.ctorArgs| == |d.ctors[k.value].params|
            && forall i | 0 <= i < |d.ctors[k.value].params| ::
                 Engine.Produces(w, fuel, g, d.ctors[k.value].params[i], s.out.value.ctorArgs[i]))
  {
    var d := w.classOf(c);
    var k := Spy.FewestParameters(d.ctors);
    if k.Some? {
      ArgsPerParameter(w, fuel, g, d.ctors[k.value].params, [], t);
    }
  }
}
