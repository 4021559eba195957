/** The synthesis engine: the default object factory's chain, every capability
    factory that calls back into it, and the generic-type resolver with its
    container factories. They are mutually recursive in the source (every
    inner factory holds a reference to the top-level factory), so they are one
    module here.

    Each function takes the `World` (what reflection and the configuration
    say), the remaining stack depth `fuel`, the `classesInProgress` set of the
    interface factory, and the number `t` of external calls made so far, and
    returns the outcome with the new call count. Running out of stack is
    `StackOverflowError`, which is what the source does on a cyclic type graph. */
module Engine {
  import opened Types
  import MM = MinMaxIntegerSupplier
  import Spy = DefaultClassSpy
  import BasicObjectFactory
  import EnumFactory
  import NonNullObjectFactory
  import InterfaceProxyFactory
  import AbstractClassProxyFactory
  import ProxyObjectFactory
  import Provider = DefaultCollectionInstanceProvider
  import InterfaceCandidates

  /** A capability factory in a chain. Every factory that needs sub-objects
      delegates to the chain of the world it runs in. */
  datatype Factory =
    | Basic                   // BasicObjectFactory over the world's suppliers
    | ObjectArray             // ObjectArrayFactory over the world's array-size supplier
    | Enumeration             // EnumFactory
    | Pojo                    // PojoFactory
    | Implementation          // InterfaceFactory
    | InterfaceProxyGate      // InterfaceProxyFactory
    | AbstractClassProxyGate  // AbstractClassProxyFactory
    | ProxyObjectGate         // ProxyObjectFactory
    | NonNull(inner: Factory) // NonNullObjectFactory

  function Depth(f: Factory): nat
  {
    match f
    case NonNull(inner) => Depth(inner) + 1
    case _ => 0
  }

  /** The order the two-argument `DefaultObjectFactory` constructor installs. */
  const DEFAULT_CHAIN: seq<Factory> := [Basic, ObjectArray, Enumeration, Pojo]

  /** Everything the engine consults: the class descriptions, the leaf
      suppliers, the array-size supplier, the chain, and the value of each
      external call (a supplier's `get`, a size supplier's `get`, or
      `Random.nextInt`), by call number. */
  datatype World = World(
    classOf: ClassName -> ClassDesc,
    suppliers: map<ClassName, Supplier>,
    arraySizes: MM.IntSource,
    chain: seq<Factory>,
    draw: nat -> Int32)

  /** The size supplier of the default collection and map factories:
      `new MinMaxIntegerSupplier(1, 11)`. */
  const CONTAINER_SIZES: MM.IntSource := MM.Ranged(MM.Create())

  /** How many times `for (int i = 0; i < howMany; i++)` runs. */
  function Iterations(howMany: int): (n: nat)
    ensures howMany >= 0 ==> n == howMany
    ensures howMany < 0 ==> n == 0
  {
    if howMany < 0 then 0 else howMany
  }

  /** `collection.add(v)` on an `ArrayList` or a `HashSet`. */
  function AddTo(coll: Value, v: Value): (r: Value)
    requires coll.ListOf? || coll.SetOf?
    ensures coll.ListOf? ==> r == ListOf(coll.elems + [v])
    ensures coll.SetOf? ==> r == SetOf(coll.members + {v})
  {
    if coll.ListOf? then ListOf(coll.elems + [v]) else SetOf(coll.members + {v})
  }

  /** `DefaultObjectFactory.create` on the world's chain. */
  function Create(w: World, fuel: nat, g: set<ClassName>, c: ClassName, t: nat): (s: Step)
    ensures s.next >= t
    decreases fuel, 2, 0
  {
    if fuel == 0 then Step(Thrown(StackOverflow), t)
    else ChainFrom(w, fuel, g, w.chain, c, t)
  }

  /** The loop of `DefaultObjectFactory.create` over the factories `fs` still
      to try: the first non-null result or exception ends it. */
  function ChainFrom(w: World, fuel: nat, g: set<ClassName>, fs: seq<Factory>, c: ClassName, t: nat): (s: Step)
    requires fuel > 0
    ensures s.next >= t
    decreases fuel, 1, |fs|
  {
    if fs == [] then Step(Ok(Null), t)
    else
      var s := Apply(w, fuel, g, fs[0], c, t);
      if s.out == Ok(Null) then ChainFrom(w, fuel, g, fs[1..], c, s.next) else s
  }

  /** One factory's `create(c)`. */
  function Apply(w: World, fuel: nat, g: set<ClassName>, f: Factory, c: ClassName, t: nat): (s: Step)
    requires fuel > 0
    ensures s.next >= t
    decreases fuel, 0, Depth(f)
  {
    var d := w.classOf(c);
    match f
    case Basic => BasicObjectFactory.Create(w.suppliers, w.draw, c, t)
    case ObjectArray => ArrayCreate(w, fuel - 1, g, c, t)
    case Enumeration => EnumFactory.Create(d, c, w.draw, t)
    case Pojo => PojoCreate(w, fuel - 1, g, c, t)
    case Implementation => InterfaceCreate(w, fuel - 1, g, c, t)
    case InterfaceProxyGate => Step(InterfaceProxyFactory.Create(d, c), t)
    case AbstractClassProxyGate => Step(AbstractClassProxyFactory.Create(d, c), t)
    case ProxyObjectGate => Step(ProxyObjectFactory.Create(d, c), t)
    case NonNull(inner) => NonNullObjectFactory.Decorate(Apply(w, fuel, g, inner, c, t))
  }

  /** `ObjectArrayFactory.create`: `null` for a non-array class; otherwise one
      draw of the array-size supplier, `NegativeArraySizeException` for a
      negative size, and the component type created once per slot. */
  function ArrayCreate(w: World, fuel: nat, g: set<ClassName>, c: ClassName, t: nat): (s: Step)
    ensures s.next >= t
    decreases fuel, 5, 0
  {
    var d := w.classOf(c);
    if !d.isArray then Step(Ok(Null), t)
    else
      var howMany := MM.Next(w.arraySizes, w.draw, t);
      if howMany < 0 then Step(Thrown(NegativeArraySize), t + 1)
      else FillArray(w, fuel, g, d.component, howMany, [], t + 1)
  }

  /** The slot loop of `ObjectArrayFactory.create`: `count` slots after the
      filled prefix `acc`. */
  function FillArray(w: World, fuel: nat, g: set<ClassName>, component: ClassName, count: nat, acc: seq<Value>, t: nat): (s: Step)
    ensures s.next >= t
    ensures s.out.Ok? ==>
      && s.out.value.ArrayOf? && s.out.value.component == component
      && |s.out.value.elems| == |acc| + count && s.out.value.elems[..|acc|] == acc
    decreases fuel, 4, count
  {
    if count == 0 then Step(Ok(ArrayOf(component, acc)), t)
    else
      var e := Create(w, fuel, g, component, t);
      if e.out.Thrown? then e
      else
        var s := FillArray(w, fuel, g, component, count - 1, acc + [e.out.value], e.next);
        assert s.out.Ok? ==> s.out.value.elems[..|acc|] == (acc + [e.out.value])[..|acc|];
        s
  }

  /** `PojoFactory.create`: interfaces and enums give `null` (`canCreate`);
      otherwise `createObject`, and a built object is populated through the
      methods `findMethods` finds with the prefix `set`. */
  function PojoCreate(w: World, fuel: nat, g: set<ClassName>, c: ClassName, t: nat): (s: Step)
    ensures s.next >= t
    decreases fuel, 6, 0
  {
    var d := w.classOf(c);
    if d.isInterface || d.isEnum then Step(Ok(Null), t)
    else
      var o := CreateObject(w, fuel, g, c, t);
      if o.out.Ok? && o.out.value.Instance? then
        Populate(w, fuel, g, Spy.WithPrefix(d.methods, "set"), c, o.out.value.ctorArgs, [], o.next)
      else o
  }

  /** `PojoFactory.createObject`: the constructor `findConstructor` picks (a
      `NullPointerException` when there is none) gets one created argument per
      parameter; a constructor that cannot run (an abstract class, or a
      reflective failure) gives `null`. */
  function CreateObject(w: World, fuel: nat, g: set<ClassName>, c: ClassName, t: nat): (s: Step)
    ensures s.next >= t
    decreases fuel, 5, 0
  {
    var d := w.classOf(c);
    match Spy.FewestParameters(d.ctors)
    case None => Step(Thrown(NullPointer), t)
    case Some(k) =>
      var a := CtorArgs(w, fuel, g, d.ctors[k].params, [], t);
      if a.out.Thrown? then a
      else if d.isAbstract || d.ctors[k].fails then Step(Ok(Null), a.next)
      else Step(Ok(Instance(c, a.out.value.elems, [])), a.next)
  }

  /** The argument loop of `PojoFactory.createObject`: one resolved value per
      remaining parameter type, appended to `acc`. */
  function CtorArgs(w: World, fuel: nat, g: set<ClassName>, params: seq<JType>, acc: seq<Value>, t: nat): (s: Step)
    ensures s.next >= t
    ensures s.out.Ok? ==>
      && s.out.value.ListOf?
      && |s.out.value.elems| == |acc| + |params| && s.out.value.elems[..|acc|] == acc
    decreases fuel, 4, |params|
  {
    if params == [] then Step(Ok(ListOf(acc)), t)
    else
      var a := CreateTyped(w, fuel, g, params[0], t);
      if a.out.Thrown? then a
      else
        var s := CtorArgs(w, fuel, g, params[1..], acc + [a.out.value], a.next);
        assert s.out.Ok? ==> s.out.value.elems[..|acc|] == (acc + [a.out.value])[..|acc|];
        s
  }

  /** The setter loop of `PojoFactory.populateFields` over the remaining
      `set`-prefixed methods: a one-parameter setter gets a created argument
      and, unless the call fails reflectively, is recorded in `applied`; a
      failing setter is skipped silently. */
  function Populate(w: World, fuel: nat, g: set<ClassName>, setters: seq<MethodInfo>,
                    c: ClassName, args: seq<Value>, applied: seq<SetterCall>, t: nat): (s: Step)
    ensures s.next >= t
    ensures s.out.Ok? ==>
      && s.out.value.Instance? && s.out.value.cls == c && s.out.value.ctorArgs == args
      && |applied| <= |s.out.value.applied| <= |applied| + |setters|
      && s.out.value.applied[..|applied|] == applied
    decreases fuel, 4, |setters|
  {
    if setters == [] then Step(Ok(Instance(c, args, applied)), t)
    else
      var m := setters[0];
      if |m.params| != 1 then Populate(w, fuel, g, setters[1..], c, args, applied, t)
      else
        var a := CreateTyped(w, fuel, g, m.params[0], t);
        if a.out.Thrown? then a
        else
          var applied' := if m.fails then applied else applied + [SetterCall(m.name, a.out.value)];
          var s := Populate(w, fuel, g, setters[1..], c, args, applied', a.next);
          assert s.out.Ok? ==> s.out.value.applied[..|applied|] == applied'[..|applied|];
          s
  }

  /** `InterfaceFactory.create`: `null` for a non-interface or for a class
      already in progress; otherwise `createInternal` with the class added to
      the in-progress set for the duration of the lookup. */
  function InterfaceCreate(w: World, fuel: nat, g: set<ClassName>, c: ClassName, t: nat): (s: Step)
    ensures s.next >= t
    decreases fuel, 5, 0
  {
    var d := w.classOf(c);
    if !d.isInterface || c in g then Step(Ok(Null), t)
    else TryCandidates(w, fuel, g + {c}, InterfaceCandidates.Candidates(w.classOf, d.subtypes), t)
  }

  /** `createInternal`'s `map(factory::create).filter(e -> e != null).findFirst()`:
      the lazy stream stops at the first non-null result. */
  function TryCandidates(w: World, fuel: nat, g: set<ClassName>, cs: seq<ClassName>, t: nat): (s: Step)
    ensures s.next >= t
    decreases fuel, 4, |cs|
  {
    if cs == [] then Step(Ok(Null), t)
    else
      var s := Create(w, fuel, g, cs[0], t);
      if s.out == Ok(Null) then TryCandidates(w, fuel, g, cs[1..], s.next) else s
  }

  /** `DefaultTypedObjectFactory.create(Type)`: a class goes to the chain; a
      parameterised `Map`, `Optional` or other raw type goes to the map,
      optional or collection factory with its type arguments (reading a
      missing argument throws); any other kind of type gives `null`. */
  function CreateTyped(w: World, fuel: nat, g: set<ClassName>, ty: JType, t: nat): (s: Step)
    ensures s.next >= t
    decreases fuel, 3, 0
  {
    match ty
    case ClassType(c) => Create(w, fuel, g, c, t)
    case Parameterized(raw, args) =>
      if fuel == 0 then Step(Thrown(StackOverflow), t)
      else if raw == MAP_CLASS then
        if |args| < 2 then Step(Thrown(IndexOutOfBounds), t)
        else MapCreate(w, fuel - 1, g, args[0], args[1], t)
      else if raw == OPTIONAL_CLASS then
        if |args| < 1 then Step(Thrown(IndexOutOfBounds), t)
        else OptionalCreate(w, fuel - 1, g, args[0], t)
      else
        if |args| < 1 then Step(Thrown(IndexOutOfBounds), t)
        else CollectionCreate(w, fuel - 1, g, raw, args[0], t)
    case OtherType => Step(Ok(Null), t)
  }

  /** `DefaultCollectionFactory.create`: the provider's empty collection (or
      `null`, with no size drawn), then one size draw and that many elements. */
  function CollectionCreate(w: World, fuel: nat, g: set<ClassName>, raw: ClassName, elementType: JType, t: nat): (s: Step)
    ensures s.next >= t
    decreases fuel, 5, 0
  {
    match Provider.Provide(raw)
    case None => Step(Ok(Null), t)
    case Some(coll) =>
      var howMany := MM.Next(CONTAINER_SIZES, w.draw, t);
      FillCollection(w, fuel, g, elementType, Iterations(howMany), coll, t + 1)
  }

  /** The add loop of `DefaultCollectionFactory.create`: `count` more elements. */
  function FillCollection(w: World, fuel: nat, g: set<ClassName>, elementType: JType, count: nat, coll: Value, t: nat): (s: Step)
    requires coll.ListOf? || coll.SetOf?
    ensures s.next >= t
    ensures s.out.Ok? && coll.ListOf? ==>
      && s.out.value.ListOf?
      && |s.out.value.elems| == |coll.elems| + count && s.out.value.elems[..|coll.elems|] == coll.elems
    ensures s.out.Ok? && coll.SetOf? ==>
      && s.out.value.SetOf?
      && coll.members <= s.out.value.members && |s.out.value.members| <= |coll.members| + count
    decreases fuel, 4, count
  {
    if count == 0 then Step(Ok(coll), t)
    else
      var e := CreateTyped(w, fuel, g, elementType, t);
      if e.out.Thrown? then e
      else
        var coll' := AddTo(coll, e.out.value);
        var s := FillCollection(w, fuel, g, elementType, count - 1, coll', e.next);
        assert s.out.Ok? && coll.ListOf? ==> s.out.value.elems[..|coll.elems|] == coll'.elems[..|coll.elems|];
        s
  }

  /** `DefaultMapFactory.create`: one size draw, then that many puts. */
  function MapCreate(w: World, fuel: nat, g: set<ClassName>, keyType: JType, valueType: JType, t: nat): (s: Step)
    ensures s.next >= t
    decreases fuel, 5, 0
  {
    var howMany := MM.Next(CONTAINER_SIZES, w.draw, t);
    FillMap(w, fuel, g, keyType, valueType, Iterations(howMany), map[], t + 1)
  }

  /** The put loop of `DefaultMapFactory.create`: a key, then a value, then
      the put, which overwrites an equal key. */
  function FillMap(w: World, fuel: nat, g: set<ClassName>, keyType: JType, valueType: JType,
                   count: nat, m: map<Value, Value>, t: nat): (s: Step)
    ensures s.next >= t
    ensures s.out.Ok? ==>
      && s.out.value.MapOf? && m.Keys <= s.out.value.entries.Keys
      && |s.out.value.entries| <= |m| + count
    decreases fuel, 4, count
  {
    if count == 0 then Step(Ok(MapOf(m)), t)
    else
      var k := CreateTyped(w, fuel, g, keyType, t);
      if k.out.Thrown? then k
      else
        var v := CreateTyped(w, fuel, g, valueType, k.next);
        if v.out.Thrown? then v
        else
          var m' := m[k.out.value := v.out.value];
          assert |m'| <= |m| + 1 by {
            if k.out.value in m { assert m'.Keys == m.Keys; } else { assert m'.Keys == m.Keys + {k.out.value}; }
          }
          FillMap(w, fuel, g, keyType, valueType, count - 1, m', v.next)
  }

  /** `DefaultOptionalFactory.create`: `Optional.of` the resolved value, which
      throws `NullPointerException` for `null`. */
  function OptionalCreate(w: World, fuel: nat, g: set<ClassName>, ty: JType, t: nat): (s: Step)
    ensures s.next >= t
    decreases fuel, 5, 0
  {
    var v := CreateTyped(w, fuel, g, ty, t);
    if v.out.Thrown? then v
    else if v.out.value == Null then Step(Thrown(NullPointer), v.next)
    else Step(Ok(Present(v.out.value)), v.next)
  }

  /** `v` is a value the resolver yields for `ty` at some point of a run. */
  ghost predicate Produces(w: World, fuel: nat, g: set<ClassName>, ty: JType, v: Value)
  {
    exists u: nat :: CreateTyped(w, fuel, g, ty, u).out == Ok(v)
  }
}
