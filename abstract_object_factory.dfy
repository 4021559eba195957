/** `AbstractObjectFactory`: the base class for user factories. It keeps the
    configuration and a default object factory built from it, and its
    `create`, `listOf`, `setOf` and `mapOf` are those of
    `ReflectionObjectFactory`, with `getArraySize()` as the size draw. */
module AbstractObjectFactory {
  import opened Types
  import MM = MinMaxIntegerSupplier
  import Engine
  import DefaultObjectFactory
  import Config
  import ROF = ReflectionObjectFactory

  /** The two final fields: the object factory and the configuration. */
  datatype AbstractObjectFactory = AbstractObjectFactory(factory: Engine.World, config: Config.Config)

  /** `AbstractObjectFactory(config)`. */
  function New(config: Config.Config, classOf: ClassName -> ClassDesc, draw: nat -> Int32): (a: AbstractObjectFactory)
    ensures a.config == config
    ensures a.factory == DefaultObjectFactory.New(classOf, config.suppliers, config.arraySize, draw)
  {
    AbstractObjectFactory(DefaultObjectFactory.New(classOf, config.suppliers, config.arraySize, draw), config)
  }

  /** `getArraySize()`: one `get` of the configured size supplier, the same
      supplier the object factory's array factory draws from. */
  function GetArraySize(a: AbstractObjectFactory, t: nat): (n: Int32)
    requires a.factory.arraySizes == a.config.arraySize
    ensures n == MM.Next(a.factory.arraySizes, a.factory.draw, t)
    ensures a.config.arraySize == MM.Ranged(MM.Create()) && a.factory.draw(t) != INT_MIN ==> 1 <= n < 11
  {
    MM.Next(a.config.arraySize, a.factory.draw, t)
  }

  /** The public operations read only the inner factory and the size
      supplier: this is the `ReflectionObjectFactory` with those two fields. */
  function AsReflection(a: AbstractObjectFactory): ROF.ReflectionObjectFactory
  {
    ROF.ReflectionObjectFactory(a.config.arraySize, a.factory)
  }

  /** `create(clazz)`: the inner factory's answer, the same as the
      `ReflectionObjectFactory` with the same fields. */
  function Create(a: AbstractObjectFactory, fuel: nat, clazz: ClassName, t: nat): (s: Step)
    ensures s == ROF.Create(AsReflection(a), fuel, clazz, t)
  {
    Engine.Create(a.factory, fuel, {}, clazz, t)
  }

  /** `listOf(clazz, howMany)`: the precondition, then the append loop. */
  method CreateList(a: AbstractObjectFactory, fuel: nat, clazz: ClassName, howMany: Int32, t: nat)
    returns (s: Step)
    ensures s == ROF.CreateList(AsReflection(a), fuel, clazz, howMany, t)
  {
    if howMany < 0 {
      return Step(Thrown(IllegalArgument), t);
    }
    var result: seq<Value> := [];
    var next: nat := t;
    var i := 0;
    while i < howMany
      invariant 0 <= i <= howMany
      invariant Engine.FillCollection(a.factory, fuel, {}, ClassType(clazz), howMany - i, ListOf(result), next)
             == ROF.CreateList(AsReflection(a), fuel, clazz, howMany, t)
    {
      var e := Create(a, fuel, clazz, next);
      if e.out.Thrown? {
        return e;
      }
      result := result + [e.out.value];
      next := e.next;
      i := i + 1;
    }
    s := Step(Ok(ListOf(result)), next);
  }

  /** `mapOf(keyClass, valueClass, howMany)`: the precondition, then the put loop. */
  method CreateMap(a: AbstractObjectFactory, fuel: nat, keyClass: ClassName, valueClass: ClassName, howMany: Int32, t: nat)
    returns (s: Step)
    ensures s == ROF.CreateMap(AsReflection(a), fuel, keyClass, valueClass, howMany, t)
  {
    if howMany < 0 {
      return Step(Thrown(IllegalArgument), t);
    }
    var m: map<Value, Value> := map[];
    var next: nat := t;
    var i := 0;
    while i < howMany
      invariant 0 <= i <= howMany
      invariant Engine.FillMap(a.factory, fuel, {}, ClassType(keyClass), ClassType(valueClass), howMany - i, m, next)
             == ROF.CreateMap(AsReflection(a), fuel, keyClass, valueClass, howMany, t)
    {
      var k := Create(a, fuel, keyClass, next);
      if k.out.Thrown? {
        return k;
      }
      var v := Create(a, fuel, valueClass, k.next);
      if v.out.Thrown? {
        return v;
      }
      m := m[k.out.value := v.out.value];
      next := v.next;
      i := i + 1;
    }
    s := Step(Ok(MapOf(m)), next);
  }

  /** Built from the same configuration, an `AbstractObjectFactory` behaves as
      `new ReflectionObjectFactory(config)`: the same `create`, the same
      explicit-count `listOf`/`setOf`/`mapOf`, and default-size overloads that
      draw `getArraySize()` once and then make the explicit-count call. */
  lemma SameAsReflection(config: Config.Config, classOf: ClassName -> ClassDesc, draw: nat -> Int32,
                         fuel: nat, c: ClassName, k: ClassName, v: ClassName, t: nat)
    ensures var a := New(config, classOf, draw);
      var f := ROF.FromConfig(config, classOf, draw);
      && AsReflection(a) == f
      && ROF.CreateListDefault(f, fuel, c, t) == ROF.CreateList(f, fuel, c, GetArraySize(a, t), t + 1)
      && ROF.CreateSetDefault(f, fuel, c, t) == ROF.CreateSet(f, fuel, c, GetArraySize(a, t), t + 1)
      && ROF.CreateMapDefault(f, fuel, k, v, t) == ROF.CreateMap(f, fuel, k, v, GetArraySize(a, t), t + 1)
  {
  }

  /** With a `String` supplier that always returns `"str"`, `create(String)`
      returns `"str"`. */
  lemma StringSupplierExample(classOf: ClassName -> ClassDesc, draw: nat -> Int32, fuel: nat, t: nat)
    requires fuel > 0
    ensures var a := New(Config.WithSupplier(Config.CreateDefault(), Config.STRING_CLASS, Constant(Str("str"))), classOf, draw);
      ROF.Create(AsReflection(a), fuel, Config.STRING_CLASS, t) == Step(Ok(Str("str")), t + 1)
  {
    var config := Config.WithSupplier(Config.CreateDefault(), Config.STRING_CLASS, Constant(Str("str")));
    ROF.RegisteredSupplierWins(Config.CreateDefault(), classOf, draw, Config.STRING_CLASS, Str("str"), fuel, t);
    assert AsReflection(New(config, classOf, draw)) == ROF.FromConfig(config, classOf, draw);
  }
}
