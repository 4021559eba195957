/** `ReflectionObjectFactory`: the public entry point. `create` is the default
    object factory's answer; `listOf`, `setOf` and `mapOf` repeat it a given
    number of times, or a number drawn from the size supplier. */
module ReflectionObjectFactory {
  import opened Types
  import MM = MinMaxIntegerSupplier
  import Engine
  import DefaultObjectFactory
  import DefaultCollectionFactory
  import DefaultMapFactory
  import Config

  /** The two final fields: the size supplier and the object factory. */
  datatype ReflectionObjectFactory = ReflectionObjectFactory(collectionSizes: MM.IntSource, objectFactory: Engine.World)

  /** `new ReflectionObjectFactory(config)`: a default object factory over the
      configured suppliers, and the configured size supplier, which the array
      factory inside shares. Reflection (`classOf`) and the external calls
      (`draw`) are what the running program would observe. */
  function FromConfig(config: Config.Config, classOf: ClassName -> ClassDesc, draw: nat -> Int32): (f: ReflectionObjectFactory)
    ensures f.objectFactory == DefaultObjectFactory.New(classOf, config.suppliers, config.arraySize, draw)
    ensures f.collectionSizes == f.objectFactory.arraySizes == config.arraySize
  {
    ReflectionObjectFactory(config.arraySize, DefaultObjectFactory.New(classOf, config.suppliers, config.arraySize, draw))
  }

  /** `create(clazz)`: the object factory's answer for `clazz`, at the top
      level, where no interface is in progress. */
  function Create(f: ReflectionObjectFactory, fuel: nat, clazz: ClassName, t: nat): (s: Step)
    ensures s == Engine.CreateTyped(f.objectFactory, fuel, {}, ClassType(clazz), t)
  {
    Engine.Create(f.objectFactory, fuel, {}, clazz, t)
  }

  /** `listOf(clazz, howMany)`: `IllegalArgumentException` for a negative
      count, otherwise `howMany` created objects in creation order. */
  function CreateList(f: ReflectionObjectFactory, fuel: nat, clazz: ClassName, howMany: Int32, t: nat): (s: Step)
    ensures howMany < 0 ==> s == Step(Thrown(IllegalArgument), t)
    ensures s.out.Ok? ==> howMany >= 0 && s.out.value.ListOf? && |s.out.value.elems| == howMany
  {
    if howMany < 0 then Step(Thrown(IllegalArgument), t)
    else Engine.FillCollection(f.objectFactory, fuel, {}, ClassType(clazz), howMany, ListOf([]), t)
  }

  /** The loop of `listOf(clazz, howMany)`. */
  method CreateListLoop(f: ReflectionObjectFactory, fuel: nat, clazz: ClassName, howMany: Int32, t: nat)
    returns (s: Step)
    ensures s == CreateList(f, fuel, clazz, howMany, t)
  {
    if howMany < 0 {
      return Step(Thrown(IllegalArgument), t);
    }
    var result: seq<Value> := [];
    var next: nat := t;
    var i := 0;
    while i < howMany
      invariant 0 <= i <= howMany
      invariant Engine.FillCollection(f.objectFactory, fuel, {}, ClassType(clazz), howMany - i, ListOf(result), next)
             == CreateList(f, fuel, clazz, howMany, t)
    {
      var e := DefaultObjectFactory.Create(f.objectFactory, fuel, {}, clazz, next);
      if e.out.Thrown? {
        return e;
      }
      result := result + [e.out.value];
      next := e.next;
      i := i + 1;
    }
    s := Step(Ok(ListOf(result)), next);
  }

  /** `v` is what `create(clazz)` returns at some call. */
  ghost predicate Created(f: ReflectionObjectFactory, fuel: nat, clazz: ClassName, v: Value)
  {
    exists u: nat :: Create(f, fuel, clazz, u).out == Ok(v)
  }

  /** `listOf` is the values of `howMany` successive `create(clazz)` calls,
      in the order they were made, or the exception of the first call that
      throws; each element is what `create(clazz)` returned at some call. */
  lemma ListElementsCreated(f: ReflectionObjectFactory, fuel: nat, clazz: ClassName, howMany: Int32, t: nat)
    ensures var s := CreateList(f, fuel, clazz, howMany, t);
      var e := DefaultCollectionFactory.ElemsOf(f.objectFactory, fuel, {}, ClassType(clazz), if howMany < 0 then 0 else howMany, t);
      && (howMany >= 0 ==> s.next == e.next)
      && (howMany >= 0 && e.out.Success? ==> s.out == Ok(ListOf(e.out.value)))
      && (howMany >= 0 && e.out.Raised? ==> s.out == Thrown(e.out.failure))
    ensures var s := CreateList(f, fuel, clazz, howMany, t);
      s.out.Ok? ==> forall i | 0 <= i < |s.out.value.elems| :: Created(f, fuel, clazz, s.out.value.elems[i])
  {
    var none: set<ClassName> := {};
    if howMany >= 0 {
      DefaultCollectionFactory.FillListIsAppend(f.objectFactory, fuel, none, ClassType(clazz), howMany, [], t);
      DefaultCollectionFactory.ElementsResolved(f.objectFactory, fuel, none, ClassType(clazz), howMany, ListOf([]), t);
      var s := CreateList(f, fuel, clazz, howMany, t);
      assert s == Engine.FillCollection(f.objectFactory, fuel, none, ClassType(clazz), howMany, ListOf([]), t);
      var e := DefaultCollectionFactory.ElemsOf(f.objectFactory, fuel, none, ClassType(clazz), howMany, t);
      if e.out.Success? {
        assert [] + e.out.value == e.out.value;
      }
      if s.out.Ok? {
        forall i | 0 <= i < |s.out.value.elems|
          ensures Created(f, fuel, clazz, s.out.value.elems[i])
        {
          assert Engine.Produces(f.objectFactory, fuel, none, ClassType(clazz), s.out.value.elems[i]);
          var u: nat :| Engine.CreateTyped(f.objectFactory, fuel, none, ClassType(clazz), u).out == Ok(s.out.value.elems[i]);
          assert Create(f, fuel, clazz, u).out == Ok(s.out.value.elems[i]);
        }
      }
    }
  }

  /** `setOf(clazz, howMany)`: `ImmutableSet.copyOf(listOf(clazz, howMany))`,
      which throws `NullPointerException` on a `null` element. */
  function CreateSet(f: ReflectionObjectFactory, fuel: nat, clazz: ClassName, howMany: Int32, t: nat): (s: Step)
    ensures howMany < 0 ==> s == Step(Thrown(IllegalArgument), t)
    ensures s.out.Ok? ==> howMany >= 0 && s.out.value.SetOf? && |s.out.value.members| <= howMany
    ensures s.out.Ok? ==> Null !in s.out.value.members
  {
    var l := CreateList(f, fuel, clazz, howMany, t);
    if l.out.Thrown? then l
    else if Null in l.out.value.elems then Step(Thrown(NullPointer), l.next)
    else Step(Ok(SetOf(Elements(l.out.value.elems))), l.next)
  }

  /** `setOf` is the de-duplicated `listOf` of the same calls: it succeeds
      exactly when the list does and holds no `null`, and then its members are
      the list's elements. */
  lemma SetIsDistinctList(f: ReflectionObjectFactory, fuel: nat, clazz: ClassName, howMany: Int32, t: nat)
    ensures var l := CreateList(f, fuel, clazz, howMany, t);
      var s := CreateSet(f, fuel, clazz, howMany, t);
      && s.next == l.next
      && (s.out.Ok? <==> l.out.Ok? && Null !in l.out.value.elems)
      && (s.out.Ok? ==> forall v :: v in s.out.value.members <==> v in l.out.value.elems)
      && (l.out.Ok? && Null in l.out.value.elems ==> s.out == Thrown(NullPointer))
  {
  }

  /** `mapOf(keyClass, valueClass, howMany)`: `IllegalArgumentException` for a
      negative count, otherwise `howMany` puts of a created key and a created
      value. */
  function CreateMap(f: ReflectionObjectFactory, fuel: nat, keyClass: ClassName, valueClass: ClassName, howMany: Int32, t: nat): (s: Step)
    ensures howMany < 0 ==> s == Step(Thrown(IllegalArgument), t)
    ensures s.out.Ok? ==> howMany >= 0 && s.out.value.MapOf? && |s.out.value.entries| <= howMany
  {
    if howMany < 0 then Step(Thrown(IllegalArgument), t)
    else Engine.FillMap(f.objectFactory, fuel, {}, ClassType(keyClass), ClassType(valueClass), howMany, map[], t)
  }

  /** The loop of `mapOf(keyClass, valueClass, howMany)`. */
  method CreateMapLoop(f: ReflectionObjectFactory, fuel: nat, keyClass: ClassName, valueClass: ClassName, howMany: Int32, t: nat)
    returns (s: Step)
    ensures s == CreateMap(f, fuel, keyClass, valueClass, howMany, t)
  {
    if howMany < 0 {
      return Step(Thrown(IllegalArgument), t);
    }
    var m: map<Value, Value> := map[];
    var next: nat := t;
    var i := 0;
    while i < howMany
      invariant 0 <= i <= howMany
      invariant Engine.FillMap(f.objectFactory, fuel, {}, ClassType(keyClass), ClassType(valueClass), howMany - i, m, next)
             == CreateMap(f, fuel, keyClass, valueClass, howMany, t)
    {
      var k := DefaultObjectFactory.Create(f.objectFactory, fuel, {}, keyClass, next);
      if k.out.Thrown? {
        return k;
      }
      var v := DefaultObjectFactory.Create(f.objectFactory, fuel, {}, valueClass, k.next);
      if v.out.Thrown? {
        return v;
      }
      m := m[k.out.value := v.out.value];
      next := v.next;
      i := i + 1;
    }
    s := Step(Ok(MapOf(m)), next);
  }

  /** `mapOf` is the created key/value pairs put in order into a new map: at
      most `howMany` entries, exactly `howMany` when the keys are distinct. */
  lemma MapIsPuts(f: ReflectionObjectFactory, fuel: nat, keyClass: ClassName, valueClass: ClassName, howMany: Int32, t: nat)
    requires howMany >= 0
    ensures var s := CreateMap(f, fuel, keyClass, valueClass, howMany, t);
      var p := DefaultMapFactory.PairsOf(f.objectFactory, fuel, {}, ClassType(keyClass), ClassType(valueClass), howMany, t);
      && (p.out.Success? ==>
            && s.out == Ok(MapOf(DefaultMapFactory.PutAll(map[], p.out.value)))
            && ((forall i, j | 0 <= i < j < |p.out.value| :: p.out.value[i].0 != p.out.value[j].0) ==>
                  |s.out.value.entries| == howMany))
      && (p.out.Raised? ==> s.out == Thrown(p.out.failure))
  {
    var p := DefaultMapFactory.PairsOf(f.objectFactory, fuel, {}, ClassType(keyClass), ClassType(valueClass), howMany, t);
    DefaultMapFactory.FillMapIsPutAll(f.objectFactory, fuel, {}, ClassType(keyClass), ClassType(valueClass), howMany, map[], t);
    if p.out.Success? && forall i, j | 0 <= i < j < |p.out.value| :: p.out.value[i].0 != p.out.value[j].0 {
      DefaultMapFactory.PutAllDistinct(map[], p.out.value);
    }
  }

  /** The size the default-size overloads use: one `get` of the size supplier. */
  function DrawSize(f: ReflectionObjectFactory, t: nat): Int32
  {
    MM.Next(f.collectionSizes, f.objectFactory.draw, t)
  }

  /** `listOf(clazz)`: the explicit-count call with one drawn size. */
  function CreateListDefault(f: ReflectionObjectFactory, fuel: nat, clazz: ClassName, t: nat): (s: Step)
    ensures s.next >= t + 1
  {
    CreateList(f, fuel, clazz, DrawSize(f, t), t + 1)
  }

  /** `setOf(clazz)`: the explicit-count call with one drawn size. */
  function CreateSetDefault(f: ReflectionObjectFactory, fuel: nat, clazz: ClassName, t: nat): (s: Step)
    ensures s.next >= t + 1
  {
    CreateSet(f, fuel, clazz, DrawSize(f, t), t + 1)
  }

  /** `mapOf(keyClass, valueClass)`: the explicit-count call with one drawn size. */
  function CreateMapDefault(f: ReflectionObjectFactory, fuel: nat, keyClass: ClassName, valueClass: ClassName, t: nat): (s: Step)
    ensures s.next >= t + 1
  {
    CreateMap(f, fuel, keyClass, valueClass, DrawSize(f, t), t + 1)
  }

  /** With the default configuration, a default-size list has between 1 and
      10 elements; the one draw `Integer.MIN_VALUE` makes the size `-7`, and
      the call throws `IllegalArgumentException` instead. */
  lemma DefaultListSize(classOf: ClassName -> ClassDesc, draw: nat -> Int32, fuel: nat, clazz: ClassName, t: nat)
    ensures var f := FromConfig(Config.CreateDefault(), classOf, draw);
      var s := CreateListDefault(f, fuel, clazz, t);
      && (draw(t) != INT_MIN && s.out.Ok? ==> 1 <= |s.out.value.elems| < 11)
      && (draw(t) == INT_MIN ==> s == Step(Thrown(IllegalArgument), t + 1))
  {
    if draw(t) == INT_MIN {
      MM.DefaultAtIntMin();
    }
  }

  /** A class registered with a constant supplier: `create` returns that
      constant and `listOf(clazz, 3)` three copies of it, while `setOf(clazz, 3)`
      collapses them into one member. */
  lemma ConstantSupplierExample(f: ReflectionObjectFactory, fuel: nat, clazz: ClassName, t: nat)
    requires f.objectFactory.chain == Engine.DEFAULT_CHAIN && fuel > 0
    requires clazz in f.objectFactory.suppliers && f.objectFactory.suppliers[clazz] == Constant(Int(42))
    ensures Create(f, fuel, clazz, t) == Step(Ok(Int(42)), t + 1)
    ensures CreateList(f, fuel, clazz, 3, t) == Step(Ok(ListOf([Int(42), Int(42), Int(42)])), t + 3)
    ensures CreateSet(f, fuel, clazz, 3, t) == Step(Ok(SetOf({Int(42)})), t + 3)
  {
    var w := f.objectFactory;
    var none: set<ClassName> := {};
    var ty := ClassType(clazz);
    forall u: nat ensures Engine.CreateTyped(w, fuel, none, ty, u) == Step(Ok(Int(42)), u + 1) {
      assert Engine.Apply(w, fuel, none, Engine.Basic, clazz, u) == Step(Ok(Int(42)), u + 1);
      assert Engine.ChainFrom(w, fuel, none, w.chain, clazz, u) == Step(Ok(Int(42)), u + 1);
    }
    assert [Int(42), Int(42)] + [Int(42)] == [Int(42), Int(42), Int(42)];
    assert [Int(42)] + [Int(42)] == [Int(42), Int(42)];
    assert [] + [Int(42)] == [Int(42)];
    assert Engine.FillCollection(w, fuel, none, ty, 0, ListOf([Int(42), Int(42), Int(42)]), t + 3)
        == Step(Ok(ListOf([Int(42), Int(42), Int(42)])), t + 3);
    assert Engine.FillCollection(w, fuel, none, ty, 1, ListOf([Int(42), Int(42)]), t + 2)
        == Step(Ok(ListOf([Int(42), Int(42), Int(42)])), t + 3);
    assert Engine.FillCollection(w, fuel, none, ty, 2, ListOf([Int(42)]), t + 1)
        == Step(Ok(ListOf([Int(42), Int(42), Int(42)])), t + 3);
    assert Engine.FillCollection(w, fuel, none, ty, 3, ListOf([]), t)
        == Step(Ok(ListOf([Int(42), Int(42), Int(42)])), t + 3);
    assert Elements([Int(42), Int(42), Int(42)]) == {Int(42)};
  }

  /** A supplier registered through `Config.withSupplier` is what `create`
      returns for its class, whatever the configuration held before. */
  lemma RegisteredSupplierWins(config: Config.Config, classOf: ClassName -> ClassDesc, draw: nat -> Int32,
                               clazz: ClassName, v: Value, fuel: nat, t: nat)
    requires v != Null && fuel > 0
    ensures var f := FromConfig(Config.WithSupplier(config, clazz, Constant(v)), classOf, draw);
      Create(f, fuel, clazz, t) == Step(Ok(v), t + 1)
  {
    var f := FromConfig(Config.WithSupplier(config, clazz, Constant(v)), classOf, draw);
    var w := f.objectFactory;
    var none: set<ClassName> := {};
    assert Engine.Apply(w, fuel, none, Engine.Basic, clazz, t) == Step(Ok(v), t + 1);
    assert Engine.ChainFrom(w, fuel, none, w.chain, clazz, t) == Step(Ok(v), t + 1);
  }
}
