# rof — a Dafny model of the reflective object factory

`rof` builds test fixtures. You ask it for an instance of a class. It then:

- looks the class up in a registry of leaf suppliers (primitives, wrappers, `String`, `Date`, `BigInteger`, `BigDecimal`);
- fills arrays with a drawn number of elements;
- picks a random enum constant;
- builds plain objects through the constructor with the fewest parameters, then calls every one-argument `set…` method;
- resolves interfaces to a concrete, non-deprecated subtype (public ones first), with an in-progress guard against cycles;
- hands out proxies for interfaces and abstract classes.

A generic-type resolver sends `Map<K, V>`, `Optional<T>`, `List<T>`, `Set<T>` and `Collection<T>` to container factories. Those factories call back into the resolver for their elements.

The public entry points are `ReflectionObjectFactory` and `AbstractObjectFactory`. Both are built from an immutable `Config`, or from the mutable `ObjectFactoryBuilder`. They offer `create`, `listOf`, `setOf` and `mapOf`.

## How the model is organised

- **`Types`** holds the shared vocabulary:
  - a description of a class as reflection reports it (`ClassDesc`);
  - generic types (`JType`);
  - the values produced, where `Null` is Java's `null` and objects are values (`Instance` records the constructor arguments and the setter calls that took effect);
  - the exceptions raised (`Failure`).
- **`Engine`** holds every mutually recursive part in one module. That covers the chain of `DefaultObjectFactory`, each capability factory that calls back into it, and the typed resolver with its container factories.
  - Every operation takes:
    - the `World`: class descriptions, leaf suppliers, array-size supplier, chain, and the value of each external call;
    - a `fuel` bound, which is the remaining stack depth (running out is `StackOverflowError`);
    - the in-progress set of the interface factory;
    - the number `t` of external calls made so far.
  - Every operation returns the outcome together with the new call count.
  - External calls are a leaf supplier's `get`, a size supplier's `get`, and `Random.nextInt` in the enum factory. The value of the `t`-th one is `draw(t)`.
- **One module per source file** holds that file's loops as methods, each proved equal to the `Engine` function. The file's properties are lemmas about those functions.
- **`InterfaceFactory.InterfaceFactory` and `IncrementalIntSupplier.IncrementalIntSupplier`** are classes, because the source mutates their fields. So is **`ObjectFactoryBuilder.ObjectFactoryBuilder`**.

Where the code and its description disagree, the model follows the code:

- **Default chain.** The chain the two-argument `DefaultObjectFactory` constructor installs is Basic, Array, Enum, Pojo (`DefaultObjectFactory.java:32-38`). The interface, proxy and non-null factories exist, but the default chain does not contain them.
- **Null on exhaustion.** When every factory declines, the chain returns `null` (`DefaultObjectFactory.java:62`) rather than throwing.

## Model

| member | source | states |
|---|---|---|
| MinMaxIntegerSupplier.New | src/main/java/com/amazon/mqa/datagen/supplier/MinMaxIntegerSupplier.java:43-48 | construction succeeds exactly when `min < max` and keeps both bounds; otherwise `IllegalArgumentException` |
| MinMaxIntegerSupplier.Create | src/main/java/com/amazon/mqa/datagen/supplier/MinMaxIntegerSupplier.java:13-25 | the default supplier has bounds 1 and 11 |
| MinMaxIntegerSupplier.Abs32 | src/main/java/com/amazon/mqa/datagen/supplier/MinMaxIntegerSupplier.java:52 | `Math.abs` is the non-negative magnitude except at `Integer.MIN_VALUE`, which it returns unchanged |
| MinMaxIntegerSupplier.JavaRem | src/main/java/com/amazon/mqa/datagen/supplier/MinMaxIntegerSupplier.java:52 | Java's `%` truncates: the remainder has the dividend's sign and is smaller than the divisor in magnitude; for a non-negative dividend it is the mathematical remainder |
| MinMaxIntegerSupplier.JavaRemSigns | src/main/java/com/amazon/mqa/datagen/supplier/MinMaxIntegerSupplier.java:52 | Java's truncated `%` is odd in the dividend (`(-a) % b == -(a % b)`) and does not depend on the divisor's sign (`a % (-b) == a % b`) |
| MinMaxIntegerSupplier.GetInRange | src/main/java/com/amazon/mqa/datagen/supplier/MinMaxIntegerSupplier.java:51-53 | for every draw except `Integer.MIN_VALUE`, `get` lies in `[min, max)`, also when `max - min` overflows an `int` (the wrapped negative divisor is no larger in magnitude than the true width) |
| MinMaxIntegerSupplier.GetAtIntMin | src/main/java/com/amazon/mqa/datagen/supplier/MinMaxIntegerSupplier.java:52 | the draw `Integer.MIN_VALUE` gives `min - k` wrapped to 32 bits, where `k` is `2^31` modulo the magnitude of the wrapped width: exactly `min` when `k` is 0, below `min` when `min - k` stays in range, and above `max` when the subtraction passes `Integer.MIN_VALUE` and wraps |
| MinMaxIntegerSupplier.GetAtIntMinWraps | src/main/java/com/amazon/mqa/datagen/supplier/MinMaxIntegerSupplier.java:52 | with `min = Integer.MIN_VALUE` and `max = min + 3`, the draw `Integer.MIN_VALUE` gives `Integer.MAX_VALUE - 1`, above `max` |
| MinMaxIntegerSupplier.DefaultAtIntMin | src/main/java/com/amazon/mqa/datagen/supplier/MinMaxIntegerSupplier.java:23-25 | with the default range, the draw `Integer.MIN_VALUE` yields `-7` |
| MinMaxIntegerSupplier.Next | src/main/java/com/amazon/mqa/datagen/supplier/MinMaxIntegerSupplier.java:51-53 | a size source yields the injected value, or for a min/max supplier a value in `[min, max)` whenever the draw is not `Integer.MIN_VALUE`, for every width |
| DefaultClassSpy.FewestFromCorrect | src/com/amazon/mqa/datagen/rof/spy/DefaultClassSpy.java:24-31 | the scan with a strict `<` ends on a constructor with the fewest parameters that no earlier constructor ties, or on none when there are no constructors |
| DefaultClassSpy.FewestParameters | src/com/amazon/mqa/datagen/rof/spy/DefaultClassSpy.java:21-34 | the chosen constructor has minimal parameter count and every earlier constructor has strictly more (first wins a tie); `null` exactly when there is none |
| DefaultClassSpy.FindConstructor | src/com/amazon/mqa/datagen/rof/spy/DefaultClassSpy.java:21-34 | the loop over `minNumberOfParameter` and `result` returns the constructor `FewestParameters` specifies |
| DefaultClassSpy.FewestOfTwo | src/com/amazon/mqa/datagen/rof/spy/DefaultClassSpy.java:21-34 | constructors `(int)` and `(int, int)` give `(int)` |
| DefaultClassSpy.WithPrefix | src/com/amazon/mqa/datagen/rof/spy/DefaultClassSpy.java:37-51 | a method is kept exactly when its name starts with the prefix; nothing is added |
| DefaultClassSpy.WithPrefixAppend | src/com/amazon/mqa/datagen/rof/spy/DefaultClassSpy.java:44-48 | filtering distributes over concatenation, so the methods keep their order |
| DefaultClassSpy.FindMethods | src/com/amazon/mqa/datagen/rof/spy/DefaultClassSpy.java:37-51 | the append loop returns exactly the prefix filter of the methods, in order |
| DefaultClassSpy.PrefixExamples | src/com/amazon/mqa/datagen/rof/spy/DefaultClassSpy.java:37-51 | over methods `ab` and `abc`, prefix `ab` keeps both and prefix `abc` keeps only `abc` |
| BasicObjectFactory.Create | src/com/amazon/mqa/datagen/rof/BasicObjectFactory.java:32-40 | a registered class yields exactly its supplier's value with one external call; an unregistered class yields `null` with none |
| EnumFactory.Create | src/com/amazon/mqa/datagen/rof/EnumFactory.java:16-26 | a non-enum and an enum without constants give `null` with no draw; otherwise a constant of that enum whose ordinal is in `[0, length)`, never `null`, with one draw |
| NonNullObjectFactory.Decorate | src/com/amazon/mqa/datagen/rof/NonNullObjectFactory.java:27-32 | an object or exception from the inner factory passes through unchanged; `null` becomes `ObjectCreationException`; the result is never `null` |
| InterfaceProxyFactory.Create | src/com/amazon/mqa/datagen/rof/InterfaceProxyFactory.java:29-40 | a non-interface gives `null`; an interface gives a non-null proxy of that interface |
| ProxyObjectFactory.Create | src/com/amazon/mqa/datagen/rof/ProxyObjectFactory.java:95-102 | a non-interface raises `IllegalArgumentException`, never `null`; an interface gives its proxy |
| AbstractClassProxyFactory.CheckIfSupported | src/com/amazon/mqa/datagen/rof/AbstractClassProxyFactory.java:64-71 | a no-argument constructor makes the class supported; all constructors taking parameters raise `ObjectCreationException`; no constructor gives `NullPointerException` |
| AbstractClassProxyFactory.Create | src/com/amazon/mqa/datagen/rof/AbstractClassProxyFactory.java:31-45 | a non-abstract class gives `null`; an abstract class never gives `null`: a subclass proxy when a no-argument constructor exists, otherwise the support check's exception |
| DefaultCollectionInstanceProvider.Provide | src/com/amazon/mqa/datagen/rof/typed/DefaultCollectionInstanceProvider.java:21-33 | exactly `List`, `Set` and `Collection` are supported; `Set` gives an empty hash set, the other two an empty list; anything else `null` |
| InterfaceCandidates.Filter | src/com/amazon/mqa/datagen/rof/InterfaceFactory.java:70 | a subtype is kept exactly when the predicate accepts it, and nothing is added |
| InterfaceCandidates.FilterSplit | src/com/amazon/mqa/datagen/rof/InterfaceFactory.java:69-71 | filtering by a predicate and by its negation together give back the input as a multiset |
| InterfaceCandidates.NotDeprecated | src/com/amazon/mqa/datagen/rof/InterfaceFactory.java:70 | a candidate survives exactly when it is a subtype without `@Deprecated` |
| InterfaceCandidates.PublicFirst | src/com/amazon/mqa/datagen/rof/InterfaceFactory.java:66-71 | the sort is a permutation, ordered by the `publicClassesFirst` comparator |
| InterfaceCandidates.Candidates | src/com/amazon/mqa/datagen/rof/InterfaceFactory.java:60-76 | the candidates are exactly the non-deprecated subtypes, as a permutation of them, with every public one before every non-public one |
| InterfaceCandidates.SingleCandidate | src/com/amazon/mqa/datagen/rof/InterfaceFactory.java:69-71 | a single subtype that is not deprecated is the only candidate |
| Engine.Iterations | src/com/amazon/mqa/datagen/rof/typed/DefaultCollectionFactory.java:69 | `for (i = 0; i < howMany; i++)` runs `howMany` times, or not at all for a negative count |
| Engine.Create | src/com/amazon/mqa/datagen/rof/DefaultObjectFactory.java:51-63 | the external-call count never decreases; the chain's behaviour is stated by the `DefaultObjectFactory` lemmas |
| Engine.ChainFrom | src/com/amazon/mqa/datagen/rof/DefaultObjectFactory.java:55-62 | the external-call count never decreases (see `DefaultObjectFactory.ChainAnswer`) |
| Engine.Apply | src/com/amazon/mqa/datagen/rof/DefaultObjectFactory.java:56 | the external-call count never decreases |
| Engine.ArrayCreate | src/com/amazon/mqa/datagen/rof/ObjectArrayFactory.java:34-50 | the external-call count never decreases (see `ObjectArrayFactory.ArrayContract`) |
| Engine.FillArray | src/com/amazon/mqa/datagen/rof/ObjectArrayFactory.java:44-47 | a completed fill is an array of the component type with exactly `count` more slots, the earlier slots unchanged |
| Engine.PojoCreate | src/main/java/com/amazon/mqa/datagen/rof/PojoFactory.java:56-66 | the external-call count never decreases (see `PojoFactory.PojoContract`) |
| Engine.CreateObject | src/main/java/com/amazon/mqa/datagen/rof/PojoFactory.java:87-105 | the external-call count never decreases (see `PojoFactory.CreateObjectContract`) |
| Engine.CtorArgs | src/main/java/com/amazon/mqa/datagen/rof/PojoFactory.java:92-95 | the argument list grows by exactly one value per parameter type and keeps its prefix |
| Engine.Populate | src/main/java/com/amazon/mqa/datagen/rof/PojoFactory.java:114-132 | populating returns the same object (same class, same constructor arguments), with at most one new setter call per method and earlier calls kept |
| Engine.InterfaceCreate | src/com/amazon/mqa/datagen/rof/InterfaceFactory.java:37-51 | the external-call count never decreases (see `InterfaceFactory.InterfaceContract`) |
| Engine.TryCandidates | src/com/amazon/mqa/datagen/rof/InterfaceFactory.java:72-75 | the external-call count never decreases (see `InterfaceFactory.FirstAnswer`) |
| Engine.CreateTyped | src/com/amazon/mqa/datagen/rof/typed/DefaultTypedObjectFactory.java:64-87 | the external-call count never decreases (see `DefaultTypedObjectFactory.Dispatch`) |
| Engine.CollectionCreate | src/com/amazon/mqa/datagen/rof/typed/DefaultCollectionFactory.java:61-75 | the external-call count never decreases (see `DefaultCollectionFactory.CollectionContract`) |
| Engine.FillCollection | src/com/amazon/mqa/datagen/rof/typed/DefaultCollectionFactory.java:69-71 | a list gains exactly `count` elements after the ones it held; a set keeps its members and gains at most `count` |
| Engine.MapCreate | src/com/amazon/mqa/datagen/rof/typed/DefaultMapFactory.java:53-65 | the external-call count never decreases (see `DefaultMapFactory.MapContract`) |
| Engine.FillMap | src/com/amazon/mqa/datagen/rof/typed/DefaultMapFactory.java:60-62 | the puts keep every earlier key and add at most one entry per iteration |
| Engine.OptionalCreate | src/com/amazon/mqa/datagen/rof/typed/DefaultOptionalFactory.java:28-32 | the external-call count never decreases (see `DefaultOptionalFactory.OptionalContract`) |
| DefaultObjectFactory.New | src/com/amazon/mqa/datagen/rof/DefaultObjectFactory.java:27-39 | the factory's chain is Basic, Array, Enum, Pojo, over the given suppliers and array-size supplier |
| DefaultObjectFactory.Create | src/com/amazon/mqa/datagen/rof/DefaultObjectFactory.java:51-63 | the for-each loop with early return computes the chain's answer `Engine.Create` |
| DefaultObjectFactory.ChainAppend | src/com/amazon/mqa/datagen/rof/DefaultObjectFactory.java:55-60 | trying `p + q` is trying `p`, and `q` only when every factory of `p` declined: later factories are never consulted after a success |
| DefaultObjectFactory.ChainAnswer | src/com/amazon/mqa/datagen/rof/DefaultObjectFactory.java:55-62 | a non-null answer (or exception) is one factory's answer after every earlier factory returned `null`; otherwise the chain returns `null` |
| DefaultObjectFactory.EmptyChainNull | src/com/amazon/mqa/datagen/rof/DefaultObjectFactory.java:62 | an empty chain returns `null` and makes no call |
| DefaultObjectFactory.DefaultChainOrder | src/com/amazon/mqa/datagen/rof/DefaultObjectFactory.java:32-38 | in the default chain, a registered non-null supplier wins; a registered supplier that gives `null` passes on to the rest of the chain after its one call; then arrays go to the array factory, non-empty enums to the enum factory, and everything else to the POJO factory |
| DefaultObjectFactory.ArrayNeverNull | src/com/amazon/mqa/datagen/rof/ObjectArrayFactory.java:41-49 | an array class never makes the array factory answer `null` |
| ObjectArrayFactory.Create | src/com/amazon/mqa/datagen/rof/ObjectArrayFactory.java:34-50 | the allocate-then-fill loop over a real array computes `Engine.ArrayCreate` |
| ObjectArrayFactory.ArrayContract | src/com/amazon/mqa/datagen/rof/ObjectArrayFactory.java:34-50 | a non-array gives `null` with no draw; an array draws the size once, never answers `null`, throws for a negative size, and otherwise has the component type and exactly the drawn length |
| ObjectArrayFactory.SlotsAreComponents | src/com/amazon/mqa/datagen/rof/ObjectArrayFactory.java:45-47 | every slot holds a value the object factory creates for the component type |
| PojoFactory.Create | src/main/java/com/amazon/mqa/datagen/rof/PojoFactory.java:56-66 | the `canCreate` guard, `createObject`, then `populateFields` on a built object, computes `Engine.PojoCreate` |
| PojoFactory.CreateObject | src/main/java/com/amazon/mqa/datagen/rof/PojoFactory.java:87-105 | the argument loop and the constructor call compute `Engine.CreateObject` |
| PojoFactory.PopulateFields | src/main/java/com/amazon/mqa/datagen/rof/PojoFactory.java:114-132 | the `set`-prefixed methods found by `findMethods`, then the setter loop over them, compute `Engine.Populate` |
| PojoFactory.CallSetters | src/main/java/com/amazon/mqa/datagen/rof/PojoFactory.java:117-131 | the setter loop: each one-parameter setter gets a created argument, a thrown creation stops the loop, a failing invocation is skipped; the result is `Engine.Populate` of the setters |
| PojoFactory.Effective | src/main/java/com/amazon/mqa/datagen/rof/PojoFactory.java:121-127 | a setter takes effect exactly when it has one parameter and its invocation does not fail |
| PojoFactory.ArgsPerParameter | src/main/java/com/amazon/mqa/datagen/rof/PojoFactory.java:92-95 | argument `i` is a value the resolver yields for parameter type `i` |
| PojoFactory.SettersApplied | src/main/java/com/amazon/mqa/datagen/rof/PojoFactory.java:117-131 | the recorded setter calls are exactly the effective setters, in order, each with a resolved value for its parameter type; a failing setter is skipped and later ones still run |
| PojoFactory.PojoContract | src/main/java/com/amazon/mqa/datagen/rof/PojoFactory.java:56-66 | interfaces and enums give `null`; a constructor that cannot run gives `null` and no setter is called; a built object is the constructor's object, populated by every effective `set` method |
| PojoFactory.CreateObjectContract | src/main/java/com/amazon/mqa/datagen/rof/PojoFactory.java:87-105 | no constructor throws `NullPointerException`; an abstract class or failing constructor gives `null` or an argument's exception; an object has one resolved argument per parameter of the fewest-parameter constructor |
| InterfaceFactory.InterfaceFactory.constructor | src/com/amazon/mqa/datagen/rof/InterfaceFactory.java:24 | a new factory has no interface in progress |
| InterfaceFactory.InterfaceFactory.Create | src/com/amazon/mqa/datagen/rof/InterfaceFactory.java:37-51 | the in-progress set is the same after `create` as before, and the answer is `Engine.InterfaceCreate` over the set as it was |
| InterfaceFactory.FirstAnswer | src/com/amazon/mqa/datagen/rof/InterfaceFactory.java:72-75 | a non-null answer is the delegate's answer for one candidate after every earlier candidate gave `null` |
| InterfaceFactory.TriedPrefix | src/com/amazon/mqa/datagen/rof/InterfaceFactory.java:72-75 | a candidate that gives `null` passes the lookup on to the rest, at the call count it left |
| InterfaceFactory.InterfaceContract | src/com/amazon/mqa/datagen/rof/InterfaceFactory.java:37-76 | a non-interface or an interface in progress gives `null`; otherwise a non-null answer comes from a non-deprecated subtype, with the interface in progress and every earlier candidate having declined; candidates come public first |
| InterfaceFactory.GuardBreaksCycle | src/com/amazon/mqa/datagen/rof/InterfaceFactory.java:40-50 | an interface whose only implementation takes the interface in its constructor is built with `null` for that argument, whatever the stack depth |
| InterfaceFactory.NestedLookupNull | src/com/amazon/mqa/datagen/rof/InterfaceFactory.java:40-42 | in an implementation-then-POJO chain, looking up an interface that is already in progress gives `null` without any external call |
| InterfaceFactory.ImplementationBuilt | src/com/amazon/mqa/datagen/rof/InterfaceFactory.java:40-42 | with the interface in progress, its implementation is built through the chain with `null` for its interface-typed constructor argument |
| InterfaceFactory.OnlySubtype | src/com/amazon/mqa/datagen/rof/InterfaceFactory.java:44-47 | an interface with a single non-deprecated subtype is created as that subtype, looked up with the interface in progress |
| InterfaceFactory.FirstInChain | src/com/amazon/mqa/datagen/rof/DefaultObjectFactory.java:55-60 | with the interface factory first in the chain, its non-null answer is the chain's answer |
| Handler.HandleInvocation | src/com/amazon/mqa/datagen/rof/Handler.java:36-48 | a method name in the override table gets that supplier's value; any other method gets the chain's answer for its return class |
| Handler.NameOnly | src/com/amazon/mqa/datagen/rof/Handler.java:43-45 | two methods with the same name get the same override value, whatever their parameters or return types |
| Handler.HitIgnoresResolver | src/com/amazon/mqa/datagen/rof/Handler.java:43-45 | a hit does not depend on the resolver: handlers over different classes and chains answer alike |
| Handler.Wire | src/com/amazon/mqa/datagen/rof/ProxyObjectFactory.java:69-78 | the static `create` wires a handler over the given factory and the given override table |
| Handler.ProxyRouting | src/com/amazon/mqa/datagen/rof/ProxyObjectFactory.java:45-57 | a non-interface is refused; an interface's proxy answers a miss with the top-level chain's answer for the return class and a hit with the override value |
| Handler.SelfReturningProxy | src/com/amazon/mqa/datagen/rof/InterfaceProxyFactory.java:36-39 | a method returning its own interface, on the proxy gate, gets another proxy of that interface with no further call |
| DefaultTypedObjectFactory.Dispatch | src/com/amazon/mqa/datagen/rof/typed/DefaultTypedObjectFactory.java:64-87 | a class goes unchanged to the chain; `Map`, `Optional` and other parameterised types go to the map, optional or collection factory with their type arguments (a missing argument throws); other kinds give `null` |
| DefaultTypedObjectFactory.ResultShape | src/com/amazon/mqa/datagen/rof/typed/DefaultTypedObjectFactory.java:77-83 | a `Map` type gives a map, `Optional` a present optional, `List` and `Collection` a list, `Set` a set, and an unknown raw collection class `null` |
| DefaultCollectionFactory.Create | src/com/amazon/mqa/datagen/rof/typed/DefaultCollectionFactory.java:61-75 | the provide-then-add loop computes `Engine.CollectionCreate` |
| DefaultCollectionFactory.DefaultSizes | src/com/amazon/mqa/datagen/rof/typed/DefaultCollectionFactory.java:21-32 | the default sizes lie in `[1, 11)`, except that the draw `Integer.MIN_VALUE` gives `-7`, so no element is added |
| DefaultCollectionFactory.CollectionContract | src/com/amazon/mqa/datagen/rof/typed/DefaultCollectionFactory.java:61-75 | an unknown class gives `null` with no draw; a known one draws once and is never `null`; a list gets exactly the drawn count and a set at most that many |
| DefaultCollectionFactory.ElemsOf | src/com/amazon/mqa/datagen/rof/typed/DefaultCollectionFactory.java:69-71 | a completed run of `count` creations yields exactly `count` values |
| DefaultCollectionFactory.ElemsOfSlot | src/com/amazon/mqa/datagen/rof/typed/DefaultCollectionFactory.java:69-71 | slot `i` holds the value of the `i`-th creation, made after the creations that fill the earlier slots |
| DefaultCollectionFactory.FillListIsAppend | src/com/amazon/mqa/datagen/rof/typed/DefaultCollectionFactory.java:69-71 | the add loop appends the created values to a list in creation order after what it held, and the first exception stops it |
| DefaultCollectionFactory.FillSetIsAdds | src/com/amazon/mqa/datagen/rof/typed/DefaultCollectionFactory.java:69-71 | the add loop adds the created values to a set, and the first exception stops it |
| DefaultCollectionFactory.ElementsResolved | src/com/amazon/mqa/datagen/rof/typed/DefaultCollectionFactory.java:69-71 | every added element is a value the resolver yields for the element type |
| DefaultMapFactory.Create | src/com/amazon/mqa/datagen/rof/typed/DefaultMapFactory.java:53-65 | the draw-then-put loop computes `Engine.MapCreate` |
| DefaultMapFactory.PairsOf | src/com/amazon/mqa/datagen/rof/typed/DefaultMapFactory.java:60-62 | a completed run resolves exactly one key/value pair per iteration |
| DefaultMapFactory.FillMapIsPutAll | src/com/amazon/mqa/datagen/rof/typed/DefaultMapFactory.java:60-62 | the loop's map is the resolved pairs put one after another, key resolved before value; an exception stops it |
| DefaultMapFactory.PutAllAppend | src/com/amazon/mqa/datagen/rof/typed/DefaultMapFactory.java:61 | putting `p` then `q` is putting `p + q` |
| DefaultMapFactory.LastPutWins | src/com/amazon/mqa/datagen/rof/typed/DefaultMapFactory.java:61 | a repeated key is overwritten: the last put decides its value |
| DefaultMapFactory.KeysCons | src/com/amazon/mqa/datagen/rof/typed/DefaultMapFactory.java:61 | the keys of a list of pairs are the first key plus the keys of the rest |
| DefaultMapFactory.PutGrowsByAtMostOne | src/com/amazon/mqa/datagen/rof/typed/DefaultMapFactory.java:61 | one `put` adds at most one entry |
| DefaultMapFactory.PutAllKeys | src/com/amazon/mqa/datagen/rof/typed/DefaultMapFactory.java:60-62 | the map's keys are the old keys plus the put keys, so there is at most one entry per put |
| DefaultMapFactory.PutAllDistinct | src/com/amazon/mqa/datagen/rof/typed/DefaultMapFactory.java:60-62 | with distinct new keys, every put adds an entry, and each key maps to its own value |
| DefaultMapFactory.PutAllUntouched | src/com/amazon/mqa/datagen/rof/typed/DefaultMapFactory.java:61 | a key no pair mentions keeps its value |
| DefaultMapFactory.MapContract | src/com/amazon/mqa/datagen/rof/typed/DefaultMapFactory.java:53-65 | the size is drawn once before any key; the map is never `null`; it is the resolved pairs put into a new map, with at most the drawn count of entries and exactly that many when the keys are distinct |
| DefaultOptionalFactory.OptionalContract | src/com/amazon/mqa/datagen/rof/typed/DefaultOptionalFactory.java:28-32 | the resolver is called once; an object is wrapped as present; `null` throws `NullPointerException`; an empty optional is never produced |
| Config.CreateDefault | src/main/java/com/amazon/mqa/datagen/Config.java:67-72 | the default registry covers exactly the twenty basic classes, and sizes come from `[1, 11)` |
| Config.GeneratorFor | src/main/java/com/amazon/mqa/datagen/Config.java:37-59 | each basic class is registered with a random generator, never a fixed value; a primitive and its wrapper share one |
| Config.DefaultSuppliersGenerate | src/main/java/com/amazon/mqa/datagen/Config.java:37-59 | every default supplier is a random generator, not a fixed value |
| Config.DefaultHasTwenty | src/main/java/com/amazon/mqa/datagen/Config.java:37-59 | the default registry holds twenty classes |
| Config.WithSupplier | src/main/java/com/amazon/mqa/datagen/Config.java:103-112 | the new registry is the old one plus `clazz ↦ supplier`; every other entry and the size supplier are unchanged |
| Config.WithSupplierSize | src/main/java/com/amazon/mqa/datagen/Config.java:107-111 | a new class grows the registry by one; an existing class keeps its size |
| Config.WithSupplierOverride | src/main/java/com/amazon/mqa/datagen/Config.java:107-111 | registering a class twice is the same as registering only the later supplier |
| Config.WithArraySizeSupplier | src/main/java/com/amazon/mqa/datagen/Config.java:121-125 | only the size supplier is replaced; the registry is kept |
| Config.GetSuppliers | src/main/java/com/amazon/mqa/datagen/Config.java:130-132 | the copy has the configuration's keys and entries |
| ReflectionObjectFactory.FromConfig | src/com/amazon/mqa/datagen/ReflectionObjectFactory.java:61-69 | the inner factory is the default chain over the configured suppliers; collections and arrays share the configured size supplier |
| ReflectionObjectFactory.Create | src/com/amazon/mqa/datagen/ReflectionObjectFactory.java:86-90 | `create` is exactly the inner factory's (the typed resolver's) answer for the class, with no interface in progress |
| ReflectionObjectFactory.CreateList | src/com/amazon/mqa/datagen/ReflectionObjectFactory.java:100-110 | a negative count raises `IllegalArgumentException` with no call; a returned list has exactly `howMany` elements |
| ReflectionObjectFactory.CreateListLoop | src/com/amazon/mqa/datagen/ReflectionObjectFactory.java:100-110 | the append loop over `create` computes `CreateList` |
| ReflectionObjectFactory.ListElementsCreated | src/com/amazon/mqa/datagen/ReflectionObjectFactory.java:104-107 | `listOf` is the values of `howMany` successive `create(clazz)` calls, in call order, or the exception of the first call that throws; every element is what `create(clazz)` returned at some call |
| ReflectionObjectFactory.CreateSet | src/com/amazon/mqa/datagen/ReflectionObjectFactory.java:120-125 | a negative count raises `IllegalArgumentException`; a returned set has at most `howMany` members and no `null` |
| ReflectionObjectFactory.SetIsDistinctList | src/com/amazon/mqa/datagen/ReflectionObjectFactory.java:120-125 | `setOf` succeeds exactly when `listOf` does without a `null` element, and then its members are the list's elements; a `null` element throws `NullPointerException` |
| ReflectionObjectFactory.CreateMap | src/com/amazon/mqa/datagen/ReflectionObjectFactory.java:136-147 | a negative count raises `IllegalArgumentException`; a returned map has at most `howMany` entries |
| ReflectionObjectFactory.CreateMapLoop | src/com/amazon/mqa/datagen/ReflectionObjectFactory.java:136-147 | the put loop of a created key and a created value computes `CreateMap` |
| ReflectionObjectFactory.MapIsPuts | src/com/amazon/mqa/datagen/ReflectionObjectFactory.java:141-144 | `mapOf` is the created pairs put in order into a new map, with exactly `howMany` entries when the keys are distinct |
| ReflectionObjectFactory.CreateListDefault | src/com/amazon/mqa/datagen/ReflectionObjectFactory.java:93-97 | the default-size overload makes one size draw before any element |
| ReflectionObjectFactory.CreateSetDefault | src/com/amazon/mqa/datagen/ReflectionObjectFactory.java:113-117 | the default-size overload makes one size draw before any element |
| ReflectionObjectFactory.CreateMapDefault | src/com/amazon/mqa/datagen/ReflectionObjectFactory.java:128-133 | the default-size overload makes one size draw before any key |
| ReflectionObjectFactory.DefaultListSize | src/com/amazon/mqa/datagen/ReflectionObjectFactory.java:93-97 | with the default configuration a default-size list has 1 to 10 elements, except that the draw `Integer.MIN_VALUE` throws `IllegalArgumentException` |
| ReflectionObjectFactory.ConstantSupplierExample | src/com/amazon/mqa/datagen/ReflectionObjectFactory.java:86-125 | with a constant supplier, `create` returns the constant, `listOf(c, 3)` three copies, and `setOf(c, 3)` one member |
| ReflectionObjectFactory.RegisteredSupplierWins | src/com/amazon/mqa/datagen/ReflectionObjectFactory.java:61-69 | a supplier registered with `withSupplier` answers `create` for its class, whatever the configuration held before |
| AbstractObjectFactory.New | src/com/amazon/mqa/datagen/AbstractObjectFactory.java:40-49 | the factory keeps the configuration and builds the default chain over its suppliers and size supplier |
| AbstractObjectFactory.GetArraySize | src/com/amazon/mqa/datagen/AbstractObjectFactory.java:54-56 | one `get` of the configured size supplier, the one the array factory also draws from; with the default range it lies in `[1, 11)` except at `Integer.MIN_VALUE` |
| AbstractObjectFactory.Create | src/com/amazon/mqa/datagen/AbstractObjectFactory.java:58-63 | `create` answers as `ReflectionObjectFactory.create` with the same inner factory |
| AbstractObjectFactory.CreateList | src/com/amazon/mqa/datagen/AbstractObjectFactory.java:93-103 | the precondition and append loop compute `ReflectionObjectFactory.CreateList` |
| AbstractObjectFactory.CreateMap | src/com/amazon/mqa/datagen/AbstractObjectFactory.java:180-191 | the precondition and put loop compute `ReflectionObjectFactory.CreateMap` |
| AbstractObjectFactory.SameAsReflection | src/com/amazon/mqa/datagen/AbstractObjectFactory.java:75-164 | built from one configuration, it is `new ReflectionObjectFactory(config)`; `setOf` and the default-size overloads draw `getArraySize()` once and make the explicit-count call |
| AbstractObjectFactory.StringSupplierExample | src/com/amazon/mqa/datagen/AbstractObjectFactory.java:58-63 | with a `String` supplier returning `"str"`, `create(String)` returns `"str"` |
| IncrementalIntSupplier.DistinctUntilWrap | src/com/amazon/mqa/datagen/supplier/IncrementalIntSupplier.java:21-23 | the first `2^32` calls return pairwise distinct values |
| IncrementalIntSupplier.IncrementalIntSupplier.constructor | src/com/amazon/mqa/datagen/supplier/IncrementalIntSupplier.java:16-18 | a new supplier holds the start value, and no call has been made |
| IncrementalIntSupplier.IncrementalIntSupplier.Get | src/com/amazon/mqa/datagen/supplier/IncrementalIntSupplier.java:21-23 | `get` returns the current value, which after `n` calls is `start + n` with 32-bit wrap-around, and then increments it |
| IncrementalIntSupplier.WrapStep | src/com/amazon/mqa/datagen/supplier/IncrementalIntSupplier.java:22 | incrementing the wrapped `n`-th value gives the wrapped `(n+1)`-th value |
| ObjectFactoryBuilder.ObjectFactoryBuilder.constructor | src/com/amazon/mqa/datagen/ObjectFactoryBuilder.java:13 | a new builder holds the default configuration |
| ObjectFactoryBuilder.ObjectFactoryBuilder.WithSupplier | src/com/amazon/mqa/datagen/ObjectFactoryBuilder.java:22-29 | the configuration becomes the old one with the supplier registered, and the same builder is returned |
| ObjectFactoryBuilder.ObjectFactoryBuilder.Build | src/com/amazon/mqa/datagen/ObjectFactoryBuilder.java:52-54 | the factory is a `ReflectionObjectFactory` over the current configuration |
| ObjectFactoryBuilder.ChainedRegistration | src/com/amazon/mqa/datagen/ObjectFactoryBuilder.java:22-54 | two chained registrations on a new builder, then `build`: both classes are registered (the later call wins for one class), on top of the basic classes |

## Left out

- Null-argument checks (`checkNotNull`, `requireNonNull`) are not modelled, because Dafny values cannot be `null`. Every `NullPointerException` raised for a `null` argument is therefore out of the model.
- Reflection, `java.lang.reflect.Proxy`, cglib's `Enhancer` and the `org.reflections` classpath scan are foreign calls. They are inputs instead:
  - what a class looks like is the function `classOf`;
  - its scanned subtypes are `ClassDesc.subtypes`;
  - whether a constructor or setter invocation fails is a flag on it.
- An argument of the wrong type makes `Constructor.newInstance`, `Method.invoke` and `Array.set` throw an unchecked `IllegalArgumentException`. That case is not modelled: arguments always match. For `Array.set` (`ObjectArrayFactory.java:46`) this includes a `null` or wrongly typed value stored in an array of a primitive component type; the model stores any value in a slot.
- A size `Supplier<Integer>` that returns `null` makes the unboxing `final int howMany = ….get()` throw `NullPointerException` (`ObjectArrayFactory.java:42`, `DefaultCollectionFactory.java:67`, `DefaultMapFactory.java:59`, and the default-size `listOf`, `setOf` and `mapOf`). The model cannot express that case: an injected size source (`IntSource`'s `Injected` case) always yields an `Int32`.
- The random leaf suppliers (`RandomBooleanSupplier` and the others, `AlphanumericStringSupplier`, `Now`, `RandomBigInteger`, `RandomBigDecimal`) are opaque generators. Each returns the injected draw of its call. The same holds for `Random.nextInt` in the enum factory and the random `int` inside `MinMaxIntegerSupplier`.
- `ReflectionObjectFactory.java:64-67` and `AbstractObjectFactory.java:45-48` call a three-argument `DefaultObjectFactory` constructor and `Config.getPmSuppliers()`. Neither exists in `DefaultObjectFactory.java` or `Config.java`. The model wires the two-argument constructor. The per-method override table is a plain map handed to the handler (`Handler.Wire`).
- The `withSupplier(String, Supplier)` overload of `ObjectFactoryBuilder` (lines 38-45) is not modelled. It calls a `Config` method that does not exist.
- `Engine.Create`, `Engine.ChainFrom`, `Engine.Apply`, `Engine.ArrayCreate`, `Engine.PojoCreate`, `Engine.CreateObject`, `Engine.InterfaceCreate`, `Engine.TryCandidates`, `Engine.CreateTyped`, `Engine.CollectionCreate`, `Engine.MapCreate` and `Engine.OptionalCreate` have a weaker contract of their own: they ensure only that the call count does not go back. Their behaviour is stated by the lemmas of the module named for each file.
- `ReflectionObjectFactory.CreateListDefault`, `ReflectionObjectFactory.CreateSetDefault` and `ReflectionObjectFactory.CreateMapDefault`: each own contract only states the one size draw. `AbstractObjectFactory.SameAsReflection` and `ReflectionObjectFactory.DefaultListSize` state the rest.
- `InterfaceFactory.classesInProgress` is a synchronized set shared by concurrent callers. The model is sequential. One in-progress set `g` is threaded through the whole engine, as if every `InterfaceFactory` in a chain shared one instance.
- Every factory that creates sub-objects calls back into the top-level chain of the world it runs in. A custom chain whose inner factories hold different delegates is not modelled.
- Stack depth is the `fuel` parameter. Exhausting it gives `StackOverflowError`, which is where the source ends on a cyclic type graph. The model does not pin down the JVM's actual depth.
- Objects are values, not heap references. Object identity, aliasing and later mutation of a returned object are not modelled. A populated object records its setter calls instead of its field values.
- The iteration order of `HashMap`, `HashSet`, `ImmutableSet` and the classpath scan is not modelled:
  - sets and maps are mathematical;
  - the subtype order is the input order.
- Reflection-based `equals`, `hashCode` and `toString` of `Config` are not modelled.
- The `ObjectFactory` and `TypedObjectFactory` interfaces and the collection, map and optional factory interfaces carry no logic, so they are not modelled. Neither are `ClassSpy` and `CollectionInstanceProvider`. `ObjectCreationException` is the failure `ObjectCreation`.
- `AbstractObjectFactory.SameAsReflection`: `AbstractObjectFactory`'s `setOf` and default-size overloads are stated through the equal `ReflectionObjectFactory` operations rather than as members of their own. Their code (`AbstractObjectFactory.java:75-79, 115-119, 140-145, 159-164`) is the same.
