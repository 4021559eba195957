/** `ObjectFactoryBuilder`: a mutable holder of a configuration that starts
    as the default and builds a `ReflectionObjectFactory`. */
module ObjectFactoryBuilder {
  import opened Types
  import Config
  import ROF = ReflectionObjectFactory

  class ObjectFactoryBuilder {
    var config: Config.Config

    /** A new builder holds `Config.createDefault()`. */
    constructor ()
      ensures config == Config.CreateDefault()
    {
      config := Config.CreateDefault();
    }

    /** `withSupplier(clazz, supplier)`: replaces the configuration by the one
        with `clazz` mapped to `supplier`, and returns this same builder. */
    method WithSupplier(clazz: ClassName, supplier: Supplier) returns (b: ObjectFactoryBuilder)
      modifies this
      ensures config == Config.WithSupplier(old(config), clazz, supplier)
      ensures b == this
    {
      config := Config.WithSupplier(config, clazz, supplier);
      b := this;
    }

    /** `build()`: a `ReflectionObjectFactory` over the current configuration. */
    method Build(classOf: ClassName -> ClassDesc, draw: nat -> Int32) returns (f: ROF.ReflectionObjectFactory)
      ensures f == ROF.FromConfig(config, classOf, draw)
      ensures f.objectFactory.suppliers == config.suppliers && f.collectionSizes == config.arraySize
    {
      f := ROF.FromConfig(config, classOf, draw);
    }
  }

  /** Two chained `withSupplier` calls on a fresh builder, then `build`: both
      classes are registered with their suppliers, the later call winning
      when the class is the same. */
  method ChainedRegistration(c1: ClassName, s1: Supplier, c2: ClassName, s2: Supplier,
                             classOf: ClassName -> ClassDesc, draw: nat -> Int32)
    returns (f: ROF.ReflectionObjectFactory)
    ensures c2 in f.objectFactory.suppliers && f.objectFactory.suppliers[c2] == s2
    ensures c1 != c2 ==> c1 in f.objectFactory.suppliers && f.objectFactory.suppliers[c1] == s1
    ensures Config.BASIC_CLASSES <= f.objectFactory.suppliers.Keys
  {
    var builder := new ObjectFactoryBuilder();
    var same := builder.WithSupplier(c1, s1);
    same := same.WithSupplier(c2, s2);
    f := builder.Build(classOf, draw);
  }
}
