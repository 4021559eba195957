/** `Config`: the immutable configuration of the public factories, a supplier
    registry and an array/collection size supplier. */
module Config {
  import opened Types
  import MM = MinMaxIntegerSupplier

  datatype Config = Config(suppliers: map<ClassName, Supplier>, arraySize: MM.IntSource)

  const STRING_CLASS: ClassName := "java.lang.String"

  /** The classes `BASIC_SUPPLIERS` registers: the eight primitives, their
      eight wrappers, and `String`, `Date`, `BigInteger` and `BigDecimal`. */
  const PRIMITIVE_CLASSES: set<ClassName> := {"boolean", "byte", "char", "double", "float", "int", "long", "short"}
  const BOXED_CLASSES: set<ClassName> := {
    "java.lang.Boolean", "java.lang.Byte", "java.lang.Character", "java.lang.Double",
    "java.lang.Float", "java.lang.Integer", "java.lang.Long", "java.lang.Short"}
  const OTHER_BASIC_CLASSES: set<ClassName> := {STRING_CLASS, "java.util.Date", "java.math.BigInteger", "java.math.BigDecimal"}
  const BASIC_CLASSES: set<ClassName> := PRIMITIVE_CLASSES + BOXED_CLASSES + OTHER_BASIC_CLASSES

  /** The random generator `BASIC_SUPPLIERS` registers for a basic class
      (opaque here): a primitive and its wrapper share one. */
  function GeneratorFor(clazz: ClassName): (s: Supplier)
    ensures s.Generator?
  {
    if clazz in {"boolean", "java.lang.Boolean"} then Generator("RandomBooleanSupplier")
    else if clazz in {"byte", "java.lang.Byte"} then Generator("RandomByteSupplier")
    else if clazz in {"char", "java.lang.Character"} then Generator("RandomCharacterSupplier")
    else if clazz in {"double", "java.lang.Double"} then Generator("RandomDoubleSupplier")
    else if clazz in {"float", "java.lang.Float"} then Generator("RandomFloatSupplier")
    else if clazz in {"int", "java.lang.Integer"} then Generator("RandomIntegerSupplier")
    else if clazz in {"long", "java.lang.Long"} then Generator("RandomLongSupplier")
    else if clazz in {"short", "java.lang.Short"} then Generator("RandomShortSupplier")
    else if clazz == STRING_CLASS then Generator("AlphanumericStringSupplier")
    else if clazz == "java.util.Date" then Generator("Now")
    else if clazz == "java.math.BigInteger" then Generator("RandomBigInteger")
    else Generator("RandomBigDecimal")
  }

  /** `BASIC_SUPPLIERS`: each basic class with its random generator. */
  const BASIC_SUPPLIERS: map<ClassName, Supplier> := map clazz | clazz in BASIC_CLASSES :: GeneratorFor(clazz)

  /** `createDefault()`: the basic suppliers and sizes from 1 to 10. */
  function CreateDefault(): (c: Config)
    ensures c.suppliers.Keys == BASIC_CLASSES
    ensures c.arraySize == MM.Ranged(MM.Bounds(1, 11))
  {
    Config(BASIC_SUPPLIERS, MM.Ranged(MM.Create()))
  }

  /** Every default supplier is a random generator: no basic class has a
      fixed default value. */
  lemma DefaultSuppliersGenerate()
    ensures forall k | k in CreateDefault().suppliers :: CreateDefault().suppliers[k].Generator?
  {
    forall k | k in CreateDefault().suppliers ensures CreateDefault().suppliers[k].Generator? {
      assert CreateDefault().suppliers[k] == GeneratorFor(k);
    }
  }

  // Cardinality of the basic classes. The lemmas from here to
  // `DefaultHasTwenty` model nothing of their own: they count the twenty
  // class names, splitting each group of eight in two halves that differ in
  // one letter, so that no pair of names has to be compared character by
  // character.

  lemma AddOne(s: set<ClassName>, x: ClassName)
    requires x !in s
    ensures |s + {x}| == |s| + 1
  {
  }

  lemma DisjointUnion(a: set<ClassName>, b: set<ClassName>)
    requires a !! b
    ensures |a + b| == |a| + |b|
  {
  }

  lemma PrimitivesCount()
    ensures |PRIMITIVE_CLASSES| == 8
  {
    var a := {"boolean", "byte", "char", "double"};
    var b := {"float", "int", "long", "short"};
    AddOne({"boolean"}, "byte");
    AddOne({"boolean", "byte"}, "char");
    AddOne({"boolean", "byte", "char"}, "double");
    PrimitiveSecondHalf();
    PrimitiveHalvesDisjoint();
    DisjointUnion(a, b);
    assert PRIMITIVE_CLASSES == a + b;
  }

  lemma PrimitiveSecondHalf()
    ensures |{"float", "int", "long", "short"}| == 4
  {
    AddOne({"float"}, "int");
    AddOne({"float", "int"}, "long");
    AddOne({"float", "int", "long"}, "short");
  }

  /** The two halves differ in their first letter. */
  lemma PrimitiveHalvesDisjoint()
    ensures {"boolean", "byte", "char", "double"} !! {"float", "int", "long", "short"}
  {
    var a := {"boolean", "byte", "char", "double"};
    var b := {"float", "int", "long", "short"};
    assert forall x | x in a :: Letter(x, 0) < 'e';
    assert forall x | x in b :: Letter(x, 0) > 'e';
    forall x | x in a ensures x !in b {
      assert Letter(x, 0) < 'e';
    }
  }

  lemma BoxedCount()
    ensures |BOXED_CLASSES| == 8
  {
    var a := {"java.lang.Boolean", "java.lang.Byte", "java.lang.Character", "java.lang.Double"};
    var b := {"java.lang.Float", "java.lang.Integer", "java.lang.Long", "java.lang.Short"};
    BoxedFirstHalf();
    BoxedSecondHalf();
    BoxedHalvesDisjoint();
    DisjointUnion(a, b);
    assert BOXED_CLASSES == a + b;
  }

  lemma BoxedFirstHalf()
    ensures |{"java.lang.Boolean", "java.lang.Byte", "java.lang.Character", "java.lang.Double"}| == 4
  {
    AddOne({"java.lang.Boolean"}, "java.lang.Byte");
    AddOne({"java.lang.Boolean", "java.lang.Byte"}, "java.lang.Character");
    AddOne({"java.lang.Boolean", "java.lang.Byte", "java.lang.Character"}, "java.lang.Double");
  }

  lemma BoxedSecondHalf()
    ensures |{"java.lang.Float", "java.lang.Integer", "java.lang.Long", "java.lang.Short"}| == 4
  {
    AddOne({"java.lang.Float"}, "java.lang.Integer");
    AddOne({"java.lang.Float", "java.lang.Integer"}, "java.lang.Long");
    AddOne({"java.lang.Float", "java.lang.Integer", "java.lang.Long"}, "java.lang.Short");
  }

  /** The two halves differ in the letter after `java.lang.`. */
  lemma BoxedHalvesDisjoint()
    ensures {"java.lang.Boolean", "java.lang.Byte", "java.lang.Character", "java.lang.Double"}
         !! {"java.lang.Float", "java.lang.Integer", "java.lang.Long", "java.lang.Short"}
  {
    var a := {"java.lang.Boolean", "java.lang.Byte", "java.lang.Character", "java.lang.Double"};
    var b := {"java.lang.Float", "java.lang.Integer", "java.lang.Long", "java.lang.Short"};
    FirstHalfLetters();
    SecondHalfLetters();
    forall x | x in a ensures x !in b {
      assert Letter(x, 10) < 'E';
    }
  }

  /** The letter at position `i` of a class name. */
  function Letter(x: string, i: nat): char
  {
    if |x| > i then x[i] else ' '
  }

  lemma FirstHalfLetters()
    ensures forall x | x in {"java.lang.Boolean", "java.lang.Byte", "java.lang.Character", "java.lang.Double"} :: Letter(x, 10) < 'E'
  {
  }

  lemma SecondHalfLetters()
    ensures forall x | x in {"java.lang.Float", "java.lang.Integer", "java.lang.Long", "java.lang.Short"} :: Letter(x, 10) > 'E'
  {
  }

  lemma OthersCount()
    ensures |OTHER_BASIC_CLASSES| == 4
  {
    AddOne({STRING_CLASS}, "java.util.Date");
    AddOne({STRING_CLASS, "java.util.Date"}, "java.math.BigInteger");
    AddOne({STRING_CLASS, "java.util.Date", "java.math.BigInteger"}, "java.math.BigDecimal");
  }

  lemma PrimitiveNamesShort()
    ensures forall x | x in PRIMITIVE_CLASSES :: |x| <= 7
  {
  }

  lemma BoxedNamesLong()
    ensures forall x | x in BOXED_CLASSES :: |x| >= 14
  {
  }

  lemma OtherNamesLong()
    ensures forall x | x in OTHER_BASIC_CLASSES :: |x| >= 14
  {
  }

  lemma BoxedAndOthersDisjoint()
    ensures BOXED_CLASSES !! OTHER_BASIC_CLASSES
  {
  }

  /** The default registry holds twenty classes. */
  lemma DefaultHasTwenty()
    ensures |CreateDefault().suppliers| == 20
  {
    PrimitivesCount();
    BoxedCount();
    OthersCount();
    PrimitiveNamesShort();
    BoxedNamesLong();
    OtherNamesLong();
    BoxedAndOthersDisjoint();
    DisjointUnion(PRIMITIVE_CLASSES, BOXED_CLASSES);
    DisjointUnion(PRIMITIVE_CLASSES + BOXED_CLASSES, OTHER_BASIC_CLASSES);
    assert |CreateDefault().suppliers| == |CreateDefault().suppliers.Keys|;
  }

  /** `withSupplier(clazz, supplier)`: a new configuration whose registry is
      the old one with `clazz` mapped to `supplier`; the size supplier is kept,
      and the receiver, a value, is unchanged. */
  function WithSupplier(cfg: Config, clazz: ClassName, supplier: Supplier): (r: Config)
    ensures r.suppliers.Keys == cfg.suppliers.Keys + {clazz}
    ensures r.suppliers[clazz] == supplier
    ensures forall k | k in cfg.suppliers && k != clazz :: r.suppliers[k] == cfg.suppliers[k]
    ensures r.arraySize == cfg.arraySize
  {
    Config(cfg.suppliers[clazz := supplier], cfg.arraySize)
  }

  /** A new class grows the registry by one; an existing class keeps its size. */
  lemma WithSupplierSize(cfg: Config, clazz: ClassName, supplier: Supplier)
    ensures clazz !in cfg.suppliers ==> |WithSupplier(cfg, clazz, supplier).suppliers| == |cfg.suppliers| + 1
    ensures clazz in cfg.suppliers ==> |WithSupplier(cfg, clazz, supplier).suppliers| == |cfg.suppliers|
  {
    var r := WithSupplier(cfg, clazz, supplier);
    if clazz in cfg.suppliers {
      assert r.suppliers.Keys == cfg.suppliers.Keys;
    } else {
      assert r.suppliers.Keys == cfg.suppliers.Keys + {clazz};
    }
  }

  /** Registering the same class twice: the later supplier wins, as one call would. */
  lemma WithSupplierOverride(cfg: Config, clazz: ClassName, s1: Supplier, s2: Supplier)
    ensures WithSupplier(WithSupplier(cfg, clazz, s1), clazz, s2) == WithSupplier(cfg, clazz, s2)
  {
    assert cfg.suppliers[clazz := s1][clazz := s2] == cfg.suppliers[clazz := s2];
  }

  /** `withArraySizeSupplier`: only the size supplier changes. */
  function WithArraySizeSupplier(cfg: Config, arraySize: MM.IntSource): (r: Config)
    ensures r.suppliers == cfg.suppliers && r.arraySize == arraySize
  {
    Config(cfg.suppliers, arraySize)
  }

  /** `getSuppliers()`: an immutable copy, so the caller gets the entries and
      no way to change the configuration. */
  function GetSuppliers(cfg: Config): (m: map<ClassName, Supplier>)
    ensures m.Keys == cfg.suppliers.Keys && forall k | k in m :: m[k] == cfg.suppliers[k]
  {
    cfg.suppliers
  }
}
