/** Shared vocabulary of the model: Java integers, class descriptions, generic
    types, the values the synthesis engine produces and the exceptions it raises. */
module Types {

  /** Java's `int`. */
  const INT_MIN: int := -0x8000_0000
  const INT_MAX: int := 0x7fff_ffff
  type Int32 = x: int | INT_MIN <= x <= INT_MAX

  /** Two's-complement wrap-around of an unbounded integer into an `int`. */
  function Wrap32(x: int): (r: Int32)
    ensures INT_MIN <= x <= INT_MAX ==> r == x
    ensures (r - x) % 0x1_0000_0000 == 0
  {
    (x - INT_MIN) % 0x1_0000_0000 + INT_MIN
  }

  datatype Option<+T> = None | Some(value: T)

  /** A class is identified by its fully qualified name. */
  type ClassName = string

  const LIST_CLASS: ClassName := "java.util.List"
  const SET_CLASS: ClassName := "java.util.Set"
  const COLLECTION_CLASS: ClassName := "java.util.Collection"
  const MAP_CLASS: ClassName := "java.util.Map"
  const OPTIONAL_CLASS: ClassName := "java.util.Optional"

  /** A `java.lang.reflect.Type`: a plain class, a parameterised type, or any
      other kind (type variable, wildcard, generic array type). */
  datatype JType =
    | ClassType(cls: ClassName)
    | Parameterized(raw: ClassName, args: seq<JType>)
    | OtherType

  /** A declared constructor: its generic parameter types, and whether
      `Constructor.newInstance` fails with a checked reflective exception
      (inaccessible, or the constructor body throws). */
  datatype CtorInfo = CtorInfo(params: seq<JType>, fails: bool)

  /** A public method (as `Class.getMethods` lists it): name, generic parameter
      types, raw return class, and whether `Method.invoke` fails with a checked
      reflective exception. */
  datatype MethodInfo = MethodInfo(name: string, params: seq<JType>, returnClass: ClassName, fails: bool)

  /** What reflection tells about one class. `subtypes` is what the classpath
      scan of the class's package reports as its subtypes, in iteration order.
      The flags are taken as reflection reports them and are not checked
      against each other: reflection reports every interface as abstract, and
      the operations that read `isAbstract` assume descriptions that agree. */
  datatype ClassDesc = ClassDesc(
    isInterface: bool,
    isEnum: bool,
    isArray: bool,
    isAbstract: bool,
    isPublic: bool,
    deprecated: bool,
    component: ClassName,
    enumConstants: nat,
    ctors: seq<CtorInfo>,
    methods: seq<MethodInfo>,
    subtypes: seq<ClassName>)

  /** A value produced by the engine. `Null` is Java's null. */
  datatype Value =
    | Null
    | Int(i: int)
    | Str(s: string)
    | Generated(generator: string, draw: Int32)
    | ArrayOf(component: ClassName, elems: seq<Value>)
    | EnumConstant(enumClass: ClassName, ordinal: nat)
    | Instance(cls: ClassName, ctorArgs: seq<Value>, applied: seq<SetterCall>)
    | ListOf(elems: seq<Value>)
    | SetOf(members: set<Value>)
    | MapOf(entries: map<Value, Value>)
    | Present(inner: Value)
    | InterfaceProxy(iface: ClassName)
    | SubclassProxy(cls: ClassName)

  /** A setter call that took effect on a populated object. */
  datatype SetterCall = SetterCall(setter: string, arg: Value)

  /** The unchecked exceptions the core raises or lets through. */
  datatype Failure =
    | NullPointer
    | IllegalArgument
    | ObjectCreation
    | NegativeArraySize
    | IndexOutOfBounds
    | StackOverflow

  datatype Outcome = Ok(value: Value) | Thrown(failure: Failure)
  {
    /** The outcome is a real object (neither null nor an exception). */
    predicate IsObject() { Ok? && value != Null }
  }

  /** The result of an operation that returns a `T` or throws. */
  datatype Result<+T> = Success(value: T) | Raised(failure: Failure)

  /** An outcome together with the number of external calls made so far. */
  datatype Step = Step(out: Outcome, next: nat)

  /** A registered leaf generator: one that always returns the same value, or
      an opaque generator whose result is the injected draw of that call. */
  datatype Supplier = Constant(value: Value) | Generator(name: string)

  /** What supplier `s` returns when it is the `t`-th external call. */
  function Supply(s: Supplier, draw: nat -> Int32, t: nat): (v: Value)
    ensures s.Constant? ==> v == s.value
    ensures s.Generator? ==> v.Generated? && v.generator == s.name
  {
    match s
    case Constant(v) => v
    case Generator(n) => Generated(n, draw(t))
  }

  /** The elements of a sequence, as a set. */
  function Elements<T(!new)>(s: seq<T>): (r: set<T>)
    ensures forall x :: x in r <==> x in s
    ensures |r| <= |s|
  {
    if s == [] then {} else
      var rest := Elements(s[1..]);
      assert forall x :: x in s <==> x == s[0] || x in s[1..];
      {s[0]} + rest
  }
}
