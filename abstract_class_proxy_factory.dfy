/** `AbstractClassProxyFactory`: a subclass proxy for an abstract class that
    has a constructor without parameters. */
module AbstractClassProxyFactory {
  import opened Types
  import DefaultClassSpy

  /** `isAbstract`: the `abstract` modifier (interfaces carry it too). */
  predicate IsAbstract(d: ClassDesc) { d.isAbstract }

  /** `checkIfSupported`: `None` when the constructor `findConstructor` picks
      has no parameters; `ObjectCreationException` when it has some; a
      `NullPointerException` when `findConstructor` finds none. */
  function CheckIfSupported(d: ClassDesc): (r: Option<Failure>)
    ensures (exists k | 0 <= k < |d.ctors| :: |d.ctors[k].params| == 0) ==> r == None
    ensures
      && (exists k | 0 <= k < |d.ctors| :: |d.ctors[k].params| < INT_MAX)
      && (forall k | 0 <= k < |d.ctors| :: |d.ctors[k].params| > 0)
      ==> r == Some(ObjectCreation)
    ensures (forall k | 0 <= k < |d.ctors| :: |d.ctors[k].params| >= INT_MAX) ==> r == Some(NullPointer)
  {
    var found := DefaultClassSpy.FewestParameters(d.ctors);
    if found.None? then Some(NullPointer)
    else if |d.ctors[found.value].params| != 0 then Some(ObjectCreation)
    else None
  }

  /** `create`: `null` for a class that is not abstract; otherwise the support
      check, whose failure is thrown, then a subclass proxy, never `null`. */
  function Create(d: ClassDesc, clazz: ClassName): (r: Outcome)
    ensures !IsAbstract(d) ==> r == Ok(Null)
    ensures IsAbstract(d) ==> r != Ok(Null)
    ensures IsAbstract(d) && (exists k | 0 <= k < |d.ctors| :: |d.ctors[k].params| == 0) ==>
      r == Ok(SubclassProxy(clazz))
    ensures IsAbstract(d) && |d.ctors| == 0 ==> r == Thrown(NullPointer)
    ensures
      && IsAbstract(d)
      && (exists k | 0 <= k < |d.ctors| :: |d.ctors[k].params| < INT_MAX)
      && (forall k | 0 <= k < |d.ctors| :: |d.ctors[k].params| > 0)
      ==> r == Thrown(ObjectCreation)
  {
    if !IsAbstract(d) then Ok(Null)
    else match CheckIfSupported(d)
      case Some(f) => Thrown(f)
      case None => Ok(SubclassProxy(clazz))
  }
}
