/** `ProxyObjectFactory.create`: an interface proxy, with the interface
    check as a precondition that throws. The nested handler and the static
    wiring are in module `Handler`. */
module ProxyObjectFactory {
  import opened Types

  /** `create`: `IllegalArgumentException` for a class that is not an
      interface (never `null`), otherwise a proxy backed by the stored handler. */
  function Create(d: ClassDesc, clazz: ClassName): (r: Outcome)
    ensures !d.isInterface ==> r == Thrown(IllegalArgument)
    ensures d.isInterface ==> r == Ok(InterfaceProxy(clazz))
    ensures r != Ok(Null)
  {
    if d.isInterface then Ok(InterfaceProxy(clazz)) else Thrown(IllegalArgument)
  }
}
