/** `InterfaceProxyFactory`: a dynamic proxy for an interface. */
module InterfaceProxyFactory {
  import opened Types

  /** `create`: `null` for a class that is not an interface, otherwise a
      non-null proxy of that interface, whose every call goes to the stored
      handler (see module `Handler`). No external call is made. */
  function Create(d: ClassDesc, clazz: ClassName): (r: Outcome)
    ensures !d.isInterface ==> r == Ok(Null)
    ensures d.isInterface ==> r.IsObject() && r.value == InterfaceProxy(clazz)
  {
    if !d.isInterface then Ok(Null) else Ok(InterfaceProxy(clazz))
  }
}
