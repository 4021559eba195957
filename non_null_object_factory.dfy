/** `NonNullObjectFactory`: the strict decorator that turns `null` into an
    `ObjectCreationException`. */
module NonNullObjectFactory {
  import opened Types

  /** `create`, given the one result `inner` of the decorated factory: an
      object and an exception pass through unchanged, `null` becomes
      `ObjectCreationException`; the result is never `null`. */
  function Decorate(inner: Step): (s: Step)
    ensures inner.out.IsObject() ==> s == inner
    ensures inner.out.Thrown? ==> s == inner
    ensures inner.out == Ok(Null) ==> s == Step(Thrown(ObjectCreation), inner.next)
    ensures s.out != Ok(Null)
  {
    if inner.out == Ok(Null) then Step(Thrown(ObjectCreation), inner.next) else inner
  }
}
