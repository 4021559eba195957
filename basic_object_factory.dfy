/** `BasicObjectFactory`: the leaf registry lookup. */
module BasicObjectFactory {
  import opened Types

  /** `create`: a registered class yields exactly what its supplier returns, at
      the cost of one external call; an unregistered class yields `null` and
      calls nothing. The registry is an immutable copy, a value here. */
  function Create(suppliers: map<ClassName, Supplier>, draw: nat -> Int32, clazz: ClassName, t: nat): (s: Step)
    ensures clazz !in suppliers ==> s == Step(Ok(Null), t)
    ensures clazz in suppliers ==> s.out == Ok(Supply(suppliers[clazz], draw, t)) && s.next == t + 1
  {
    if clazz !in suppliers then Step(Ok(Null), t)
    else Step(Ok(Supply(suppliers[clazz], draw, t)), t + 1)
  }
}
