/** `EnumFactory`: one of the declared constants, chosen by `Random.nextInt`. */
module EnumFactory {
  import opened Types

  /** `create`: `null` for a class that is not an enum and for an enum without
      constants (no random number is drawn then); otherwise the constant whose
      ordinal is the injected draw reduced into `[0, length)`, one external call. */
  function Create(d: ClassDesc, clazz: ClassName, draw: nat -> Int32, t: nat): (s: Step)
    ensures !d.isEnum || d.enumConstants == 0 ==> s == Step(Ok(Null), t)
    ensures d.isEnum && d.enumConstants > 0 ==>
      s.next == t + 1 && s.out.IsObject() &&
      s.out.value.EnumConstant? && s.out.value.enumClass == clazz &&
      s.out.value.ordinal < d.enumConstants
  {
    if !d.isEnum then Step(Ok(Null), t)
    else if d.enumConstants == 0 then Step(Ok(Null), t)
    else Step(Ok(EnumConstant(clazz, draw(t) % d.enumConstants)), t + 1)
  }
}
