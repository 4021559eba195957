/** `DefaultOptionalFactory`: `Optional.of` the resolved inner value. */
module DefaultOptionalFactory {
  import opened Types
  import Engine

  /** The resolver is called once, with the given type, and nothing else is
      called; an object becomes a present optional holding it, `null` makes
      `Optional.of` throw `NullPointerException`, an exception passes through;
      an empty optional is never produced. */
  lemma OptionalContract(w: Engine.World, fuel: nat, g: set<ClassName>, ty: JType, t: nat)
    ensures var s := Engine.OptionalCreate(w, fuel, g, ty, t);
      var v := Engine.CreateTyped(w, fuel, g, ty, t);
      && s.next == v.next
      && (v.out.IsObject() ==> s.out == Ok(Present(v.out.value)))
      && (v.out == Ok(Null) ==> s.out == Thrown(NullPointer))
      && (v.out.Thrown? ==> s == v)
      && (s.out.Ok? ==> s.out.value.Present? && s.out.value.inner != Null)
  {
  }
}
