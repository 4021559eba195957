/** `DefaultTypedObjectFactory`: the dispatch of a generic type to the object
    factory or to the map, optional or collection factory. */
module DefaultTypedObjectFactory {
  import opened Types
  import Engine

  /** Exactly one sub-factory is consulted: a class goes unchanged to the
      object factory; a parameterised `Map` to the map factory with its first
      two type arguments, `Optional` to the optional factory with its first,
      and every other raw type to the collection factory with the raw class
      and its first argument (a missing argument throws
      `ArrayIndexOutOfBoundsException`); any other kind of type gives `null`
      with no call. A parameterised type costs one stack frame. */
  lemma Dispatch(w: Engine.World, fuel: nat, g: set<ClassName>, ty: JType, t: nat)
    ensures var s := Engine.CreateTyped(w, fuel, g, ty, t);
      && (ty.ClassType? ==> s == Engine.Create(w, fuel, g, ty.cls, t))
      && (ty.OtherType? ==> s == Step(Ok(Null), t))
      && (ty.Parameterized? && fuel > 0 ==>
            var args := ty.args;
            && (ty.raw == MAP_CLASS && |args| >= 2 ==> s == Engine.MapCreate(w, fuel - 1, g, args[0], args[1], t))
            && (ty.raw == MAP_CLASS && |args| < 2 ==> s == Step(Thrown(IndexOutOfBounds), t))
            && (ty.raw == OPTIONAL_CLASS && |args| >= 1 ==> s == Engine.OptionalCreate(w, fuel - 1, g, args[0], t))
            && (ty.raw != MAP_CLASS && |args| == 0 ==> s == Step(Thrown(IndexOutOfBounds), t))
            && (ty.raw != MAP_CLASS && ty.raw != OPTIONAL_CLASS && |args| >= 1 ==>
                  s == Engine.CollectionCreate(w, fuel - 1, g, ty.raw, args[0], t)))
  {
  }

  /** The value has the shape the type asks for: a `Map` type gives a map, an
      `Optional` type a present optional, a `List` or `Collection` type a
      list and a `Set` type a set, and any other raw collection class `null`
      (with no call at all). */
  lemma ResultShape(w: Engine.World, fuel: nat, g: set<ClassName>, raw: ClassName, args: seq<JType>, t: nat)
    ensures var s := Engine.CreateTyped(w, fuel, g, Parameterized(raw, args), t);
      && (raw == MAP_CLASS && s.out.Ok? ==> s.out.value.MapOf?)
      && (raw == OPTIONAL_CLASS && s.out.Ok? ==> s.out.value.Present? && s.out.value.inner != Null)
      && (raw in {LIST_CLASS, COLLECTION_CLASS} && s.out.Ok? ==> s.out.value.ListOf?)
      && (raw == SET_CLASS && s.out.Ok? ==> s.out.value.SetOf?)
      && (raw !in {MAP_CLASS, OPTIONAL_CLASS, LIST_CLASS, SET_CLASS, COLLECTION_CLASS} && fuel > 0 && |args| > 0 ==>
            s == Step(Ok(Null), t))
  {
  }
}
