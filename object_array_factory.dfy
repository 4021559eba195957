/** `ObjectArrayFactory`: an array of the drawn size, every slot filled by the
    object factory with the component type. */
module ObjectArrayFactory {
  import opened Types
  import MM = MinMaxIntegerSupplier
  import Engine

  /** `create`: allocate the array, then fill it slot by slot. */
  method Create(w: Engine.World, fuel: nat, g: set<ClassName>, c: ClassName, t: nat) returns (s: Step)
    ensures s == Engine.ArrayCreate(w, fuel, g, c, t)
  {
    var d := w.classOf(c);
    if !d.isArray {
      return Step(Ok(Null), t);
    }
    var componentType := d.component;
    var howMany := MM.Next(w.arraySizes, w.draw, t);
    if howMany < 0 {
      return Step(Thrown(NegativeArraySize), t + 1);
    }
    var arr := new Value[howMany](_ => Null);
    var next: nat := t + 1;
    var i := 0;
    while i < howMany
      invariant 0 <= i <= howMany
      invariant Engine.FillArray(w, fuel, g, componentType, howMany - i, arr[..i], next)
             == Engine.FillArray(w, fuel, g, componentType, howMany, [], t + 1)
    {
      var e := Engine.Create(w, fuel, g, componentType, next);
      if e.out.Thrown? {
        return e;
      }
      arr[i] := e.out.value;
      assert arr[..i + 1] == arr[..i] + [e.out.value];
      next := e.next;
      i := i + 1;
    }
    assert arr[..i] == arr[..];
    s := Step(Ok(ArrayOf(componentType, arr[..])), next);
  }

  /** A non-array class gives `null` without drawing a size; an array class
      draws the size supplier once, a negative size throws
      `NegativeArraySizeException`, and an array built is never `null`, has
      the declared component type and exactly the drawn length. */
  lemma ArrayContract(w: Engine.World, fuel: nat, g: set<ClassName>, c: ClassName, t: nat)
    ensures var s := Engine.ArrayCreate(w, fuel, g, c, t);
      var d := w.classOf(c);
      var howMany := MM.Next(w.arraySizes, w.draw, t);
      && (!d.isArray ==> s == Step(Ok(Null), t))
      && (d.isArray ==> s.out != Ok(Null) && s.next >= t + 1)
      && (d.isArray && howMany < 0 ==> s == Step(Thrown(NegativeArraySize), t + 1))
      && (d.isArray && s.out.Ok? ==>
            s.out.value.ArrayOf? && s.out.value.component == d.component &&
            |s.out.value.elems| == howMany)
  {
  }

  /** Every slot filled by the loop holds a value the object factory creates
      for the component type. */
  lemma {:induction false} SlotsAreComponents(w: Engine.World, fuel: nat, g: set<ClassName>, component: ClassName,
                                              count: nat, acc: seq<Value>, t: nat)
    ensures var s := Engine.FillArray(w, fuel, g, component, count, acc, t);
      s.out.Ok? ==> forall i | |acc| <= i < |s.out.value.elems| ::
        Engine.Produces(w, fuel, g, ClassType(component), s.out.value.elems[i])
    decreases count
  {
    if count > 0 {
      var e := Engine.Create(w, fuel, g, component, t);
      if e.out.Ok? {
        var acc' := acc + [e.out.value];
        SlotsAreComponents(w, fuel, g, component, count - 1, acc', e.next);
        var s := Engine.FillArray(w, fuel, g, component, count, acc, t);
        if s.out.Ok? {
          assert s.out.value.elems[|acc|] == acc'[|acc|];
          assert Engine.CreateTyped(w, fuel, g, ClassType(component), t).out == Ok(e.out.value);
        }
      }
    }
  }
}
