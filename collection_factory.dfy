/** `DefaultCollectionFactory`: an empty collection from the provider,
    filled with a drawn number of resolved elements. */
module DefaultCollectionFactory {
  import opened Types
  import MM = MinMaxIntegerSupplier
  import Provider = DefaultCollectionInstanceProvider
  import Engine

  /** `create(collectionClazz, elementType)`: the add loop. */
  method Create(w: Engine.World, fuel: nat, g: set<ClassName>, collectionClass: ClassName, elementType: JType, t: nat)
    returns (s: Step)
    ensures s == Engine.CollectionCreate(w, fuel, g, collectionClass, elementType, t)
  {
    var provided := Provider.Provide(collectionClass);
    if provided.None? {
      return Step(Ok(Null), t);
    }
    var collection := provided.value;
    var howMany := MM.Next(Engine.CONTAINER_SIZES, w.draw, t);
    var total := Engine.Iterations(howMany);
    var next: nat := t + 1;
    var i := 0;
    while i < howMany
      invariant 0 <= i && (howMany >= 0 ==> i <= howMany) && (howMany < 0 ==> i == 0)
      invariant collection.ListOf? || collection.SetOf?
      invariant Engine.FillCollection(w, fuel, g, elementType, total - i, collection, next)
             == Engine.FillCollection(w, fuel, g, elementType, total, provided.value, t + 1)
    {
      var e := Engine.CreateTyped(w, fuel, g, elementType, next);
      if e.out.Thrown? {
        return e;
      }
      collection := Engine.AddTo(collection, e.out.value);
      next := e.next;
      i := i + 1;
    }
    s := Step(Ok(collection), next);
  }

  /** The size policy of the static `create`, `[1, 11)`: a size in that range
      for every draw but `Integer.MIN_VALUE`, which gives `-7`, so the loop
      does not run and the collection stays empty. */
  lemma DefaultSizes(draw: nat -> Int32, t: nat)
    ensures var n := MM.Next(Engine.CONTAINER_SIZES, draw, t);
      && (draw(t) != INT_MIN ==> 1 <= n < 11)
      && (draw(t) == INT_MIN ==> n == -7 && Engine.Iterations(n) == 0)
  {
    if draw(t) == INT_MIN {
      MM.DefaultAtIntMin();
    }
  }

  /** A class the provider does not know gives `null` with no size drawn; a
      known one draws the size once (call `t`) before any element; a list
      gets exactly that many elements and a set at most that many. */
  lemma CollectionContract(w: Engine.World, fuel: nat, g: set<ClassName>, raw: ClassName, elementType: JType, t: nat)
    ensures var s := Engine.CollectionCreate(w, fuel, g, raw, elementType, t);
      var howMany := Engine.Iterations(MM.Next(Engine.CONTAINER_SIZES, w.draw, t));
      && (Provider.Provide(raw).None? ==> s == Step(Ok(Null), t))
      && (Provider.Provide(raw).Some? ==>
            && s == Engine.FillCollection(w, fuel, g, elementType, howMany, Provider.Provide(raw).value, t + 1)
            && s.out != Ok(Null))
      && (raw in {LIST_CLASS, COLLECTION_CLASS} && s.out.Ok? ==> s.out.value.ListOf? && |s.out.value.elems| == howMany)
      && (raw == SET_CLASS && s.out.Ok? ==> s.out.value.SetOf? && |s.out.value.members| <= howMany)
  {
  }

  /** The values `count` creations of the element type yield, the first
      created first, or the exception that stops them. */
  datatype Elems = Elems(out: Result<seq<Value>>, next: nat)

  function ElemsOf(w: Engine.World, fuel: nat, g: set<ClassName>, elementType: JType, count: nat, t: nat): (r: Elems)
    ensures r.out.Success? ==> |r.out.value| == count
    ensures r.next >= t
    decreases count
  {
    if count == 0 then Elems(Success([]), t)
    else
      var e := Engine.CreateTyped(w, fuel, g, elementType, t);
      if e.out.Thrown? then Elems(Raised(e.out.failure), e.next)
      else
        var rest := ElemsOf(w, fuel, g, elementType, count - 1, e.next);
        if rest.out.Raised? then rest
        else Elems(Success([e.out.value] + rest.out.value), rest.next)
  }

  /** Slot `i` holds the value of the `i`-th creation: the one made after the
      first `i` creations, which yield the slots before it. */
  lemma {:induction false} ElemsOfSlot(w: Engine.World, fuel: nat, g: set<ClassName>, elementType: JType,
                                       count: nat, t: nat, i: nat)
    requires i < count
    ensures var e := ElemsOf(w, fuel, g, elementType, count, t);
      var p := ElemsOf(w, fuel, g, elementType, i, t);
      e.out.Success? ==>
        && p.out.Success? && e.out.value[..i] == p.out.value
        && Engine.CreateTyped(w, fuel, g, elementType, p.next).out == Ok(e.out.value[i])
    decreases i
  {
    var e := ElemsOf(w, fuel, g, elementType, count, t);
    var first := Engine.CreateTyped(w, fuel, g, elementType, t);
    if e.out.Success? && i > 0 {
      var rest := ElemsOf(w, fuel, g, elementType, count - 1, first.next);
      ElemsOfSlot(w, fuel, g, elementType, count - 1, first.next, i - 1);
      var p' := ElemsOf(w, fuel, g, elementType, i - 1, first.next);
      assert e.out.value == [first.out.value] + rest.out.value;
      assert e.out.value[..i] == [first.out.value] + rest.out.value[..i - 1];
    }
  }

  /** The add loop appends the created values to a list in creation order
      and stops at the first exception. */
  lemma {:induction false} FillListIsAppend(w: Engine.World, fuel: nat, g: set<ClassName>, elementType: JType,
                                            count: nat, xs: seq<Value>, t: nat)
    ensures var s := Engine.FillCollection(w, fuel, g, elementType, count, ListOf(xs), t);
      var e := ElemsOf(w, fuel, g, elementType, count, t);
      && s.next == e.next
      && (e.out.Success? ==> s.out == Ok(ListOf(xs + e.out.value)))
      && (e.out.Raised? ==> s.out == Thrown(e.out.failure))
    decreases count
  {
    if count > 0 {
      var e := Engine.CreateTyped(w, fuel, g, elementType, t);
      if e.out.Ok? {
        var v := e.out.value;
        FillListIsAppend(w, fuel, g, elementType, count - 1, xs + [v], e.next);
        var rest := ElemsOf(w, fuel, g, elementType, count - 1, e.next);
        if rest.out.Success? {
          assert (xs + [v]) + rest.out.value == xs + ([v] + rest.out.value);
        }
      }
    }
  }

  /** The add loop adds the created values to a set and stops at the first
      exception. */
  lemma {:induction false} FillSetIsAdds(w: Engine.World, fuel: nat, g: set<ClassName>, elementType: JType,
                                         count: nat, ms: set<Value>, t: nat)
    ensures var s := Engine.FillCollection(w, fuel, g, elementType, count, SetOf(ms), t);
      var e := ElemsOf(w, fuel, g, elementType, count, t);
      && s.next == e.next
      && (e.out.Success? ==> s.out == Ok(SetOf(ms + Elements(e.out.value))))
      && (e.out.Raised? ==> s.out == Thrown(e.out.failure))
    decreases count
  {
    if count > 0 {
      var e := Engine.CreateTyped(w, fuel, g, elementType, t);
      if e.out.Ok? {
        var v := e.out.value;
        FillSetIsAdds(w, fuel, g, elementType, count - 1, ms + {v}, e.next);
        var rest := ElemsOf(w, fuel, g, elementType, count - 1, e.next);
        if rest.out.Success? {
          AddFirst(ms, v, rest.out.value);
        }
      }
    }
  }

  /** Adding `v` and then the elements of `rest` adds the elements of `[v] + rest`. */
  lemma AddFirst(ms: set<Value>, v: Value, rest: seq<Value>)
    ensures (ms + {v}) + Elements(rest) == ms + Elements([v] + rest)
  {
    assert ([v] + rest)[1..] == rest;
  }

  /** Every element the loop adds is a value the resolver yields for the
      element type. */
  lemma {:induction false} ElementsResolved(w: Engine.World, fuel: nat, g: set<ClassName>, elementType: JType,
                                            count: nat, coll: Value, t: nat)
    requires coll.ListOf? || coll.SetOf?
    ensures var s := Engine.FillCollection(w, fuel, g, elementType, count, coll, t);
      && (s.out.Ok? && coll.ListOf? ==>
            forall i | |coll.elems| <= i < |s.out.value.elems| ::
              Engine.Produces(w, fuel, g, elementType, s.out.value.elems[i]))
      && (s.out.Ok? && coll.SetOf? ==>
            forall v | v in s.out.value.members ::
              v in coll.members || Engine.Produces(w, fuel, g, elementType, v))
    decreases count
  {
    if count > 0 {
      var e := Engine.CreateTyped(w, fuel, g, elementType, t);
      if e.out.Ok? {
        var coll' := Engine.AddTo(coll, e.out.value);
        ElementsResolved(w, fuel, g, elementType, count - 1, coll', e.next);
        var s := Engine.FillCollection(w, fuel, g, elementType, count, coll, t);
        assert Engine.Produces(w, fuel, g, elementType, e.out.value);
        if s.out.Ok? && coll.ListOf? {
          assert s.out.value.elems[|coll.elems|] == coll'.elems[|coll.elems|];
        }
      }
    }
  }
}
