/** `DefaultObjectFactory`: the chain of capability factories, tried in
    order until one gives a non-null object. */
module DefaultObjectFactory {
  import opened Types
  import MM = MinMaxIntegerSupplier
  import Engine

  /** The object factory the two-argument constructor builds: the default
      chain over the given suppliers and array-size supplier. */
  function New(classOf: ClassName -> ClassDesc, suppliers: map<ClassName, Supplier>,
               arraySizes: MM.IntSource, draw: nat -> Int32): (w: Engine.World)
    ensures w.chain == [Engine.Basic, Engine.ObjectArray, Engine.Enumeration, Engine.Pojo]
    ensures w.suppliers == suppliers && w.arraySizes == arraySizes
    ensures w.classOf == classOf && w.draw == draw
  {
    Engine.World(classOf, suppliers, arraySizes, Engine.DEFAULT_CHAIN, draw)
  }

  /** `create`: the for-each loop over the factories with an early return. */
  method Create(w: Engine.World, fuel: nat, g: set<ClassName>, c: ClassName, t: nat) returns (s: Step)
    ensures s == Engine.Create(w, fuel, g, c, t)
  {
    if fuel == 0 {
      return Step(Thrown(StackOverflow), t);
    }
    var next: nat := t;
    var i := 0;
    while i < |w.chain|
      invariant i <= |w.chain|
      invariant Engine.ChainFrom(w, fuel, g, w.chain[i..], c, next) == Engine.Create(w, fuel, g, c, t)
    {
      assert w.chain[i..][1..] == w.chain[i + 1..];
      var answer := Engine.Apply(w, fuel, g, w.chain[i], c, next);
      if answer.out != Ok(Null) {
        return answer;
      }
      next := answer.next;
      i := i + 1;
    }
    s := Step(Ok(Null), next);
  }

  /** Trying `p + q` is trying `p`, then `q` only if every factory of `p`
      declined: once a factory answers, the later ones are never consulted. */
  lemma {:induction false} ChainAppend(w: Engine.World, fuel: nat, g: set<ClassName>,
                                       p: seq<Engine.Factory>, q: seq<Engine.Factory>, c: ClassName, t: nat)
    requires fuel > 0
    ensures Engine.ChainFrom(w, fuel, g, p + q, c, t) ==
      var s := Engine.ChainFrom(w, fuel, g, p, c, t);
      if s.out == Ok(Null) then Engine.ChainFrom(w, fuel, g, q, c, s.next) else s
    decreases |p|
  {
    if p == [] {
      assert p + q == q;
    } else {
      assert (p + q)[0] == p[0];
      assert (p + q)[1..] == p[1..] + q;
      var s := Engine.Apply(w, fuel, g, p[0], c, t);
      if s.out == Ok(Null) {
        ChainAppend(w, fuel, g, p[1..], q, c, s.next);
      }
    }
  }

  /** The chain's answer is `null` only when every factory declined, and any
      other answer is the answer of one factory after all earlier ones
      declined, at the call count they left. */
  lemma {:induction false} ChainAnswer(w: Engine.World, fuel: nat, g: set<ClassName>,
                                       fs: seq<Engine.Factory>, c: ClassName, t: nat)
    requires fuel > 0
    ensures var s := Engine.ChainFrom(w, fuel, g, fs, c, t);
      s.out != Ok(Null) ==>
        exists i, u | 0 <= i < |fs| ::
          Engine.ChainFrom(w, fuel, g, fs[..i], c, t) == Step(Ok(Null), u) &&
          Engine.Apply(w, fuel, g, fs[i], c, u) == s
    decreases |fs|
  {
    var s := Engine.ChainFrom(w, fuel, g, fs, c, t);
    if fs != [] && s.out != Ok(Null) {
      var a := Engine.Apply(w, fuel, g, fs[0], c, t);
      assert fs[..0] == [];
      if a.out == Ok(Null) {
        ChainAnswer(w, fuel, g, fs[1..], c, a.next);
        var i, u :| 0 <= i < |fs[1..]| &&
          Engine.ChainFrom(w, fuel, g, fs[1..][..i], c, a.next) == Step(Ok(Null), u) &&
          Engine.Apply(w, fuel, g, fs[1..][i], c, u) == s;
        ChainAppend(w, fuel, g, [fs[0]], fs[1..][..i], c, t);
        assert [fs[0]] + fs[1..][..i] == fs[..i + 1];
        assert Engine.ChainFrom(w, fuel, g, [fs[0]], c, t) == a by {
          assert [fs[0]][1..] == [];
        }
      } else {
        assert Engine.ChainFrom(w, fuel, g, fs[..0], c, t) == Step(Ok(Null), t);
      }
    }
  }

  /** An empty chain always gives `null`. */
  lemma EmptyChainNull(w: Engine.World, fuel: nat, g: set<ClassName>, c: ClassName, t: nat)
    requires w.chain == [] && fuel > 0
    ensures Engine.Create(w, fuel, g, c, t) == Step(Ok(Null), t)
  {
  }

  /** The default chain: a registered class whose supplier gives an object
      is answered by that supplier, even an array or enum class; a registered
      class whose supplier gives `null` goes on to the array, enum and POJO
      factories after that one call; an
      unregistered array class by the array factory; an unregistered non-empty
      enum by the enum factory; anything else by the POJO factory (which gives
      `null` for an enum without constants and for an interface). */
  lemma DefaultChainOrder(w: Engine.World, fuel: nat, g: set<ClassName>, c: ClassName, t: nat)
    requires w.chain == Engine.DEFAULT_CHAIN && fuel > 0
    ensures c in w.suppliers && Supply(w.suppliers[c], w.draw, t) != Null ==>
      Engine.Create(w, fuel, g, c, t) == Step(Ok(Supply(w.suppliers[c], w.draw, t)), t + 1)
    ensures c in w.suppliers && Supply(w.suppliers[c], w.draw, t) == Null ==>
      Engine.Create(w, fuel, g, c, t) == Engine.ChainFrom(w, fuel, g, Engine.DEFAULT_CHAIN[1..], c, t + 1)
    ensures c !in w.suppliers && w.classOf(c).isArray ==>
      Engine.Create(w, fuel, g, c, t) == Engine.ArrayCreate(w, fuel - 1, g, c, t)
    ensures c !in w.suppliers && !w.classOf(c).isArray && w.classOf(c).isEnum && w.classOf(c).enumConstants > 0 ==>
      Engine.Create(w, fuel, g, c, t) == Step(Ok(EnumConstant(c, w.draw(t) % w.classOf(c).enumConstants)), t + 1)
    ensures c !in w.suppliers && !w.classOf(c).isArray && !(w.classOf(c).isEnum && w.classOf(c).enumConstants > 0) ==>
      Engine.Create(w, fuel, g, c, t) == Engine.PojoCreate(w, fuel - 1, g, c, t)
  {
    var d := w.classOf(c);
    var fs := w.chain;
    assert fs[1..] == [Engine.ObjectArray, Engine.Enumeration, Engine.Pojo];
    assert fs[1..][1..] == [Engine.Enumeration, Engine.Pojo];
    assert fs[1..][1..][1..] == [Engine.Pojo];
    assert fs[1..][1..][1..][1..] == [];
    if c in w.suppliers && Supply(w.suppliers[c], w.draw, t) != Null {
      assert Engine.Apply(w, fuel, g, fs[0], c, t) == Step(Ok(Supply(w.suppliers[c], w.draw, t)), t + 1);
    }
    if c in w.suppliers && Supply(w.suppliers[c], w.draw, t) == Null {
      assert Engine.Apply(w, fuel, g, fs[0], c, t) == Step(Ok(Null), t + 1);
    }
    if c !in w.suppliers {
      assert Engine.Apply(w, fuel, g, fs[0], c, t) == Step(Ok(Null), t);
      if d.isArray {
        ArrayNeverNull(w, fuel - 1, g, c, t);
        assert Engine.ChainFrom(w, fuel, g, fs[1..], c, t) == Engine.ArrayCreate(w, fuel - 1, g, c, t);
      } else {
        assert Engine.Apply(w, fuel, g, fs[1..][0], c, t) == Step(Ok(Null), t);
        assert Engine.ChainFrom(w, fuel, g, fs[1..], c, t) == Engine.ChainFrom(w, fuel, g, fs[1..][1..], c, t);
        if !(d.isEnum && d.enumConstants > 0) {
          assert Engine.Apply(w, fuel, g, fs[1..][1..][0], c, t) == Step(Ok(Null), t);
        } else {
          assert Engine.Apply(w, fuel, g, fs[1..][1..][0], c, t).out != Ok(Null);
        }
        if !(d.isEnum && d.enumConstants > 0) {
          assert Engine.ChainFrom(w, fuel, g, fs[1..][1..], c, t) == Engine.ChainFrom(w, fuel, g, fs[1..][1..][1..], c, t);
          var p := Engine.PojoCreate(w, fuel - 1, g, c, t);
          assert Engine.ChainFrom(w, fuel, g, fs[1..][1..][1..], c, t) == p by {
            if p.out == Ok(Null) {
              assert Engine.ChainFrom(w, fuel, g, fs[1..][1..][1..][1..], c, p.next) == Step(Ok(Null), p.next);
            }
          }
        }
      }
    }
  }

  /** An array class never makes the array factory answer `null`. */
  lemma ArrayNeverNull(w: Engine.World, fuel: nat, g: set<ClassName>, c: ClassName, t: nat)
    requires w.classOf(c).isArray
    ensures Engine.ArrayCreate(w, fuel, g, c, t).out != Ok(Null)
  {
  }
}
