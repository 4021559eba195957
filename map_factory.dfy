/** `DefaultMapFactory`: a `HashMap` filled with a drawn number of resolved
    key/value pairs. */
module DefaultMapFactory {
  import opened Types
  import MM = MinMaxIntegerSupplier
  import Engine

  /** `create(keyType, valueType)`: the put loop. */
  method Create(w: Engine.World, fuel: nat, g: set<ClassName>, keyType: JType, valueType: JType, t: nat)
    returns (s: Step)
    ensures s == Engine.MapCreate(w, fuel, g, keyType, valueType, t)
  {
    var m: map<Value, Value> := map[];
    var howMany := MM.Next(Engine.CONTAINER_SIZES, w.draw, t);
    var total := Engine.Iterations(howMany);
    var next: nat := t + 1;
    var i := 0;
    while i < howMany
      invariant 0 <= i && (howMany >= 0 ==> i <= howMany) && (howMany < 0 ==> i == 0)
      invariant Engine.FillMap(w, fuel, g, keyType, valueType, total - i, m, next)
             == Engine.FillMap(w, fuel, g, keyType, valueType, total, map[], t + 1)
    {
      var k := Engine.CreateTyped(w, fuel, g, keyType, next);
      if k.out.Thrown? {
        return k;
      }
      var v := Engine.CreateTyped(w, fuel, g, valueType, k.next);
      if v.out.Thrown? {
        return v;
      }
      m := m[k.out.value := v.out.value];
      next := v.next;
      i := i + 1;
    }
    s := Step(Ok(MapOf(m)), next);
  }

  /** The key/value pairs a run of the put loop resolves, key first, in loop
      order, or the exception that stops it. */
  datatype Pairs = Pairs(out: Result<seq<(Value, Value)>>, next: nat)

  function PairsOf(w: Engine.World, fuel: nat, g: set<ClassName>, keyType: JType, valueType: JType,
                   count: nat, t: nat): (r: Pairs)
    ensures r.out.Success? ==> |r.out.value| == count
    decreases count
  {
    if count == 0 then Pairs(Success([]), t)
    else
      var k := Engine.CreateTyped(w, fuel, g, keyType, t);
      if k.out.Thrown? then Pairs(Raised(k.out.failure), k.next)
      else
        var v := Engine.CreateTyped(w, fuel, g, valueType, k.next);
        if v.out.Thrown? then Pairs(Raised(v.out.failure), v.next)
        else
          var rest := PairsOf(w, fuel, g, keyType, valueType, count - 1, v.next);
          if rest.out.Raised? then rest
          else Pairs(Success([(k.out.value, v.out.value)] + rest.out.value), rest.next)
  }

  /** `map.put` of each pair in order. */
  function PutAll(m: map<Value, Value>, ps: seq<(Value, Value)>): map<Value, Value>
    decreases |ps|
  {
    if ps == [] then m else PutAll(m[ps[0].0 := ps[0].1], ps[1..])
  }

  /** The loop's map is the pairs put one after another into an empty map,
      and an exception while resolving stops it. */
  lemma {:induction false} FillMapIsPutAll(w: Engine.World, fuel: nat, g: set<ClassName>, keyType: JType, valueType: JType,
                                           count: nat, m: map<Value, Value>, t: nat)
    ensures var s := Engine.FillMap(w, fuel, g, keyType, valueType, count, m, t);
      var p := PairsOf(w, fuel, g, keyType, valueType, count, t);
      && s.next == p.next
      && (p.out.Success? ==> s.out == Ok(MapOf(PutAll(m, p.out.value))))
      && (p.out.Raised? ==> s.out == Thrown(p.out.failure))
    decreases count
  {
    if count > 0 {
      var k := Engine.CreateTyped(w, fuel, g, keyType, t);
      if k.out.Ok? {
        var v := Engine.CreateTyped(w, fuel, g, valueType, k.next);
        if v.out.Ok? {
          FillMapIsPutAll(w, fuel, g, keyType, valueType, count - 1, m[k.out.value := v.out.value], v.next);
          var rest := PairsOf(w, fuel, g, keyType, valueType, count - 1, v.next);
          if rest.out.Success? {
            var ps := [(k.out.value, v.out.value)] + rest.out.value;
            assert ps[1..] == rest.out.value;
          }
        }
      }
    }
  }

  /** Putting the pairs of `p` then those of `q` is putting `p + q`. */
  lemma {:induction false} PutAllAppend(m: map<Value, Value>, p: seq<(Value, Value)>, q: seq<(Value, Value)>)
    ensures PutAll(m, p + q) == PutAll(PutAll(m, p), q)
    decreases |p|
  {
    if p == [] {
      assert p + q == q;
    } else {
      assert (p + q)[0] == p[0];
      assert (p + q)[1..] == p[1..] + q;
      PutAllAppend(m[p[0].0 := p[0].1], p[1..], q);
    }
  }

  /** A repeated key overwrites: the last pair put for a key decides its value. */
  lemma LastPutWins(m: map<Value, Value>, ps: seq<(Value, Value)>, k: Value, v: Value)
    ensures k in PutAll(m, ps + [(k, v)]) && PutAll(m, ps + [(k, v)])[k] == v
  {
    PutAllAppend(m, ps, [(k, v)]);
    assert [(k, v)][1..] == [];
  }

  /** The keys of a sequence of pairs. */
  function Keys(ps: seq<(Value, Value)>): set<Value>
  {
    set i | 0 <= i < |ps| :: ps[i].0
  }

  lemma KeysCons(ps: seq<(Value, Value)>)
    requires ps != []
    ensures Keys(ps) == {ps[0].0} + Keys(ps[1..])
  {
    forall x | x in Keys(ps) ensures x == ps[0].0 || x in Keys(ps[1..]) {
      var i :| 0 <= i < |ps| && ps[i].0 == x;
      if i > 0 { assert ps[1..][i - 1].0 == x; }
    }
    forall x | x in Keys(ps[1..]) ensures x in Keys(ps) {
      var i :| 0 <= i < |ps[1..]| && ps[1..][i].0 == x;
      assert ps[i + 1].0 == x;
    }
    assert ps[0].0 in Keys(ps);
  }

  lemma PutGrowsByAtMostOne(m: map<Value, Value>, k: Value, v: Value)
    ensures |m[k := v]| <= |m| + 1
  {
    if k in m { assert m[k := v].Keys == m.Keys; } else { assert m[k := v].Keys == m.Keys + {k}; }
  }

  /** The map holds the old keys and the put keys, so at most one entry per put. */
  lemma {:induction false} PutAllKeys(m: map<Value, Value>, ps: seq<(Value, Value)>)
    ensures PutAll(m, ps).Keys == m.Keys + Keys(ps)
    ensures |PutAll(m, ps)| <= |m| + |ps|
    decreases |ps|
  {
    if ps == [] {
      assert Keys(ps) == {};
    } else {
      var m' := m[ps[0].0 := ps[0].1];
      PutAllKeys(m', ps[1..]);
      KeysCons(ps);
      PutGrowsByAtMostOne(m, ps[0].0, ps[0].1);
    }
  }

  /** With pairwise distinct keys not already in `m`, every put adds an
      entry: the size grows by exactly the number of pairs. */
  lemma {:induction false} PutAllDistinct(m: map<Value, Value>, ps: seq<(Value, Value)>)
    requires forall i, j | 0 <= i < j < |ps| :: ps[i].0 != ps[j].0
    requires forall i | 0 <= i < |ps| :: ps[i].0 !in m
    ensures |PutAll(m, ps)| == |m| + |ps|
    ensures forall i | 0 <= i < |ps| :: ps[i].0 in PutAll(m, ps) && PutAll(m, ps)[ps[i].0] == ps[i].1
    decreases |ps|
  {
    if ps != [] {
      var m' := m[ps[0].0 := ps[0].1];
      assert |m'| == |m| + 1 by { assert m'.Keys == m.Keys + {ps[0].0}; }
      forall i | 0 <= i < |ps[1..]| ensures ps[1..][i].0 !in m' {
        assert ps[1..][i] == ps[i + 1];
      }
      PutAllDistinct(m', ps[1..]);
      PutAllUntouched(m', ps[1..], ps[0].0);
      forall i | 1 <= i < |ps|
        ensures ps[i].0 in PutAll(m, ps) && PutAll(m, ps)[ps[i].0] == ps[i].1
      {
        assert ps[1..][i - 1] == ps[i];
      }
    }
  }

  /** A key no pair mentions keeps the value it had. */
  lemma {:induction false} PutAllUntouched(m: map<Value, Value>, ps: seq<(Value, Value)>, k: Value)
    requires k in m
    requires forall i | 0 <= i < |ps| :: ps[i].0 != k
    ensures k in PutAll(m, ps) && PutAll(m, ps)[k] == m[k]
    decreases |ps|
  {
    if ps != [] {
      PutAllUntouched(m[ps[0].0 := ps[0].1], ps[1..], k);
    }
  }

  /** `create` end to end: the size is drawn once (call `t`) before any key;
      the result is the resolved pairs put into a new map, so it has at most
      as many entries as puts, and exactly as many, each with its value, when
      the resolved keys are distinct. */
  lemma MapContract(w: Engine.World, fuel: nat, g: set<ClassName>, keyType: JType, valueType: JType, t: nat)
    ensures var s := Engine.MapCreate(w, fuel, g, keyType, valueType, t);
      var howMany := Engine.Iterations(MM.Next(Engine.CONTAINER_SIZES, w.draw, t));
      var p := PairsOf(w, fuel, g, keyType, valueType, howMany, t + 1);
      && s.out != Ok(Null)
      && (p.out.Success? ==>
            && s.out == Ok(MapOf(PutAll(map[], p.out.value)))
            && |s.out.value.entries| <= howMany
            && ((forall i, j | 0 <= i < j < |p.out.value| :: p.out.value[i].0 != p.out.value[j].0) ==>
                  |s.out.value.entries| == howMany))
      && (p.out.Raised? ==> s.out == Thrown(p.out.failure))
  {
    var howMany := Engine.Iterations(MM.Next(Engine.CONTAINER_SIZES, w.draw, t));
    var p := PairsOf(w, fuel, g, keyType, valueType, howMany, t + 1);
    FillMapIsPutAll(w, fuel, g, keyType, valueType, howMany, map[], t + 1);
    if p.out.Success? {
      PutAllKeys(map[], p.out.value);
      if forall i, j | 0 <= i < j < |p.out.value| :: p.out.value[i].0 != p.out.value[j].0 {
        PutAllDistinct(map[], p.out.value);
      }
    }
  }
}
