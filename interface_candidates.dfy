/** The candidate pipeline of `InterfaceFactory.createInternal`: drop the
    `@Deprecated` subtypes, then sort public classes first with a stable sort. */
module InterfaceCandidates {
  import opened Types

  /** The elements of `ts` that `keep` accepts, in their order in `ts`. */
  function Filter(ts: seq<ClassName>, keep: ClassName -> bool): (r: seq<ClassName>)
    ensures forall c :: c in r <==> c in ts && keep(c)
    ensures |r| <= |ts|
  {
    if ts == [] then [] else (if keep(ts[0]) then [ts[0]] else []) + Filter(ts[1..], keep)
  }

  /** Splitting by a predicate and its negation loses and adds nothing. */
  lemma {:induction false} FilterSplit(ts: seq<ClassName>, keep: ClassName -> bool, drop: ClassName -> bool)
    requires forall c :: drop(c) == !keep(c)
    ensures multiset(Filter(ts, keep)) + multiset(Filter(ts, drop)) == multiset(ts)
  {
    if ts != [] {
      var k := Filter(ts[1..], keep);
      var d := Filter(ts[1..], drop);
      FilterSplit(ts[1..], keep, drop);
      assert multiset(ts) == multiset{ts[0]} + multiset(ts[1..]) by {
        assert ts == [ts[0]] + ts[1..];
      }
      if keep(ts[0]) {
        assert Filter(ts, keep) == [ts[0]] + k;
        assert multiset([ts[0]] + k) == multiset{ts[0]} + multiset(k);
        assert Filter(ts, drop) == d;
      } else {
        assert Filter(ts, keep) == k;
        assert Filter(ts, drop) == [ts[0]] + d;
        assert multiset([ts[0]] + d) == multiset{ts[0]} + multiset(d);
      }
    }
  }

  /** The `Modifier.PUBLIC` bit of a class. */
  function PublicBit(classOf: ClassName -> ClassDesc, c: ClassName): int
  {
    if classOf(c).isPublic then 1 else 0
  }

  /** The comparator `publicClassesFirst`: negative when `one` must come first. */
  function PublicClassesFirst(classOf: ClassName -> ClassDesc, one: ClassName, two: ClassName): int
  {
    PublicBit(classOf, two) - PublicBit(classOf, one)
  }

  /** `filter(e -> !e.isAnnotationPresent(Deprecated.class))`. */
  function NotDeprecated(classOf: ClassName -> ClassDesc, ts: seq<ClassName>): (r: seq<ClassName>)
    ensures forall c :: c in r <==> c in ts && !classOf(c).deprecated
  {
    Filter(ts, c => !classOf(c).deprecated)
  }

  /** `sorted(publicClassesFirst)`: a stream sort of an ordered stream is
      stable, so the public classes in their order, then the others in theirs. */
  function PublicFirst(classOf: ClassName -> ClassDesc, ts: seq<ClassName>): (r: seq<ClassName>)
    ensures multiset(r) == multiset(ts)
    ensures forall i, j | 0 <= i < j < |r| :: PublicClassesFirst(classOf, r[i], r[j]) <= 0
  {
    var isPublic := c => classOf(c).isPublic;
    var notPublic := c => !classOf(c).isPublic;
    var pub := Filter(ts, isPublic);
    var rest := Filter(ts, notPublic);
    FilterSplit(ts, isPublic, notPublic);
    assert forall i | 0 <= i < |pub| :: classOf(pub[i]).isPublic by {
      forall i | 0 <= i < |pub| ensures classOf(pub[i]).isPublic { assert pub[i] in pub; }
    }
    assert forall i | 0 <= i < |rest| :: !classOf(rest[i]).isPublic by {
      forall i | 0 <= i < |rest| ensures !classOf(rest[i]).isPublic { assert rest[i] in rest; }
    }
    pub + rest
  }

  /** The order in which `createInternal` hands subtypes to the delegate. */
  function Candidates(classOf: ClassName -> ClassDesc, subtypes: seq<ClassName>): (r: seq<ClassName>)
    ensures forall c :: c in r <==> c in subtypes && !classOf(c).deprecated
    ensures multiset(r) == multiset(NotDeprecated(classOf, subtypes))
    ensures forall i, j | 0 <= i < j < |r| :: classOf(r[j]).isPublic ==> classOf(r[i]).isPublic
  {
    var nd := NotDeprecated(classOf, subtypes);
    var r := PublicFirst(classOf, nd);
    assert forall c :: c in r <==> c in nd by {
      forall c ensures c in r <==> c in nd {
        assert c in r <==> c in multiset(r);
      }
    }
    assert forall i, j | 0 <= i < j < |r| :: classOf(r[j]).isPublic ==> classOf(r[i]).isPublic by {
      forall i, j | 0 <= i < j < |r| ensures classOf(r[j]).isPublic ==> classOf(r[i]).isPublic {
        assert PublicClassesFirst(classOf, r[i], r[j]) <= 0;
      }
    }
    r
  }

  /** A single subtype is the only candidate when it is not deprecated. */
  lemma SingleCandidate(classOf: ClassName -> ClassDesc, c: ClassName)
    requires !classOf(c).deprecated
    ensures Candidates(classOf, [c]) == [c]
  {
    var cs := Candidates(classOf, [c]);
    assert c in cs;
    assert |NotDeprecated(classOf, [c])| <= 1;
    assert |cs| == |multiset(cs)|;
  }
}
