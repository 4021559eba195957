/** `DefaultClassSpy`: the constructor with the fewest parameters, and the
    public methods whose name starts with a prefix. */
module DefaultClassSpy {
  import opened Types

  /** Constructor `i` is the one `findConstructor` must pick: it has fewer
      parameters than the initial bound `Integer.MAX_VALUE`, no constructor has
      fewer, and every constructor before it has strictly more. */
  ghost predicate IsFewest(ctors: seq<CtorInfo>, i: nat)
  {
    i < |ctors| && |ctors[i].params| < INT_MAX &&
    (forall k | 0 <= k < |ctors| :: |ctors[i].params| <= |ctors[k].params|) &&
    (forall k | 0 <= k < i :: |ctors[i].params| < |ctors[k].params|)
  }

  /** The state of the source's scan after looking at `ctors[..i]`: the
      current minimum `min` and the constructor chosen so far. */
  function FewestFrom(ctors: seq<CtorInfo>, i: nat, min: int, best: Option<nat>): Option<nat>
    requires i <= |ctors|
    decreases |ctors| - i
  {
    if i == |ctors| then best
    else if |ctors[i].params| < min then FewestFrom(ctors, i + 1, |ctors[i].params|, Some(i))
    else FewestFrom(ctors, i + 1, min, best)
  }

  /** What the scan has established after `ctors[..i]`. */
  ghost predicate ScanState(ctors: seq<CtorInfo>, i: nat, min: int, best: Option<nat>)
  {
    i <= |ctors| &&
    match best
    case None =>
      min == INT_MAX && forall k | 0 <= k < i :: |ctors[k].params| >= INT_MAX
    case Some(b) =>
      b < i && min == |ctors[b].params| < INT_MAX &&
      (forall k | 0 <= k < i :: min <= |ctors[k].params|) &&
      (forall k | 0 <= k < b :: min < |ctors[k].params|)
  }

  lemma {:induction false} FewestFromCorrect(ctors: seq<CtorInfo>, i: nat, min: int, best: Option<nat>)
    requires ScanState(ctors, i, min, best)
    ensures var r := FewestFrom(ctors, i, min, best);
      (r.None? <==> forall k | 0 <= k < |ctors| :: |ctors[k].params| >= INT_MAX) &&
      (r.Some? ==> IsFewest(ctors, r.value))
    decreases |ctors| - i
  {
    if i < |ctors| {
      if |ctors[i].params| < min {
        FewestFromCorrect(ctors, i + 1, |ctors[i].params|, Some(i));
      } else {
        FewestFromCorrect(ctors, i + 1, min, best);
      }
    } else if best.Some? {
      assert IsFewest(ctors, best.value);
    }
  }

  /** The constructor `findConstructor` returns, as an index into the declared
      constructors; `None` is the `null` it returns when there is none. */
  function FewestParameters(ctors: seq<CtorInfo>): (r: Option<nat>)
    ensures r.None? <==> forall k | 0 <= k < |ctors| :: |ctors[k].params| >= INT_MAX
    ensures r.Some? ==> IsFewest(ctors, r.value)
  {
    FewestFromCorrect(ctors, 0, INT_MAX, None);
    FewestFrom(ctors, 0, INT_MAX, None)
  }

  /** `findConstructor`: one pass that keeps the first constructor with a
      strictly smaller parameter count. */
  method FindConstructor(ctors: seq<CtorInfo>) returns (result: Option<nat>)
    ensures result == FewestParameters(ctors)
  {
    var minNumberOfParameter: int := INT_MAX;
    result := None;
    var i := 0;
    while i < |ctors|
      invariant i <= |ctors|
      invariant FewestFrom(ctors, i, minNumberOfParameter, result) == FewestParameters(ctors)
    {
      if |ctors[i].params| < minNumberOfParameter {
        minNumberOfParameter := |ctors[i].params|;
        result := Some(i);
      }
      i := i + 1;
    }
  }

  /** Constructors `(int)` and `(int, int)`: the one-parameter constructor wins. */
  lemma FewestOfTwo(one: JType, two: JType)
    ensures FewestParameters([CtorInfo([one], false), CtorInfo([one, two], false)]) == Some(0)
  {
    var ctors := [CtorInfo([one], false), CtorInfo([one, two], false)];
    var r := FewestParameters(ctors);
    assert r.Some?;
    assert r.value != 1 by {
      if r.value == 1 { assert |ctors[r.value].params| <= |ctors[0].params|; }
    }
  }

  /** The methods of `ms` whose name starts with `prefix`, in their order in `ms`. */
  function WithPrefix(ms: seq<MethodInfo>, prefix: string): (r: seq<MethodInfo>)
    ensures forall m :: m in r <==> m in ms && prefix <= m.name
    ensures |r| <= |ms|
  {
    if ms == [] then []
    else
      var init := ms[..|ms| - 1];
      var last := ms[|ms| - 1];
      assert ms == init + [last];
      WithPrefix(init, prefix) + (if prefix <= last.name then [last] else [])
  }

  /** Filtering distributes over concatenation: the order of `ms` is kept. */
  lemma {:induction false} WithPrefixAppend(a: seq<MethodInfo>, b: seq<MethodInfo>, prefix: string)
    ensures WithPrefix(a + b, prefix) == WithPrefix(a, prefix) + WithPrefix(b, prefix)
    decreases |b|
  {
    if b != [] {
      var init := b[..|b| - 1];
      assert (a + b)[..|a + b| - 1] == a + init;
      WithPrefixAppend(a, init, prefix);
    } else {
      assert a + b == a;
    }
  }

  /** `findMethods`: one pass over `getMethods()` appending each match. */
  method FindMethods(methods: seq<MethodInfo>, namePrefix: string) returns (methodsWithPrefix: seq<MethodInfo>)
    ensures methodsWithPrefix == WithPrefix(methods, namePrefix)
  {
    methodsWithPrefix := [];
    var i := 0;
    while i < |methods|
      invariant i <= |methods|
      invariant methodsWithPrefix == WithPrefix(methods[..i], namePrefix)
    {
      assert methods[..i + 1][..i] == methods[..i];
      if namePrefix <= methods[i].name {
        methodsWithPrefix := methodsWithPrefix + [methods[i]];
      }
      i := i + 1;
    }
    assert methods[..i] == methods;
  }

  /** Methods `ab` and `abc`: prefix "ab" keeps both, prefix "abc" keeps `abc` only. */
  lemma PrefixExamples(ab: MethodInfo, abc: MethodInfo)
    requires ab.name == "ab" && abc.name == "abc"
    ensures WithPrefix([ab, abc], "ab") == [ab, abc]
    ensures WithPrefix([ab, abc], "abc") == [abc]
  {
    assert [ab, abc][..1] == [ab];
    assert [ab][..0] == [];
  }
}
