/** `InterfaceFactory`: an interface is created as the first of its concrete
    subtypes that the delegate can create, with a per-instance guard against
    looking up an interface while it is already being looked up. */
module InterfaceFactory {
  import opened Types
  import Engine
  import InterfaceCandidates
  import Spy = DefaultClassSpy

  class InterfaceFactory {
    /** The interfaces whose lookup is under way. */
    var classesInProgress: set<ClassName>

    constructor()
      ensures classesInProgress == {}
    {
      classesInProgress := {};
    }

    /** `create`: the guard, then `createInternal` with the class marked in
        progress, and the mark removed again whatever the outcome. */
    method Create(w: Engine.World, fuel: nat, c: ClassName, t: nat) returns (s: Step)
      modifies this
      ensures classesInProgress == old(classesInProgress)
      ensures s == Engine.InterfaceCreate(w, fuel, old(classesInProgress), c, t)
    {
      var d := w.classOf(c);
      if !d.isInterface || c in classesInProgress {
        return Step(Ok(Null), t);
      }
      classesInProgress := classesInProgress + {c};
      s := Engine.TryCandidates(w, fuel, classesInProgress, InterfaceCandidates.Candidates(w.classOf, d.subtypes), t);
      classesInProgress := classesInProgress - {c};
      assert classesInProgress == old(classesInProgress);
    }
  }

  /** `findFirst` over the candidates: a non-null answer (or an exception) is
      the delegate's answer for one candidate, after every earlier candidate
      gave `null`. */
  lemma {:induction false} FirstAnswer(w: Engine.World, fuel: nat, g: set<ClassName>, cs: seq<ClassName>, t: nat)
    ensures var s := Engine.TryCandidates(w, fuel, g, cs, t);
      s.out != Ok(Null) ==>
        exists i, u | 0 <= i < |cs| ::
          Engine.TryCandidates(w, fuel, g, cs[..i], t) == Step(Ok(Null), u) &&
          Engine.Create(w, fuel, g, cs[i], u) == s
    decreases |cs|
  {
    var s := Engine.TryCandidates(w, fuel, g, cs, t);
    if cs != [] && s.out != Ok(Null) {
      var a := Engine.Create(w, fuel, g, cs[0], t);
      assert cs[..0] == [];
      if a.out == Ok(Null) {
        FirstAnswer(w, fuel, g, cs[1..], a.next);
        var i, u :| 0 <= i < |cs[1..]| &&
          Engine.TryCandidates(w, fuel, g, cs[1..][..i], a.next) == Step(Ok(Null), u) &&
          Engine.Create(w, fuel, g, cs[1..][i], u) == s;
        TriedPrefix(w, fuel, g, cs, i + 1, t);
        assert cs[..i + 1][1..] == cs[1..][..i];
      } else {
        assert Engine.TryCandidates(w, fuel, g, cs[..0], t) == Step(Ok(Null), t);
      }
    }
  }

  /** One more candidate in front of a prefix that gives `null`. */
  lemma TriedPrefix(w: Engine.World, fuel: nat, g: set<ClassName>, cs: seq<ClassName>, n: nat, t: nat)
    requires 0 < n <= |cs|
    requires Engine.Create(w, fuel, g, cs[0], t).out == Ok(Null)
    ensures Engine.TryCandidates(w, fuel, g, cs[..n], t) ==
      Engine.TryCandidates(w, fuel, g, cs[..n][1..], Engine.Create(w, fuel, g, cs[0], t).next)
  {
    assert cs[..n][0] == cs[0];
  }

  /** `create` end to end: a non-interface, or an interface already in
      progress, gives `null` with no lookup at all; otherwise a non-null
      answer is the delegate's answer, with the interface in progress, for
      one of its subtypes that is not deprecated, every candidate before it
      having given `null`; and the candidates come public ones first. */
  lemma InterfaceContract(w: Engine.World, fuel: nat, g: set<ClassName>, c: ClassName, t: nat)
    ensures var s := Engine.InterfaceCreate(w, fuel, g, c, t);
      var d := w.classOf(c);
      var cs := InterfaceCandidates.Candidates(w.classOf, d.subtypes);
      && (!d.isInterface || c in g ==> s == Step(Ok(Null), t))
      && (d.isInterface && c !in g && s.out != Ok(Null) ==>
            exists i, u | 0 <= i < |cs| ::
              && cs[i] in d.subtypes && !w.classOf(cs[i]).deprecated
              && Engine.TryCandidates(w, fuel, g + {c}, cs[..i], t) == Step(Ok(Null), u)
              && Engine.Create(w, fuel, g + {c}, cs[i], u) == s)
      && (forall i, j | 0 <= i < j < |cs| :: w.classOf(cs[j]).isPublic ==> w.classOf(cs[i]).isPublic)
  {
    var d := w.classOf(c);
    var cs := InterfaceCandidates.Candidates(w.classOf, d.subtypes);
    if d.isInterface && c !in g {
      FirstAnswer(w, fuel, g + {c}, cs, t);
      var s := Engine.InterfaceCreate(w, fuel, g, c, t);
      if s.out != Ok(Null) {
        var i, u :| 0 <= i < |cs| &&
          Engine.TryCandidates(w, fuel, g + {c}, cs[..i], t) == Step(Ok(Null), u) &&
          Engine.Create(w, fuel, g + {c}, cs[i], u) == s;
        assert cs[i] in cs;
      }
    }
  }

  /** The guard at work: an interface `I` whose only implementation `A` takes
      an `I` in its constructor. Looking up `I` builds an `A`; the nested
      lookup of `I` for the constructor argument finds `I` in progress and
      gives `null`, so the recursion stops whatever the stack depth. */
  lemma GuardBreaksCycle(w: Engine.World, fuel: nat, iface: ClassName, impl: ClassName, t: nat)
    requires w.chain == [Engine.Implementation, Engine.Pojo]
    requires fuel >= 3
    requires w.classOf(iface).isInterface && w.classOf(iface).subtypes == [impl]
    requires var a := w.classOf(impl);
      && !a.isInterface && !a.isEnum && !a.isAbstract && !a.deprecated
      && a.ctors == [CtorInfo([ClassType(iface)], false)] && a.methods == []
    ensures Engine.Create(w, fuel, {}, iface, t) == Step(Ok(Instance(impl, [Null], [])), t)
  {
    var none: set<ClassName> := {};
    ImplementationBuilt(w, fuel - 1, iface, impl, t);
    OnlySubtype(w, fuel - 1, iface, impl, t);
    FirstInChain(w, fuel, none, iface, t);
  }

  /** An interface whose one subtype is not deprecated is created as that
      subtype, with the interface in progress, when that gives an object. */
  lemma OnlySubtype(w: Engine.World, fuel: nat, iface: ClassName, impl: ClassName, t: nat)
    requires w.classOf(iface).isInterface && w.classOf(iface).subtypes == [impl]
    requires !w.classOf(impl).deprecated
    requires Engine.Create(w, fuel, {iface}, impl, t).out != Ok(Null)
    ensures Engine.InterfaceCreate(w, fuel, {}, iface, t) == Engine.Create(w, fuel, {iface}, impl, t)
  {
    var none: set<ClassName> := {};
    assert none + {iface} == {iface};
    InterfaceCandidates.SingleCandidate(w.classOf, impl);
    assert Engine.TryCandidates(w, fuel, {iface}, [impl], t) == Engine.Create(w, fuel, {iface}, impl, t);
  }

  /** With the implementation factory first in the chain, its non-null
      answer is the chain's answer. */
  lemma FirstInChain(w: Engine.World, fuel: nat, g: set<ClassName>, c: ClassName, t: nat)
    requires fuel > 0 && w.chain != [] && w.chain[0] == Engine.Implementation
    requires Engine.InterfaceCreate(w, fuel - 1, g, c, t).out != Ok(Null)
    ensures Engine.Create(w, fuel, g, c, t) == Engine.InterfaceCreate(w, fuel - 1, g, c, t)
  {
    assert Engine.Apply(w, fuel, g, w.chain[0], c, t) == Engine.InterfaceCreate(w, fuel - 1, g, c, t);
  }

  /** The nested lookup of `I`, with `I` in progress, gives `null`. */
  lemma NestedLookupNull(w: Engine.World, fuel: nat, iface: ClassName, t: nat)
    requires w.chain == [Engine.Implementation, Engine.Pojo]
    requires fuel >= 1 && w.classOf(iface).isInterface
    ensures Engine.Create(w, fuel, {iface}, iface, t) == Step(Ok(Null), t)
  {
    var fs := w.chain;
    assert fs[1..] == [Engine.Pojo] && fs[1..][1..] == [];
    assert Engine.Apply(w, fuel, {iface}, Engine.Implementation, iface, t) == Step(Ok(Null), t);
    assert Engine.Apply(w, fuel, {iface}, Engine.Pojo, iface, t) == Step(Ok(Null), t);
    assert Engine.ChainFrom(w, fuel, {iface}, fs[1..][1..], iface, t) == Step(Ok(Null), t);
    assert Engine.ChainFrom(w, fuel, {iface}, fs[1..], iface, t) == Step(Ok(Null), t);
  }

  /** With `I` in progress, `A` is built through the chain with `null` for
      its constructor argument. */
  lemma ImplementationBuilt(w: Engine.World, fuel: nat, iface: ClassName, impl: ClassName, t: nat)
    requires w.chain == [Engine.Implementation, Engine.Pojo]
    requires fuel >= 2 && w.classOf(iface).isInterface
    requires var a := w.classOf(impl);
      && !a.isInterface && !a.isEnum && !a.isAbstract
      && a.ctors == [CtorInfo([ClassType(iface)], false)] && a.methods == []
    ensures Engine.Create(w, fuel, {iface}, impl, t) == Step(Ok(Instance(impl, [Null], [])), t)
  {
    var obj := Step(Ok(Instance(impl, [Null], [])), t);
    var fs := w.chain;
    assert fs[1..] == [Engine.Pojo] && fs[1..][1..] == [];
    NestedLookupNull(w, fuel - 1, iface, t);
    assert Engine.CreateTyped(w, fuel - 1, {iface}, ClassType(iface), t) == Step(Ok(Null), t);
    assert [ClassType(iface)][1..] == [];
    assert Engine.CtorArgs(w, fuel - 1, {iface}, [ClassType(iface)], [], t) == Step(Ok(ListOf([Null])), t);
    assert Spy.FewestParameters(w.classOf(impl).ctors) == Some(0);
    assert Engine.CreateObject(w, fuel - 1, {iface}, impl, t) == obj;
    assert Spy.WithPrefix([], "set") == [];
    assert Engine.PojoCreate(w, fuel - 1, {iface}, impl, t) == obj;
    assert Engine.Apply(w, fuel, {iface}, Engine.Implementation, impl, t) == Step(Ok(Null), t);
    assert Engine.Apply(w, fuel, {iface}, Engine.Pojo, impl, t) == obj;
    assert Engine.ChainFrom(w, fuel, {iface}, fs[1..], impl, t) == obj;
  }
}
