/** The proxy invocation handler (`Handler`, and the identical handler nested
    in `ProxyObjectFactory`): a call on a proxy is answered from the
    per-method override table when the method's name is in it, and otherwise
    by resolving the method's return type. */
module Handler {
  import opened Types
  import Engine
  import ProxyObjectFactory

  /** A handler: the typed resolver it delegates to (a
      `DefaultTypedObjectFactory` over the world's chain) and the override
      table, keyed by method name. */
  datatype Handler = Handler(resolver: Engine.World, pmSuppliers: map<string, Supplier>)

  /** `handleInvocation(proxy, method, args)`: an override-table hit returns
      that supplier's value at the cost of one external call and does not
      touch the resolver; a miss is the resolver's answer for the return type. */
  function HandleInvocation(h: Handler, fuel: nat, g: set<ClassName>, m: MethodInfo, t: nat): (s: Step)
    ensures m.name in h.pmSuppliers ==>
      s == Step(Ok(Supply(h.pmSuppliers[m.name], h.resolver.draw, t)), t + 1)
    ensures m.name !in h.pmSuppliers ==>
      s == Engine.Create(h.resolver, fuel, g, m.returnClass, t)
  {
    if m.name in h.pmSuppliers then Step(Ok(Supply(h.pmSuppliers[m.name], h.resolver.draw, t)), t + 1)
    else Engine.CreateTyped(h.resolver, fuel, g, ClassType(m.returnClass), t)
  }

  /** Lookup is by name only: two methods with the same name (overloads, or
      methods with different return types) get the same override value. */
  lemma NameOnly(h: Handler, fuel: nat, g: set<ClassName>, m1: MethodInfo, m2: MethodInfo, t: nat)
    requires m1.name == m2.name && m1.name in h.pmSuppliers
    ensures HandleInvocation(h, fuel, g, m1, t) == HandleInvocation(h, fuel, g, m2, t)
  {
  }

  /** A hit does not consult the resolver: handlers that share the override
      table and the external calls, but resolve over different class
      descriptions and chains, answer alike. */
  lemma HitIgnoresResolver(h1: Handler, h2: Handler, fuel: nat, g: set<ClassName>, m: MethodInfo, t: nat)
    requires h1.pmSuppliers == h2.pmSuppliers && h1.resolver.draw == h2.resolver.draw
    requires m.name in h1.pmSuppliers
    ensures HandleInvocation(h1, fuel, g, m, t) == HandleInvocation(h2, fuel, g, m, t)
  {
  }

  /** `ProxyObjectFactory.create(factory, pmSuppliers)`: the handler over a
      typed factory of the given factory's world. */
  function Wire(w: Engine.World, pmSuppliers: map<string, Supplier>): (h: Handler)
    ensures h.resolver == w && h.pmSuppliers == pmSuppliers
  {
    Handler(w, pmSuppliers)
  }

  /** A proxy made by `ProxyObjectFactory` for interface `iface` routes each
      call to the wired handler: a miss is exactly what the top-level chain
      creates for the return class, a hit the override value; a class that is
      not an interface is refused before any proxy exists. */
  lemma ProxyRouting(w: Engine.World, pm: map<string, Supplier>, iface: ClassName,
                     m: MethodInfo, fuel: nat, t: nat)
    ensures !w.classOf(iface).isInterface ==>
      ProxyObjectFactory.Create(w.classOf(iface), iface) == Thrown(IllegalArgument)
    ensures w.classOf(iface).isInterface ==>
      && ProxyObjectFactory.Create(w.classOf(iface), iface) == Ok(InterfaceProxy(iface))
      && (m.name !in pm ==>
            HandleInvocation(Wire(w, pm), fuel, {}, m, t) == Engine.Create(w, fuel, {}, m.returnClass, t))
      && (m.name in pm ==>
            HandleInvocation(Wire(w, pm), fuel, {}, m, t).out == Ok(Supply(pm[m.name], w.draw, t)))
  {
  }

  /** Proxies are lazy: a method of interface `iface` that returns `iface`
      itself, on a world whose chain is the interface proxy gate, answers with
      another proxy of `iface` instead of recursing without end. */
  lemma SelfReturningProxy(w: Engine.World, pm: map<string, Supplier>, iface: ClassName,
                           m: MethodInfo, fuel: nat, t: nat)
    requires w.chain == [Engine.InterfaceProxyGate] && w.classOf(iface).isInterface
    requires m.returnClass == iface && m.name !in pm && fuel >= 1
    ensures HandleInvocation(Wire(w, pm), fuel, {}, m, t) == Step(Ok(InterfaceProxy(iface)), t)
  {
    var none: set<ClassName> := {};
    assert Engine.Apply(w, fuel, none, Engine.InterfaceProxyGate, iface, t) == Step(Ok(InterfaceProxy(iface)), t);
    assert Engine.ChainFrom(w, fuel, none, w.chain, iface, t) == Step(Ok(InterfaceProxy(iface)), t);
    assert Engine.Create(w, fuel, none, iface, t) == Step(Ok(InterfaceProxy(iface)), t);
  }
}
