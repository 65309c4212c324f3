/** The exporting side of the generated configuration: gateway hosts, Envoy filters and OpenShift routes. */
module Router {
  import opened Types
  import opened Naming
  import opened Collections
  import opened Ordering
  import opened Export

  datatype EnvoyFilter = EnvoyFilter(key: Key, selector: Labels, listener: string, matchSni: string, serverName: string)

  datatype Route = Route(key: Key, host: string, targetPort: string)

  function Dashed(svc: Key): string {
    svc.name + "-" + svc.namespace
  }

  /** What the names of the objects for a port of a service are built from. */
  function PortName(svc: Key, port: int32): string {
    Dashed(svc) + "-" + SignedDecimal(port)
  }

  function MakeFilter(cfg: Federation, svc: Key, port: int32): EnvoyFilter {
    EnvoyFilter(Key(cfg.local.controlPlaneNamespace, "sni-" + PortName(svc, port)),
                cfg.local.ingressSelector,
                "0.0.0.0_" + Decimal(cfg.local.ingressPortNumber),
                "outbound_." + SignedDecimal(port) + "_._." + Hostname(svc.name, svc.namespace),
                RouterCompatibleSNI(svc.name, svc.namespace, ToUint32(port)))
  }

  function MakeRoute(cfg: Federation, svc: Key, port: int32): Route {
    Route(Key(cfg.local.controlPlaneNamespace, PortName(svc, port) + "-to-federation-ingress-gateway"),
          Hostname(svc.name + "-" + SignedDecimal(port), svc.namespace),
          cfg.local.ingressPortName)
  }

  function FilterMaker(cfg: Federation): (Key, int32) -> EnvoyFilter {
    (k: Key, port: int32) => MakeFilter(cfg, k, port)
  }

  function RouteMaker(cfg: Federation): (Key, int32) -> Route {
    (k: Key, port: int32) => MakeRoute(cfg, k, port)
  }

  function DiscoveryService(cfg: Federation): Key {
    Key("istio-system", "federation-discovery-service-" + cfg.local.name)
  }

  // ---------------------------------------------------------------- generation

  function ForPorts<T>(k: Key, ports: seq<Port>, make: (Key, int32) -> T): seq<T> {
    seq(|ports|, i requires 0 <= i < |ports| => make(k, ports[i].port))
  }

  /** One object per port of each listed service. */
  function PerPort<T>(items: seq<Item>, make: (Key, int32) -> T): seq<T> {
    if items == [] then []
    else
      var n := |items| - 1;
      PerPort(items[..n], make) + ForPorts(items[n].0, items[n].1.ports, make)
  }

  /** The filters for listed services: one for the discovery service, then one per port. */
  function FiltersOf(cfg: Federation, items: seq<Item>): seq<EnvoyFilter> {
    [MakeFilter(cfg, DiscoveryService(cfg), DISCOVERY_PORT)] + PerPort(items, FilterMaker(cfg))
  }

  function RoutesOf(cfg: Federation, items: seq<Item>): seq<Route> {
    [MakeRoute(cfg, DiscoveryService(cfg), DISCOVERY_PORT)] + PerPort(items, RouteMaker(cfg))
  }

  /** What a listing that may fail contributes; a failed one counts as empty. */
  ghost predicate IsTolerantListing(lister: Lister, selector: Labels, items: seq<Item>) {
    if selector in lister.listFails then items == [] else IsListing(lister.cache, selector, items)
  }

  ghost predicate AreTolerantListings(listers: seq<Lister>, selectors: seq<Labels>, listings: seq<seq<Item>>) {
    && |listers| == |listings| == |selectors|
    && forall i | 0 <= i < |selectors| :: IsTolerantListing(listers[i], selectors[i], listings[i])
  }

  lemma TolerantOne(listers: seq<Lister>, selectors: seq<Labels>, i: nat, listings: seq<seq<Item>>, items: seq<Item>)
    requires i < |selectors| == |listers| && AreTolerantListings(listers[..i], selectors[..i], listings)
    requires IsTolerantListing(listers[i], selectors[i], items)
    ensures AreTolerantListings(listers[..i + 1], selectors[..i + 1], listings + [items])
    ensures Concat(listings + [items]) == Concat(listings) + items
  {
    ConcatOne(listings, items);
    forall j | 0 <= j < i
      ensures IsTolerantListing(listers[..i + 1][j], selectors[..i + 1][j], (listings + [items])[j])
    {
      assert IsTolerantListing(listers[..i][j], selectors[..i][j], listings[j]);
    }
  }

  lemma NoneFailed(listers: seq<Lister>, selectors: seq<Labels>, listings: seq<seq<Item>>)
    requires AreTolerantListings(listers, selectors, listings)
    requires forall i | 0 <= i < |selectors| :: selectors[i] !in listers[i].listFails
    ensures AreListings(CachesOf(listers), selectors, listings)
  {
    forall i | 0 <= i < |selectors| ensures IsListing(CachesOf(listers)[i], selectors[i], listings[i]) {
      assert IsTolerantListing(listers[i], selectors[i], listings[i]);
    }
  }

  lemma PerPortOne<T>(items: seq<Item>, item: Item, make: (Key, int32) -> T)
    ensures PerPort(items + [item], make) == PerPort(items, make) + ForPorts(item.0, item.1.ports, make)
  {
    assert (items + [item])[..|items|] == items;
  }

  method AppendPerPort<T>(ghost done: seq<Item>, objects: seq<T>, items: seq<Item>, ghost first: seq<T>,
                          make: (Key, int32) -> T) returns (r: seq<T>)
    requires objects == first + PerPort(done, make)
    ensures r == first + PerPort(done + items, make)
  {
    r := objects;
    ghost var all := done;
    for i := 0 to |items|
      invariant all == done + items[..i]
      invariant r == first + PerPort(all, make)
    {
      var (k, svc) := items[i];
      ghost var before := r;
      for j := 0 to |svc.ports|
        invariant r == before + ForPorts(k, svc.ports, make)[..j]
      {
        r := r + [make(k, svc.ports[j].port)];
      }
      PerPortOne(all, items[i], make);
      NextPrefix(done, items, i);
      all := all + [items[i]];
    }
    assert all == done + items;
  }

  /** None unless the local ingress is the router; otherwise one for the discovery service and one per
      port of each exported service, as each listing finds it. */
  method EnvoyFilters(cfg: Federation, listers: seq<Lister>)
    returns (r: seq<EnvoyFilter>, ghost listings: seq<seq<Item>>)
    requires |listers| == |cfg.LabelSelectors()|
    ensures cfg.local.ingressType != OPENSHIFT_ROUTER ==> r == []
    ensures cfg.local.ingressType == OPENSHIFT_ROUTER ==>
              && AreTolerantListings(listers, cfg.LabelSelectors(), listings)
              && r == FiltersOf(cfg, Concat(listings))
  {
    listings := [];
    if cfg.local.ingressType != OPENSHIFT_ROUTER {
      return [], [];
    }
    var selectors := cfg.LabelSelectors();
    ghost var first := [MakeFilter(cfg, DiscoveryService(cfg), DISCOVERY_PORT)];
    r := [MakeFilter(cfg, DiscoveryService(cfg), DISCOVERY_PORT)];
    var make := FilterMaker(cfg);
    ghost var done: seq<Item> := [];
    for i := 0 to |selectors|
      invariant AreTolerantListings(listers[..i], selectors[..i], listings) && done == Concat(listings)
      invariant r == first + PerPort(done, make)
    {
      var listed := List(listers[i], selectors[i]);
      var services := if listed.Success? then listed.value else [];
      r := AppendPerPort(done, r, services, first, make);
      TolerantOne(listers, selectors, i, listings, services);
      listings, done := listings + [services], done + services;
    }
    assert selectors[..|selectors|] == selectors && listers[..|selectors|] == listers;
  }

  /** Fails when a listing fails; otherwise the same services as the filters, whatever the ingress. */
  method Routes(cfg: Federation, listers: seq<Lister>)
    returns (r: Result<seq<Route>, ListError>, ghost listings: seq<seq<Item>>)
    requires |listers| == |cfg.LabelSelectors()|
    ensures r.Failure? <==> SomeListingFails(listers, cfg.LabelSelectors())
    ensures r.Success? ==>
              && AreListings(CachesOf(listers), cfg.LabelSelectors(), listings)
              && r.value == RoutesOf(cfg, Concat(listings))
  {
    var first := [MakeRoute(cfg, DiscoveryService(cfg), DISCOVERY_PORT)];
    r, listings := ListPerPort(listers, cfg.LabelSelectors(), first, RouteMaker(cfg));
  }

  /** Appends one object per port of each service listed by the selectors. */
  method ListPerPort<T>(listers: seq<Lister>, selectors: seq<Labels>, first: seq<T>, make: (Key, int32) -> T)
    returns (r: Result<seq<T>, ListError>, ghost listings: seq<seq<Item>>)
    requires |listers| == |selectors|
    ensures r.Failure? <==> SomeListingFails(listers, selectors)
    ensures r.Success? ==>
              && AreListings(CachesOf(listers), selectors, listings)
              && r.value == first + PerPort(Concat(listings), make)
  {
    listings := [];
    var objects := first;
    for i := 0 to |selectors|
      invariant forall j | 0 <= j < i :: selectors[j] !in listers[j].listFails
      invariant AreTolerantListings(listers[..i], selectors[..i], listings)
      invariant objects == first + PerPort(Concat(listings), make)
    {
      var listed := List(listers[i], selectors[i]);
      if listed.Failure? {
        return Failure(listed.error), listings;
      }
      objects := AppendPerPort(Concat(listings), objects, listed.value, first, make);
      TolerantOne(listers, selectors, i, listings, listed.value);
      listings := listings + [listed.value];
    }
    assert selectors[..|selectors|] == selectors && listers[..|selectors|] == listers;
    NoneFailed(listers, selectors, listings);
    r := Success(objects);
  }

  // ---------------------------------------------------------------- the ingress gateway

  function HostsOf(items: seq<Item>): seq<string> {
    seq(|items|, i requires 0 <= i < |items| => Hostname(items[i].0.name, items[i].0.namespace))
  }

  function LocalDiscoveryHost(cfg: Federation, namespace: string): string {
    Hostname("federation-discovery-service-" + cfg.local.name, namespace)
  }

  function GatewayHosts(cfg: Federation, namespace: string, items: seq<Item>): seq<string> {
    Sort([LocalDiscoveryHost(cfg, namespace)] + HostsOf(items))
  }

  method IngressGateway(cfg: Federation, namespace: string, listers: seq<Lister>)
    returns (hosts: Result<seq<string>, ListError>, ghost listings: seq<seq<Item>>)
    requires |listers| == |cfg.LabelSelectors()|
    ensures hosts.Failure? <==> SomeListingFails(listers, cfg.LabelSelectors())
    ensures hosts.Success? ==> AreListings(CachesOf(listers), cfg.LabelSelectors(), listings)
                               && hosts.value == GatewayHosts(cfg, namespace, Concat(listings))
  {
    listings := [];
    var selectors := cfg.LabelSelectors();
    ghost var caches := CachesOf(listers);
    ghost var first := [LocalDiscoveryHost(cfg, namespace)];
    var all := [LocalDiscoveryHost(cfg, namespace)];
    for i := 0 to |selectors|
      invariant forall j | 0 <= j < i :: selectors[j] !in listers[j].listFails
      invariant AreListings(caches[..i], selectors[..i], listings)
      invariant all == first + HostsOf(Concat(listings))
    {
      var listed := List(listers[i], selectors[i]);
      if listed.Failure? {
        return Failure(listed.error), listings;
      }
      all := AppendHosts(Concat(listings), all, listed.value, first);
      ListingsOne(caches, selectors, i, listings, listed.value);
      listings := listings + [listed.value];
    }
    assert selectors[..|selectors|] == selectors && caches[..|selectors|] == caches;
    hosts := Success(Sort(all));
  }

  method AppendHosts(ghost done: seq<Item>, hosts: seq<string>, items: seq<Item>, ghost first: seq<string>)
    returns (r: seq<string>)
    requires hosts == first + HostsOf(done)
    ensures r == first + HostsOf(done + items)
  {
    r := hosts;
    for j := 0 to |items|
      invariant r == first + HostsOf(done + items[..j])
    {
      NextPrefix(done, items, j);
      r := r + [Hostname(items[j].0.name, items[j].0.namespace)];
    }
    assert items[..|items|] == items;
  }

  lemma RemoveOne<T>(s: seq<T>, i: nat)
    requires i < |s|
    ensures multiset(s) == multiset(s[..i] + s[i + 1..]) + multiset{s[i]}
  {
    assert s == s[..i] + [s[i]] + s[i + 1..];
  }

  lemma HostsOfRemove(items: seq<Item>, i: nat)
    requires i < |items|
    ensures multiset(HostsOf(items))
            == multiset(HostsOf(items[..i] + items[i + 1..])) + multiset{HostsOf(items)[i]}
  {
    RemoveOne(HostsOf(items), i);
    assert HostsOf(items[..i] + items[i + 1..]) == HostsOf(items)[..i] + HostsOf(items)[i + 1..];
  }

  lemma Cancel<T>(a: multiset<T>, b: multiset<T>, x: T)
    requires a + multiset{x} == b + multiset{x}
    ensures a == b
  {
    assert a == a + multiset{x} - multiset{x};
  }

  lemma {:induction false} HostsOfPermuted(a: seq<Item>, b: seq<Item>)
    requires multiset(a) == multiset(b)
    ensures multiset(HostsOf(a)) == multiset(HostsOf(b))
  {
    if a == [] {
      assert |multiset(b)| == 0;
    } else {
      var n := |a| - 1;
      assert a[n] in multiset(b);
      var i: nat :| i < |b| && b[i] == a[n];
      var rest := b[..i] + b[i + 1..];
      HostsOfRemove(a, n);
      HostsOfRemove(b, i);
      RemoveOne(b, i);
      assert a[..n] + a[n + 1..] == a[..n];
      assert a == a[..n] + [a[n]];
      Cancel(multiset(a[..n]), multiset(rest), a[n]);
      HostsOfPermuted(a[..n], rest);
    }
  }

  /** Two passes over the same caches give the same hosts in the same order, sorted, with the local discovery
      host among them and each service as often as it is listed. */
  lemma GatewayHostsStable(cfg: Federation, namespace: string, caches: seq<Cache>,
                           listings: seq<seq<Item>>, listings': seq<seq<Item>>)
    requires AreListings(caches, cfg.LabelSelectors(), listings)
    requires AreListings(caches, cfg.LabelSelectors(), listings')
    ensures GatewayHosts(cfg, namespace, Concat(listings)) == GatewayHosts(cfg, namespace, Concat(listings'))
    ensures IsSorted(GatewayHosts(cfg, namespace, Concat(listings)))
    ensures LocalDiscoveryHost(cfg, namespace) in GatewayHosts(cfg, namespace, Concat(listings))
    ensures multiset(GatewayHosts(cfg, namespace, Concat(listings)))
            == multiset{LocalDiscoveryHost(cfg, namespace)} + multiset(HostsOf(Concat(listings)))
  {
    var a, b := Concat(listings), Concat(listings');
    ListingsPermuted(caches, cfg.LabelSelectors(), listings, listings');
    HostsOfPermuted(a, b);
    var first := [LocalDiscoveryHost(cfg, namespace)];
    SortCanonical(first + HostsOf(a), first + HostsOf(b));
    SortSorts(first + HostsOf(a));
    assert LocalDiscoveryHost(cfg, namespace) in multiset(GatewayHosts(cfg, namespace, a));
  }

  // ---------------------------------------------------------------- which hosts the gateway serves

  lemma HostsOfIff(items: seq<Item>, h: string)
    ensures h in HostsOf(items)
            <==> exists item :: item in items && h == item.0.name + "." + item.0.namespace + ".svc.cluster.local"
  {
    assert forall k: Key :: Hostname(k.name, k.namespace) == k.name + "." + k.namespace + ("." + DOMAIN);
    assert "." + DOMAIN == ".svc.cluster.local";
    if h in HostsOf(items) {
      var i :| 0 <= i < |items| && HostsOf(items)[i] == h;
      assert items[i] in items;
    }
    if item :| item in items && h == item.0.name + "." + item.0.namespace + ".svc.cluster.local" {
      var i :| 0 <= i < |items| && items[i] == item;
      assert HostsOf(items)[i] == h;
    }
  }

  lemma LocalDiscoveryHostText(cfg: Federation, namespace: string)
    ensures LocalDiscoveryHost(cfg, namespace)
            == "federation-discovery-service-" + cfg.local.name + "." + namespace + ".svc.cluster.local"
  {
    assert LocalDiscoveryHost(cfg, namespace)
        == "federation-discovery-service-" + cfg.local.name + "." + namespace + ("." + DOMAIN);
    assert "." + DOMAIN == ".svc.cluster.local";
  }

  /** While the cache does not change, listed and exported hosts are the same. */
  lemma ListedHostsExported(cache: Cache, selectors: seq<Labels>, listings: seq<seq<Item>>, h: string)
    requires AreListings(Steady(cache, |selectors|), selectors, listings)
    ensures h in HostsOf(Concat(listings)) <==> h in ExportedHostnames(cache, selectors)
  {
    var items := Concat(listings);
    HostsOfIff(items, h);
    ExportedHostnamesIff(cache, selectors, h);
    if item :| item in items && h == item.0.name + "." + item.0.namespace + ".svc.cluster.local" {
      InListings(Steady(cache, |selectors|), selectors, listings, item);
      assert Exported(cache, selectors, item.0);
    }
    if k :| Exported(cache, selectors, k) && h == k.name + "." + k.namespace + ".svc.cluster.local" {
      MatchIffListed(cache, selectors, listings, k);
      assert (k, cache[k]) in items;
    }
  }

  /** So the gateway serves exactly the local discovery host and the exported host names. */
  lemma GatewayServesExported(cfg: Federation, namespace: string, cache: Cache, listings: seq<seq<Item>>, h: string)
    requires AreListings(Steady(cache, |cfg.LabelSelectors()|), cfg.LabelSelectors(), listings)
    ensures h in GatewayHosts(cfg, namespace, Concat(listings))
            <==> || h == "federation-discovery-service-" + cfg.local.name + "." + namespace + ".svc.cluster.local"
                 || h in ExportedHostnames(cache, cfg.LabelSelectors())
  {
    var all := [LocalDiscoveryHost(cfg, namespace)] + HostsOf(Concat(listings));
    LocalDiscoveryHostText(cfg, namespace);
    SortSorts(all);
    assert h in GatewayHosts(cfg, namespace, Concat(listings)) <==> h in multiset(all);
    ListedHostsExported(cache, cfg.LabelSelectors(), listings, h);
  }

  lemma ListingHostOnce(cache: Cache, selector: Labels, items: seq<Item>, k: Key)
    requires ValidCache(cache) && k in cache && IsListing(cache, selector, items)
    ensures multiset(HostsOf(items))[Hostname(k.name, k.namespace)]
            == if SelectorMatches(selector, cache[k].labels) then 1 else 0
  {
    var hosts, h := HostsOf(items), Hostname(k.name, k.namespace);
    forall i, j | 0 <= i < j < |hosts| ensures hosts[i] != hosts[j] {
      if hosts[i] == hosts[j] {
        ListedIff(cache, selector, items, items[i]);
        ListedIff(cache, selector, items, items[j]);
        HostnameInjective(items[i].0, items[j].0);
      }
    }
    DistinctOnce(hosts, h);
    if Listed(cache, selector, k) {
      ListedIff(cache, selector, items, (k, cache[k]));
      var i :| 0 <= i < |items| && items[i] == (k, cache[k]);
      assert hosts[i] == h;
    }
    if h in hosts {
      var i :| 0 <= i < |hosts| && hosts[i] == h;
      ListedIff(cache, selector, items, items[i]);
      HostnameInjective(items[i].0, k);
    }
  }

  lemma {:induction false} ListedHostCount(cache: Cache, selectors: seq<Labels>, listings: seq<seq<Item>>, k: Key)
    requires ValidCache(cache) && k in cache && |listings| == |selectors|
    requires forall i | 0 <= i < |selectors| :: IsListing(cache, selectors[i], listings[i])
    ensures multiset(HostsOf(Concat(listings)))[Hostname(k.name, k.namespace)]
            == CountMatching(cache[k].labels, selectors)
  {
    if selectors == [] {
    } else {
      var n := |selectors| - 1;
      var init := Concat(listings[..n]);
      ListedHostCount(cache, selectors[..n], listings[..n], k);
      ListingHostOnce(cache, selectors[n], listings[n], k);
      assert HostsOf(init + listings[n]) == HostsOf(init) + HostsOf(listings[n]);
    }
  }

  /** And it lists the host of each service once per selector that matches it, besides the discovery host. */
  lemma GatewayHostCount(cfg: Federation, namespace: string, cache: Cache, listings: seq<seq<Item>>, k: Key)
    requires AreListings(Steady(cache, |cfg.LabelSelectors()|), cfg.LabelSelectors(), listings)
    requires ValidCache(cache) && k in cache
    ensures multiset(GatewayHosts(cfg, namespace, Concat(listings)))[Hostname(k.name, k.namespace)]
            == CountMatching(cache[k].labels, cfg.LabelSelectors())
               + if Hostname(k.name, k.namespace) == LocalDiscoveryHost(cfg, namespace) then 1 else 0
  {
    var selectors := cfg.LabelSelectors();
    var first, hosts := [LocalDiscoveryHost(cfg, namespace)], HostsOf(Concat(listings));
    forall i | 0 <= i < |selectors| ensures IsListing(cache, selectors[i], listings[i]) {
      assert Steady(cache, |selectors|)[i] == cache;
    }
    ListedHostCount(cache, selectors, listings, k);
    SortSorts(first + hosts);
    assert multiset(first + hosts) == multiset(first) + multiset(hosts);
  }

  // ---------------------------------------------------------------- what the objects refer to

  /** A filter replaces, on the ingress listener of the selected gateway, the SNI that Istio derives from the host name
      under which the service is exported. */
  lemma FilterMatchesExported(cfg: Federation, k: Key, svc: Service, port: int32)
    ensures var f := MakeFilter(cfg, k, port);
            && f.matchSni == "outbound_." + SignedDecimal(port) + "_._." + Federated(k, svc).hostname
            && f.listener == "0.0.0.0_" + Decimal(cfg.local.ingressPortNumber)
            && f.selector == cfg.local.ingressSelector
            && f.key == Key(cfg.local.controlPlaneNamespace, "sni-" + PortName(k, port))
    ensures MakeRoute(cfg, k, port).targetPort == cfg.local.ingressPortName
    ensures MakeRoute(cfg, k, port).key
            == Key(cfg.local.controlPlaneNamespace, PortName(k, port) + "-to-federation-ingress-gateway")
    ensures PortName(k, port) == k.name + "-" + k.namespace + "-" + SignedDecimal(port)
  {
    FederatedConveys(k, svc);
  }
}
