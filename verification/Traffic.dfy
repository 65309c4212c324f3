/** From the rule in the importing cluster to the objects of the exporting one: whether traffic for a port of an
    imported service carries an SNI that the exporter's router and gateway serve. */
module Traffic {
  import opened Types
  import opened Naming
  import opened Export
  import opened Reconciler
  import opened Factory
  import opened FactoryLaws
  import opened ImportStore
  import opened Router
  import opened Sni
  import opened EndToEnd
  import Discovery
  import DiscoveryRuns
  import ImportRun

  /** Remote `r` uses the router, is delivered, and exports a service that the importer knows as it is now. */
  ghost predicate KnowsService(m: Setup, w: World, r: nat, k: Key) {
    && r < |m.env.cfg.remotes| && m.env.cfg.remotes[r].ingressType == OPENSHIFT_ROUTER
    && var p := m.env.cfg.remotes[r].name;
       && Delivered(m, w, p) && Exported(w.peers[p].cache, m.selectors[p], k)
       && StreamOf(m, w, p) in w.peers[p].outdated && k !in w.peers[p].outdated[StreamOf(m, w, p)]
  }

  ghost function RemoteService(m: Setup, w: World, r: nat, k: Key): Service
    requires KnowsService(m, w, r, k)
  {
    w.peers[m.env.cfg.remotes[r].name].cache[k]
  }

  /** The importer's rules for what it knows. */
  ghost function CurrentRules(m: Setup, w: World): Entries {
    RulesOf(m.env, m.env.cfg.remotes, ImportRun.CurrentViews(m.env, w.here.store))
  }

  /** The rule that sends the traffic of each port of a service to the SNI of that port. */
  ghost predicate RuleFor(spec: Spec, k: Key, svc: Service) {
    && spec.PortRules? && spec.host == Hostname(k.name, k.namespace) && |spec.settings| == |svc.ports|
    && forall p | 0 <= p < |svc.ports| ::
         spec.settings[p] == (ToUint32(svc.ports[p].port), SniOf((k, svc.ports[p].port)))
  }

  lemma RuleForKnown(env: Env, views: seq<Snapshot>, r: nat, k: Key, svc: Service)
    requires |views| == |env.cfg.remotes| && r < |views| && env.cfg.remotes[r].ingressType == OPENSHIFT_ROUTER
    requires Federated(k, svc) in views[r] && ValidKey(k) && RulesAgree(RulesOf(env, env.cfg.remotes, views))
    ensures var desired, key := LastWins(RulesOf(env, env.cfg.remotes, views)), ServiceRule(env, Federated(k, svc)).0;
            key in desired && RuleFor(desired[key], k, svc)
  {
    RuleDesired(env, views, r, k, svc);
    RuleListed(views[r], env, env.cfg.remotes[r], k, svc);
  }

  lemma KnownInView(m: Setup, worlds: seq<World>, steps: seq<Step>, r: nat, k: Key)
    requires IsRun(m, worlds, steps) && KnowsService(m, worlds[|steps|], r, k)
    ensures ValidKey(k)
    ensures Federated(k, RemoteService(m, worlds[|steps|], r, k))
            in ImportRun.CurrentViews(m.env, worlds[|steps|].here.store)[r]
  {
    var w, p := worlds[|steps|], m.env.cfg.remotes[r].name;
    RunKeepsInv(m, worlds, steps);
    assert Discovery.Inv(m.selectors[p], w.peers[p]);
    ViewIsCurrent(m, worlds, steps, p, k);
  }

  lemma OwnedRules(m: Setup, worlds: seq<World>, steps: seq<Step>)
    requires IsRun(m, worlds, steps) && Reconciled(worlds[|steps|], DestinationRules)
    ensures DestinationRules in worlds[|steps|].here.clusters
    ensures Owned(worlds[|steps|].here.clusters[DestinationRules], PEER_LABEL)
            == LastWins(CurrentRules(m, worlds[|steps|]))
  {
    ReconciledConverged(m, worlds, steps, DestinationRules);
  }

  /** In every run, the importing cluster holds the rule for a service it knows. */
  lemma RuleInCluster(m: Setup, worlds: seq<World>, steps: seq<Step>, r: nat, k: Key) returns (key: Key)
    requires IsRun(m, worlds, steps) && Reconciled(worlds[|steps|], DestinationRules)
    requires KnowsService(m, worlds[|steps|], r, k) && RulesAgree(CurrentRules(m, worlds[|steps|]))
    ensures ValidKey(k) && DestinationRules in worlds[|steps|].here.clusters
    ensures key == Key(m.env.cfg.local.controlPlaneNamespace,
              "mtls-sni-" + SeparateWithDash(Hostname(k.name, k.namespace)))
    ensures var owned := Owned(worlds[|steps|].here.clusters[DestinationRules], PEER_LABEL);
            key in owned && RuleFor(owned[key], k, RemoteService(m, worlds[|steps|], r, k))
  {
    var w := worlds[|steps|];
    var svc := RemoteService(m, w, r, k);
    OwnedRules(m, worlds, steps);
    KnownInView(m, worlds, steps, r, k);
    RuleForKnown(m.env, ImportRun.CurrentViews(m.env, w.here.store), r, k, svc);
    key := ServiceRule(m.env, Federated(k, svc)).0;
  }

  /** The exporter's filters and routes after their last complete passes, which found `caches` and `caches'`. Both
      are reconciled on the same events that are pushed, so these caches may be older than the present one. */
  datatype Exporter = Exporter(
    cfg: Federation,
    caches: seq<Cache>, filters: Cluster<EnvoyFilter>,
    caches': seq<Cache>, routes: Cluster<Route>)

  ghost predicate ReconciledExporter(x: Exporter) {
    && |x.caches| == |x.caches'| == |x.cfg.LabelSelectors()|
    && ValidCaches(x.caches) && NoExportCollision(x.cfg, x.caches) && ReconciledFilters(x.cfg, x.caches, x.filters)
    && ValidCaches(x.caches') && NoExportCollision(x.cfg, x.caches') && ReconciledRoutes(x.cfg, x.caches', x.routes)
    && NoNegativePorts(x.caches')
  }

  /** In every run: for each port of a service that the importer knows as it is now, its cluster holds a rule whose
      SNI is the server name of one of the exporter's filters if and only if the last pass over the filters found
      that port, and the host of one of its routes if the last pass over the routes did. */
  lemma SniAcrossMeshes(m: Setup, worlds: seq<World>, steps: seq<Step>, r: nat, k: Key, x: Exporter)
    returns (key: Key)
    requires IsRun(m, worlds, steps) && Reconciled(worlds[|steps|], DestinationRules)
    requires KnowsService(m, worlds[|steps|], r, k) && RulesAgree(CurrentRules(m, worlds[|steps|]))
    requires ReconciledExporter(x)
    ensures DestinationRules in worlds[|steps|].here.clusters
    ensures var svc := RemoteService(m, worlds[|steps|], r, k);
            var owned := Owned(worlds[|steps|].here.clusters[DestinationRules], PEER_LABEL);
            && key in owned && RuleFor(owned[key], k, svc)
            && forall p | 0 <= p < |svc.ports| ::
                 var sni := owned[key].settings[p].1;
                 && (Names(Owned(x.filters, PEER_LABEL), SERVER_NAME, sni)
                     <==> ServesPort(x.cfg, x.caches, (k, svc.ports[p].port)))
                 && (ServesPort(x.cfg, x.caches', (k, svc.ports[p].port)) ==>
                       exists o :: o in x.routes && x.routes[o].spec.host == sni)
  {
    key := RuleInCluster(m, worlds, steps, r, k);
    var svc := RemoteService(m, worlds[|steps|], r, k);
    forall p | 0 <= p < |svc.ports|
      ensures Names(Owned(x.filters, PEER_LABEL), SERVER_NAME, SniOf((k, svc.ports[p].port)))
              <==> ServesPort(x.cfg, x.caches, (k, svc.ports[p].port))
      ensures ServesPort(x.cfg, x.caches', (k, svc.ports[p].port)) ==>
                exists o :: o in x.routes && x.routes[o].spec.host == SniOf((k, svc.ports[p].port))
    {
      FiltersServeExactly(x.cfg, x.caches, x.filters, (k, svc.ports[p].port));
      if ServesPort(x.cfg, x.caches', (k, svc.ports[p].port)) {
        RoutesServePorts(x.cfg, x.caches', x.routes, (k, svc.ports[p].port));
      }
    }
  }

  /** In particular every port is served when those passes found the present cache. */
  lemma PresentPortsServed(cfg: Federation, cache: Cache, k: Key, p: nat)
    requires Exported(cache, cfg.LabelSelectors(), k) && p < |cache[k].ports|
    ensures ServesPort(cfg, Steady(cache, |cfg.LabelSelectors()|), (k, cache[k].ports[p].port))
  {
    var selectors := cfg.LabelSelectors();
    var i :| 0 <= i < |selectors| && SelectorMatches(selectors[i], cache[k].labels);
    assert Listed(Steady(cache, |selectors|)[i], selectors[i], k);
    assert HasPort(cache[k], cache[k].ports[p].port);
  }

  lemma DiscoveryPortText()
    ensures Decimal(DISCOVERY_PORT) == "15080"
  {
    assert Decimal(1) == "1" && Decimal(15) == "15" && Decimal(150) == "150" && Decimal(1508) == "1508";
  }

  /** The discovery service of a peer: the importer dials the host that the peer's gateway serves, and its rule sets
      the SNI that the peer's filter and route serve. */
  lemma DiscoveryAcrossMeshes(cfg: Federation, env: Env, remote: Remote)
    requires remote.name == cfg.local.name
    ensures var rule := DiscoveryRule(env, remote).1;
            && rule.MtlsRule?
            && rule.host == remote.ServiceFQDN() == LocalDiscoveryHost(cfg, "istio-system")
            && rule.sni == MakeFilter(cfg, DiscoveryService(cfg), DISCOVERY_PORT).serverName
            && rule.sni == MakeRoute(cfg, DiscoveryService(cfg), DISCOVERY_PORT).host
            && rule.sni == Hostname("federation-discovery-service-" + remote.name + "-" + "15080", "istio-system")
  {
    DiscoveryHost(remote);
    DiscoveryPortText();
  }

  function OnePort(labels: Labels, name: string, port: int32): Service {
    Service(labels, [Port(name, port, 0)])
  }

  /** An edit of the port does outdate the importer: in a quiet state, with all read and sure, it goes on asking for
      the SNI of the old port alone, which no filter serves once the filters are reconciled with the present. */
  lemma StalePort(cfg: Federation, labels: Labels, k: Key, name: string, a: int32, b: int32, me: string)
    returns (s: Discovery.State)
    requires cfg.LabelSelectors() == [labels] && ValidKey(k) && a != b
             && (k, a) != (DiscoveryService(cfg), DISCOVERY_PORT)
    ensures Discovery.Reachable([labels], s) && Discovery.Quiet([labels], s) && Discovery.Drained(s, me)
    ensures Discovery.Sure(s, s.clients[me].stream.value) && s.cache == map[k := OnePort(labels, name, b)]
    ensures var known := Federated(k, OnePort(labels, name, a));
            s.clients[me].store == Some([known]) && PortSettings(known) == [(ToUint32(a), SniOf((k, a)))]
    ensures forall filters: Cluster<EnvoyFilter> | ReconciledFilters(cfg, Steady(s.cache, 1), filters) ::
              !Names(Owned(filters, PEER_LABEL), SERVER_NAME, SniOf((k, a)))
  {
    var x, y := OnePort(labels, name, a), OnePort(labels, name, b);
    assert Federated(k, x).ports[0].number == ToUint32(a) && Federated(k, y).ports[0].number == ToUint32(b);
    s := DiscoveryRuns.UnpushedEdit(labels, k, x, y, me);
    SettingsRead(k, x);
    forall filters: Cluster<EnvoyFilter> | ReconciledFilters(cfg, Steady(s.cache, 1), filters)
      ensures !Names(Owned(filters, PEER_LABEL), SERVER_NAME, SniOf((k, a)))
    {
      assert !ServesPort(cfg, Steady(s.cache, 1), (k, a));
      if Names(Owned(filters, PEER_LABEL), SERVER_NAME, SniOf((k, a))) {
        FiltersServeOnly(cfg, Steady(s.cache, 1), filters, (k, a));
      }
    }
  }
}
