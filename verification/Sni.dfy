/** The SNI of a port, as the importing mesh writes it and as the filters and routes of the exporting mesh
    serve it: when they agree, and when the objects that carry it survive reconciliation. */
module Sni {
  import opened Types
  import opened Naming
  import opened Collections
  import opened Export
  import opened Reconciler
  import opened Factory
  import opened FactoryLaws
  import opened Router

  // ---------------------------------------------------------------- the SNI, written on both sides

  /** The first label is what precedes the first dot. */
  lemma {:induction false} FirstLabelIsPrefix(s: string)
    ensures Split(s)[0] <= s && DotFree(Split(s)[0])
    ensures |Split(s)[0]| < |s| ==> s[|Split(s)[0]|] == '.'
  {
    if s == [] {
    } else {
      FirstLabelIsPrefix(s[1..]);
    }
  }

  /** The SNI an importer writes for a port after reading the host name of an exported service. */
  function ImporterSni(hostname: string, number: uint32): Option<string> {
    match ServiceNameAndNs(hostname)
    case None => None
    case Some(key) => Some(RouterCompatibleSNI(key.name, key.namespace, number))
  }

  lemma ImporterSniIff(name: string, namespace: string, number: uint32)
    ensures ImporterSni(Hostname(name, namespace), number) == Some(RouterCompatibleSNI(name, namespace, number))
            <==> DotFree(name) && DotFree(namespace)
  {
    HostnameRoundTrip(name, namespace);
    var h, tail := Hostname(name, namespace), namespace + "." + DOMAIN;
    var key := ServiceNameAndNs(h).value;
    var theirs, ours := RouterCompatibleSNI(key.name, key.namespace, number),
        RouterCompatibleSNI(name, namespace, number);
    FirstLabelIsPrefix(h);
    FirstLabelIsPrefix(tail);
    if !DotFree(name) {
      var dot: nat :| dot < |name| && name[dot] == '.';
      assert h[dot] == '.';
      assert |key.name| <= dot;
      assert ours[|key.name|] == name[|key.name|] == h[|key.name|] == '.';
      assert theirs[|key.name|] == '-';
    } else if !DotFree(namespace) {
      SplitFirst(name, tail);
      var dot: nat :| dot < |namespace| && namespace[dot] == '.';
      assert tail[dot] == '.';
      assert |key.namespace| <= dot;
      assert |theirs| < |ours|;
    }
  }

  /** Importer, filter and route agree on the SNI of a port if and only if the names are dot-free and the
      port is not negative. */
  lemma SniAgreementIff(cfg: Federation, svc: Key, port: int32)
    ensures ImporterSni(Hostname(svc.name, svc.namespace), ToUint32(port))
            == Some(MakeFilter(cfg, svc, port).serverName)
            <==> DotFree(svc.name) && DotFree(svc.namespace)
    ensures MakeRoute(cfg, svc, port).host == MakeFilter(cfg, svc, port).serverName <==> port >= 0
  {
    ImporterSniIff(svc.name, svc.namespace, ToUint32(port));
    if port < 0 {
      assert MakeRoute(cfg, svc, port).host[|svc.name| + 1] == '-';
      assert MakeFilter(cfg, svc, port).serverName[|svc.name| + 1] == Decimal(ToUint32(port))[0];
    }
  }

  /** A peer that received a service writes, for each of its ports, the port's SNI. */
  lemma RuleListed(message: Snapshot, env: Env, remote: Remote, k: Key, svc: Service)
    requires Federated(k, svc) in message && ValidKey(k)
    ensures var rule := ServiceRule(env, Federated(k, svc));
            && rule in RulesFor(env, remote, message)
            && rule.1.host == Hostname(k.name, k.namespace)
            && |rule.1.settings| == |svc.ports|
            && forall p | 0 <= p < |svc.ports| ::
                 rule.1.settings[p] == (ToUint32(svc.ports[p].port), SniOf((k, svc.ports[p].port)))
  {
    var i: nat :| i < |message| && message[i] == Federated(k, svc);
    assert RulesFor(env, remote, message)[i + 1] == ServiceRule(env, message[i]);
    SettingsRead(k, svc);
  }

  lemma SettingsRead(k: Key, svc: Service)
    requires ValidKey(k)
    ensures var settings := PortSettings(Federated(k, svc));
            && |settings| == |svc.ports|
            && forall p | 0 <= p < |svc.ports| ::
                 settings[p] == (ToUint32(svc.ports[p].port), SniOf((k, svc.ports[p].port)))
  {
    HostnameRoundTrip(k.name, k.namespace);
    assert forall p | 0 <= p < |svc.ports| :: Federated(k, svc).ports[p] == ExportPort(svc.ports[p]);
  }

  // ---------------------------------------------------------------- which objects survive reconciliation

  /** A port of a service. */
  type SvcPort = (Key, int32)

  /** The SNI of a port. */
  function SniOf(sp: SvcPort): string {
    RouterCompatibleSNI(sp.0.name, sp.0.namespace, ToUint32(sp.1))
  }

  /** What the names of its objects are built from. */
  function NameOf(sp: SvcPort): string {
    PortName(sp.0, sp.1)
  }

  /** Names are shared when name and namespace read the same when joined by a dash, on the same port. */
  lemma PortNameIff(a: Key, p: int32, b: Key, q: int32)
    requires p >= 0 && q >= 0
    ensures PortName(a, p) == PortName(b, q) <==> Dashed(a) == Dashed(b) && p == q
  {
    if PortName(a, p) == PortName(b, q) {
      LastDash(Dashed(a), Decimal(p), Dashed(b), Decimal(q));
      DecimalRoundTrip(p);
      DecimalRoundTrip(q);
    }
  }

  function Pairing(): (Key, int32) -> SvcPort {
    (k: Key, port: int32) => (k, port)
  }

  /** The ports that filters and routes are generated for. */
  function Served(cfg: Federation, items: seq<Item>): seq<SvcPort> {
    [(DiscoveryService(cfg), DISCOVERY_PORT)] + PerPort(items, Pairing())
  }

  lemma {:induction false} PerPortPairs<T>(items: seq<Item>, make: (Key, int32) -> T)
    ensures var pairs := PerPort(items, Pairing());
            && |PerPort(items, make)| == |pairs|
            && forall i | 0 <= i < |pairs| :: PerPort(items, make)[i] == make(pairs[i].0, pairs[i].1)
  {
    if items == [] {
    } else {
      PerPortPairs(items[..|items| - 1], make);
    }
  }

  ghost predicate HasPort(svc: Service, port: int32) {
    exists p | 0 <= p < |svc.ports| :: svc.ports[p].port == port
  }

  lemma {:induction false} PerPortHas(items: seq<Item>, sp: SvcPort)
    ensures sp in PerPort(items, Pairing()) <==> exists item :: item in items && item.0 == sp.0 && HasPort(item.1, sp.1)
  {
    if items == [] {
    } else {
      var init, last := items[..|items| - 1], items[|items| - 1];
      PerPortHas(init, sp);
      var ports := ForPorts(last.0, last.1.ports, Pairing());
      assert sp in PerPort(items, Pairing()) <==> sp in PerPort(init, Pairing()) || sp in ports;
      assert forall p | 0 <= p < |last.1.ports| :: ports[p] == (last.0, last.1.ports[p].port);
      assert sp in ports <==> last.0 == sp.0 && HasPort(last.1, sp.1);
      assert forall item :: item in items <==> item in init || item == last;
    }
  }

  function FilterEntries(cfg: Federation, items: seq<Item>): seq<(Key, EnvoyFilter)> {
    var fs := FiltersOf(cfg, items);
    seq(|fs|, i requires 0 <= i < |fs| => (fs[i].key, fs[i]))
  }

  function RouteEntries(cfg: Federation, items: seq<Item>): seq<(Key, Route)> {
    var rs := RoutesOf(cfg, items);
    seq(|rs|, i requires 0 <= i < |rs| => (rs[i].key, rs[i]))
  }

  lemma FilterAt(cfg: Federation, items: seq<Item>, i: nat)
    ensures |FilterEntries(cfg, items)| == |Served(cfg, items)|
    ensures i < |Served(cfg, items)| ==>
              var sp := Served(cfg, items)[i]; FilterEntries(cfg, items)[i].1 == MakeFilter(cfg, sp.0, sp.1)
  {
    PerPortPairs(items, FilterMaker(cfg));
  }

  lemma RouteAt(cfg: Federation, items: seq<Item>, i: nat)
    ensures |RouteEntries(cfg, items)| == |Served(cfg, items)|
    ensures i < |Served(cfg, items)| ==>
              var sp := Served(cfg, items)[i]; RouteEntries(cfg, items)[i].1 == MakeRoute(cfg, sp.0, sp.1)
  {
    PerPortPairs(items, RouteMaker(cfg));
  }

  /** No two ports served share the names of their objects. */
  ghost predicate NoNameCollision(served: seq<SvcPort>) {
    forall i, j | 0 <= i < |served| && 0 <= j < |served| && NameOf(served[i]) == NameOf(served[j]) ::
      served[i] == served[j]
  }

  ghost predicate ValidItems(items: seq<Item>) {
    forall item | item in items :: ValidKey(item.0)
  }

  lemma ServedFrom(cfg: Federation, items: seq<Item>, i: nat)
    requires ValidItems(items) && 0 < i < |Served(cfg, items)|
    ensures var sp := Served(cfg, items)[i];
            ValidKey(sp.0) && exists item :: item in items && item.0 == sp.0 && HasPort(item.1, sp.1)
  {
    var pairs := PerPort(items, Pairing());
    assert Served(cfg, items)[i] == pairs[i - 1] && pairs[i - 1] in pairs;
    PerPortHas(items, pairs[i - 1]);
  }

  lemma SniOfInjective(a: SvcPort, b: SvcPort)
    requires ValidKey(a.0) && SniOf(a) == SniOf(b)
    ensures a == b
  {
    SniInjective(a.0.name, a.0.namespace, ToUint32(a.1), b.0.name, b.0.namespace, ToUint32(b.1));
  }

  /** Ports served have one SNI each. The name of the local mesh may have dots: it gives an SNI of more labels. */
  lemma ServedSniInjective(cfg: Federation, items: seq<Item>, i: nat, j: nat)
    requires ValidItems(items) && i < |Served(cfg, items)| && j < |Served(cfg, items)|
    ensures SniOf(Served(cfg, items)[i]) == SniOf(Served(cfg, items)[j])
            <==> Served(cfg, items)[i] == Served(cfg, items)[j]
  {
    var a, b := Served(cfg, items)[i], Served(cfg, items)[j];
    if SniOf(a) == SniOf(b) {
      if i > 0 {
        ServedFrom(cfg, items, i);
        SniOfInjective(a, b);
      } else if j > 0 {
        ServedFrom(cfg, items, j);
        SniOfInjective(b, a);
      }
    }
  }

  const SERVER_NAME: EnvoyFilter -> string := (f: EnvoyFilter) => f.serverName
  const ROUTE_HOST: Route -> string := (r: Route) => r.host

  /** Every SNI is the name of some object. */
  ghost predicate Serves<T>(objects: map<Key, T>, name: T -> string, served: seq<SvcPort>) {
    forall i | 0 <= i < |served| :: Names(objects, name, SniOf(served[i]))
  }

  /** Objects i and j are named for ports i and j, and keyed by what their names are built from. */
  ghost predicate MadeForPair<T>(es: seq<(Key, T)>, name: T -> string, served: seq<SvcPort>, i: nat, j: nat)
    requires i < |served| && j < |served|
  {
    && i < |es| && j < |es|
    && name(es[i].1) == SniOf(served[i])
    && (es[i].0 == es[j].0 <==> NameOf(served[i]) == NameOf(served[j]))
    && (name(es[i].1) == name(es[j].1) <==> served[i] == served[j])
  }

  ghost predicate MadeFor<T>(es: seq<(Key, T)>, name: T -> string, served: seq<SvcPort>) {
    |es| == |served| && forall i: nat, j: nat | i < |served| && j < |served| :: MadeForPair(es, name, served, i, j)
  }

  /** Then every SNI is the name of a reconciled object if and only if no two ports served share the names of
      their objects. */
  lemma ServesIff<T>(es: seq<(Key, T)>, name: T -> string, served: seq<SvcPort>)
    requires MadeFor(es, name, served)
    ensures Serves(LastWins(es), name, served) <==> NoNameCollision(served)
  {
    forall i, j | 0 <= i < |es| && 0 <= j < |es| && name(es[i].1) == name(es[j].1) ensures es[i].0 == es[j].0 {
      assert MadeForPair(es, name, served, i, j);
    }
    NamesSurviveIff(es, name);
    NamesAreSnis(es, name, served);
    CollisionIff(es, name, served);
  }

  lemma NamesAreSnis<T>(es: seq<(Key, T)>, name: T -> string, served: seq<SvcPort>)
    requires MadeFor(es, name, served)
    ensures Serves(LastWins(es), name, served)
            <==> forall i | 0 <= i < |es| :: Names(LastWins(es), name, name(es[i].1))
  {
    forall i: nat | i < |es| ensures name(es[i].1) == SniOf(served[i]) {
      assert MadeForPair(es, name, served, i, i);
    }
  }

  lemma CollisionIff<T>(es: seq<(Key, T)>, name: T -> string, served: seq<SvcPort>)
    requires MadeFor(es, name, served)
    ensures KeyGivesName(es, name) <==> NoNameCollision(served)
  {
    if KeyGivesName(es, name) {
      forall i, j | 0 <= i < |served| && 0 <= j < |served| && NameOf(served[i]) == NameOf(served[j])
        ensures served[i] == served[j]
      {
        assert MadeForPair(es, name, served, i, j);
      }
    }
    if NoNameCollision(served) {
      forall i, j | 0 <= i < |es| && 0 <= j < |es| && es[i].0 == es[j].0 ensures name(es[i].1) == name(es[j].1) {
        assert MadeForPair(es, name, served, i, j);
      }
    }
  }

  ghost predicate FiltersServe(cfg: Federation, items: seq<Item>) {
    Serves(LastWins(FilterEntries(cfg, items)), SERVER_NAME, Served(cfg, items))
  }

  ghost predicate RoutesServe(cfg: Federation, items: seq<Item>) {
    Serves(LastWins(RouteEntries(cfg, items)), ROUTE_HOST, Served(cfg, items))
  }

  lemma FilterKeys(cfg: Federation, items: seq<Item>, i: nat, j: nat)
    requires ValidItems(items) && i < |Served(cfg, items)| && j < |Served(cfg, items)|
    ensures MadeForPair(FilterEntries(cfg, items), SERVER_NAME, Served(cfg, items), i, j)
  {
    var x, y := NameOf(Served(cfg, items)[i]), NameOf(Served(cfg, items)[j]);
    FilterAt(cfg, items, i);
    FilterAt(cfg, items, j);
    ServedSniInjective(cfg, items, i, j);
    assert ("sni-" + x)[4..] == x && ("sni-" + y)[4..] == y;
  }

  lemma FiltersMadeFor(cfg: Federation, items: seq<Item>)
    requires ValidItems(items)
    ensures MadeFor(FilterEntries(cfg, items), SERVER_NAME, Served(cfg, items))
  {
    var es, served := FilterEntries(cfg, items), Served(cfg, items);
    FilterAt(cfg, items, 0);
    forall i: nat, j: nat | i < |served| && j < |served| ensures MadeForPair(es, SERVER_NAME, served, i, j) {
      FilterKeys(cfg, items, i, j);
    }
  }

  /** Every SNI is the server name of a reconciled filter if and only if no two ports served share the names of
      their objects. */
  lemma FiltersServeIff(cfg: Federation, items: seq<Item>)
    requires ValidItems(items)
    ensures FiltersServe(cfg, items) <==> NoNameCollision(Served(cfg, items))
  {
    FiltersMadeFor(cfg, items);
    ServesIff(FilterEntries(cfg, items), SERVER_NAME, Served(cfg, items));
  }

  ghost predicate PortsNotNegative(items: seq<Item>) {
    forall item, port | item in items && HasPort(item.1, port) :: port >= 0
  }

  lemma RouteKeys(cfg: Federation, items: seq<Item>, i: nat, j: nat)
    requires ValidItems(items) && PortsNotNegative(items) && i < |Served(cfg, items)| && j < |Served(cfg, items)|
    ensures MadeForPair(RouteEntries(cfg, items), ROUTE_HOST, Served(cfg, items), i, j)
  {
    RouteAt(cfg, items, i);
    RouteAt(cfg, items, j);
    ServedSniInjective(cfg, items, i, j);
    if i > 0 {
      ServedFrom(cfg, items, i);
    }
    if j > 0 {
      ServedFrom(cfg, items, j);
    }
    var x, y, end := NameOf(Served(cfg, items)[i]), NameOf(Served(cfg, items)[j]), "-to-federation-ingress-gateway";
    assert (x + end)[..|x + end| - |end|] == x && (y + end)[..|y + end| - |end|] == y;
  }

  /** Likewise every SNI is the host of a reconciled route. */
  lemma RoutesServeIff(cfg: Federation, items: seq<Item>)
    requires ValidItems(items) && PortsNotNegative(items)
    ensures RoutesServe(cfg, items) <==> NoNameCollision(Served(cfg, items))
  {
    var es, served := RouteEntries(cfg, items), Served(cfg, items);
    RouteAt(cfg, items, 0);
    forall i: nat, j: nat | i < |served| && j < |served| ensures MadeForPair(es, ROUTE_HOST, served, i, j) {
      RouteKeys(cfg, items, i, j);
    }
    ServesIff(es, ROUTE_HOST, served);
  }

  /** Names do collide: when `x-y` in `z` and `x` in `y-z` are both exported on one port, some SNI is served by
      no filter and some by no route. */
  lemma NameCollision(cfg: Federation, items: seq<Item>, x: string, y: string, z: string, port: int32)
    requires ValidItems(items) && PortsNotNegative(items)
    requires (Key(z, x + "-" + y), port) in Served(cfg, items) && (Key(y + "-" + z, x), port) in Served(cfg, items)
    ensures !FiltersServe(cfg, items) && !RoutesServe(cfg, items)
  {
    var a, b := Key(z, x + "-" + y), Key(y + "-" + z, x);
    assert Dashed(a) == Dashed(b);
    assert |a.name| != |b.name|;
    FiltersServeIff(cfg, items);
    RoutesServeIff(cfg, items);
    var served := Served(cfg, items);
    var i :| 0 <= i < |served| && served[i] == (a, port);
    var j :| 0 <= j < |served| && served[j] == (b, port);
    assert NameOf(served[i]) == NameOf(served[j]);
  }

  // ---------------------------------------------------------------- what the exporter's cluster serves

  /** The pass that found `caches` serves this port: it is that of the discovery service, or some listing found
      the service with it. */
  ghost predicate ServesPort(cfg: Federation, caches: seq<Cache>, sp: SvcPort)
    requires |caches| == |cfg.LabelSelectors()|
  {
    || sp == (DiscoveryService(cfg), DISCOVERY_PORT)
    || exists i | 0 <= i < |caches| ::
        Listed(caches[i], cfg.LabelSelectors()[i], sp.0) && HasPort(caches[i][sp.0], sp.1)
  }

  ghost predicate NoExportCollision(cfg: Federation, caches: seq<Cache>)
    requires |caches| == |cfg.LabelSelectors()|
  {
    forall a: SvcPort, b: SvcPort | ServesPort(cfg, caches, a) && ServesPort(cfg, caches, b)
      && NameOf(a) == NameOf(b) ::
      a == b
  }

  lemma ServedIff(cfg: Federation, caches: seq<Cache>, listings: seq<seq<Item>>, sp: SvcPort)
    requires AreListings(caches, cfg.LabelSelectors(), listings)
    ensures sp in Served(cfg, Concat(listings)) <==> ServesPort(cfg, caches, sp)
  {
    var selectors, items := cfg.LabelSelectors(), Concat(listings);
    PerPortHas(items, sp);
    if item :| item in items && item.0 == sp.0 && HasPort(item.1, sp.1) {
      InListings(caches, selectors, listings, item);
    }
    if i :| 0 <= i < |caches| && Listed(caches[i], selectors[i], sp.0) && HasPort(caches[i][sp.0], sp.1) {
      InListings(caches, selectors, listings, (sp.0, caches[i][sp.0]));
    }
  }

  /** Whatever order services are listed in, whether names collide depends on what is exported only. */
  lemma CollisionFree(cfg: Federation, caches: seq<Cache>, listings: seq<seq<Item>>)
    requires AreListings(caches, cfg.LabelSelectors(), listings)
    ensures NoNameCollision(Served(cfg, Concat(listings))) <==> NoExportCollision(cfg, caches)
  {
    var served := Served(cfg, Concat(listings));
    forall sp ensures sp in served <==> ServesPort(cfg, caches, sp) {
      ServedIff(cfg, caches, listings, sp);
    }
    if NoNameCollision(served) {
      forall a: SvcPort, b: SvcPort | ServesPort(cfg, caches, a) && ServesPort(cfg, caches, b) && NameOf(a) == NameOf(b)
        ensures a == b
      {
        var i :| 0 <= i < |served| && served[i] == a;
        var j :| 0 <= j < |served| && served[j] == b;
      }
    }
    if NoExportCollision(cfg, caches) {
      forall i, j | 0 <= i < |served| && 0 <= j < |served| && NameOf(served[i]) == NameOf(served[j])
        ensures served[i] == served[j]
      {
        assert served[i] in served && served[j] in served;
      }
    }
  }

  ghost predicate ValidCaches(caches: seq<Cache>) {
    forall i | 0 <= i < |caches| :: ValidCache(caches[i])
  }

  ghost predicate NoNegativePorts(caches: seq<Cache>) {
    forall i, k, port | 0 <= i < |caches| && k in caches[i] && HasPort(caches[i][k], port) :: port >= 0
  }

  lemma ListedValid(cfg: Federation, caches: seq<Cache>, listings: seq<seq<Item>>)
    requires AreListings(caches, cfg.LabelSelectors(), listings) && ValidCaches(caches)
    ensures ValidItems(Concat(listings))
    ensures NoNegativePorts(caches) ==> PortsNotNegative(Concat(listings))
  {
    forall item | item in Concat(listings)
      ensures ValidKey(item.0)
      ensures exists i :: 0 <= i < |caches| && item.0 in caches[i] && item.1 == caches[i][item.0]
    {
      InListings(caches, cfg.LabelSelectors(), listings, item);
    }
  }

  /** The exporter's filters after a complete run that found `caches`. */
  ghost predicate ReconciledFilters(cfg: Federation, caches: seq<Cache>, now: Cluster<EnvoyFilter>) {
    exists listings: seq<seq<Item>>, before: Cluster<EnvoyFilter> ::
      && AreListings(caches, cfg.LabelSelectors(), listings)
      && Completed(before, now, LastWins(FilterEntries(cfg, Concat(listings))), PEER_LABEL, PEER_LABEL)
  }

  /** And its routes, which are listed by another label. */
  ghost predicate ReconciledRoutes(cfg: Federation, caches: seq<Cache>, now: Cluster<Route>) {
    exists listings: seq<seq<Item>>, before: Cluster<Route> ::
      && AreListings(caches, cfg.LabelSelectors(), listings)
      && Completed(before, now, LastWins(RouteEntries(cfg, Concat(listings))), ROUTE_LIST_LABEL, PEER_LABEL)
  }

  /** The owned filters serve only ports that the pass which produced them found exported. */
  lemma FiltersServeOnly(cfg: Federation, caches: seq<Cache>, now: Cluster<EnvoyFilter>, sp: SvcPort)
    requires |caches| == |cfg.LabelSelectors()| && ReconciledFilters(cfg, caches, now) && ValidKey(sp.0)
    requires Names(Owned(now, PEER_LABEL), SERVER_NAME, SniOf(sp))
    ensures ServesPort(cfg, caches, sp)
  {
    var listings: seq<seq<Item>>, before: Cluster<EnvoyFilter> :|
      && AreListings(caches, cfg.LabelSelectors(), listings)
      && Completed(before, now, LastWins(FilterEntries(cfg, Concat(listings))), PEER_LABEL, PEER_LABEL);
    var items := Concat(listings);
    var desired := LastWins(FilterEntries(cfg, items));
    CompletedIsTarget(before, now, desired, PEER_LABEL);
    TargetExact(before, desired, PEER_LABEL);
    var k :| k in desired && SERVER_NAME(desired[k]) == SniOf(sp);
    var i := LastWinsFrom(FilterEntries(cfg, items), k);
    FilterAt(cfg, items, i);
    SniOfInjective(sp, Served(cfg, items)[i]);
    ServedIff(cfg, caches, listings, sp);
  }

  /** And all of them, without colliding names. */
  lemma FiltersServeExactly(cfg: Federation, caches: seq<Cache>, now: Cluster<EnvoyFilter>, sp: SvcPort)
    requires |caches| == |cfg.LabelSelectors()| && ValidCaches(caches) && NoExportCollision(cfg, caches)
    requires ReconciledFilters(cfg, caches, now) && ValidKey(sp.0)
    ensures Names(Owned(now, PEER_LABEL), SERVER_NAME, SniOf(sp)) <==> ServesPort(cfg, caches, sp)
  {
    if Names(Owned(now, PEER_LABEL), SERVER_NAME, SniOf(sp)) {
      FiltersServeOnly(cfg, caches, now, sp);
    }
    var listings: seq<seq<Item>>, before: Cluster<EnvoyFilter> :|
      && AreListings(caches, cfg.LabelSelectors(), listings)
      && Completed(before, now, LastWins(FilterEntries(cfg, Concat(listings))), PEER_LABEL, PEER_LABEL);
    var desired := LastWins(FilterEntries(cfg, Concat(listings)));
    CompletedIsTarget(before, now, desired, PEER_LABEL);
    TargetExact(before, desired, PEER_LABEL);
    ListedValid(cfg, caches, listings);
    CollisionFree(cfg, caches, listings);
    FiltersServeIff(cfg, Concat(listings));
    ServedIff(cfg, caches, listings, sp);
  }

  /** The routes serve at least the ports that the last complete pass found. */
  lemma RoutesServePorts(cfg: Federation, caches: seq<Cache>, now: Cluster<Route>, sp: SvcPort)
    requires |caches| == |cfg.LabelSelectors()| && ValidCaches(caches) && NoNegativePorts(caches)
    requires NoExportCollision(cfg, caches) && ReconciledRoutes(cfg, caches, now) && ServesPort(cfg, caches, sp)
    ensures exists key :: key in now && now[key].spec.host == SniOf(sp)
  {
    var listings: seq<seq<Item>>, before: Cluster<Route> :|
      && AreListings(caches, cfg.LabelSelectors(), listings)
      && Completed(before, now, LastWins(RouteEntries(cfg, Concat(listings))), ROUTE_LIST_LABEL, PEER_LABEL);
    var desired := LastWins(RouteEntries(cfg, Concat(listings)));
    ListedValid(cfg, caches, listings);
    CollisionFree(cfg, caches, listings);
    RoutesServeIff(cfg, Concat(listings));
    ServedIff(cfg, caches, listings, sp);
    var key :| key in desired && ROUTE_HOST(desired[key]) == SniOf(sp);
    assert FinalAt(before, now, desired, ROUTE_LIST_LABEL, PEER_LABEL, key);
  }

  // ---------------------------------------------------------------- what the importer's cluster asks for

  lemma {:induction false} RulesHave(env: Env, remotes: seq<Remote>, views: seq<Snapshot>, r: nat, rule: (Key, Spec))
    requires |views| == |remotes| && r < |remotes| && remotes[r].ingressType == OPENSHIFT_ROUTER
    requires rule in RulesFor(env, remotes[r], views[r])
    ensures rule in RulesOf(env, remotes, views)
  {
    var n := |remotes| - 1;
    if r == n {
    } else {
      RulesHave(env, remotes[..n], views[..n], r, rule);
    }
  }

  /** A service known from a router peer has its rule in the desired state, unless rules disagree. */
  lemma RuleDesired(env: Env, views: seq<Snapshot>, r: nat, k: Key, svc: Service)
    requires |views| == |env.cfg.remotes| && r < |views| && env.cfg.remotes[r].ingressType == OPENSHIFT_ROUTER
    requires Federated(k, svc) in views[r] && ValidKey(k) && RulesAgree(RulesOf(env, env.cfg.remotes, views))
    ensures var rule := ServiceRule(env, Federated(k, svc));
            var desired := LastWins(RulesOf(env, env.cfg.remotes, views));
            rule.0 in desired && desired[rule.0] == rule.1
  {
    var rule, rules := ServiceRule(env, Federated(k, svc)), RulesOf(env, env.cfg.remotes, views);
    RuleListed(views[r], env, env.cfg.remotes[r], k, svc);
    RulesHave(env, env.cfg.remotes, views, r, rule);
    RulesSurviveIff(env, env.cfg.remotes, views);
    var i: nat :| i < |rules| && rules[i] == rule;
    assert Survives(rules, i);
  }
}
