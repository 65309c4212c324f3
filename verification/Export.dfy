/** The exporting side: which services match the export rules, which discovery response is generated
    for them, and which service events ask for a push. */
module Export {
  import opened Types
  import opened Naming
  import opened Collections

  // ---------------------------------------------------------------- matching and listing

  /** A match-label selector accepts the label sets that extend it; the empty one accepts all. */
  predicate SelectorMatches(selector: Labels, labels: Labels) {
    forall k | k in selector :: k in labels && labels[k] == selector[k]
  }

  predicate MatchExportRules(labels: Labels, selectors: seq<Labels>) {
    exists i | 0 <= i < |selectors| :: SelectorMatches(selectors[i], labels)
  }

  /** That is: the selector adds nothing to the labels, neither a key nor another value. */
  lemma SelectorMatchesIff(selector: Labels, labels: Labels)
    ensures SelectorMatches(selector, labels) <==> labels + selector == labels
  {
    if labels + selector == labels {
      forall k | k in selector ensures k in labels && labels[k] == selector[k] {
        assert (labels + selector)[k] == selector[k];
      }
    }
  }

  /** A service is exported when one of the selectors adds nothing to its labels. */
  lemma MatchIff(labels: Labels, selectors: seq<Labels>)
    ensures MatchExportRules(labels, selectors) <==> exists i | 0 <= i < |selectors| :: labels + selectors[i] == labels
  {
    forall i | 0 <= i < |selectors| ensures SelectorMatches(selectors[i], labels) <==> labels + selectors[i] == labels {
      SelectorMatchesIff(selectors[i], labels);
    }
  }

  /** Only the first export rule counts. */
  lemma LaterRulesIgnored(local: Local, remotes: seq<Remote>, rule: seq<Labels>, rules: seq<seq<Labels>>)
    ensures Federation(local, remotes, [rule] + rules).LabelSelectors() == rule
    ensures Federation(local, remotes, []).LabelSelectors() == []
  {}

  predicate Listed(cache: Cache, selector: Labels, k: Key) {
    k in cache && SelectorMatches(selector, cache[k].labels)
  }

  /** The services that a selector accepts. */
  function Matching(cache: Cache, selector: Labels): set<Item> {
    set k | k in cache && Listed(cache, selector, k) :: (k, cache[k])
  }

  /** What a lister may answer: the matching services, each once, in any order. */
  ghost predicate IsListing(cache: Cache, selector: Labels, items: seq<Item>) {
    IsEnumeration(items, Matching(cache, selector))
  }

  lemma ListedIff(cache: Cache, selector: Labels, items: seq<Item>, item: Item)
    requires IsListing(cache, selector, items)
    ensures item in items <==> Listed(cache, selector, item.0) && item.1 == cache[item.0]
  {
    assert item in items <==> item in Matching(cache, selector);
  }

  datatype ListError = ListError(selector: Labels)

  method List(lister: Lister, selector: Labels) returns (r: Result<seq<Item>, ListError>)
    ensures r.Failure? <==> selector in lister.listFails
    ensures r.Failure? ==> r.error == ListError(selector)
    ensures r.Success? ==> IsListing(lister.cache, selector, r.value)
  {
    if selector in lister.listFails {
      return Failure(ListError(selector));
    }
    var items := Enumerate(Matching(lister.cache, selector));
    return Success(items);
  }

  // ---------------------------------------------------------------- generation

  predicate Claims(portName: string, token: string) {
    portName == token || token + "-" <= portName
  }

  function DetectProtocol(portName: string): string {
    if Claims(portName, "https") then "HTTPS"
    else if Claims(portName, "http") then "HTTP"
    else if Claims(portName, "http2") then "HTTP2"
    else if Claims(portName, "grpc") then "GRPC"
    else if Claims(portName, "tls") then "TLS"
    else if Claims(portName, "mongo") then "MONGO"
    else "TCP"
  }

  const PROTOCOLS: seq<(string, string)> :=
    [("http", "HTTP"), ("https", "HTTPS"), ("http2", "HTTP2"), ("grpc", "GRPC"), ("tls", "TLS"), ("mongo", "MONGO")]

  /** No port name is claimed by two tokens, so the order of the branches does not matter. */
  lemma ProtocolUnambiguous(portName: string)
    ensures forall i | 0 <= i < |PROTOCOLS| ::
              Claims(portName, PROTOCOLS[i].0) ==> DetectProtocol(portName) == PROTOCOLS[i].1
    ensures (forall i | 0 <= i < |PROTOCOLS| :: !Claims(portName, PROTOCOLS[i].0)) ==> DetectProtocol(portName) == "TCP"
  {
    assert PROTOCOLS[0].0 == "http" && PROTOCOLS[1].0 == "https" && PROTOCOLS[2].0 == "http2";
    assert PROTOCOLS[3].0 == "grpc" && PROTOCOLS[4].0 == "tls" && PROTOCOLS[5].0 == "mongo";
    forall i, j | 0 <= i < |PROTOCOLS| && 0 <= j < |PROTOCOLS| && Claims(portName, PROTOCOLS[i].0)
      && Claims(portName, PROTOCOLS[j].0)
      ensures PROTOCOLS[i].0 == PROTOCOLS[j].0
    {
      ClaimsExclusive(portName, PROTOCOLS[i].0, PROTOCOLS[j].0);
    }
  }

  lemma ClaimsExclusive(portName: string, a: string, b: string)
    requires '-' !in a && '-' !in b
    requires Claims(portName, a) && Claims(portName, b)
    ensures a == b
  {
    assert portName[..|a|] == a && portName[..|b|] == b;
    assert |a| < |portName| ==> portName[|a|] == '-';
    assert |b| < |portName| ==> portName[|b|] == '-';
    assert |a| == |b|;
  }

  function ExportPort(p: Port): ServicePort {
    ServicePort(p.name, ToUint32(p.port), DetectProtocol(p.name),
                if p.targetPort != 0 then ToUint32(p.targetPort) else 0)
  }

  function ExportPorts(ports: seq<Port>): seq<ServicePort> {
    seq(|ports|, i requires 0 <= i < |ports| => ExportPort(ports[i]))
  }

  function Federated(k: Key, s: Service): FederatedService {
    FederatedService(Hostname(k.name, k.namespace), ExportPorts(s.ports), s.labels)
  }

  function FederatedAll(items: seq<Item>): Snapshot {
    seq(|items|, i requires 0 <= i < |items| => Federated(items[i].0, items[i].1))
  }

  /** A cache that does not change while `n` listings are made. */
  function Steady(cache: Cache, n: nat): seq<Cache> {
    seq(n, _ => cache)
  }

  /** One listing per selector; the informer may change the cache in between, so that the i-th listing finds
      `caches[i]`. */
  ghost predicate AreListings(caches: seq<Cache>, selectors: seq<Labels>, listings: seq<seq<Item>>) {
    && |caches| == |listings| == |selectors|
    && forall i | 0 <= i < |selectors| :: IsListing(caches[i], selectors[i], listings[i])
  }

  /** The part of a response that one selector contributes. */
  ghost predicate IsPart(cache: Cache, selector: Labels, part: Snapshot) {
    exists items: seq<Item> :: IsListing(cache, selector, items) && part == FederatedAll(items)
  }

  ghost predicate AreParts(caches: seq<Cache>, selectors: seq<Labels>, parts: seq<Snapshot>) {
    && |caches| == |parts| == |selectors|
    && forall i | 0 <= i < |selectors| :: IsPart(caches[i], selectors[i], parts[i])
  }

  /** The responses the generator may give when it finds `caches[i]` while listing by the i-th selector. */
  ghost predicate IsResponse(caches: seq<Cache>, selectors: seq<Labels>, message: Snapshot) {
    exists parts: seq<Snapshot> :: AreParts(caches, selectors, parts) && message == Concat(parts)
  }

  /** A response generated while the cache does not change. */
  ghost predicate IsSnapshot(cache: Cache, selectors: seq<Labels>, message: Snapshot) {
    IsResponse(Steady(cache, |selectors|), selectors, message)
  }

  lemma PartExists(cache: Cache, selector: Labels) returns (part: Snapshot)
    ensures IsPart(cache, selector, part)
  {
    var items := SomeEnumeration(Matching(cache, selector));
    part := FederatedAll(items);
  }

  lemma PartsOne(caches: seq<Cache>, selectors: seq<Labels>, i: nat, parts: seq<Snapshot>, part: Snapshot)
    requires i < |selectors| == |caches|
    requires AreParts(caches[..i], selectors[..i], parts) && IsPart(caches[i], selectors[i], part)
    ensures AreParts(caches[..i + 1], selectors[..i + 1], parts + [part])
    ensures Concat(parts + [part]) == Concat(parts) + part
  {
    ConcatOne(parts, part);
    forall j | 0 <= j < i ensures IsPart(caches[..i + 1][j], selectors[..i + 1][j], (parts + [part])[j]) {
      assert IsPart(caches[..i][j], selectors[..i][j], parts[j]);
    }
  }

  lemma ListingsOne(caches: seq<Cache>, selectors: seq<Labels>, i: nat, listings: seq<seq<Item>>, items: seq<Item>)
    requires i < |selectors| == |caches|
    requires AreListings(caches[..i], selectors[..i], listings) && IsListing(caches[i], selectors[i], items)
    ensures AreListings(caches[..i + 1], selectors[..i + 1], listings + [items])
    ensures Concat(listings + [items]) == Concat(listings) + items
  {
    ConcatOne(listings, items);
    forall j | 0 <= j < i ensures IsListing(caches[..i + 1][j], selectors[..i + 1][j], (listings + [items])[j]) {
      assert IsListing(caches[..i][j], selectors[..i][j], listings[j]);
    }
  }

  method ExportedPorts(ports: seq<Port>) returns (r: seq<ServicePort>)
    ensures r == ExportPorts(ports)
  {
    r := [];
    for i := 0 to |ports|
      invariant r == ExportPorts(ports)[..i]
    {
      var servicePort := ServicePort(ports[i].name, ToUint32(ports[i].port), "", 0);
      if ports[i].targetPort != 0 {
        servicePort := servicePort.(targetPort := ToUint32(ports[i].targetPort));
      }
      servicePort := servicePort.(protocol := DetectProtocol(ports[i].name));
      r := r + [servicePort];
    }
  }

  /** One of the listings fails. */
  ghost predicate SomeListingFails(listers: seq<Lister>, selectors: seq<Labels>)
    requires |listers| == |selectors|
  {
    exists i | 0 <= i < |selectors| :: selectors[i] in listers[i].listFails
  }

  function CachesOf(listers: seq<Lister>): seq<Cache> {
    seq(|listers|, i requires 0 <= i < |listers| => listers[i].cache)
  }

  /** The generator lists selector by selector, and the informer may change the cache in between: `listers[i]`
      is what the i-th listing finds. Fails exactly when one of the listings fails. */
  method GenerateResponse(cfg: Federation, listers: seq<Lister>) returns (r: Result<Snapshot, ListError>)
    requires |listers| == |cfg.LabelSelectors()|
    ensures r.Failure? <==> SomeListingFails(listers, cfg.LabelSelectors())
    ensures r.Success? ==> IsResponse(CachesOf(listers), cfg.LabelSelectors(), r.value)
  {
    var selectors := cfg.LabelSelectors();
    var message: Snapshot := [];
    ghost var caches := CachesOf(listers);
    ghost var parts: seq<Snapshot> := [];
    for i := 0 to |selectors|
      invariant forall j | 0 <= j < i :: selectors[j] !in listers[j].listFails
      invariant AreParts(caches[..i], selectors[..i], parts)
      invariant message == Concat(parts)
    {
      var listed := List(listers[i], selectors[i]);
      if listed.Failure? {
        return Failure(listed.error);
      }
      message := AppendServices(message, listed.value);
      ghost var part := FederatedAll(listed.value);
      PartsOne(caches, selectors, i, parts, part);
      parts := parts + [part];
    }
    assert selectors[..|selectors|] == selectors && caches[..|selectors|] == caches;
    return Success(message);
  }

  method AppendServices(message: Snapshot, services: seq<Item>) returns (r: Snapshot)
    ensures r == message + FederatedAll(services)
  {
    r := message;
    for j := 0 to |services|
      invariant r == message + FederatedAll(services)[..j]
    {
      var (k, svc) := services[j];
      var ports := ExportedPorts(svc.ports);
      r := r + [FederatedService(Hostname(k.name, k.namespace), ports, svc.labels)];
    }
  }

  // ---------------------------------------------------------------- what a snapshot holds

  ghost predicate ValidKey(k: Key) {
    DotFree(k.name) && DotFree(k.namespace)
  }

  ghost predicate ValidCache(cache: Cache) {
    forall k | k in cache :: ValidKey(k)
  }

  function Hosts(message: Snapshot): set<string> {
    set i | 0 <= i < |message| :: message[i].hostname
  }

  predicate Exported(cache: Cache, selectors: seq<Labels>, k: Key) {
    k in cache && MatchExportRules(cache[k].labels, selectors)
  }

  function ExportedHostnames(cache: Cache, selectors: seq<Labels>): set<string> {
    set k | k in cache && Exported(cache, selectors, k) :: Hostname(k.name, k.namespace)
  }

  /** The host names under which services are exported, spelled out. */
  lemma ExportedHostnamesIff(cache: Cache, selectors: seq<Labels>, h: string)
    ensures h in ExportedHostnames(cache, selectors)
            <==> exists k :: Exported(cache, selectors, k) && h == k.name + "." + k.namespace + ".svc.cluster.local"
  {
    assert forall k: Key :: Hostname(k.name, k.namespace) == k.name + "." + k.namespace + ("." + DOMAIN);
    assert "." + DOMAIN == ".svc.cluster.local";
    if k :| Exported(cache, selectors, k) && h == k.name + "." + k.namespace + ".svc.cluster.local" {
      assert Hostname(k.name, k.namespace) in ExportedHostnames(cache, selectors);
    }
  }

  /** What listings hold, taken together. */
  lemma InListings(caches: seq<Cache>, selectors: seq<Labels>, listings: seq<seq<Item>>, item: Item)
    requires AreListings(caches, selectors, listings)
    ensures item in Concat(listings)
            <==> exists i | 0 <= i < |selectors| ::
                Listed(caches[i], selectors[i], item.0) && item.1 == caches[i][item.0]
  {
    InConcat(listings, item);
    forall i | 0 <= i < |selectors|
      ensures item in listings[i] <==> Listed(caches[i], selectors[i], item.0) && item.1 == caches[i][item.0]
    {
      ListedIff(caches[i], selectors[i], listings[i], item);
    }
  }

  /** While the cache does not change, the boolean match agrees with membership in the union of the listings. */
  lemma MatchIffListed(cache: Cache, selectors: seq<Labels>, listings: seq<seq<Item>>, k: Key)
    requires AreListings(Steady(cache, |selectors|), selectors, listings)
    ensures Exported(cache, selectors, k) <==> k in cache && (k, cache[k]) in Concat(listings)
  {
    if k in cache {
      InListings(Steady(cache, |selectors|), selectors, listings, (k, cache[k]));
    }
  }

  /** Two passes over the same caches list the same services equally often. */
  lemma {:induction false} ListingsPermuted(caches: seq<Cache>, selectors: seq<Labels>, a: seq<seq<Item>>,
                                            b: seq<seq<Item>>)
    requires AreListings(caches, selectors, a) && AreListings(caches, selectors, b)
    ensures multiset(Concat(a)) == multiset(Concat(b))
  {
    if selectors == [] {
    } else {
      var n := |selectors| - 1;
      ListingsPermuted(caches[..n], selectors[..n], a[..n], b[..n]);
      EnumerationsPermuted(a[n], b[n], Matching(caches[n], selectors[n]));
    }
  }

  /** A part carries exactly the services its selector accepts. */
  lemma PartCarries(cache: Cache, selector: Labels, part: Snapshot, x: FederatedService)
    requires IsPart(cache, selector, part)
    ensures x in part <==> exists k :: Listed(cache, selector, k) && x == Federated(k, cache[k])
  {
    var items: seq<Item> :| IsListing(cache, selector, items) && part == FederatedAll(items);
    if x in part {
      var i :| 0 <= i < |part| && part[i] == x;
      ListedIff(cache, selector, items, items[i]);
    }
    if k :| Listed(cache, selector, k) && x == Federated(k, cache[k]) {
      ListedIff(cache, selector, items, (k, cache[k]));
      var i :| 0 <= i < |items| && items[i] == (k, cache[k]);
      assert part[i] == x;
    }
  }

  /** Whatever the listing order and however the cache changes between the listings, a response carries
      exactly the services that the i-th selector accepted in the i-th cache, for some i. */
  lemma ResponseCarries(caches: seq<Cache>, selectors: seq<Labels>, message: Snapshot, x: FederatedService)
    requires IsResponse(caches, selectors, message)
    ensures x in message <==> exists i: nat, k ::
              i < |selectors| == |caches| && Listed(caches[i], selectors[i], k) && x == Federated(k, caches[i][k])
  {
    var parts: seq<Snapshot> :| AreParts(caches, selectors, parts) && message == Concat(parts);
    InConcat(parts, x);
    forall i: nat | i < |parts|
      ensures x in parts[i] <==> exists k :: Listed(caches[i], selectors[i], k) && x == Federated(k, caches[i][k])
    {
      PartCarries(caches[i], selectors[i], parts[i], x);
    }
  }

  /** In terms of labels: a response carries exactly the services to whose labels, in the i-th cache, the i-th
      selector adds nothing. */
  lemma ResponseMatches(caches: seq<Cache>, selectors: seq<Labels>, message: Snapshot, x: FederatedService)
    requires IsResponse(caches, selectors, message)
    ensures x in message
            <==> exists i: nat, k ::
                   && i < |selectors| == |caches| && k in caches[i]
                   && caches[i][k].labels + selectors[i] == caches[i][k].labels && x == Federated(k, caches[i][k])
  {
    ResponseCarries(caches, selectors, message, x);
    forall i: nat, k | i < |selectors| == |caches| && k in caches[i]
      ensures Listed(caches[i], selectors[i], k) <==> caches[i][k].labels + selectors[i] == caches[i][k].labels
    {
      SelectorMatchesIff(selectors[i], caches[i][k].labels);
    }
  }

  /** One label of each selector that is missing, or has another value, keeps a service out. */
  lemma OneLabelExcludes(caches: seq<Cache>, selectors: seq<Labels>, message: Snapshot, k: Key, wrong: seq<string>)
    requires IsResponse(caches, selectors, message) && |wrong| == |selectors| == |caches|
    requires ValidKey(k) && forall i | 0 <= i < |caches| :: ValidCache(caches[i])
    requires forall i | 0 <= i < |selectors| && k in caches[i] ::
               && wrong[i] in selectors[i]
               && !(wrong[i] in caches[i][k].labels && caches[i][k].labels[wrong[i]] == selectors[i][wrong[i]])
    ensures Hostname(k.name, k.namespace) !in Hosts(message)
  {
    HostsIff(message, Hostname(k.name, k.namespace));
    forall x | x in message && x.hostname == Hostname(k.name, k.namespace) ensures false {
      ResponseCarries(caches, selectors, message, x);
      var i: nat, k' :| i < |selectors| && Listed(caches[i], selectors[i], k') && x == Federated(k', caches[i][k']);
      HostnameInjective(k, k');
    }
  }

  lemma HostsIff(message: Snapshot, h: string)
    ensures h in Hosts(message) <==> exists x :: x in message && x.hostname == h
  {
    if h in Hosts(message) {
      var i :| 0 <= i < |message| && message[i].hostname == h;
      assert message[i] in message;
    }
  }

  /** While the cache does not change, a response names exactly the exported host names. */
  lemma SnapshotHosts(cache: Cache, selectors: seq<Labels>, message: Snapshot)
    requires IsSnapshot(cache, selectors, message)
    ensures Hosts(message) == ExportedHostnames(cache, selectors)
  {
    var caches := Steady(cache, |selectors|);
    forall h ensures h in Hosts(message) <==> h in ExportedHostnames(cache, selectors) {
      HostsIff(message, h);
      if x :| x in message && x.hostname == h {
        ResponseCarries(caches, selectors, message, x);
        var i: nat, k :| i < |selectors| && Listed(caches[i], selectors[i], k) && x == Federated(k, caches[i][k]);
        assert Exported(cache, selectors, k);
      }
      if h in ExportedHostnames(cache, selectors) {
        var k :| Exported(cache, selectors, k) && Hostname(k.name, k.namespace) == h;
        SnapshotCarries(cache, selectors, message, k);
      }
    }
  }

  /** What a resource says of a port: name, number and target port modulo 2^32, and the protocol of its name. */
  ghost predicate ConveysPort(x: ServicePort, p: Port) {
    && x.name == p.name && (x.number - p.port) % 0x1_0000_0000 == 0
      && (x.targetPort - p.targetPort) % 0x1_0000_0000 == 0
    && (forall i | 0 <= i < |PROTOCOLS| :: Claims(p.name, PROTOCOLS[i].0) ==> x.protocol == PROTOCOLS[i].1)
    && ((forall i | 0 <= i < |PROTOCOLS| :: !Claims(p.name, PROTOCOLS[i].0)) ==> x.protocol == "TCP")
  }

  /** What it says of a service: host name, labels and each port in order. */
  ghost predicate Conveys(x: FederatedService, k: Key, svc: Service) {
    && x.hostname == k.name + "." + k.namespace + ".svc.cluster.local" && x.labels == svc.labels
    && |x.ports| == |svc.ports| && forall p | 0 <= p < |svc.ports| :: ConveysPort(x.ports[p], svc.ports[p])
  }

  lemma FederatedConveys(k: Key, svc: Service)
    ensures Conveys(Federated(k, svc), k, svc)
  {
    assert ".svc.cluster.local" == "." + DOMAIN;
    forall p | 0 <= p < |svc.ports| ensures ConveysPort(Federated(k, svc).ports[p], svc.ports[p]) {
      ProtocolUnambiguous(svc.ports[p].name);
    }
  }

  /** And it carries each exported service, with its labels and ports. */
  lemma SnapshotCarries(cache: Cache, selectors: seq<Labels>, message: Snapshot, k: Key)
    requires IsSnapshot(cache, selectors, message) && Exported(cache, selectors, k)
    ensures Federated(k, cache[k]) in message && Conveys(Federated(k, cache[k]), k, cache[k])
  {
    FederatedConveys(k, cache[k]);
    var caches := Steady(cache, |selectors|);
    ResponseCarries(caches, selectors, message, Federated(k, cache[k]));
    var i: nat :| i < |selectors| && SelectorMatches(selectors[i], cache[k].labels);
    assert Listed(caches[i], selectors[i], k);
  }

  function CountMatching(labels: Labels, selectors: seq<Labels>): nat {
    if selectors == [] then 0
    else CountMatching(labels, selectors[..|selectors| - 1])
         + if SelectorMatches(selectors[|selectors| - 1], labels) then 1 else 0
  }

  ghost function MatchingSelectors(labels: Labels, selectors: seq<Labels>): set<nat> {
    set i: nat | i < |selectors| && labels + selectors[i] == labels
  }

  lemma MatchingSelectorsNext(labels: Labels, selectors: seq<Labels>)
    requires selectors != []
    ensures var n: nat := |selectors| - 1;
            var init := MatchingSelectors(labels, selectors[..n]);
            && n !in init
            && MatchingSelectors(labels, selectors) == if labels + selectors[n] == labels then init + {n} else init
  {
    var n: nat := |selectors| - 1;
    forall i: nat ensures i in MatchingSelectors(labels, selectors[..n])
      <==> i < n && labels + selectors[i] == labels {}
  }

  /** That is: the number of selectors that add nothing to the labels. */
  lemma {:induction false} CountMatchingIs(labels: Labels, selectors: seq<Labels>)
    ensures CountMatching(labels, selectors) == |MatchingSelectors(labels, selectors)|
  {
    if selectors == [] {
      assert MatchingSelectors(labels, selectors) == {};
    } else {
      var n: nat := |selectors| - 1;
      var init := MatchingSelectors(labels, selectors[..n]);
      CountMatchingIs(labels, selectors[..n]);
      SelectorMatchesIff(selectors[n], labels);
      MatchingSelectorsNext(labels, selectors);
    }
  }

  lemma PartOnce(cache: Cache, selector: Labels, part: Snapshot, k: Key)
    requires ValidCache(cache) && k in cache && IsPart(cache, selector, part)
    ensures multiset(part)[Federated(k, cache[k])] == if SelectorMatches(selector, cache[k].labels) then 1 else 0
  {
    var items: seq<Item> :| IsListing(cache, selector, items) && part == FederatedAll(items);
    forall i, j | 0 <= i < j < |part| ensures part[i] != part[j] {
      if part[i] == part[j] {
        ListedIff(cache, selector, items, items[i]);
        ListedIff(cache, selector, items, items[j]);
        HostnameInjective(items[i].0, items[j].0);
      }
    }
    DistinctOnce(part, Federated(k, cache[k]));
    PartCarries(cache, selector, part, Federated(k, cache[k]));
    if Federated(k, cache[k]) in part {
      var k' :| Listed(cache, selector, k') && Federated(k, cache[k]) == Federated(k', cache[k']);
      HostnameInjective(k, k');
    } else {
      assert !Listed(cache, selector, k);
    }
  }

  lemma {:induction false} PartsMultiplicity(cache: Cache, selectors: seq<Labels>, parts: seq<Snapshot>, k: Key)
    requires ValidCache(cache) && k in cache && |parts| == |selectors|
    requires forall i | 0 <= i < |selectors| :: IsPart(cache, selectors[i], parts[i])
    ensures multiset(Concat(parts))[Federated(k, cache[k])] == CountMatching(cache[k].labels, selectors)
  {
    if selectors == [] {
    } else {
      var n := |selectors| - 1;
      PartsMultiplicity(cache, selectors[..n], parts[..n], k);
      PartOnce(cache, selectors[n], parts[n], k);
    }
  }

  /** A response carries a service once for every selector that matches it. */
  lemma SnapshotMultiplicity(cache: Cache, selectors: seq<Labels>, message: Snapshot, k: Key)
    requires ValidCache(cache) && k in cache && IsSnapshot(cache, selectors, message)
    ensures multiset(message)[Federated(k, cache[k])] == CountMatching(cache[k].labels, selectors)
  {
    var caches := Steady(cache, |selectors|);
    var parts: seq<Snapshot> :| AreParts(caches, selectors, parts) && message == Concat(parts);
    assert forall i | 0 <= i < |selectors| :: caches[i] == cache;
    PartsMultiplicity(cache, selectors, parts, k);
  }

  // ---------------------------------------------------------------- service events

  datatype PushRequest = PushGateway | PushEnvoyFilter | PushRoute | PushExportedService

  /** Handles service events by sending push requests on two channels, here the sequences of requests
      sent so far. */
  class ServiceExportEventHandler {
    const cfg: Federation
    var fdsPushRequests: seq<PushRequest>
    var mcpPushRequests: seq<PushRequest>

    constructor (cfg: Federation)
      ensures this.cfg == cfg && fdsPushRequests == [] && mcpPushRequests == []
    {
      this.cfg := cfg;
      fdsPushRequests, mcpPushRequests := [], [];
    }

    method ObjectCreated(key: Key, service: Service)
      modifies this
      ensures fdsPushRequests == old(fdsPushRequests) + FdsRequests(Created(key, service), cfg.LabelSelectors())
      ensures mcpPushRequests == old(mcpPushRequests) + McpRequests(Created(key, service), cfg.LabelSelectors())
    {
      TriggerXDSPushIfMatchRules([service]);
    }

    method ObjectDeleted(key: Key, service: Service)
      modifies this
      ensures fdsPushRequests == old(fdsPushRequests) + FdsRequests(Deleted(key, service), cfg.LabelSelectors())
      ensures mcpPushRequests == old(mcpPushRequests) + McpRequests(Deleted(key, service), cfg.LabelSelectors())
    {
      TriggerXDSPushIfMatchRules([service]);
    }

    method ObjectUpdated(key: Key, oldService: Service, newService: Service)
      modifies this
      ensures fdsPushRequests == old(fdsPushRequests) + FdsRequests(Updated(key, oldService, newService),
                cfg.LabelSelectors())
      ensures mcpPushRequests == old(mcpPushRequests) + McpRequests(Updated(key, oldService, newService),
                cfg.LabelSelectors())
    {
      TriggerXDSPushIfMatchRules([oldService, newService]);
    }

    method TriggerXDSPushIfMatchRules(services: seq<Service>)
      requires |services| >= 1
      modifies this
      ensures var fire := if |services| == 2
                          then MatchExportRules(services[0].labels, cfg.LabelSelectors())
                               != MatchExportRules(services[1].labels, cfg.LabelSelectors())
                          else MatchExportRules(services[0].labels, cfg.LabelSelectors());
              && fdsPushRequests == old(fdsPushRequests) + (if fire then [PushExportedService] else [])
              && mcpPushRequests == old(mcpPushRequests) + (if fire then [PushGateway, PushEnvoyFilter, PushRoute]
                else [])
    {
      var exportLabels := cfg.LabelSelectors();
      if |services| == 2 {
        if MatchExportRules(services[0].labels, exportLabels) != MatchExportRules(services[1].labels, exportLabels) {
          TriggerXDSPush();
        }
      } else {
        if MatchExportRules(services[0].labels, exportLabels) {
          TriggerXDSPush();
        }
      }
    }

    method TriggerXDSPush()
      modifies this
      ensures fdsPushRequests == old(fdsPushRequests) + [PushExportedService]
      ensures mcpPushRequests == old(mcpPushRequests) + [PushGateway, PushEnvoyFilter, PushRoute]
    {
      mcpPushRequests := mcpPushRequests + [PushGateway];
      mcpPushRequests := mcpPushRequests + [PushEnvoyFilter];
      mcpPushRequests := mcpPushRequests + [PushRoute];
      fdsPushRequests := fdsPushRequests + [PushExportedService];
    }
  }

  datatype Event =
    | Created(key: Key, service: Service)
    | Updated(key: Key, oldService: Service, service: Service)
    | Deleted(key: Key, service: Service)

  /** The events an informer can report about a cache, and what each does to it. */
  ghost predicate Describes(e: Event, cache: Cache) {
    match e
    case Created(k, _) => k !in cache && ValidKey(k)
    case Updated(k, o, _) => k in cache && cache[k] == o
    case Deleted(k, s) => k in cache && cache[k] == s
  }

  function After(e: Event, cache: Cache): Cache {
    if e.Deleted? then cache - {e.key} else cache[e.key := e.service]
  }

  predicate Pushes(e: Event, selectors: seq<Labels>) {
    match e
    case Created(_, s) => MatchExportRules(s.labels, selectors)
    case Updated(_, o, s) => MatchExportRules(o.labels, selectors) != MatchExportRules(s.labels, selectors)
    case Deleted(_, s) => MatchExportRules(s.labels, selectors)
  }

  function FdsRequests(e: Event, selectors: seq<Labels>): seq<PushRequest> {
    if Pushes(e, selectors) then [PushExportedService] else []
  }

  function McpRequests(e: Event, selectors: seq<Labels>): seq<PushRequest> {
    if Pushes(e, selectors) then [PushGateway, PushEnvoyFilter, PushRoute] else []
  }

  lemma ExportedIff(cache: Cache, selectors: seq<Labels>, k: Key)
    requires ValidCache(cache) && ValidKey(k)
    ensures Hostname(k.name, k.namespace) in ExportedHostnames(cache, selectors)
            <==> Exported(cache, selectors, k)
  {
    if Hostname(k.name, k.namespace) in ExportedHostnames(cache, selectors) {
      var k' :| k' in cache && Exported(cache, selectors, k')
        && Hostname(k'.name, k'.namespace) == Hostname(k.name, k.namespace);
      HostnameInjective(k, k');
    }
  }

  /** An event asks for pushes exactly when it changes the set of exported host names. */
  lemma PushesIffHostnamesChange(e: Event, cache: Cache, selectors: seq<Labels>)
    requires ValidCache(cache) && Describes(e, cache)
    ensures ValidCache(After(e, cache))
    ensures Pushes(e, selectors)
            <==> ExportedHostnames(After(e, cache), selectors) != ExportedHostnames(cache, selectors)
  {
    var after := After(e, cache);
    ExportedIff(cache, selectors, e.key);
    ExportedIff(after, selectors, e.key);
    if !Pushes(e, selectors) {
      SameExports(cache, after, selectors);
    }
  }

  /** So it sends one discovery push and one request each for gateway, filters and routes, or nothing. */
  lemma RequestsIff(e: Event, cache: Cache, selectors: seq<Labels>)
    requires ValidCache(cache) && Describes(e, cache)
    ensures if ExportedHostnames(After(e, cache), selectors) != ExportedHostnames(cache, selectors)
            then FdsRequests(e, selectors) == [PushExportedService]
                 && McpRequests(e, selectors) == [PushGateway, PushEnvoyFilter, PushRoute]
            else FdsRequests(e, selectors) == [] && McpRequests(e, selectors) == []
  {
    PushesIffHostnamesChange(e, cache, selectors);
  }

  lemma SameExports(a: Cache, b: Cache, selectors: seq<Labels>)
    requires forall k: Key :: Exported(a, selectors, k) <==> Exported(b, selectors, k)
    ensures ExportedHostnames(a, selectors) == ExportedHostnames(b, selectors)
  {
    assert forall k: Key :: Exported(a, selectors, k) ==> k in a && k in b;
  }
}
