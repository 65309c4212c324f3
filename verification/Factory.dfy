/** The importing side of the Istio config factory: service entries, workload entries and destination
    rules, generated from the configuration, the local services and one read of the store per peer. */
module Factory {
  import opened Types
  import opened Naming
  import opened Collections
  import Networking

  datatype Resolution = STATIC | DNS

  datatype Endpoint = Endpoint(address: string, labels: Labels, ports: map<string, uint32>, network: string)

  datatype ServiceEntry = ServiceEntry(hosts: seq<string>, ports: seq<ServicePort>, endpoints: seq<Endpoint>,
                                       resolution: Resolution)

  /** The specs of the generated objects. A destination rule fixes one SNI, or one per port. */
  datatype Spec =
    | ServiceEntrySpec(entry: ServiceEntry)
    | WorkloadEntrySpec(endpoint: Endpoint)
    | MtlsRule(host: string, sni: string)
    | PortRules(host: string, settings: seq<(uint32, string)>)

  type Entries = seq<(Key, Spec)>

  /** Everything generation depends on besides the store; `isIP` and `answers` stand for the network library. */
  datatype Env = Env(cfg: Federation, lister: Lister, isIP: string -> bool, answers: Networking.Answers)

  datatype FactoryError = GetFailed(key: Key) | IndexOutOfRange(hostname: string)

  /** A service imported from a peer. */
  datatype Import = Import(remote: Remote, svc: FederatedService)

  // ---------------------------------------------------------------- imports and where they go

  /** A local lookup of an imported host name: it exists here or not, or it cannot be decided. */
  datatype Side = Here(key: Key) | Absent | Undecided(error: FactoryError)

  function SideOf(lister: Lister, hostname: string): Side {
    match ServiceNameAndNs(hostname)
    case None => Undecided(IndexOutOfRange(hostname))
    case Some(k) =>
      if k in lister.getFails then Undecided(GetFailed(k))
      else if k in lister.cache then Here(k)
      else Absent
  }

  function ImportsFrom(remote: Remote, services: Snapshot): seq<Import> {
    seq(|services|, i requires 0 <= i < |services| => Import(remote, services[i]))
  }

  /** All imports, in the order in which the factory meets them. */
  function Imports(remotes: seq<Remote>, views: seq<Snapshot>): seq<Import>
    requires |views| == |remotes|
  {
    if remotes == [] then []
    else
      var n := |remotes| - 1;
      Imports(remotes[..n], views[..n]) + ImportsFrom(remotes[n], views[n])
  }

  /** The imports of each peer in order, peer by peer. */
  lemma ImportsNext(remotes: seq<Remote>, views: seq<Snapshot>, remote: Remote, view: Snapshot)
    requires |views| == |remotes|
    ensures var before, all := Imports(remotes, views), Imports(remotes + [remote], views + [view]);
            && |all| == |before| + |view| && before <= all
            && forall j | 0 <= j < |view| :: all[|before| + j] == Import(remote, view[j])
  {
    assert (remotes + [remote])[..|remotes|] == remotes && (views + [view])[..|remotes|] == views;
  }

  /** Where an imported service goes is decided by its name in the cache alone. */
  lemma SideByCache(lister: Lister, k: Key)
    requires DotFree(k.name) && DotFree(k.namespace)
    ensures var side := SideOf(lister, Hostname(k.name, k.namespace));
            && (side.Undecided? <==> k in lister.getFails)
            && (side == Here(k) <==> k !in lister.getFails && k in lister.cache)
            && (side.Absent? <==> k !in lister.getFails && k !in lister.cache)
  {
    HostnameRoundTrip(k.name, k.namespace);
  }

  predicate Addressed(imp: Import) {
    imp.remote.addresses != []
  }

  predicate Elsewhere(lister: Lister, imp: Import) {
    Addressed(imp) && SideOf(lister, imp.svc.hostname).Absent?
  }

  predicate Blocks(lister: Lister, imp: Import) {
    SideOf(lister, imp.svc.hostname).Undecided?
  }

  /** The imports that get a service entry. */
  function Remaining(lister: Lister, imports: seq<Import>): seq<Import> {
    if imports == [] then []
    else
      var n := |imports| - 1;
      Remaining(lister, imports[..n]) + if Elsewhere(lister, imports[n]) then [imports[n]] else []
  }

  // ---------------------------------------------------------------- service entries

  const TLS_MODE: Labels := map["security.istio.io/tlsMode" := "istio"]

  function PortsMap(ports: seq<ServicePort>, port: uint32): map<string, uint32> {
    map i | 0 <= i < |ports| :: ports[i].name := port
  }

  method MakePortsMap(ports: seq<ServicePort>, port: uint32) returns (m: map<string, uint32>)
    ensures m == PortsMap(ports, port)
    ensures m.Keys == (set i | 0 <= i < |ports| :: ports[i].name) && forall n | n in m :: m[n] == port
  {
    m := map[];
    for i := 0 to |ports|
      invariant m == PortsMap(ports[..i], port)
    {
      m := m[ports[i].name := port];
      assert ports[..i + 1][..i] == ports[..i] && ports[..i + 1][i] == ports[i];
    }
    assert ports[..|ports|] == ports;
  }

  /** The workload behind an address: every port of the service is reached through the peer's gateway port,
      and traffic is mutual TLS whatever the service's own labels say. */
  function EndpointAt(remote: Remote, svc: FederatedService, address: string): (e: Endpoint)
    ensures e.address == address && e.network == remote.network
    ensures e.ports.Keys == (set i | 0 <= i < |svc.ports| :: svc.ports[i].name)
    ensures forall n | n in e.ports :: e.ports[n] == remote.GetPort()
    ensures "security.istio.io/tlsMode" in e.labels && e.labels["security.istio.io/tlsMode"] == "istio"
    ensures forall k | k in svc.labels && k != "security.istio.io/tlsMode" ::
              k in e.labels && e.labels[k] == svc.labels[k]
  {
    Endpoint(address, svc.labels + TLS_MODE, PortsMap(svc.ports, remote.GetPort()), remote.network)
  }

  /** One endpoint per address, in order. */
  function EndpointsOf(imp: Import): (r: seq<Endpoint>)
    ensures |r| == |imp.remote.addresses|
    ensures forall i | 0 <= i < |r| :: r[i].address == imp.remote.addresses[i] && r[i].network == imp.remote.network
  {
    var addresses := imp.remote.addresses;
    seq(|addresses|, i requires 0 <= i < |addresses| => EndpointAt(imp.remote, imp.svc, addresses[i]))
  }

  function ResolutionOf(env: Env, remote: Remote): Resolution
    requires remote.addresses != []
  {
    if env.isIP(remote.addresses[0]) then STATIC else DNS
  }

  function EntryName(imp: Import): string {
    "import-" + SeparateWithDash(imp.svc.hostname) + "-" + imp.remote.name
  }

  /** One turn of the loop: a known name collects more endpoints, a new one gets an entry. */
  function Merge(env: Env, m: map<string, ServiceEntry>, imp: Import): map<string, ServiceEntry>
    requires Addressed(imp)
  {
    var name := EntryName(imp);
    if name in m then m[name := m[name].(endpoints := m[name].endpoints + EndpointsOf(imp))]
    else m[name := ServiceEntry([imp.svc.hostname], imp.svc.ports, EndpointsOf(imp), ResolutionOf(env, imp.remote))]
  }

  function MergeAll(env: Env, imports: seq<Import>): map<string, ServiceEntry>
    requires forall i | 0 <= i < |imports| :: Addressed(imports[i])
  {
    if imports == [] then map[]
    else
      var n := |imports| - 1;
      Merge(env, MergeAll(env, imports[..n]), imports[n])
  }

  function DiscoveryEntry(env: Env, remote: Remote): (Key, Spec)
    requires remote.addresses != []
  {
    var endpoints := seq(|remote.addresses|, i requires 0 <= i < |remote.addresses| =>
                       Endpoint(remote.addresses[i], TLS_MODE, map["grpc" := remote.GetPort()], remote.network));
    (Key(env.cfg.local.controlPlaneNamespace, remote.ServiceName()),
     ServiceEntrySpec(ServiceEntry([remote.ServiceFQDN()], [ServicePort("grpc", DISCOVERY_PORT, "GRPC", 0)],
                                   endpoints, ResolutionOf(env, remote))))
  }

  function DiscoveryEntries(env: Env, remotes: seq<Remote>): Entries {
    if remotes == [] then []
    else
      var n := |remotes| - 1;
      DiscoveryEntries(env, remotes[..n]) + if remotes[n].addresses == [] then [] else [DiscoveryEntry(env, remotes[n])]
  }

  function NamedEntries(env: Env, m: map<string, ServiceEntry>, names: seq<string>): Entries
    requires forall n | n in names :: n in m
  {
    seq(|names|, i requires 0 <= i < |names| =>
      (Key(env.cfg.local.controlPlaneNamespace, names[i]), ServiceEntrySpec(m[names[i]])))
  }

  lemma {:induction false} RemainingAddressed(lister: Lister, imports: seq<Import>)
    ensures forall i | 0 <= i < |Remaining(lister, imports)| :: Elsewhere(lister, Remaining(lister, imports)[i])
  {
    if imports == [] {
    } else {
      RemainingAddressed(lister, imports[..|imports| - 1]);
    }
  }

  /** The import entries by name, as the factory collects them. */
  function ImportMap(env: Env, imports: seq<Import>): map<string, ServiceEntry> {
    RemainingAddressed(env.lister, imports);
    MergeAll(env, Remaining(env.lister, imports))
  }

  ghost predicate SomeBlocks(lister: Lister, imports: seq<Import>) {
    exists i | 0 <= i < |imports| :: Addressed(imports[i]) && Blocks(lister, imports[i])
  }

  /** Fails exactly when the side of some import from an addressed peer is undecided; otherwise lists
      the discovery entries followed by the merged import entries, in any order. */
  method ServiceEntries(env: Env, views: seq<Snapshot>)
    returns (r: Result<Entries, FactoryError>, ghost names: seq<string>)
    requires |views| == |env.cfg.remotes|
    ensures r.Failure? <==> SomeBlocks(env.lister, Imports(env.cfg.remotes, views))
    ensures r.Success? ==>
              && IsEnumeration(names, ImportMap(env, Imports(env.cfg.remotes, views)).Keys)
              && r.value == DiscoveryEntries(env, env.cfg.remotes)
                            + NamedEntries(env, ImportMap(env, Imports(env.cfg.remotes, views)), names)
  {
    var remotes := env.cfg.remotes;
    var entries: Entries := [];
    var byName: map<string, ServiceEntry> := map[];
    ghost var done: seq<Import> := [];
    names := [];
    for i := 0 to |remotes|
      invariant entries == DiscoveryEntries(env, remotes[..i])
      invariant done == Imports(remotes[..i], views[..i]) && byName == ImportMap(env, done)
      invariant !SomeBlocks(env.lister, done)
    {
      ghost var before := done;
      done := done + ImportsFrom(remotes[i], views[i]);
      assert remotes[..i + 1][..i] == remotes[..i] && views[..i + 1][..i] == views[..i];
      PrefixOfImports(remotes, views, i + 1);
      if remotes[i].addresses == [] {
        SkipUnaddressed(env.lister, before, ImportsFrom(remotes[i], views[i]));
        continue;
      }
      entries := entries + [DiscoveryEntry(env, remotes[i])];
      var merged := MergeRemote(env, before, byName, remotes[i], views[i]);
      if merged.Failure? {
        return Failure(merged.error), [];
      }
      byName := merged.value;
    }
    assert remotes[..|remotes|] == remotes && views[..|remotes|] == views;
    var order := Enumerate(byName.Keys);
    names := order;
    r := Success(entries + NamedEntries(env, byName, order));
  }

  method MergeRemote(env: Env, ghost before: seq<Import>, byName: map<string, ServiceEntry>, remote: Remote,
                     services: Snapshot)
    returns (r: Result<map<string, ServiceEntry>, FactoryError>)
    requires remote.addresses != [] && byName == ImportMap(env, before) && !SomeBlocks(env.lister, before)
    ensures r.Failure? <==> SomeBlocks(env.lister, before + ImportsFrom(remote, services))
    ensures r.Success? ==> r.value == ImportMap(env, before + ImportsFrom(remote, services))
  {
    var m := byName;
    ghost var all := ImportsFrom(remote, services);
    ghost var done := before;
    for j := 0 to |services|
      invariant done == before + all[..j]
      invariant m == ImportMap(env, done)
      invariant !SomeBlocks(env.lister, done)
    {
      var imp := Import(remote, services[j]);
      TakeOne(env, done, imp);
      var side := SideOf(env.lister, services[j].hostname);
      if side.Undecided? {
        assert (before + all)[|before| + j] == imp;
        return Failure(side.error);
      }
      if side.Absent? {
        m := Merge(env, m, imp);
      }
      NextPrefix(before, all, j);
      done := done + [imp];
    }
    assert done == before + all;
    return Success(m);
  }

  lemma RemainingOne(lister: Lister, done: seq<Import>, imp: Import)
    ensures Remaining(lister, done + [imp])
            == if Elsewhere(lister, imp) then Remaining(lister, done) + [imp] else Remaining(lister, done)
    ensures SomeBlocks(lister, done + [imp]) <==> SomeBlocks(lister, done) || (Addressed(imp) && Blocks(lister, imp))
  {
    var all := done + [imp];
    assert all[..|all| - 1] == done && all[|done|] == imp;
    if i :| 0 <= i < |done| && Addressed(done[i]) && Blocks(lister, done[i]) {
      assert all[i] == done[i];
    }
  }

  lemma MergeOne(env: Env, imports: seq<Import>, imp: Import)
    requires (forall i | 0 <= i < |imports| :: Addressed(imports[i])) && Addressed(imp)
    ensures MergeAll(env, imports + [imp]) == Merge(env, MergeAll(env, imports), imp)
  {
    assert (imports + [imp])[..|imports|] == imports;
  }

  lemma TakeOne(env: Env, done: seq<Import>, imp: Import)
    ensures ImportMap(env, done + [imp])
            == if Elsewhere(env.lister, imp) then Merge(env, ImportMap(env, done), imp) else ImportMap(env, done)
    ensures SomeBlocks(env.lister, done + [imp])
            <==> SomeBlocks(env.lister, done) || (Addressed(imp) && Blocks(env.lister, imp))
  {
    RemainingOne(env.lister, done, imp);
    RemainingAddressed(env.lister, done);
    if Elsewhere(env.lister, imp) {
      MergeOne(env, Remaining(env.lister, done), imp);
    }
  }

  lemma {:induction false} PrefixOfImports(remotes: seq<Remote>, views: seq<Snapshot>, n: nat)
    requires |views| == |remotes| && n <= |remotes|
    ensures Imports(remotes[..n], views[..n]) <= Imports(remotes, views)
    decreases |remotes| - n
  {
    if n < |remotes| {
      PrefixOfImports(remotes, views, n + 1);
      assert remotes[..n + 1][..n] == remotes[..n] && views[..n + 1][..n] == views[..n];
    } else {
      assert remotes[..n] == remotes && views[..n] == views;
    }
  }

  lemma {:induction false} SkipUnaddressed(lister: Lister, before: seq<Import>, more: seq<Import>)
    requires forall i | 0 <= i < |more| :: !Addressed(more[i])
    ensures Remaining(lister, before + more) == Remaining(lister, before)
    ensures SomeBlocks(lister, before + more) <==> SomeBlocks(lister, before)
  {
    if more == [] {
      assert before + more == before;
    } else {
      var n := |more| - 1;
      SkipUnaddressed(lister, before, more[..n]);
      assert (before + more)[..|before| + n] == before + more[..n];
    }
    if i :| 0 <= i < |before| && Addressed(before[i]) && Blocks(lister, before[i]) {
      assert (before + more)[i] == before[i];
    }
    if i :| 0 <= i < |before + more| && Addressed((before + more)[i]) && Blocks(lister, (before + more)[i]) {
      assert (before + more)[i] == before[i];
    }
  }

  // ---------------------------------------------------------------- workload entries

  /** The addresses behind the configured ones. */
  function Resolve(env: Env, addresses: seq<string>): seq<string> {
    Networking.Resolve(env.isIP, env.answers, addresses)
  }

  function WorkloadName(remote: Remote, service: string, idx: nat): string {
    "import-" + remote.name + "-" + service + "-" + Decimal(idx)
  }

  function WorkloadEntry(imp: Import, key: Key, ip: string, idx: nat): (Key, Spec) {
    (Key(key.namespace, WorkloadName(imp.remote, key.name, idx)),
        WorkloadEntrySpec(EndpointAt(imp.remote, imp.svc, ip)))
  }

  /** The entries of one import: none unless its service exists here, else one per resolved address. */
  function WorkloadEntriesFor(env: Env, imp: Import): Entries {
    match SideOf(env.lister, imp.svc.hostname)
    case Here(key) =>
      var ips := Resolve(env, imp.remote.addresses);
      seq(|ips|, idx requires 0 <= idx < |ips| => WorkloadEntry(imp, key, ips[idx], idx))
    case _ => []
  }

  function WorkloadEntriesOf(env: Env, imports: seq<Import>): Entries {
    if imports == [] then []
    else
      var n := |imports| - 1;
      WorkloadEntriesOf(env, imports[..n]) + WorkloadEntriesFor(env, imports[n])
  }

  ghost predicate AnyBlocks(lister: Lister, imports: seq<Import>) {
    exists i | 0 <= i < |imports| :: Blocks(lister, imports[i])
  }

  /** Fails exactly when the side of some import is undecided. */
  method WorkloadEntries(env: Env, views: seq<Snapshot>) returns (r: Result<Entries, FactoryError>)
    requires |views| == |env.cfg.remotes|
    ensures r.Failure? <==> AnyBlocks(env.lister, Imports(env.cfg.remotes, views))
    ensures r.Success? ==> r.value == WorkloadEntriesOf(env, Imports(env.cfg.remotes, views))
  {
    var remotes := env.cfg.remotes;
    var entries: Entries := [];
    ghost var done: seq<Import> := [];
    for i := 0 to |remotes|
      invariant done == Imports(remotes[..i], views[..i]) && entries == WorkloadEntriesOf(env, done)
      invariant !AnyBlocks(env.lister, done)
    {
      assert remotes[..i + 1][..i] == remotes[..i] && views[..i + 1][..i] == views[..i];
      PrefixOfImports(remotes, views, i + 1);
      var added := WorkloadsOfRemote(env, done, entries, remotes[i], views[i]);
      done := done + ImportsFrom(remotes[i], views[i]);
      if added.Failure? {
        return Failure(added.error);
      }
      entries := added.value;
    }
    assert remotes[..|remotes|] == remotes && views[..|remotes|] == views;
    return Success(entries);
  }

  method WorkloadsOfRemote(env: Env, ghost before: seq<Import>, entries: Entries, remote: Remote, services: Snapshot)
    returns (r: Result<Entries, FactoryError>)
    requires entries == WorkloadEntriesOf(env, before) && !AnyBlocks(env.lister, before)
    ensures r.Failure? <==> AnyBlocks(env.lister, before + ImportsFrom(remote, services))
    ensures r.Success? ==> r.value == WorkloadEntriesOf(env, before + ImportsFrom(remote, services))
  {
    var all := entries;
    ghost var imports := ImportsFrom(remote, services);
    ghost var done := before;
    for j := 0 to |services|
      invariant done == before + imports[..j]
      invariant all == WorkloadEntriesOf(env, done)
      invariant !AnyBlocks(env.lister, done)
    {
      var imp := Import(remote, services[j]);
      WorkloadOne(env, done, imp);
      var side := SideOf(env.lister, services[j].hostname);
      if side.Undecided? {
        assert (before + imports)[|before| + j] == imp;
        return Failure(side.error);
      }
      if side.Here? {
        var added := WorkloadsOfImport(env, imp, side.key);
        all := all + added;
      }
      NextPrefix(before, imports, j);
      done := done + [imp];
    }
    assert done == before + imports;
    return Success(all);
  }

  method WorkloadsOfImport(env: Env, imp: Import, key: Key) returns (entries: Entries)
    requires SideOf(env.lister, imp.svc.hostname) == Here(key)
    ensures entries == WorkloadEntriesFor(env, imp)
  {
    entries := [];
    var ips := Resolve(env, imp.remote.addresses);
    for idx := 0 to |ips|
      invariant entries == WorkloadEntriesFor(env, imp)[..idx]
    {
      entries := entries + [WorkloadEntry(imp, key, ips[idx], idx)];
    }
  }

  lemma WorkloadOne(env: Env, done: seq<Import>, imp: Import)
    ensures WorkloadEntriesOf(env, done + [imp])
            == if SideOf(env.lister, imp.svc.hostname).Here?
              then WorkloadEntriesOf(env, done) + WorkloadEntriesFor(env, imp)
               else WorkloadEntriesOf(env, done)
    ensures AnyBlocks(env.lister, done + [imp]) <==> AnyBlocks(env.lister, done) || Blocks(env.lister, imp)
  {
    var all := done + [imp];
    assert all[..|done|] == done && all[|done|] == imp;
    if i :| 0 <= i < |done| && Blocks(env.lister, done[i]) {
      assert all[i] == done[i];
    }
  }

  // ---------------------------------------------------------------- destination rules

  function RuleName(hostname: string): string {
    "mtls-sni-" + SeparateWithDash(hostname)
  }

  function DiscoveryRule(env: Env, remote: Remote): (Key, Spec) {
    (Key(env.cfg.local.controlPlaneNamespace, RuleName(Hostname(remote.ServiceName(), "istio-system"))),
     MtlsRule(remote.ServiceFQDN(), RouterCompatibleSNI(remote.ServiceName(), "istio-system", DISCOVERY_PORT)))
  }

  /** The name is read once per port, so a host name without a dot does no harm without ports. */
  predicate Unreadable(svc: FederatedService) {
    svc.ports != [] && ServiceNameAndNs(svc.hostname).None?
  }

  function PortSettings(svc: FederatedService): seq<(uint32, string)> {
    match ServiceNameAndNs(svc.hostname)
    case None => []
    case Some(key) =>
      seq(|svc.ports|, i requires 0 <= i < |svc.ports| =>
        (svc.ports[i].number, RouterCompatibleSNI(key.name, key.namespace, svc.ports[i].number)))
  }

  function ServiceRule(env: Env, svc: FederatedService): (Key, Spec) {
    (Key(env.cfg.local.controlPlaneNamespace, RuleName(svc.hostname)), PortRules(svc.hostname, PortSettings(svc)))
  }

  function RulesFor(env: Env, remote: Remote, services: Snapshot): Entries {
    [DiscoveryRule(env, remote)] + seq(|services|, j requires 0 <= j < |services| => ServiceRule(env, services[j]))
  }

  function RulesOf(env: Env, remotes: seq<Remote>, views: seq<Snapshot>): Entries
    requires |views| == |remotes|
  {
    if remotes == [] then []
    else
      var n := |remotes| - 1;
      RulesOf(env, remotes[..n], views[..n])
      + if remotes[n].ingressType == OPENSHIFT_ROUTER then RulesFor(env, remotes[n], views[n]) else []
  }

  ghost predicate SomeUnreadable(remotes: seq<Remote>, views: seq<Snapshot>)
    requires |views| == |remotes|
  {
    exists i, j | 0 <= i < |remotes| && 0 <= j < |views[i]| ::
        remotes[i].ingressType == OPENSHIFT_ROUTER && Unreadable(views[i][j])
  }

  /** Panics exactly when a service with ports from a router peer has an unreadable host name. The set of
      rules already created is never added to, so a name met twice is listed twice. */
  method DestinationRules(env: Env, views: seq<Snapshot>) returns (r: Result<Entries, FactoryError>)
    requires |views| == |env.cfg.remotes|
    ensures r.Failure? <==> SomeUnreadable(env.cfg.remotes, views)
    ensures r.Success? ==> r.value == RulesOf(env, env.cfg.remotes, views)
  {
    var remotes := env.cfg.remotes;
    var rules: Entries := [];
    var alreadyCreated: set<string> := {};
    for i := 0 to |remotes|
      invariant rules == RulesOf(env, remotes[..i], views[..i])
      invariant !SomeUnreadable(remotes[..i], views[..i])
    {
      assert remotes[..i + 1][..i] == remotes[..i] && views[..i + 1][..i] == views[..i];
      if remotes[i].ingressType != OPENSHIFT_ROUTER {
        continue;
      }
      var added := RulesOfRemote(env, remotes[i], views[i], alreadyCreated);
      if added.Failure? {
        return Failure(added.error);
      }
      rules := rules + added.value;
    }
    assert remotes[..|remotes|] == remotes && views[..|remotes|] == views;
    return Success(rules);
  }

  method RulesOfRemote(env: Env, remote: Remote, services: Snapshot, alreadyCreated: set<string>)
    returns (r: Result<Entries, FactoryError>)
    requires alreadyCreated == {}
    ensures r.Failure? <==> exists j | 0 <= j < |services| :: Unreadable(services[j])
    ensures r.Success? ==> r.value == RulesFor(env, remote, services)
  {
    var rules := [DiscoveryRule(env, remote)];
    for j := 0 to |services|
      invariant rules == RulesFor(env, remote, services)[..j + 1]
      invariant forall j' | 0 <= j' < j :: !Unreadable(services[j'])
    {
      if RuleName(services[j].hostname) !in alreadyCreated {
        if Unreadable(services[j]) {
          return Failure(IndexOutOfRange(services[j].hostname));
        }
        rules := rules + [ServiceRule(env, services[j])];
      }
    }
    return Success(rules);
  }
}
