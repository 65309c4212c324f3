/** From a service exported by one mesh to the objects of another: the discovery protocol, the import
    pipeline and the factory put together. */
module EndToEnd {
  import opened Types
  import opened Naming
  import opened Export
  import opened Reconciler
  import opened Factory
  import opened FactoryLaws
  import opened ImportStore
  import Discovery
  import DiscoveryEdits
  import ImportRun

  lemma {:induction false} ImportsHas(remotes: seq<Remote>, views: seq<Snapshot>, r: nat, j: nat)
    requires |views| == |remotes| && r < |remotes| && j < |views[r]|
    ensures Import(remotes[r], views[r][j]) in Imports(remotes, views)
  {
    var n := |remotes| - 1;
    if r == n {
      assert ImportsFrom(remotes[n], views[n])[j] == Import(remotes[r], views[r][j]);
    } else {
      ImportsHas(remotes[..n], views[..n], r, j);
    }
  }

  /** An endpoint in the peer's network, with every port at the peer's gateway port. */
  ghost predicate Reaches(e: Endpoint, address: string, remote: Remote) {
    e.address == address && e.network == remote.network && forall n | n in e.ports :: e.ports[n] == remote.GetPort()
  }

  /** A service entry for a host with an endpoint at every address of a peer. */
  ghost predicate Serves(spec: Spec, h: string, remote: Remote) {
    && spec.ServiceEntrySpec?
    && spec.entry.hosts == [h]
    && forall a | a in remote.addresses :: exists e :: e in spec.entry.endpoints && Reaches(e, a, remote)
  }

  lemma EndpointsServe(imp: Import, entry: ServiceEntry)
    requires entry.hosts == [imp.svc.hostname] && multiset(EndpointsOf(imp)) <= multiset(entry.endpoints)
    ensures Serves(ServiceEntrySpec(entry), imp.svc.hostname, imp.remote)
  {
    forall a | a in imp.remote.addresses ensures exists e :: e in entry.endpoints && Reaches(e, a, imp.remote) {
      var i: nat :| i < |imp.remote.addresses| && imp.remote.addresses[i] == a;
      assert Reaches(EndpointsOf(imp)[i], a, imp.remote);
      assert EndpointsOf(imp)[i] in multiset(EndpointsOf(imp));
      assert EndpointsOf(imp)[i] in multiset(entry.endpoints);
    }
  }

  /** The desired entry of an import whose service is not here serves its host. */
  lemma DesiredServes(env: Env, imports: seq<Import>, imp: Import, k: Key)
    requires imp in imports && Addressed(imp) && imp.svc.hostname == Hostname(k.name, k.namespace) && ValidKey(k)
    requires k !in env.lister.cache && k !in env.lister.getFails && NoCollision(Remaining(env.lister, imports))
    ensures var name := "import-" + SeparateWithDash(imp.svc.hostname) + "-" + imp.remote.name;
            var key := Key(env.cfg.local.controlPlaneNamespace, name);
            && key in DesiredServiceEntries(env, imports)
            && Serves(DesiredServiceEntries(env, imports)[key], imp.svc.hostname, imp.remote)
  {
    var kept := Remaining(env.lister, imports);
    SideByCache(env.lister, k);
    RemainingAddressed(env.lister, imports);
    RemainingIff(env.lister, imports, imp);
    var i: nat :| i < |kept| && kept[i] == imp;
    CoverageIff(env, kept);
    MergedHolds(env, kept, i);
    var key := Key(env.cfg.local.controlPlaneNamespace, EntryName(imp));
    ImportedAt(env, ImportMap(env, imports), key);
    EndpointsServe(imp, ImportMap(env, imports)[EntryName(imp)]);
    assert key in DesiredServiceEntries(env, imports);
  }

  /** The import behind a host name of a peer's view. */
  lemma ImportOf(env: Env, views: seq<Snapshot>, r: nat, h: string) returns (imp: Import)
    requires |views| == |env.cfg.remotes| && r < |views| && h in Hosts(views[r])
    ensures imp in Imports(env.cfg.remotes, views) && imp.remote == env.cfg.remotes[r] && imp.svc.hostname == h
  {
    var j: nat :| j < |views[r]| && views[r][j].hostname == h;
    imp := Import(env.cfg.remotes[r], views[r][j]);
    ImportsHas(env.cfg.remotes, views, r, j);
  }

  lemma DesiredJoins(env: Env, imports: seq<Import>, imp: Import, k: Key, idx: nat)
    requires imp in imports && NoWorkloadCollision(env, imports)
    requires imp.svc.hostname == Hostname(k.name, k.namespace) && ValidKey(k)
    requires k in env.lister.cache && k !in env.lister.getFails && idx < |Resolve(env, imp.remote.addresses)|
    ensures var desired := LastWins(WorkloadEntriesOf(env, imports));
            var key := Key(k.namespace, "import-" + imp.remote.name + "-" + k.name + "-" + Decimal(idx));
            && key in desired
            && desired[key] == WorkloadEntrySpec(EndpointAt(imp.remote, imp.svc,
                Resolve(env, imp.remote.addresses)[idx]))
  {
    var i: nat :| i < |imports| && imports[i] == imp;
    SideByCache(env.lister, k);
    NoCollisionJoins(env, imports, i);
    assert WorkloadEntriesFor(env, imp)[idx].0 in LastWins(WorkloadEntriesOf(env, imports));
  }

  lemma {:induction false} ImportOrigin(remotes: seq<Remote>, views: seq<Snapshot>, imp: Import) returns (r: nat)
    requires |views| == |remotes| && imp in Imports(remotes, views)
    ensures r < |remotes| && imp.remote == remotes[r] && imp.svc in views[r]
  {
    var n := |remotes| - 1;
    if imp in ImportsFrom(remotes[n], views[n]) {
      r := n;
      var j: nat :| j < |views[n]| && ImportsFrom(remotes[n], views[n])[j] == imp;
      assert views[n][j] == imp.svc;
    } else {
      r := ImportOrigin(remotes[..n], views[..n], imp);
    }
  }

  // ---------------------------------------------------------------- many meshes in one state machine

  /** The importing mesh, the name its clients have at the peers, and the selectors each peer exports by. */
  datatype Setup = Setup(env: Env, me: string, selectors: map<string, seq<Labels>>)

  datatype World = World(peers: map<string, Discovery.State>, here: ImportRun.State)

  /** Something happens at a peer, here, or between the two: the client of a peer receives a response and the
      handler updates the store with it. */
  datatype Step =
    | AtPeer(peer: string, theirs: Discovery.Step)
    | AtHome(ours: ImportRun.Step)
    | Deliver(peer: string)

  /** The response that a client receives next. */
  ghost function Incoming(selectors: seq<Labels>, d: Discovery.State, me: string): Snapshot
    requires Discovery.Enabled(selectors, d, Discovery.Receive(me))
  {
    d.sent[d.clients[me].stream.value][d.clients[me].read]
  }

  ghost predicate Init(m: Setup, w: World) {
    && w.peers.Keys == m.selectors.Keys
    && (forall p | p in w.peers :: w.peers[p] == Discovery.INIT)
    && ImportRun.Init(m.env, w.here)
  }

  ghost predicate Next(m: Setup, w: World, step: Step, w': World) {
    w.peers.Keys == m.selectors.Keys &&
    match step
    case AtPeer(p, d) =>
      && p in w.peers && d != Discovery.Receive(m.me) && Discovery.Enabled(m.selectors[p], w.peers[p], d)
      && w' == w.(peers := w.peers[p := Discovery.Apply(m.selectors[p], w.peers[p], d)])
    case AtHome(i) =>
      && !i.Update? && ImportRun.Next(m.env, w.here, i, w'.here) && w'.peers == w.peers
    case Deliver(p) =>
      && p in w.peers && Discovery.Enabled(m.selectors[p], w.peers[p], Discovery.Receive(m.me))
      && w'.peers == w.peers[p := Discovery.Apply(m.selectors[p], w.peers[p], Discovery.Receive(m.me))]
      && ImportRun.Next(m.env, w.here, ImportRun.Update(p, Incoming(m.selectors[p], w.peers[p], m.me)), w'.here)
  }

  ghost predicate IsRun(m: Setup, worlds: seq<World>, steps: seq<Step>) {
    && |worlds| == |steps| + 1
    && Init(m, worlds[0])
    && forall i | 0 <= i < |steps| :: Next(m, worlds[i], steps[i], worlds[i + 1])
  }

  /** What the importer's client of a peer stored last. */
  function ClientStore(d: Discovery.State, me: string): Option<Snapshot> {
    if me in d.clients then d.clients[me].store else None
  }

  ghost predicate PeersInv(m: Setup, peers: map<string, Discovery.State>) {
    peers.Keys == m.selectors.Keys &&
    forall p | p in peers :: Discovery.Inv(m.selectors[p], peers[p]) && DiscoveryEdits.EditInv(peers[p])
  }

  /** The store holds for each peer what its client stored last. */
  ghost predicate Linked(me: string, peers: map<string, Discovery.State>, store: map<string, Snapshot>) {
    forall p | p in peers :: ClientStore(peers[p], me) == if p in store then Some(store[p]) else None
  }

  ghost predicate Inv(m: Setup, w: World) {
    PeersInv(m, w.peers) && Linked(m.me, w.peers, w.here.store) && ImportRun.Inv(m.env, w.here)
  }

  lemma PeerStep(m: Setup, peers: map<string, Discovery.State>, p: string, step: Discovery.Step)
    requires PeersInv(m, peers) && p in peers && Discovery.Enabled(m.selectors[p], peers[p], step)
    ensures PeersInv(m, peers[p := Discovery.Apply(m.selectors[p], peers[p], step)])
  {
    Discovery.StepKeepsInv(m.selectors[p], peers[p], step);
    DiscoveryEdits.StepKeepsEdits(m.selectors[p], peers[p], step);
  }

  lemma StoreAfter(selectors: seq<Labels>, d: Discovery.State, step: Discovery.Step, me: string)
    requires Discovery.Enabled(selectors, d, step)
    ensures ClientStore(Discovery.Apply(selectors, d, step), me)
            == if step == Discovery.Receive(me) then Some(Incoming(selectors, d, me)) else ClientStore(d, me)
  {}

  lemma OnlyUpdatesStore(env: Env, s: ImportRun.State, step: ImportRun.Step, s': ImportRun.State)
    requires ImportRun.Next(env, s, step, s')
    ensures s'.store == if step.Update? then s.store[step.peer := step.message] else s.store
  {}

  lemma StepKeepsLinked(m: Setup, w: World, step: Step, w': World)
    requires Linked(m.me, w.peers, w.here.store) && Next(m, w, step, w')
    ensures Linked(m.me, w'.peers, w'.here.store)
  {
    match step
    case AtPeer(p, d) => StoreAfter(m.selectors[p], w.peers[p], d, m.me);
    case AtHome(i) => OnlyUpdatesStore(m.env, w.here, i, w'.here);
    case Deliver(p) =>
      StoreAfter(m.selectors[p], w.peers[p], Discovery.Receive(m.me), m.me);
      OnlyUpdatesStore(m.env, w.here, ImportRun.Update(p, Incoming(m.selectors[p], w.peers[p], m.me)), w'.here);
  }

  lemma StepKeepsInv(m: Setup, w: World, step: Step, w': World)
    requires Inv(m, w) && Next(m, w, step, w')
    ensures Inv(m, w')
  {
    StepKeepsLinked(m, w, step, w');
    match step
    case AtPeer(p, d) => PeerStep(m, w.peers, p, d);
    case AtHome(i) => ImportRun.StepKeepsInv(m.env, w.here, i, w'.here);
    case Deliver(p) =>
      PeerStep(m, w.peers, p, Discovery.Receive(m.me));
      ImportRun.StepKeepsInv(m.env, w.here, ImportRun.Update(p, Incoming(m.selectors[p], w.peers[p], m.me)), w'.here);
  }

  lemma InitInv(m: Setup, w: World)
    requires Init(m, w)
    ensures Inv(m, w)
  {
    forall p | p in w.peers ensures Discovery.Inv(m.selectors[p], w.peers[p]) && DiscoveryEdits.EditInv(w.peers[p]) {}
  }

  lemma {:induction false} RunKeepsInv(m: Setup, worlds: seq<World>, steps: seq<Step>)
    requires IsRun(m, worlds, steps)
    ensures Inv(m, worlds[|steps|])
  {
    if steps == [] {
      InitInv(m, worlds[0]);
    } else {
      var n := |steps| - 1;
      RunPrefix(m, worlds, steps);
      RunKeepsInv(m, worlds[..n + 1], steps[..n]);
      StepKeepsInv(m, worlds[n], steps[n], worlds[n + 1]);
    }
  }

  lemma RunPrefix(m: Setup, worlds: seq<World>, steps: seq<Step>)
    requires IsRun(m, worlds, steps) && steps != []
    ensures IsRun(m, worlds[..|steps|], steps[..|steps| - 1])
    ensures Next(m, worlds[|steps| - 1], steps[|steps| - 1], worlds[|steps|])
  {}

  // ---------------------------------------------------------------- from export to import

  /** A peer is quiet and the importer's client has read all it was sent, the last of it undisturbed. */
  ghost predicate Delivered(m: Setup, w: World, p: string) {
    && p in w.peers && p in m.selectors
    && Discovery.Quiet(m.selectors[p], w.peers[p]) && Discovery.Drained(w.peers[p], m.me)
    && Discovery.Sure(w.peers[p], w.peers[p].clients[m.me].stream.value)
  }

  /** The importing mesh has nothing left to reconcile of a kind. */
  ghost predicate Reconciled(w: World, kind: Kind) {
    ImportRun.Quiet(w.here, kind) && kind in w.here.settled
  }

  ghost function ExportedBy(m: Setup, w: World, p: string): set<string>
    requires p in w.peers && p in m.selectors
  {
    ExportedHostnames(w.peers[p].cache, m.selectors[p])
  }

  ghost function AllImports(m: Setup, w: World): seq<Import> {
    Imports(m.env.cfg.remotes, ImportRun.CurrentViews(m.env, w.here.store))
  }

  /** In every run the importer knows exactly what a delivered peer exports, and nothing it exported before. */
  lemma ViewIsExported(m: Setup, worlds: seq<World>, steps: seq<Step>, p: string)
    requires IsRun(m, worlds, steps) && Delivered(m, worlds[|steps|], p)
    ensures Hosts(View(worlds[|steps|].here.store, p)) == ExportedBy(m, worlds[|steps|], p)
  {
    var w := worlds[|steps|];
    RunKeepsInv(m, worlds, steps);
    Discovery.DrainedClient(m.selectors[p], w.peers[p], m.me);
  }

  /** The importer's stream at a peer. */
  ghost function StreamOf(m: Setup, w: World, p: string): nat
    requires Delivered(m, w, p)
  {
    w.peers[p].clients[m.me].stream.value
  }

  /** And it knows a service as it is now if and only if no edit outdated it after it was listed. */
  lemma ViewIsCurrent(m: Setup, worlds: seq<World>, steps: seq<Step>, p: string, k: Key)
    requires IsRun(m, worlds, steps) && Delivered(m, worlds[|steps|], p)
    requires Exported(worlds[|steps|].peers[p].cache, m.selectors[p], k)
    ensures var w := worlds[|steps|];
            var d, id := w.peers[p], StreamOf(m, w, p);
            && id in d.outdated
            && (Federated(k, d.cache[k]) in View(w.here.store, p) <==> k !in d.outdated[id])
  {
    var w := worlds[|steps|];
    RunKeepsInv(m, worlds, steps);
    DiscoveryEdits.CarriedIff(m.selectors[p], w.peers[p], StreamOf(m, w, p), k);
  }

  /** So what it exports is imported. */
  lemma ExportedIsImported(m: Setup, worlds: seq<World>, steps: seq<Step>, r: nat, h: string) returns (imp: Import)
    requires IsRun(m, worlds, steps) && r < |m.env.cfg.remotes|
    requires Delivered(m, worlds[|steps|], m.env.cfg.remotes[r].name)
             && h in ExportedBy(m, worlds[|steps|], m.env.cfg.remotes[r].name)
    ensures imp in AllImports(m, worlds[|steps|]) && imp.remote == m.env.cfg.remotes[r] && imp.svc.hostname == h
  {
    ViewIsExported(m, worlds, steps, m.env.cfg.remotes[r].name);
    imp := ImportOf(m.env, ImportRun.CurrentViews(m.env, worlds[|steps|].here.store), r, h);
  }

  /** And what is imported is converged. */
  lemma ReconciledConverged(m: Setup, worlds: seq<World>, steps: seq<Step>, kind: Kind)
    requires IsRun(m, worlds, steps) && Reconciled(worlds[|steps|], kind)
    ensures ImportRun.Converged(m.env, worlds[|steps|].here, kind)
  {
    RunKeepsInv(m, worlds, steps);
    ImportRun.QuietConverged(m.env, worlds[|steps|].here, kind);
  }

  /** A delivered peer exports a service of the name `k`. */
  ghost predicate DeliversService(m: Setup, w: World, r: nat, k: Key) {
    && r < |m.env.cfg.remotes|
    && var p := m.env.cfg.remotes[r].name;
       Delivered(m, w, p) && Exported(w.peers[p].cache, m.selectors[p], k)
  }

  lemma ServiceImported(m: Setup, worlds: seq<World>, steps: seq<Step>, r: nat, k: Key) returns (imp: Import)
    requires IsRun(m, worlds, steps) && DeliversService(m, worlds[|steps|], r, k)
    ensures imp in AllImports(m, worlds[|steps|]) && imp.remote == m.env.cfg.remotes[r]
    ensures imp.svc.hostname == Hostname(k.name, k.namespace) && ValidKey(k)
  {
    var w, p := worlds[|steps|], m.env.cfg.remotes[r].name;
    RunKeepsInv(m, worlds, steps);
    assert Discovery.Inv(m.selectors[p], w.peers[p]);
    imp := ExportedIsImported(m, worlds, steps, r, Hostname(k.name, k.namespace));
  }

  /** A service exported by a peer, of a name that is not in the local cache, is reachable under its host name
      through the cluster's service entries, at every address of the peer. */
  lemma ExportedServiceReachable(m: Setup, worlds: seq<World>, steps: seq<Step>, r: nat, k: Key)
    requires IsRun(m, worlds, steps) && Reconciled(worlds[|steps|], ServiceEntries)
    requires DeliversService(m, worlds[|steps|], r, k) && m.env.cfg.remotes[r].addresses != []
    requires NoCollision(Remaining(m.env.lister, AllImports(m, worlds[|steps|])))
    requires k !in m.env.lister.cache && k !in m.env.lister.getFails
    ensures ServiceEntries in worlds[|steps|].here.clusters
    ensures var owned, remote := Owned(worlds[|steps|].here.clusters[ServiceEntries], PEER_LABEL), m.env.cfg.remotes[r];
            var host := Hostname(k.name, k.namespace);
            var key := Key(m.env.cfg.local.controlPlaneNamespace,
                "import-" + SeparateWithDash(host) + "-" + remote.name);
            key in owned && Serves(owned[key], host, remote)
  {
    ReconciledConverged(m, worlds, steps, ServiceEntries);
    var imp := ServiceImported(m, worlds, steps, r, k);
    DesiredServes(m.env, AllImports(m, worlds[|steps|]), imp, k);
  }

  /** A service exported by a peer, of a name that is in the local cache, gets a workload entry in its namespace
      for each resolved address of the peer. */
  lemma ExportedServiceJoined(m: Setup, worlds: seq<World>, steps: seq<Step>, r: nat, k: Key, idx: nat)
    requires IsRun(m, worlds, steps) && Reconciled(worlds[|steps|], WorkloadEntries)
    requires DeliversService(m, worlds[|steps|], r, k) && idx < |Resolve(m.env, m.env.cfg.remotes[r].addresses)|
    requires NoWorkloadCollision(m.env, AllImports(m, worlds[|steps|]))
    requires k in m.env.lister.cache && k !in m.env.lister.getFails
    ensures WorkloadEntries in worlds[|steps|].here.clusters
    ensures var owned, remote := Owned(worlds[|steps|].here.clusters[WorkloadEntries], PEER_LABEL),
              m.env.cfg.remotes[r];
            var key := Key(k.namespace, "import-" + remote.name + "-" + k.name + "-" + Decimal(idx));
            && key in owned && owned[key].WorkloadEntrySpec?
            && Reaches(owned[key].endpoint, Resolve(m.env, remote.addresses)[idx], remote)
  {
    ReconciledConverged(m, worlds, steps, WorkloadEntries);
    var imp := ServiceImported(m, worlds, steps, r, k);
    DesiredJoins(m.env, AllImports(m, worlds[|steps|]), imp, k, idx);
  }

  /** Every addressed peer of a name of its own has its discovery service in the cluster. */
  lemma DiscoveryReachable(m: Setup, worlds: seq<World>, steps: seq<Step>, r: nat)
    requires IsRun(m, worlds, steps) && Reconciled(worlds[|steps|], ServiceEntries)
    requires r < |m.env.cfg.remotes| && m.env.cfg.remotes[r].addresses != []
    requires forall j | 0 <= j < |m.env.cfg.remotes| && m.env.cfg.remotes[j].name == m.env.cfg.remotes[r].name ::
               m.env.cfg.remotes[j] == m.env.cfg.remotes[r]
    ensures ServiceEntries in worlds[|steps|].here.clusters
    ensures var owned, remote := Owned(worlds[|steps|].here.clusters[ServiceEntries], PEER_LABEL), m.env.cfg.remotes[r];
            var key := Key(m.env.cfg.local.controlPlaneNamespace, "federation-discovery-service-" + remote.name);
            key in owned && OffersDiscovery(m.env, owned[key], remote)
  {
    ReconciledConverged(m, worlds, steps, ServiceEntries);
    DiscoveryDesired(m.env, AllImports(m, worlds[|steps|]), r);
  }

  /** The entry is for a service that remote `r` is known to export and whose name is not in the local cache. */
  ghost predicate ImportedFrom(m: Setup, w: World, spec: Spec, r: nat) {
    && r < |m.env.cfg.remotes| && spec.ServiceEntrySpec? && |spec.entry.hosts| == 1
    && spec.entry.hosts[0] in Hosts(View(w.here.store, m.env.cfg.remotes[r].name))
    && ServiceNameAndNs(spec.entry.hosts[0]).Some? && ServiceNameAndNs(spec.entry.hosts[0]).value !in m.env.lister.cache
  }

  lemma DesiredImportedFrom(m: Setup, w: World, key: Key) returns (r: nat)
    requires key in DesiredServiceEntries(m.env, AllImports(m, w))
             && key !in LastWins(DiscoveryEntries(m.env, m.env.cfg.remotes))
    ensures ImportedFrom(m, w, DesiredServiceEntries(m.env, AllImports(m, w))[key], r)
  {
    var env, imports := m.env, AllImports(m, w);
    var views := ImportRun.CurrentViews(env, w.here.store);
    ImportedAt(env, ImportMap(env, imports), key);
    ImportHostsAreElsewhere(env, imports, key.name);
    var imp :| imp in imports && Elsewhere(env.lister, imp)
      && ImportMap(env, imports)[key.name].hosts == [imp.svc.hostname];
    r := ImportOrigin(env.cfg.remotes, views, imp);
    HostsIff(views[r], imp.svc.hostname);
  }

  /** Nothing else is imported: every service entry the cluster owns is the discovery entry of a configured
      peer, or has as its only host a service that some peer is known to export and that does not exist
      here. Once all peers are delivered, that peer exports it. */
  lemma NothingElseImported(m: Setup, worlds: seq<World>, steps: seq<Step>, key: Key) returns (r: nat)
    requires IsRun(m, worlds, steps) && Reconciled(worlds[|steps|], ServiceEntries)
    requires ServiceEntries in worlds[|steps|].here.clusters
    requires key in Owned(worlds[|steps|].here.clusters[ServiceEntries], PEER_LABEL)
    requires key !in LastWins(DiscoveryEntries(m.env, m.env.cfg.remotes))
    ensures var w := worlds[|steps|];
            var spec := Owned(w.here.clusters[ServiceEntries], PEER_LABEL)[key];
            && ImportedFrom(m, w, spec, r)
            && (Delivered(m, w, m.env.cfg.remotes[r].name) ==>
                  spec.entry.hosts[0] in ExportedBy(m, w, m.env.cfg.remotes[r].name))
  {
    var w := worlds[|steps|];
    ReconciledConverged(m, worlds, steps, ServiceEntries);
    r := DesiredImportedFrom(m, w, key);
    if Delivered(m, w, m.env.cfg.remotes[r].name) {
      ViewIsExported(m, worlds, steps, m.env.cfg.remotes[r].name);
    }
  }
}
