# Federation controller: a verified model

A federation controller exports services of its mesh to remote meshes and imports theirs. This project models
its discovery protocol, its config factories, its reconcilers and the supporting loops in Dafny, and proves what
they guarantee together. `dafny verify dfyconfig.toml` checks everything.

| file | what it models |
|---|---|
| `Types.dfy`, `Collections.dfy` | services, lister, federated services, configuration; enumerations of sets |
| `Naming.dfy` | host names, dashed names, the router-compatible SNI and the host-name grammar |
| `Ordering.dfy` | `sort.Strings` as a canonical form of a multiset |
| `Export.dfy` | export matching, the exported-service generator, the service event handler |
| `Generation.dfy` | a response generated listing by listing while the cache changes |
| `Discovery.dfy` | the discovery protocol as a state machine: events, pushes, initial replies, streams, clients, failures |
| `DiscoveryRuns.dfy` | its runs: undisturbed ones, how replies go wrong, edits that are not pushed, why announcing ends |
| `DiscoveryEdits.dfy`, `DiscoveryTrace.dfy` | which services a subscriber knows as they are, and where every message comes from |
| `AdsServer.dfy`, `ServerSteps.dfy` | the server's subscriber map, identifiers and sends, and that they are steps of the protocol |
| `ImportStore.dfy` | the imported-service store and the response handler |
| `Factory.dfy`, `FactoryLaws.dfy` | service entries, workload entries and destination rules, and their laws |
| `Router.dfy`, `Sni.dfy` | gateway hosts, Envoy filters and routes; the SNI and the objects that carry it |
| `Reconciler.dfy` | the list/diff/apply/delete algorithm shared by five reconcilers |
| `ImportRun.dfy`, `ImportProgress.dfy` | the importing mesh as a state machine: store updates, requests, interleaved passes; why it comes to rest |
| `EndToEnd.dfy`, `WorldProgress.dfy` | all meshes as one state machine: an exported service, followed into the importing cluster; why they come to rest |
| `Traffic.dfy` | the SNI from the importer's rule to the exporter's filters and routes |
| `Retry.dfy`, `Finalizer.dfy` | retry on conflict and the finalizer handler among other writers |
| `FdsClient.dfy` | the reconnecting client |
| `Networking.dfy` | address resolution and the loop that watches it |
| `Wiring.dfy` | which reconcilers are started |

## Main results

1. **Discovery.** A response is generated one listing at a time and sent one stream at a time, so the goroutines that answer
   initial requests, the push loop and the informer really interleave, and any listing or send may fail. In every run, when no
   match-changing event is queued and no push is pending or in progress, an answered subscriber was last sent exactly the exported
   host names *if and only if* its last message is none of these: a *late* reply (overtaken by a broadcast that started when other
   hosts were exported), *torn* (while it was generated, an update moved a service that stays exported from the selectors still to be
   listed to those already listed; impossible with one selector), or *missed* (a later push failed to generate when other hosts were
   exported, or the reply itself failed to generate). All three are reachable: `DiscoveryRuns.LateReply`, `TornReply` and `LostPush` are runs
   in which the documented intent that subscribers hold the current state fails until the next change. Without
   them it always holds. From every reachable state announcing ends in a quiet one, in a number of steps known in advance.
   Contents are another matter: an edit of a service that stays exported is not pushed, on purpose. Such a subscriber knows a service
   as it is now *if and only if* no edit after its listing gave it ports or labels that the message does not carry.
2. **Import.** In every run, however updates of several peers fall between the per-peer reads of one pass,
   the owned objects of a kind are those the factory generates from the current store as soon as no request of that
   kind is pending and its last pass succeeded.
3. **End to end.** In every run of all meshes together, a service exported by a quiet peer appears in the importing cluster as a
   service entry with an endpoint at each address of the peer, or as workload entries when the service exists locally; and every owned
   service entry is a discovery entry or that of a service some peer exports and that does not exist locally. Without new
   events all meshes come to rest: a bounded number of steps remains, and one is possible until every peer is quiet, every
   response is read and nothing is left to reconcile.
4. **Reconciliation.** Success is independent of iteration order and of missed equalities, exact, and idempotent; failure at any
   point never moves away from the target and any later success reaches it. Routes, whose list label differs from the label they
   are created with, are never deleted, over any sequence of failed and complete runs.
5. **SNI.** Importer, Envoy filter and route agree on the SNI of a port if and only if the names are dot-free and the port is not
   negative; it is injective and satisfies the host-name grammar exactly when the names allow it. In every run, for each port of a service
   that a reconciled importer knows as it is now, its cluster holds a rule whose SNI is served by the exporter's filters if and only if their
   last pass found that port, and by its routes if theirs did. After an unpushed edit of a port (`Traffic.StalePort`) a quiet
   importer goes on asking for the SNI of the old one.
6. **Names.** Dash-joined object names are not injective, and colliding objects replace each other. For each kind the exact condition for
   all of them to survive is proved: for service entries no two imports of one name have different hosts, for workload entries
   imports that share keys share workloads, for rules hosts that agree up to dots and dashes are equal, for filters and routes
   no two ports share name and namespace joined by a dash. Each condition has a colliding input.
   Endpoints are conserved whatever collides.

Assumptions: service and namespace names have no dots where `ValidKey` says so (Kubernetes enforces it); decoding undoes
encoding; streams are first-in first-out and may break; the informer updates its cache before it reports the event; one worker handles
events in order; nobody else edits generated
objects during an import run; remotes are identified by their names, by which store and requests are keyed.

## Model

| member | source | states |
|---|---|---|
| Naming.DecimalRoundTrip | internal/pkg/istio/config_factory.go:391-393 | a printed port reads back as the same number, so ports stay distinguishable in an SNI |
| Naming.DecimalLeads | internal/pkg/istio/config_factory.go:391-393 | a printed port has no leading zero |
| Naming.JoinSplit | internal/pkg/istio/config_factory.go:403-413 | splitting a host name on dots and joining it with dots gives it back |
| Naming.HostnameRoundTrip | internal/pkg/istio/config_factory.go:410-413 | reading name and namespace from an exported host name gives them back if and only if both are dot-free; it never panics on an exported one |
| Naming.HostnameInjective | internal/pkg/legacy/fds/exported_service_generator.go:72 | different services with dot-free names are exported under different host names |
| Naming.UnreadableIff | internal/pkg/istio/config_factory.go:410-413 | reading a host name panics exactly when it has no dot |
| Naming.SeparateWithDashReplaces | internal/pkg/istio/config_factory.go:403-406 | dash-joining replaces each dot by a dash and nothing else |
| Naming.SeparateWithDashCollides | internal/pkg/istio/config_factory.go:403-406 | two host names share a dashed form exactly when they agree up to dots and dashes |
| Naming.SniLabels | internal/pkg/istio/config_factory.go:391-393 | the SNI of dot-free names has exactly the labels name-port, namespace, svc, cluster, local |
| Naming.SniInjective | internal/pkg/istio/config_factory.go:390-393 | the SNI of a service with dot-free names is that of no other name, namespace or port, dotted or not |
| Naming.SniGrammar | internal/pkg/istio/config_factory.go:390-393 | the SNI satisfies the grammar of RFC 952 and section 2.1 of RFC 1123 exactly when the service name begins a label and the namespace is one; the 63-octet limit of section 2.3.4 of RFC 1035 holds exactly when name length + 1 + port digits is at most 63 |
| Ordering.LeqIff | internal/pkg/istio/config_factory.go:168-171 | the order is lexicographic: a prefix comes first, else the first difference decides |
| Ordering.SortSorts | internal/pkg/istio/config_factory.go:168-171 | sorting gives an ordered permutation |
| Ordering.SortCanonical | internal/pkg/istio/config_factory.go:168-171 | two lists sort alike exactly when they hold the same strings equally often |
| Export.SelectorMatchesIff | internal/pkg/legacy/fds/exported_service_generator.go:53 | a selector accepts labels exactly when it adds nothing to them, neither a key nor another value |
| Export.MatchIff | internal/pkg/common/match_exported.go:24-32 | a service is exported exactly when some selector adds nothing to its labels |
| Export.LaterRulesIgnored | internal/pkg/config/federation_config.go:115-120 | only the first export rule counts |
| Export.List | internal/pkg/legacy/fds/exported_service_generator.go:53-57 | a listing holds exactly the services matching the selector, each once, in some order, or fails |
| Export.ProtocolUnambiguous | internal/pkg/legacy/fds/exported_service_generator.go:83-98 | no port name is claimed by two protocol tokens, so branch order is irrelevant; unclaimed names are TCP |
| Export.ExportedPorts | internal/pkg/legacy/fds/exported_service_generator.go:59-70 | every port is exported in order with its unsigned number, protocol and target port |
| Export.GenerateResponse | internal/pkg/legacy/fds/exported_service_generator.go:50-80 | fails exactly when a listing fails, else answers with one listing per selector in order, each from the cache as that listing finds it |
| Export.ResponseCarries | internal/pkg/legacy/fds/exported_service_generator.go:52-78 | however the cache changes between listings, a response carries exactly the services that the i-th selector accepted in the i-th cache |
| Export.ResponseMatches | internal/pkg/legacy/fds/exported_service_generator.go:52-78 | in terms of labels: exactly the services to whose labels, in the i-th cache, the i-th selector adds nothing |
| Export.OneLabelExcludes | internal/pkg/legacy/fds/exported_service_generator.go:52-57 | one label per selector that is missing or has another value keeps the host of a service out of a response |
| Export.MatchIffListed | internal/pkg/common/match_exported.go:24-32 | while the cache does not change, the boolean match agrees with membership in the union of the per-selector listings |
| Export.SnapshotHosts | internal/pkg/legacy/fds/exported_service_generator.go:50-80 | whatever the listing order, a response generated while the cache does not change names exactly the exported host names |
| Export.SnapshotCarries | internal/pkg/legacy/fds/exported_service_generator.go:58-78 | such a response carries each exported service: its host name spelled out, its labels, and for each port name, number, target port and protocol |
| Export.SnapshotMultiplicity | internal/pkg/legacy/fds/exported_service_generator.go:52-78 | such a response carries a service once per selector that matches it |
| Export.CountMatchingIs | internal/pkg/legacy/fds/exported_service_generator.go:52-57 | that is the number of selectors that add nothing to its labels |
| Export.ListingsPermuted | internal/pkg/istio/config_factory.go:158-167 | two passes over the same caches list the same services equally often, in whatever order |
| Export.ServiceExportEventHandler.ObjectCreated | internal/pkg/legacy/informer/service_export_event_handler.go:51-55 | which requests a create event sends on each channel, in order |
| Export.ServiceExportEventHandler.ObjectDeleted | internal/pkg/legacy/informer/service_export_event_handler.go:57-61 | which requests a delete event sends on each channel, in order |
| Export.ServiceExportEventHandler.ObjectUpdated | internal/pkg/legacy/informer/service_export_event_handler.go:63-68 | which requests an update event sends on each channel, in order |
| Export.PushesIffHostnamesChange | internal/pkg/legacy/informer/service_export_event_handler.go:70-81 | an event asks for pushes if and only if it changes the set of exported host names |
| Export.RequestsIff | internal/pkg/legacy/informer/service_export_event_handler.go:83-88 | then one discovery push and the requests for gateway, filters and routes in this order are sent, otherwise nothing |
| Generation.ListingGenerates | internal/pkg/legacy/fds/exported_service_generator.go:52-78 | one more listing extends a response of the generator to one more selector |
| DiscoveryTrace.EveryMessageGenerated | internal/pkg/legacy/xds/adss/adss_handler.go:100-188 | in every run each message ever sent is a response of the generator for caches that the run passed through, in order, or the empty answer to a failed request |
| Generation.ObserveKeepsSound | internal/pkg/legacy/informer/service_export_event_handler.go:63-81 | an event that asks for no push leaves every exported service listed, to be listed, or recorded as having dodged |
| Generation.CompleteIff | internal/pkg/legacy/fds/exported_service_generator.go:52-57 | without a match-changing event, a complete response names exactly the exported hosts if and only if no service moved past its listings |
| Generation.EditKeepsCurrent | internal/pkg/legacy/informer/service_export_event_handler.go:63-81 | every event keeps account of which listed services a message carries as they are |
| Generation.ListingKeepsCurrent | internal/pkg/legacy/fds/exported_service_generator.go:52-78 | and so does every listing |
| Discovery.RunKeepsInv | internal/pkg/legacy/xds/adss/adss_handler.go:62-188 | every step of the protocol keeps the invariant relating cache, queue, pushes, replies, streams and clients |
| Discovery.SubscriberConsistency | internal/pkg/legacy/xds/adss/adss_handler.go:90-188 | in every quiet reachable state an answered subscriber was last sent exactly the exported host names if and only if its last message is neither late, nor torn, nor missed |
| Discovery.ClientConsistency | internal/pkg/legacy/xds/adsc/adsc.go:131-159 | a client that drained its stream stores exactly those host names, under the same condition |
| DiscoveryRuns.UndisturbedConsistent | internal/pkg/legacy/xds/adss/adss_handler.go:100-111 | in runs where no broadcast overtakes a reply on its stream, no service dodges a listing and no listing fails, every answered subscriber is up to date when quiet |
| DiscoveryRuns.OneSelectorNeverTorn | internal/pkg/legacy/fds/exported_service_generator.go:52-57 | with at most one selector no service ever dodges a listing |
| DiscoveryRuns.LateReply | internal/pkg/legacy/xds/adss/adss_handler.go:74 | a reachable quiet state in which a subscriber was last sent nothing although a service is exported, because a broadcast overtook its reply |
| DiscoveryRuns.TornReply | internal/pkg/legacy/fds/exported_service_generator.go:52-57 | the same because a service moved from the second selector to the first between the two listings |
| DiscoveryRuns.LostPush | internal/pkg/legacy/xds/adss/grpc_server.go:78-82 | the same because the generation of the push failed |
| DiscoveryRuns.MissedNeedsChange | internal/pkg/legacy/informer/service_export_event_handler.go:70-81 | a subscriber to which nothing was left to announce is missed only after a match-changing event, or by the failure of its own request |
| DiscoveryEdits.SubscriberKnows | internal/pkg/legacy/informer/service_export_event_handler.go:73-78 | in every quiet reachable state a subscriber that is up to date was last sent an exported service as it is now if and only if no edit outdated it after it was listed |
| DiscoveryEdits.OutdatedByEdit | internal/pkg/legacy/informer/service_export_event_handler.go:63-81 | only an edit of a listed service outdates it, and with nothing left to announce it is an update that keeps the service exported |
| DiscoveryRuns.UnpushedEdit | internal/pkg/legacy/informer/service_export_event_handler_test.go:93-112 | a reachable quiet state in which a client that read everything stores a service as it was before an edit |
| DiscoveryRuns.AnnouncingDescends | internal/pkg/legacy/xds/adss/grpc_server.go:69-84 | every step that handles an event or drives a push decreases the number of such steps allowed for, whichever listings and sends fail |
| DiscoveryRuns.AnnouncingBounded | internal/pkg/legacy/xds/adss/grpc_server.go:69-84 | in every run without new events and subscribers the number of such steps is bounded by that number in its first state |
| DiscoveryRuns.AnnouncingNeverStuck | internal/pkg/legacy/xds/adss/grpc_server.go:69-84 | in a reachable state that is not quiet such a step is possible |
| DiscoveryRuns.AnnouncingEnds | internal/pkg/legacy/xds/adss/grpc_server.go:69-84 | from every reachable state such steps alone reach a quiet state with the same services |
| AdsServer.IdReuse | internal/pkg/legacy/xds/adss/adss_handler.go:66-72 | two connections get the same identifier exactly when a multiple of 2^64 connections separates them |
| AdsServer.Server.Connect | internal/pkg/legacy/xds/adss/adss_handler.go:62-78 | a new subscriber is stored under an identifier never given before in runs of at most 2^64 connections |
| AdsServer.Server.HandleRequest | internal/pkg/legacy/xds/adss/adss_handler.go:90-113 | only a request without version is answered, on any stream ever connected, dropped or not; a failed generation is answered with no resources; nobody is dropped |
| AdsServer.Server.Push | internal/pkg/legacy/xds/adss/adss_handler.go:155-188 | the remaining subscribers are exactly those whose send succeeded, each sent one identical response; a failed generation sends nothing and drops nobody |
| AdsServer.Server.CloseSubscribers | internal/pkg/legacy/xds/adss/adss_handler.go:190-198 | closes every subscriber's stream, sends nothing, empties the map |
| ServerSteps.Connect | internal/pkg/legacy/xds/adss/adss_handler.go:62-78 | a connection of the server is the protocol's step |
| ServerSteps.Reply | internal/pkg/legacy/xds/adss/adss_handler.go:100-111 | answering an initial request is the end of the protocol's reply, on whatever stream, whether generation succeeded or failed |
| ServerSteps.Push | internal/pkg/legacy/xds/adss/adss_handler.go:155-188 | a push of the server is a run of the protocol's broadcast, whichever sends fail, or its failure when generation fails |
| ServerSteps.PushSkipped | internal/pkg/legacy/xds/adss/adss_handler.go:155-159 | without subscribers it is the protocol's skipped broadcast |
| ImportStore.ImportedServiceStore.Update | internal/pkg/legacy/fds/imported_service_store.go:36-46 | replaces the services of one source and no other |
| ImportStore.ImportedServiceStore.From | internal/pkg/legacy/fds/imported_service_store.go:48-59 | returns what the peer last exported, nothing before that |
| ImportStore.ImportedServiceHandler.Handle | internal/pkg/legacy/fds/import_handler.go:42-58 | all or nothing: a malformed resource changes nothing; otherwise the store is replaced for the source and one request per kind is sent, in order |
| ImportStore.EncodeInjective | internal/pkg/legacy/fds/exported_service_generator.go:100-110 | an encoded snapshot decodes to that snapshot only, and is never rejected |
| Factory.EndpointAt | internal/pkg/istio/config_factory.go:281-288 | the address in the peer's network; every port of the service is reached through the peer's gateway port, and mutual TLS overrides the service's own label |
| Factory.MakePortsMap | internal/pkg/istio/config_factory.go:395-401 | maps every port name to the given port |
| Factory.SideByCache | internal/pkg/istio/config_factory.go:261-265 | the side of an import is decided by whether its name is in the cache, and undecided exactly when the lookup fails |
| Factory.ImportsNext | internal/pkg/istio/config_factory.go:246-261 | imports are met peer by peer, each peer's services in order and with multiplicity |
| Factory.ServiceEntries | internal/pkg/istio/config_factory.go:241-321 | fails exactly when the side of an import of an addressed peer is undecided; otherwise the discovery entries followed by the merged import entries in some order |
| Factory.WorkloadEntries | internal/pkg/istio/config_factory.go:323-355 | fails exactly when the side of an import is undecided; otherwise the workload entries of all local imports in order |
| Factory.DestinationRules | internal/pkg/istio/config_factory.go:69-132 | panics exactly when a router peer exports a service with ports under an unreadable host name; otherwise lists all rules, duplicates included |
| FactoryLaws.MergedFirst | internal/pkg/istio/config_factory.go:290-313 | an entry takes host and ports from the first import of its name, and is static exactly when the first address of that peer is literal |
| FactoryLaws.MergedHolds | internal/pkg/istio/config_factory.go:290-313 | every import has an entry of its name that holds at least its endpoints |
| FactoryLaws.CoverageIff | internal/pkg/istio/config_factory.go:269-313 | every import is covered by the entry of its name if and only if no two imports of one name have different hosts |
| FactoryLaws.DashCollision | internal/pkg/istio/config_factory.go:290-295 | `x-y` in `z` and `x` in `y-z` have different hosts but one entry name and one rule name |
| FactoryLaws.EntryNameIff | internal/pkg/istio/config_factory.go:290 | imports of one host share an entry name exactly when their peers share a name, imports of one peer exactly when their hosts agree up to dots and dashes |
| FactoryLaws.ImportNamesApart | internal/pkg/istio/config_factory.go:357-361 | no import entry is named like a discovery entry |
| FactoryLaws.EndpointConservation | internal/pkg/istio/config_factory.go:246-318 | the import entries hold exactly the endpoints contributed by the non-local imports, as a multiset, however names merge them |
| FactoryLaws.ContributedCount | internal/pkg/istio/config_factory.go:281-288 | so their number is the number of addresses summed over those imports |
| FactoryLaws.ImportHostsAreElsewhere | internal/pkg/istio/config_factory.go:261-313 | the host of an import entry is that of an import whose service does not exist here |
| FactoryLaws.OneSideEach | internal/pkg/istio/config_factory.go:241-355 | from one view, an import of an addressed peer goes to exactly one side: its endpoints into the entry of its name, or one workload entry per resolved address |
| FactoryLaws.OneSideByCache | internal/pkg/istio/config_factory.go:261-350 | in terms of the cache: a service that is in it gets one workload entry per resolved address, spelled out, and no import entry has its host; one that is not gets no workload entry, and its endpoints are in the import entry of its name |
| FactoryLaws.NoEntryForLocal | internal/pkg/istio/config_factory.go:261-265 | no import entry has the host of a service in the cache |
| FactoryLaws.BlocksIff | internal/pkg/istio/config_factory.go:261-266 | a side is undecided exactly when the host name has no dot or the lookup fails |
| FactoryLaws.WorkloadsAreHere | internal/pkg/istio/config_factory.go:334-350 | every workload entry belongs to an import whose service exists here, in that service's namespace |
| FactoryLaws.WorkloadsSurviveIff | internal/pkg/istio/config_factory.go:334-350 | every import has all its workload entries in the desired state with their own specs if and only if imports that share keys share workloads |
| FactoryLaws.WorkloadCollision | internal/pkg/istio/config_factory.go:336-341 | peer `x` with service `y-z` and peer `x-y` with service `z` share keys, so unless they resolve alike some import loses entries |
| FactoryLaws.ListingOrderIrrelevant | internal/pkg/istio/config_factory.go:318 | the reconciler's desired map does not depend on the order in which import entries are listed |
| FactoryLaws.DesiredKeepsBoth | internal/pkg/istio/config_factory.go:251-318 | discovery entries and import entries never displace each other in the desired map |
| FactoryLaws.DiscoveryDesired | internal/pkg/istio/config_factory.go:357-388 | each addressed peer of a name of its own has its discovery entry desired: host, gRPC port, one endpoint per address at the gateway port, resolution |
| FactoryLaws.RulesExistIff | internal/pkg/config/federation_config.go:44-52 | the rule list is non-empty exactly when some remote uses the router |
| FactoryLaws.RulesPanicIff | internal/pkg/istio/config_factory.go:100-124 | generating rules panics exactly when a router peer exports a service with ports under a host name without a dot |
| FactoryLaws.RulesSurviveIff | internal/pkg/legacy/kube/destination_rule_reconciler.go:58-61 | every generated rule is desired with its own spec if and only if rules whose hosts agree up to dots and dashes are equal |
| FactoryLaws.RuleHostsSurviveIff | internal/pkg/legacy/kube/destination_rule_reconciler.go:58-61 | every host has a rule if and only if no two different hosts agree up to dots and dashes |
| Router.EnvoyFilters | internal/pkg/istio/config_factory.go:179-239 | empty unless the local ingress is the router; else one filter for the discovery service and one per port of each service as its listing finds it; a failed listing counts as empty |
| Router.Routes | internal/pkg/openshift/config_factory.go:44-84 | fails exactly when a listing fails; else one route for the discovery service and one per port of each service as its listing finds it |
| Sni.ImporterSniIff | internal/pkg/istio/config_factory.go:114-123 | the SNI an importer derives from the host name is that of the exported service if and only if its names are dot-free |
| Sni.SniAgreementIff | internal/pkg/openshift/config_factory.go:53 | importer and filter agree if and only if the names are dot-free, filter and route if and only if the port is not negative |
| Traffic.SniAcrossMeshes | internal/pkg/istio/config_factory.go:100-124 | in every run, for every port of a service the importer knows as it is now, its cluster holds a rule whose SNI is served by the exporter's filters if and only if their last pass found the port, and by its routes if theirs did; rules and object names must not collide |
| Traffic.PresentPortsServed | internal/pkg/istio/config_factory.go:224-236 | a pass over the present cache finds every port of every exported service |
| Traffic.DiscoveryAcrossMeshes | internal/pkg/istio/config_factory.go:76-98 | for the discovery service the importer dials the host that the peer's gateway serves, and its rule sets the SNI of the peer's filter and route |
| Traffic.StalePort | internal/pkg/legacy/informer/service_export_event_handler_test.go:93-112 | after an unpushed edit of a port the importer keeps the SNI of the old port alone, which no filter reconciled with the present serves |
| Sni.FiltersServeIff | internal/pkg/istio/config_factory.go:179-239 | every SNI is the server name of a reconciled filter if and only if no two ports share the names of their objects |
| Sni.RoutesServeIff | internal/pkg/openshift/config_factory.go:44-84 | every SNI is the host of a reconciled route if and only if no two ports share the names of their objects |
| Sni.FiltersServeExactly | internal/pkg/istio/config_factory.go:179-239 | the owned filters serve the SNI of a port if and only if the pass that produced them found the port exported, without colliding names |
| Sni.RoutesServePorts | internal/pkg/openshift/config_factory.go:44-84 | the routes serve the SNI of every port that their last complete pass found |
| Sni.PortNameIff | internal/pkg/istio/config_factory.go:194 | ports share them exactly when name and namespace read the same joined by a dash, on the same port |
| Sni.CollisionFree | internal/pkg/openshift/config_factory.go:66-82 | whether they do depends on what is exported, not on the listing order |
| Sni.NameCollision | internal/pkg/istio/config_factory.go:194 | with `x-y` in `z` and `x` in `y-z` exported on one port, some SNI has no filter and some has no route |
| Router.IngressGateway | internal/pkg/istio/config_factory.go:134-174 | fails exactly when a listing fails, else the sorted hosts of what each listing finds |
| Router.GatewayHostsStable | internal/pkg/istio/config_factory.go:157-171 | any two lister orders over the same caches give the same host sequence, sorted, with the local discovery host in it |
| Router.GatewayServesExported | internal/pkg/istio/config_factory.go:157-166 | in a steady cache the gateway serves exactly the local discovery host, spelled out, and the exported host names |
| Router.GatewayHostCount | internal/pkg/istio/config_factory.go:158-166 | and lists the host of a service once per selector that matches it, besides the discovery host |
| Router.FilterMatchesExported | internal/pkg/istio/config_factory.go:199-216 | a filter matches the SNI derived from the host name under which the service is exported, on the ingress listener of the selected gateway |
| Reconciler.Reconciler.Reconcile | internal/pkg/legacy/kube/service_entry_reconciler.go:52-121 | a nil return gives every key its final value; an error leaves every key untouched or final; the early return changes nothing |
| Reconciler.CompletedIsTarget | internal/pkg/legacy/kube/service_entry_reconciler.go:77-118 | a complete run has one possible result, whatever the iteration order and whichever equal specs compare unequal |
| Reconciler.OwnedIff | internal/pkg/legacy/kube/service_entry_reconciler.go:63-67 | the listed objects are exactly those that carry the label with its value |
| Reconciler.TargetExact | internal/pkg/legacy/kube/workload_entry_reconciler.go:52-122 | after it the labelled objects are exactly the desired ones; unlabelled objects under other keys and other labels of the desired ones are untouched |
| Reconciler.TargetIdempotent | internal/pkg/legacy/kube/service_entry_reconciler.go:52-121 | a second run leaves the cluster unchanged |
| Reconciler.InterruptedConverges | internal/pkg/legacy/kube/service_entry_reconciler.go:77-118 | from any interrupted state a later complete run reaches the target of the original state |
| Reconciler.InterruptedComposes | internal/pkg/legacy/kube/service_entry_reconciler.go:103-115 | any number of failed runs is like one |
| Reconciler.DistanceShrinks | internal/pkg/legacy/kube/service_entry_reconciler.go:77-118 | a failed run does not increase the set of keys on which owned and desired state differ; a complete one empties it |
| Reconciler.LastWinsLast | internal/pkg/legacy/kube/service_entry_reconciler.go:57-61 | the last generated object of a key is the desired one |
| Reconciler.AllSurviveIff | internal/pkg/legacy/kube/service_entry_reconciler.go:57-61 | every generated object is in the desired map with its own spec if and only if equal keys have equal specs |
| Reconciler.MismatchedLabels | internal/pkg/legacy/kube/route_reconciler.go:63-67 | when listing and creation labels differ, exactness holds if and only if no undesired object carried the creation label without the listing label and no desired one listed without the creation label was left alone; for routes, where nothing is ever listed, `Reconciler.RoutesExactIff` is the form that can be checked before the run |
| Reconciler.RoutesNeverDeleted | internal/pkg/legacy/kube/route_reconciler.go:63-132 | over any sequence of failed and complete runs no route is ever deleted |
| Reconciler.RoutesExactIff | internal/pkg/legacy/kube/route_reconciler.go:63-132 | after a complete run every desired route is present, and there are no others if and only if no earlier state had one that is no longer desired |
| ImportRun.RunKeepsInv | internal/pkg/legacy/kube/reconciler_manager.go:45-76 | every step of clients and manager keeps the invariant on views, requests and clusters |
| ImportRun.OwnedMatchesStore | internal/pkg/legacy/fds/import_handler.go:52-56 | in every run, when no request of a kind is pending and its last pass succeeded, its owned objects are those generated from the current store |
| ImportRun.NoFailuresConverge | internal/pkg/legacy/kube/reconciler_manager.go:55-76 | in runs without a failed pass that holds of every registered kind as soon as it is quiet |
| ImportProgress.ManagingBounded | internal/pkg/legacy/kube/reconciler_manager.go:55-76 | the manager's steps without new requests are bounded by what the first state allows for |
| ImportProgress.ManagingPossible | internal/pkg/legacy/kube/reconciler_manager.go:55-76 | until nothing is owed, requested or in progress such a step is possible |
| ImportProgress.ManagingEnds | internal/pkg/legacy/kube/reconciler_manager.go:45-76 | from every state of a run they end at rest, with the same store |
| ImportRun.Reconcile | internal/pkg/legacy/kube/destination_rule_reconciler.go:52-122 | generating and reconciling a kind is a pass of the state machine: success reaches the target of the desired objects, failure an interrupted cluster |
| EndToEnd.RunKeepsInv | internal/pkg/legacy/xds/adsc/adsc.go:131-159 | in every run of all meshes the importer's store holds what its clients read last |
| EndToEnd.ViewIsExported | internal/pkg/legacy/fds/import_handler.go:42-58 | the view of a peer that is quiet and fully read names exactly what it exports |
| EndToEnd.ViewIsCurrent | internal/pkg/legacy/fds/import_handler.go:42-58 | and it carries an exported service as it is now if and only if no edit outdated it after it was listed |
| EndToEnd.ExportedServiceReachable | internal/pkg/istio/config_factory.go:241-321 | a service exported by a peer and not in the local cache is in the cluster as a service entry with an endpoint at every address of the peer, in its network, at its gateway port |
| EndToEnd.ExportedServiceJoined | internal/pkg/istio/config_factory.go:323-355 | a service exported by a peer and in the local cache has, under a name spelled out, a workload entry for each resolved address of the peer |
| EndToEnd.DiscoveryReachable | internal/pkg/istio/config_factory.go:357-388 | every addressed peer of a name of its own has its discovery service in the cluster |
| EndToEnd.NothingElseImported | internal/pkg/istio/config_factory.go:260-315 | every owned service entry is a discovery entry, or has as its only host a service known from a peer whose name is not in the local cache, which that peer exports once it is quiet and fully read |
| WorldProgress.ProgressBounded | internal/pkg/legacy/xds/adsc/adsc.go:131-159 | announcing, receiving and reconciling steps of all meshes are bounded by what the first world allows for |
| WorldProgress.ProgressPossible | internal/pkg/legacy/xds/adsc/adsc.go:131-159 | until all meshes are at rest such a step is possible |
| WorldProgress.ProgressEnds | internal/pkg/legacy/fds/import_handler.go:42-58 | from every world of a run they end with every peer quiet, every response read and nothing left to reconcile, with the same services |
| Retry.RetryCall | internal/controller/retry.go:50-75 | success means the last write is this call's, is the mutation of the object stored right before it, and is what is returned; exhausted conflicts or a read error wrote nothing and return the mutation of an object read in the meantime, or the original; at most four attempts |
| Retry.CommittedFields | internal/controller/retry.go:33-48 | a full update stores specification and finalizers, a status update the status alone; an object disappears exactly when marked for deletion and left without finalizers |
| Finalizer.Handler.Add | internal/controller/finalizer/types.go:59-72 | after success the stored object holds the finalizer, not duplicated, and is otherwise what it was |
| Finalizer.Handler.Finalize | internal/controller/finalizer/types.go:74-91 | acts only on a deleted object that holds the finalizer; a failed cleanup writes nothing; success leaves the finalizer gone |
| Finalizer.RemovesOnly | internal/controller/finalizer/types.go:86-88 | removing takes every occurrence of the finalizer and leaves the others as often as before |
| Finalizer.RemoveInOrder | internal/controller/finalizer/types.go:86-88 | and in the same order |
| Finalizer.MutationsKeepOthers | internal/controller/finalizer/types.go:67-88 | neither mutation touches other writers' finalizers, counted one by one, and adding never makes an object disappear |
| Finalizer.AnyRun | internal/controller/finalizer/types.go:62-91 | over any sequence of calls among other writers, the finalizer is removed only after a successful cleanup in the same call, and others' finalizers survive |
| FdsClient.ExactlyOneActivity | internal/pkg/legacy/xds/adsc/adsc.go:67-100 | in every run the client does exactly one thing until cancellation stops it; two receive loops never run |
| FdsClient.CancelledStepDescends | internal/pkg/legacy/xds/adsc/adsc.go:131-159 | after cancellation every step decreases a rank, whatever connection attempts do |
| FdsClient.StopsAfterCancellation | cmd/federation-controller/main.go:335-347 | so at most four steps remain, and a run that cannot continue has stopped |
| FdsClient.ReconnectsAfterCancellation | internal/pkg/legacy/xds/adsc/adsc.go:141-147 | after a broken stream the client connects once more even when cancelled |
| FdsClient.FourStepsRemain | internal/pkg/legacy/xds/adsc/adsc.go:84-100 | so the bound of four steps is reached |
| Networking.ResolvesTo | internal/pkg/networking/resolve.go:24-42 | resolving yields exactly the literal addresses and the answers for the names |
| Networking.ResolveAppend | internal/pkg/networking/resolve.go:24-42 | addresses are resolved one by one, in order |
| Networking.ResolveLiteral | internal/pkg/networking/resolve.go:24-42 | literal addresses resolve to themselves |
| Networking.ResolveRemoteIP | cmd/federation-controller/main.go:278-312 | each tick pushes when the sorted list of what it finds differs from the previous list |
| Networking.PushMeansChange | cmd/federation-controller/main.go:278-312 | so no change of the address multiset is missed; from the second tick on a push means a change; the first tick pushes without a change exactly when the initial list was unsorted |
| Networking.LiteralsNeverPush | cmd/federation-controller/main.go:278-312 | with literal first addresses no tick after the first pushes |
| Wiring.StartReconciler | cmd/federation-controller/main.go:236-255 | which reconcilers are started for a configuration |
| Wiring.EarlyReturnsNeverTaken | cmd/federation-controller/main.go:243-255 | a started reconciler that returns early on an empty list never sees one, for destination rules and for Envoy filters |

## Left out

- gRPC transport, dialing, back-off timing and the protobuf wire format; a resource either decodes to what was encoded or is malformed.
- The Kubernetes API server, informers and work queues beyond atomic calls, resource versions and ordered events; the queue's retry branches are never taken.
- Discovery.RunKeepsInv: identifiers do not wrap around; `AdsServer.IdReuse` states when they would.
- Traffic.SniAcrossMeshes: when the exporter's filters and routes were last reconciled is a parameter; their reconcilers are asked on the same events that are pushed, so an unpushed edit leaves them older than the cache, too.
- ImportRun.OwnedMatchesStore: local services and address resolution are fixed during a run, because their changes do not trigger these reconcilers (except address changes, which ask for workload entries).
- EndToEnd.ExportedServiceReachable: needs entry names that do not collide; `FactoryLaws.CoverageIff` states exactly when that is.
- EndToEnd.ExportedServiceJoined: needs imports that share workload keys to share workloads; `FactoryLaws.WorkloadsSurviveIff` states that this is exact.
- Factory.WorkloadEntries: all resolutions within one call see the same answers of the resolver.
- Networking.ResolveRemoteIP: every remote has at least one address; without one the source panics.
- Gateway and peer-authentication reconcilers: a single unconditional apply each.
- The MeshFederation and FederatedService controllers, whose main logic is a stub.
- Parsing of arguments, environment and files, logging, generated code, charts and test scripts.
- Aliasing between stored and returned services: values have none, which is what the deep copies of the store achieve.
