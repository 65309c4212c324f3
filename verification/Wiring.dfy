/** Which reconcilers the controller starts, and why the early returns on empty lists never matter. */
module Wiring {
  import opened Types
  import opened Factory
  import opened FactoryLaws
  import opened ImportStore
  import ImportRun
  import Router

  datatype ReconcilerType =
    | GatewayReconciler | ServiceEntryReconciler | WorkloadEntryReconciler | PeerAuthReconciler
    | DestinationRuleReconciler | EnvoyFilterReconciler | RouteReconciler

  /** The reconciler that handles the requests of a kind. */
  function ReconcilerOf(kind: Kind): ReconcilerType {
    match kind
    case ServiceEntries => ServiceEntryReconciler
    case WorkloadEntries => WorkloadEntryReconciler
    case DestinationRules => DestinationRuleReconciler
  }

  method StartReconciler(cfg: Federation) returns (started: seq<ReconcilerType>)
    ensures ServiceEntryReconciler in started && WorkloadEntryReconciler in started
    ensures forall kind :: ReconcilerOf(kind) in started <==> kind in ImportRun.Registered(cfg)
    ensures GatewayReconciler in started && PeerAuthReconciler in started
    ensures DestinationRuleReconciler in started <==> cfg.AnyRouterRemote()
    ensures EnvoyFilterReconciler in started <==> cfg.local.ingressType == OPENSHIFT_ROUTER
    ensures RouteReconciler in started <==> cfg.local.ingressType == OPENSHIFT_ROUTER
  {
    started := [GatewayReconciler, ServiceEntryReconciler, WorkloadEntryReconciler, PeerAuthReconciler];
    if cfg.AnyRouterRemote() {
      started := started + [DestinationRuleReconciler];
    }
    if cfg.local.ingressType == OPENSHIFT_ROUTER {
      started := started + [EnvoyFilterReconciler];
      started := started + [RouteReconciler];
    }
  }

  /** For every configuration and store: a started reconciler that returns early on an empty list never sees
      one, and one that would see objects is started. */
  method EarlyReturnsNeverTaken(env: Env, views: seq<Snapshot>, listers: seq<Lister>)
    returns (started: seq<ReconcilerType>, rules: Result<Entries, FactoryError>, filters: seq<Router.EnvoyFilter>)
    requires |views| == |env.cfg.remotes| && |listers| == |env.cfg.LabelSelectors()|
    ensures rules.Success? ==> (DestinationRuleReconciler in started <==> rules.value != [])
    ensures EnvoyFilterReconciler in started <==> filters != []
  {
    started := StartReconciler(env.cfg);
    rules := Factory.DestinationRules(env, views);
    RulesExistIff(env, env.cfg.remotes, views);
    ghost var listings;
    filters, listings := Router.EnvoyFilters(env.cfg, listers);
  }
}
