/** The importing mesh as a state machine: clients that update the store and then wait to hand over three
    reconcile requests each, and one manager that takes requests, reads the store peer by peer and
    reconciles. Updates of several peers interleave with the reads of one pass. Local services and
    address resolution are fixed. */
module ImportRun {
  import opened Types
  import opened Reconciler
  import opened Factory
  import opened FactoryLaws
  import opened ImportStore

  /** The reconcilers that the controller starts. */
  function Registered(cfg: Federation): set<Kind> {
    {ServiceEntries, WorkloadEntries} + if cfg.AnyRouterRemote() then {DestinationRules} else {}
  }

  /** The desired objects of a kind for given views of the peers, if generation succeeds. */
  ghost function Desired(env: Env, kind: Kind, views: seq<Snapshot>): Option<map<Key, Spec>>
    requires |views| == |env.cfg.remotes|
  {
    var imports := Imports(env.cfg.remotes, views);
    match kind
    case ServiceEntries =>
      if SomeBlocks(env.lister, imports) then None else Some(DesiredServiceEntries(env, imports))
    case WorkloadEntries =>
      if AnyBlocks(env.lister, imports) then None else Some(LastWins(WorkloadEntriesOf(env, imports)))
    case DestinationRules =>
      if SomeUnreadable(env.cfg.remotes, views) then None else Some(LastWins(RulesOf(env, env.cfg.remotes, views)))
  }

  /** A reconcile in progress, with the views read so far. */
  datatype Pass = Pass(kind: Kind, views: seq<Snapshot>)

  /** `outbox` holds the requests each sender still has to hand over; `startup` the kinds not yet reconciled
      by the initial pass; `settled` and `used` are history: the kinds whose last pass succeeded, and the
      views it used; `failures` counts failed passes. */
  datatype State = State(
    store: map<string, Snapshot>,
    outbox: map<string, seq<Kind>>,
    startup: set<Kind>,
    pass: Option<Pass>,
    clusters: map<Kind, Cluster<Spec>>,
    settled: set<Kind>,
    used: map<Kind, seq<Snapshot>>,
    failures: nat)

  function Waiting(s: State, sender: string): seq<Kind> {
    if sender in s.outbox then s.outbox[sender] else []
  }

  datatype Step =
    | Update(peer: string, message: Snapshot)
    | Ask(sender: string, kind: Kind)
    | StartInitial(kind: Kind)
    | Take(sender: string)
    | Read
    | Succeed
    | Fail

  ghost predicate Init(env: Env, s: State) {
    && s.store == map[] && s.outbox == map[] && s.startup == Registered(env.cfg) && s.pass.None?
    && s.clusters.Keys == {ServiceEntries, WorkloadEntries, DestinationRules}
    && s.settled == {} && s.used == map[] && s.failures == 0
  }

  ghost predicate Complete(env: Env, pass: Pass) {
    |pass.views| == |env.cfg.remotes|
  }

  ghost predicate Next(env: Env, s: State, step: Step, s': State) {
    match step
    // a client handles a response: it updates the store, then owes one request per kind
    case Update(peer, message) =>
      Waiting(s, peer) == [] && s' == s.(store := s.store[peer := message], outbox := s.outbox[peer := ALL_KINDS])
    // any other sender on the same channel, such as the address resolver
    case Ask(sender, kind) =>
      Waiting(s, sender) == [] && s' == s.(outbox := s.outbox[sender := [kind]])
    case StartInitial(kind) =>
      s.pass.None? && kind in s.startup && s' == s.(startup := s.startup - {kind}, pass := Some(Pass(kind, [])))
    case Take(sender) =>
      && s.pass.None? && s.startup == {} && Waiting(s, sender) != []
      && s' == s.(outbox := s.outbox[sender := Waiting(s, sender)[1..]],
                  pass := if Waiting(s, sender)[0] in Registered(env.cfg) then Some(Pass(Waiting(s, sender)[0], []))
                    else None)
    case Read =>
      && s.pass.Some? && |s.pass.value.views| < |env.cfg.remotes|
      && var pass := s.pass.value;
         s' == s.(pass := Some(Pass(pass.kind, pass.views + [View(s.store, env.cfg.remotes[|pass.views|].name)])))
    case Succeed =>
      && s.pass.Some? && Complete(env, s.pass.value) && s.pass.value.kind in s.clusters
      && var Pass(kind, views) := s.pass.value;
         && Desired(env, kind, views).Some?
         && s' == s.(pass := None, settled := s.settled + {kind}, used := s.used[kind := views],
                     clusters := s.clusters[kind := Target(s.clusters[kind], Desired(env, kind, views).value,
                         PEER_LABEL)])
    case Fail =>
      && s.pass.Some? && Complete(env, s.pass.value) && s.pass.value.kind in s.clusters
      && var Pass(kind, views) := s.pass.value;
         && kind in s'.clusters
         && (match Desired(env, kind, views)
             case Some(desired) => Interrupted(s.clusters[kind], s'.clusters[kind], desired, PEER_LABEL, PEER_LABEL)
             case None => s'.clusters[kind] == s.clusters[kind])
         && s' == s.(pass := None, settled := s.settled - {kind}, failures := s.failures + 1,
                     clusters := s.clusters[kind := s'.clusters[kind]])
  }

  ghost predicate IsRun(env: Env, states: seq<State>, steps: seq<Step>) {
    && |states| == |steps| + 1
    && Init(env, states[0])
    && forall i | 0 <= i < |steps| :: Next(env, states[i], steps[i], states[i + 1])
  }

  // ---------------------------------------------------------------- the invariant

  /** Each view is that of the store, or a request of this kind is still to come from that peer. */
  ghost predicate Fresh(env: Env, s: State, kind: Kind, views: seq<Snapshot>) {
    && |views| <= |env.cfg.remotes|
    && forall i | 0 <= i < |views| ::
         views[i] == View(s.store, env.cfg.remotes[i].name) || kind in Waiting(s, env.cfg.remotes[i].name)
  }

  ghost predicate Busy(s: State, kind: Kind) {
    s.pass.Some? && s.pass.value.kind == kind
  }

  ghost predicate SettledInv(env: Env, s: State, kind: Kind) {
    && kind in s.clusters && kind in s.used && |s.used[kind]| == |env.cfg.remotes|
    && Desired(env, kind, s.used[kind]) == Some(Owned(s.clusters[kind], PEER_LABEL))
    && (Busy(s, kind) || Fresh(env, s, kind, s.used[kind]))
  }

  ghost predicate Inv(env: Env, s: State) {
    && s.clusters.Keys == {ServiceEntries, WorkloadEntries, DestinationRules}
    && (forall kind | kind in s.settled :: SettledInv(env, s, kind))
    && (s.pass.Some? ==>
          Fresh(env, s, s.pass.value.kind, s.pass.value.views) && s.pass.value.kind in Registered(env.cfg))
    && s.startup <= Registered(env.cfg) && s.settled <= Registered(env.cfg)
    && (s.failures == 0 ==>
          forall kind | kind in Registered(env.cfg) :: kind in s.startup || kind in s.settled || Busy(s, kind))
  }

  lemma FreshStep(env: Env, s: State, step: Step, s': State, kind: Kind, views: seq<Snapshot>)
    requires Next(env, s, step, s') && (step.Update? || step.Ask? || step.Take?)
    requires Fresh(env, s, kind, views)
    requires step.Take? ==> Waiting(s, step.sender)[0] != kind
    ensures Fresh(env, s', kind, views)
  {
    forall i | 0 <= i < |views|
      ensures views[i] == View(s'.store, env.cfg.remotes[i].name) || kind in Waiting(s', env.cfg.remotes[i].name)
    {
      var name := env.cfg.remotes[i].name;
      assert kind == ALL_KINDS[0] || kind == ALL_KINDS[1] || kind == ALL_KINDS[2];
      if step.Take? && step.sender == name {
        assert Waiting(s, name) == [Waiting(s, name)[0]] + Waiting(s', name);
      }
    }
  }

  lemma HandoverKeepsInv(env: Env, s: State, step: Step, s': State)
    requires Inv(env, s) && Next(env, s, step, s') && (step.Update? || step.Ask? || step.Take?)
    ensures Inv(env, s')
  {
    forall kind | kind in s'.settled && !Busy(s', kind) ensures Fresh(env, s', kind, s'.used[kind]) {
      assert SettledInv(env, s, kind);
      FreshStep(env, s, step, s', kind, s.used[kind]);
    }
    if s.pass.Some? {
      FreshStep(env, s, step, s', s.pass.value.kind, s.pass.value.views);
    }
  }

  lemma PassKeepsInv(env: Env, s: State, step: Step, s': State)
    requires Inv(env, s) && Next(env, s, step, s') && (step.StartInitial? || step.Read?)
    ensures Inv(env, s')
  {
    forall kind | kind in s'.settled ensures SettledInv(env, s', kind) {
      assert SettledInv(env, s, kind);
    }
  }

  lemma FinishKeepsInv(env: Env, s: State, step: Step, s': State)
    requires Inv(env, s) && Next(env, s, step, s') && (step.Succeed? || step.Fail?)
    ensures Inv(env, s')
  {
    var Pass(done, views) := s.pass.value;
    if step.Succeed? {
      TargetExact(s.clusters[done], Desired(env, done, views).value, PEER_LABEL);
    }
    forall kind | kind in s'.settled ensures SettledInv(env, s', kind) {
      if kind != done {
        assert SettledInv(env, s, kind);
      }
    }
  }

  /** Every step keeps the invariant. */
  lemma StepKeepsInv(env: Env, s: State, step: Step, s': State)
    requires Inv(env, s) && Next(env, s, step, s')
    ensures Inv(env, s')
  {
    match step
    case Update(_, _) | Ask(_, _) | Take(_) => HandoverKeepsInv(env, s, step, s');
    case StartInitial(_) | Read => PassKeepsInv(env, s, step, s');
    case Succeed | Fail => FinishKeepsInv(env, s, step, s');
  }

  lemma {:induction false} RunKeepsInv(env: Env, states: seq<State>, steps: seq<Step>)
    requires IsRun(env, states, steps)
    ensures Inv(env, states[|steps|])
  {
    if steps == [] {
    } else {
      var n := |steps| - 1;
      RunKeepsInv(env, states[..n + 1], steps[..n]);
      StepKeepsInv(env, states[n], steps[n], states[n + 1]);
    }
  }

  // ---------------------------------------------------------------- convergence over whole runs

  function CurrentViews(env: Env, store: map<string, Snapshot>): seq<Snapshot> {
    seq(|env.cfg.remotes|, i requires 0 <= i < |env.cfg.remotes| => View(store, env.cfg.remotes[i].name))
  }

  /** No pass of this kind is owed, requested or in progress. */
  ghost predicate Quiet(s: State, kind: Kind) {
    kind !in s.startup && !Busy(s, kind) && forall sender :: kind !in Waiting(s, sender)
  }

  /** The owned objects of a kind are those the factory generates from the current store. */
  ghost predicate Converged(env: Env, s: State, kind: Kind) {
    kind in s.clusters && Desired(env, kind, CurrentViews(env, s.store)) == Some(Owned(s.clusters[kind], PEER_LABEL))
  }

  lemma QuietConverged(env: Env, s: State, kind: Kind)
    requires Inv(env, s) && Quiet(s, kind) && kind in s.settled
    ensures Converged(env, s, kind)
  {
    assert SettledInv(env, s, kind);
    assert s.used[kind] == CurrentViews(env, s.store);
  }

  /** In every run, whenever no request of a kind is pending and its last pass succeeded, that kind is converged. */
  lemma OwnedMatchesStore(env: Env, states: seq<State>, steps: seq<Step>, kind: Kind)
    requires IsRun(env, states, steps)
    requires Quiet(states[|steps|], kind) && kind in states[|steps|].settled
    ensures Converged(env, states[|steps|], kind)
  {
    RunKeepsInv(env, states, steps);
    QuietConverged(env, states[|steps|], kind);
  }

  /** In runs without a failed pass that holds of every registered kind as soon as it is quiet. */
  lemma NoFailuresConverge(env: Env, states: seq<State>, steps: seq<Step>, kind: Kind)
    requires IsRun(env, states, steps) && kind in Registered(env.cfg)
    requires Quiet(states[|steps|], kind) && states[|steps|].failures == 0
    ensures Converged(env, states[|steps|], kind)
  {
    RunKeepsInv(env, states, steps);
    QuietConverged(env, states[|steps|], kind);
  }

  // ---------------------------------------------------------------- the code behind a pass

  /** Generating and reconciling one kind is what a pass does: success produces the target of the desired
      objects, and failure leaves an interrupted cluster, or the same one if generation failed. */
  method Reconcile(env: Env, kind: Kind, views: seq<Snapshot>, r: Reconciler<Spec>) returns (ok: bool)
    requires |views| == |env.cfg.remotes| && kind in Registered(env.cfg)
    requires r.listLabel == r.createLabel == PEER_LABEL && (r.skipsEmpty <==> kind == DestinationRules)
    modifies r
    ensures var desired := Desired(env, kind, views);
            && (ok ==> desired.Some? && r.cluster == Target(old(r.cluster), desired.value, PEER_LABEL))
            && (desired.Some? ==> Interrupted(old(r.cluster), r.cluster, desired.value, PEER_LABEL, PEER_LABEL))
            && (desired.None? ==> r.cluster == old(r.cluster))
  {
    var generated: Result<Entries, FactoryError>;
    ghost var names: seq<string>;
    match kind {
      case ServiceEntries => generated, names := Factory.ServiceEntries(env, views);
      case WorkloadEntries => generated := Factory.WorkloadEntries(env, views);
      case DestinationRules => generated := Factory.DestinationRules(env, views);
    }
    if generated.Failure? {
      return false;
    }
    match kind {
      case ServiceEntries => ListingOrderIrrelevant(env, Imports(env.cfg.remotes, views), names);
      case WorkloadEntries =>
      case DestinationRules => RulesExistIff(env, env.cfg.remotes, views);
    }
    ghost var before := r.cluster;
    ok := r.Reconcile(generated.value);
    CompletedIsTarget(before, r.cluster, LastWins(generated.value), PEER_LABEL);
  }
}
