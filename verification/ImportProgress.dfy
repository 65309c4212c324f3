/** Why the importing mesh comes to rest: without new updates the manager has a bounded number of steps left, and
    it can always take one until nothing is pending. */
module ImportProgress {
  import opened Types
  import opened Reconciler
  import opened Factory
  import opened ImportStore
  import opened ImportRun

  /** The manager's own steps. */
  predicate Manages(step: Step) {
    step.StartInitial? || step.Take? || step.Read? || step.Succeed? || step.Fail?
  }

  /** Nothing is owed, requested or in progress. */
  ghost predicate AtRest(s: State) {
    s.startup == {} && s.pass.None? && forall sender :: Waiting(s, sender) == []
  }

  /** That is: every kind is quiet. */
  lemma AtRestIff(s: State)
    ensures AtRest(s) <==> forall kind :: Quiet(s, kind)
  {
    if s.pass.Some? {
      assert !Quiet(s, s.pass.value.kind);
    }
    forall kind | kind in s.startup ensures !Quiet(s, kind) {}
    forall sender | Waiting(s, sender) != [] ensures !Quiet(s, Waiting(s, sender)[0]) {
      assert Waiting(s, sender)[0] in Waiting(s, sender);
    }
  }

  /** The requests that are still to be handed over. */
  ghost function Owed(outbox: map<string, seq<Kind>>): set<(string, nat)> {
    set sender, i: nat | sender in outbox && i < |outbox[sender]| :: (sender, i)
  }

  /** What one request takes: a start, a read per peer and an end. */
  ghost function PassSteps(env: Env): nat {
    |env.cfg.remotes| + 2
  }

  ghost function StepsLeft(env: Env, s: State): nat {
    match s.pass
    case None => 0
    case Some(pass) => if |pass.views| <= |env.cfg.remotes| then |env.cfg.remotes| - |pass.views| + 1 else 1
  }

  /** The manager's steps that a state still allows for. */
  ghost function Work(env: Env, s: State): nat {
    (|s.startup| + |Owed(s.outbox)|) * PassSteps(env) + StepsLeft(env, s)
  }

  lemma HandOver(outbox: map<string, seq<Kind>>, sender: string)
    requires sender in outbox && outbox[sender] != []
    ensures |Owed(outbox[sender := outbox[sender][1..]])| == |Owed(outbox)| - 1
  {
    var last := (sender, |outbox[sender]| - 1);
    assert last in Owed(outbox);
    assert Owed(outbox[sender := outbox[sender][1..]]) == Owed(outbox) - {last};
  }

  /** A client that owes nothing comes to owe one request per kind. */
  lemma OwedAfterUpdate(outbox: map<string, seq<Kind>>, peer: string)
    requires peer in outbox ==> outbox[peer] == []
    ensures |Owed(outbox[peer := ALL_KINDS])| == |Owed(outbox)| + 3
  {
    var a, b, c := (peer, 0), (peer, 1), (peer, 2);
    assert a !in Owed(outbox) && b !in Owed(outbox) && c !in Owed(outbox);
    assert Owed(outbox[peer := ALL_KINDS]) == Owed(outbox) + {a} + {b} + {c};
  }

  /** So a response costs it three passes. */
  lemma UpdateAdds(env: Env, s: State, peer: string, message: Snapshot, s': State)
    requires Next(env, s, Update(peer, message), s')
    ensures Work(env, s') == Work(env, s) + 3 * PassSteps(env)
  {
    OwedAfterUpdate(s.outbox, peer);
    Distributes(|s.startup| + |Owed(s.outbox)|, 3, PassSteps(env));
  }

  lemma Distributes(a: nat, b: nat, n: nat)
    ensures (a + b) * n == a * n + b * n
  {}

  lemma OneLess(a: nat, b: nat, n: nat)
    requires a == b + 1
    ensures a * n == b * n + n
  {}

  /** Each of the manager's steps leaves it less to do, whether its passes succeed or fail. */
  lemma ManagingDescends(env: Env, s: State, step: Step, s': State)
    requires Next(env, s, step, s') && Manages(step)
    ensures Work(env, s') < Work(env, s) && s'.store == s.store
  {
    match step {
      case StartInitial(_) => StartDescends(env, s, step, s');
      case Take(_) => TakeDescends(env, s, step, s');
      case Read | Succeed | Fail =>
        assert s'.startup == s.startup && s'.outbox == s.outbox;
      case _ =>
    }
  }

  lemma StartDescends(env: Env, s: State, step: Step, s': State)
    requires Next(env, s, step, s') && step.StartInitial?
    ensures Work(env, s') < Work(env, s) && s'.store == s.store
  {
    assert s'.startup == s.startup - {step.kind} && s'.outbox == s.outbox;
    OneLess(|s.startup| + |Owed(s.outbox)|, |s'.startup| + |Owed(s'.outbox)|, PassSteps(env));
  }

  lemma TakeDescends(env: Env, s: State, step: Step, s': State)
    requires Next(env, s, step, s') && step.Take?
    ensures Work(env, s') < Work(env, s) && s'.store == s.store
  {
    HandOver(s.outbox, step.sender);
    assert s'.startup == s.startup;
    OneLess(|s.startup| + |Owed(s.outbox)|, |s'.startup| + |Owed(s'.outbox)|, PassSteps(env));
  }

  /** Until it is at rest the manager can take a step. */
  lemma ManagingPossible(env: Env, s: State) returns (step: Step, s': State)
    requires Inv(env, s) && !AtRest(s)
    ensures Manages(step) && Next(env, s, step, s')
  {
    if s.pass.Some? {
      step, s' := PassPossible(env, s);
    } else if s.startup != {} {
      var kind :| kind in s.startup;
      step := StartInitial(kind);
      s' := s.(startup := s.startup - {kind}, pass := Some(Pass(kind, [])));
    } else {
      var sender :| Waiting(s, sender) != [];
      var kind := Waiting(s, sender)[0];
      step := Take(sender);
      s' := s.(outbox := s.outbox[sender := Waiting(s, sender)[1..]],
               pass := if kind in Registered(env.cfg) then Some(Pass(kind, [])) else None);
    }
  }

  lemma PassPossible(env: Env, s: State) returns (step: Step, s': State)
    requires Inv(env, s) && s.pass.Some?
    ensures Manages(step) && Next(env, s, step, s')
  {
    var Pass(kind, views) := s.pass.value;
    if |views| < |env.cfg.remotes| {
      step := Read;
      s' := s.(pass := Some(Pass(kind, views + [View(s.store, env.cfg.remotes[|views|].name)])));
    } else if Desired(env, kind, views).Some? {
      step := Succeed;
      var target := Target(s.clusters[kind], Desired(env, kind, views).value, PEER_LABEL);
      s' := s.(pass := None, settled := s.settled + {kind}, used := s.used[kind := views],
               clusters := s.clusters[kind := target]);
    } else {
      step := Fail;
      s' := s.(pass := None, settled := s.settled - {kind}, failures := s.failures + 1,
               clusters := s.clusters[kind := s.clusters[kind]]);
    }
  }

  /** A sequence of the manager's steps. */
  ghost predicate IsPath(env: Env, states: seq<State>, steps: seq<Step>) {
    && |states| == |steps| + 1
    && forall i | 0 <= i < |steps| :: Manages(steps[i]) && Next(env, states[i], steps[i], states[i + 1])
  }

  /** Every such sequence is bounded by what its first state allows for. */
  lemma {:induction false} ManagingBounded(env: Env, states: seq<State>, steps: seq<Step>)
    requires IsPath(env, states, steps)
    ensures |steps| <= Work(env, states[0]) - Work(env, states[|steps|]) && states[|steps|].store == states[0].store
  {
    if steps == [] {
    } else {
      var n := |steps| - 1;
      ManagingBounded(env, states[..n + 1], steps[..n]);
      ManagingDescends(env, states[n], steps[n], states[n + 1]);
    }
  }

  /** And from every state of a run one of them ends at rest, with the same store. */
  lemma {:induction false} ManagingEnds(env: Env, s: State) returns (states: seq<State>, steps: seq<Step>)
    requires Inv(env, s)
    ensures IsPath(env, states, steps) && states[0] == s && |steps| <= Work(env, s)
    ensures AtRest(states[|steps|]) && states[|steps|].store == s.store && Inv(env, states[|steps|])
    decreases Work(env, s)
  {
    if AtRest(s) {
      states, steps := [s], [];
    } else {
      var step, s' := ManagingPossible(env, s);
      ManagingDescends(env, s, step, s');
      StepKeepsInv(env, s, step, s');
      var more, rest := ManagingEnds(env, s');
      states, steps := [s] + more, [step] + rest;
      Prepended(env, s, step, more, rest);
    }
  }

  lemma Prepended(env: Env, s: State, step: Step, more: seq<State>, rest: seq<Step>)
    requires IsPath(env, more, rest) && Manages(step) && Next(env, s, step, more[0])
    ensures IsPath(env, [s] + more, [step] + rest) && ([s] + more)[|rest| + 1] == more[|rest|]
  {
    var states, steps := [s] + more, [step] + rest;
    forall i | 0 <= i < |steps| ensures Manages(steps[i]) && Next(env, states[i], steps[i], states[i + 1]) {
      if i > 0 {
        assert states[i] == more[i - 1] && steps[i] == rest[i - 1] && states[i + 1] == more[i];
      }
    }
  }

  /** So in a run without failures that is continued to its end without any, every registered kind is converged. */
  lemma RestConverged(env: Env, s: State, kind: Kind)
    requires Inv(env, s) && AtRest(s) && s.failures == 0 && kind in Registered(env.cfg)
    ensures Converged(env, s, kind)
  {
    AtRestIff(s);
    assert Quiet(s, kind);
    QuietConverged(env, s, kind);
  }
}
