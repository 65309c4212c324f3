/** Why all meshes together come to rest: without new events, connections and requests, a bounded number of steps
    remains, and one is possible until every peer is quiet, every response is read and nothing is left to
    reconcile. */
module WorldProgress {
  import opened Types
  import opened ImportStore
  import opened EndToEnd
  import Discovery
  import DiscoveryRuns
  import ImportRun
  import ImportProgress

  /** The peers announce, the importer's clients receive, and its manager reconciles. */
  predicate Progresses(step: Step) {
    match step
    case AtPeer(_, d) => DiscoveryRuns.Announces(d)
    case AtHome(i) => ImportProgress.Manages(i)
    case Deliver(_) => true
  }

  /** The responses that the importer's client has not read yet. */
  ghost function Unread(d: Discovery.State, me: string): nat {
    if me !in d.clients || d.clients[me].stream.None? || d.clients[me].stream.value !in d.sent then 0
    else
      var sent := |d.sent[d.clients[me].stream.value]|;
      if d.clients[me].read <= sent then sent - d.clients[me].read else 0
  }

  ghost predicate AtRest(m: Setup, w: World) {
    && ImportProgress.AtRest(w.here)
    && forall p | p in w.peers && p in m.selectors ::
        Discovery.Quiet(m.selectors[p], w.peers[p]) && Unread(w.peers[p], m.me) == 0
  }

  /** What one response costs the importer: reading it, and three passes. */
  ghost function Cost(m: Setup): nat {
    3 * ImportProgress.PassSteps(m.env) + 1
  }

  ghost function PeerWork(m: Setup, d: Discovery.State, p: string): nat
    requires p in m.selectors
  {
    DiscoveryRuns.Work(m.selectors[p], d) * (Cost(m) + 1) + Unread(d, m.me) * Cost(m)
  }

  ghost function Total(m: Setup, peers: map<string, Discovery.State>, names: set<string>): nat
    requires names <= peers.Keys && names <= m.selectors.Keys
  {
    if names == {} then 0
    else
      var p :| p in names;
      PeerWork(m, peers[p], p) + Total(m, peers, names - {p})
  }

  ghost function Work(m: Setup, w: World): nat
    requires w.peers.Keys == m.selectors.Keys
  {
    Total(m, w.peers, w.peers.Keys) + ImportProgress.Work(m.env, w.here)
  }

  lemma {:induction false} TotalOf(m: Setup, peers: map<string, Discovery.State>, names: set<string>, p: string)
    requires names <= peers.Keys && names <= m.selectors.Keys && p in names
    ensures Total(m, peers, names) == PeerWork(m, peers[p], p) + Total(m, peers, names - {p})
  {
    var q :| q in names && Total(m, peers, names) == PeerWork(m, peers[q], q) + Total(m, peers, names - {q});
    if q == p {
    } else {
      TotalOf(m, peers, names - {q}, p);
      TotalOf(m, peers, names - {p}, q);
      assert names - {q} - {p} == names - {p} - {q};
    }
  }

  lemma {:induction false} TotalElsewhere(m: Setup, peers: map<string, Discovery.State>, p: string, d: Discovery.State,
                                          names: set<string>)
    requires names <= peers.Keys && names <= m.selectors.Keys && p !in names
    ensures Total(m, peers[p := d], names) == Total(m, peers, names)
  {
    if names == {} {
    } else {
      var q :| q in names;
      TotalOf(m, peers, names, q);
      TotalOf(m, peers[p := d], names, q);
      TotalElsewhere(m, peers, p, d, names - {q});
    }
  }

  /** A change at one peer changes the total by the work of that peer. */
  lemma TotalAfter(m: Setup, peers: map<string, Discovery.State>, p: string, d: Discovery.State)
    requires peers.Keys == m.selectors.Keys && p in peers
    ensures peers[p := d].Keys == peers.Keys
    ensures Total(m, peers[p := d], peers.Keys) - Total(m, peers, peers.Keys)
            == PeerWork(m, d, p) - PeerWork(m, peers[p], p)
  {
    TotalOf(m, peers, peers.Keys, p);
    TotalOf(m, peers[p := d], peers.Keys, p);
    TotalElsewhere(m, peers, p, d, peers.Keys - {p});
  }

  lemma UnreadAfter(selectors: seq<Labels>, d: Discovery.State, step: Discovery.Step, me: string)
    requires Discovery.Enabled(selectors, d, step) && DiscoveryRuns.Announces(step)
    ensures Unread(Discovery.Apply(selectors, d, step), me) <= Unread(d, me) + 1
  {}

  lemma Weighed(a: nat, a': nat, u: nat, u': nat, c: nat)
    requires a' < a && u' <= u + 1
    ensures a' * (c + 1) + u' * c < a * (c + 1) + u * c
  {
    assert (a' + 1) * (c + 1) <= a * (c + 1);
    assert u' * c <= (u + 1) * c;
  }

  lemma AnnouncingDescends(m: Setup, d: Discovery.State, p: string, step: Discovery.Step)
    requires p in m.selectors && Discovery.Enabled(m.selectors[p], d, step) && DiscoveryRuns.Announces(step)
    ensures PeerWork(m, Discovery.Apply(m.selectors[p], d, step), p) < PeerWork(m, d, p)
  {
    var d' := Discovery.Apply(m.selectors[p], d, step);
    DiscoveryRuns.AnnouncingDescends(m.selectors[p], d, step);
    UnreadAfter(m.selectors[p], d, step, m.me);
    Weighed(DiscoveryRuns.Work(m.selectors[p], d), DiscoveryRuns.Work(m.selectors[p], d'), Unread(d, m.me),
            Unread(d', m.me), Cost(m));
  }

  lemma ReceivingDescends(m: Setup, d: Discovery.State, p: string)
    requires p in m.selectors && Discovery.Enabled(m.selectors[p], d, Discovery.Receive(m.me))
    ensures PeerWork(m, Discovery.Apply(m.selectors[p], d, Discovery.Receive(m.me)), p) == PeerWork(m, d, p) - Cost(m)
  {
    var d' := Discovery.Apply(m.selectors[p], d, Discovery.Receive(m.me));
    DiscoveryRuns.OthersDoNotAdd(m.selectors[p], d, Discovery.Receive(m.me));
    assert Unread(d, m.me) == Unread(d', m.me) + 1;
    ImportProgress.OneLess(Unread(d, m.me), Unread(d', m.me), Cost(m));
  }

  /** Every such step leaves less to do. */
  lemma ProgressDescends(m: Setup, w: World, step: Step, w': World)
    requires Next(m, w, step, w') && Progresses(step)
    ensures w'.peers.Keys == w.peers.Keys && Work(m, w') < Work(m, w)
  {
    match step
    case AtPeer(p, d) =>
      TotalAfter(m, w.peers, p, Discovery.Apply(m.selectors[p], w.peers[p], d));
      AnnouncingDescends(m, w.peers[p], p, d);
    case AtHome(i) =>
      ImportProgress.ManagingDescends(m.env, w.here, i, w'.here);
    case Deliver(p) =>
      TotalAfter(m, w.peers, p, Discovery.Apply(m.selectors[p], w.peers[p], Discovery.Receive(m.me)));
      ReceivingDescends(m, w.peers[p], p);
      ImportProgress.UpdateAdds(m.env, w.here, p, Incoming(m.selectors[p], w.peers[p], m.me), w'.here);
  }

  lemma ProgressKeepsCaches(m: Setup, w: World, step: Step, w': World)
    requires Next(m, w, step, w') && Progresses(step)
    ensures w'.peers.Keys == w.peers.Keys && forall p | p in w.peers :: w'.peers[p].cache == w.peers[p].cache
  {
    if step.AtPeer? {
      DiscoveryRuns.AnnouncingKeepsCache(m.selectors[step.peer], w.peers[step.peer], step.theirs);
    }
  }

  /** Until all meshes are at rest, one of these steps is possible. */
  lemma ProgressPossible(m: Setup, w: World) returns (step: Step, w': World)
    requires Inv(m, w) && !AtRest(m, w)
    ensures Progresses(step) && Next(m, w, step, w')
  {
    if !ImportProgress.AtRest(w.here) {
      var i, here := ImportProgress.ManagingPossible(m.env, w.here);
      step, w' := AtHome(i), w.(here := here);
    } else {
      var p :| p in w.peers && p in m.selectors
               && !(Discovery.Quiet(m.selectors[p], w.peers[p]) && Unread(w.peers[p], m.me) == 0);
      if !Discovery.Quiet(m.selectors[p], w.peers[p]) {
        var d := DiscoveryRuns.AnnouncingPossible(m.selectors[p], w.peers[p]);
        step, w' := AtPeer(p, d), w.(peers := w.peers[p := Discovery.Apply(m.selectors[p], w.peers[p], d)]);
      } else {
        w' := DeliveryPossible(m, w, p);
        step := Deliver(p);
      }
    }
  }

  /** A client whose last requests are handed over can receive what is unread. */
  lemma DeliveryPossible(m: Setup, w: World, p: string) returns (w': World)
    requires w.peers.Keys == m.selectors.Keys && p in w.peers && Unread(w.peers[p], m.me) > 0
    requires ImportRun.Waiting(w.here, p) == []
    ensures Next(m, w, Deliver(p), w')
  {
    var d := w.peers[p];
    assert Discovery.Enabled(m.selectors[p], d, Discovery.Receive(m.me));
    var message := Incoming(m.selectors[p], d, m.me);
    var here := w.here.(store := w.here.store[p := message], outbox := w.here.outbox[p := ALL_KINDS]);
    assert ImportRun.Next(m.env, w.here, ImportRun.Update(p, message), here);
    w' := World(w.peers[p := Discovery.Apply(m.selectors[p], d, Discovery.Receive(m.me))], here);
  }

  /** A sequence of such steps. */
  ghost predicate IsPath(m: Setup, worlds: seq<World>, steps: seq<Step>) {
    && |worlds| == |steps| + 1
    && forall i | 0 <= i < |steps| :: Progresses(steps[i]) && Next(m, worlds[i], steps[i], worlds[i + 1])
  }

  /** Every such sequence is bounded by what its first world allows for. */
  lemma {:induction false} ProgressBounded(m: Setup, worlds: seq<World>, steps: seq<Step>)
    requires IsPath(m, worlds, steps) && worlds[0].peers.Keys == m.selectors.Keys
    ensures worlds[|steps|].peers.Keys == m.selectors.Keys
    ensures |steps| <= Work(m, worlds[0]) - Work(m, worlds[|steps|])
  {
    if steps == [] {
    } else {
      var n := |steps| - 1;
      ProgressBounded(m, worlds[..n + 1], steps[..n]);
      ProgressDescends(m, worlds[n], steps[n], worlds[n + 1]);
    }
  }

  /** And from every world of a run one of them ends at rest, with the same services everywhere. */
  lemma {:induction false} ProgressEnds(m: Setup, w: World) returns (worlds: seq<World>, steps: seq<Step>)
    requires Inv(m, w)
    ensures IsPath(m, worlds, steps) && worlds[0] == w && |steps| <= Work(m, w)
    ensures Inv(m, worlds[|steps|]) && AtRest(m, worlds[|steps|])
    ensures forall p | p in w.peers :: worlds[|steps|].peers[p].cache == w.peers[p].cache
    decreases Work(m, w)
  {
    if AtRest(m, w) {
      worlds, steps := [w], [];
    } else {
      var step, w' := ProgressPossible(m, w);
      ProgressDescends(m, w, step, w');
      ProgressKeepsCaches(m, w, step, w');
      StepKeepsInv(m, w, step, w');
      var more, rest := ProgressEnds(m, w');
      worlds, steps := [w] + more, [step] + rest;
      Prepended(m, w, step, more, rest);
    }
  }

  lemma Prepended(m: Setup, w: World, step: Step, more: seq<World>, rest: seq<Step>)
    requires IsPath(m, more, rest) && Progresses(step) && Next(m, w, step, more[0])
    ensures IsPath(m, [w] + more, [step] + rest) && ([w] + more)[|rest| + 1] == more[|rest|]
  {
    var worlds, steps := [w] + more, [step] + rest;
    forall i | 0 <= i < |steps| ensures Progresses(steps[i]) && Next(m, worlds[i], steps[i], worlds[i + 1]) {
      if i > 0 {
        assert worlds[i] == more[i - 1] && steps[i] == rest[i - 1] && worlds[i + 1] == more[i];
      }
    }
  }
}
