/** Runs of the discovery protocol: which of them leave every subscriber up to date, how a late and a torn
    reply come about, and why announcing comes to an end. */
module DiscoveryRuns {
  import opened Types
  import opened Naming
  import opened Export
  import opened Generation
  import opened Discovery

  // ---------------------------------------------------------------- undisturbed runs

  /** A broadcast is sent on a stream whose initial request has not been answered yet. */
  ghost predicate Overtakes(s: State, step: Step) {
    step.BroadcastTo? && step.ok && step.id in s.replies
  }

  /** A service that stays exported slips past the listings of a response in progress. */
  ghost predicate Tears(selectors: seq<Labels>, s: State, step: Step) {
    && step.CacheChanges?
    && (|| (s.broadcast.Some? && Dodges(selectors, s.broadcast.value.gen, step.event))
        || exists id | id in s.replies :: Dodges(selectors, s.replies[id].gen, step.event))
  }

  predicate Fails(step: Step) {
    step.FailBroadcast? || step.FailReply?
  }

  ghost predicate NoneOvertakes(selectors: seq<Labels>, s: State, steps: seq<Step>)
    requires Legal(selectors, s, steps)
    decreases |steps|
  {
    steps == [] || (!Overtakes(s, steps[0]) && NoneOvertakes(selectors, Apply(selectors, s, steps[0]), steps[1..]))
  }

  ghost predicate NoneTears(selectors: seq<Labels>, s: State, steps: seq<Step>)
    requires Legal(selectors, s, steps)
    decreases |steps|
  {
    steps == [] || (!Tears(selectors, s, steps[0]) && NoneTears(selectors, Apply(selectors, s, steps[0]), steps[1..]))
  }

  ghost predicate NothingLate(s: State) {
    s.late == {} && s.missed == {} && forall id | id in s.replies :: s.replies[id].overtakenBy.None?
  }

  ghost predicate NothingTorn(s: State) {
    && s.torn == {}
    && (s.broadcast.Some? ==> s.broadcast.value.gen.dodged == {})
    && forall id | id in s.replies :: s.replies[id].gen.dodged == {}
  }

  lemma NothingLateStep(selectors: seq<Labels>, s: State, step: Step)
    requires Enabled(selectors, s, step) && NothingLate(s) && !Overtakes(s, step) && !Fails(step)
    ensures NothingLate(Apply(selectors, s, step))
  {}

  lemma NothingTornStep(selectors: seq<Labels>, s: State, step: Step)
    requires Enabled(selectors, s, step) && NothingTorn(s) && !Tears(selectors, s, step)
    ensures NothingTorn(Apply(selectors, s, step))
  {
    var s' := Apply(selectors, s, step);
    if step.CacheChanges? {
      forall id | id in s'.replies ensures s'.replies[id].gen.dodged == {} {
        assert !Dodges(selectors, s.replies[id].gen, step.event);
      }
    }
  }

  lemma {:induction false} NoneOvertakesNothingLate(selectors: seq<Labels>, s: State, steps: seq<Step>)
    requires Legal(selectors, s, steps) && NoneOvertakes(selectors, s, steps) && NothingLate(s)
    requires forall i | 0 <= i < |steps| :: !Fails(steps[i])
    ensures NothingLate(Run(selectors, s, steps))
    decreases |steps|
  {
    if steps == [] {
    } else {
      NothingLateStep(selectors, s, steps[0]);
      NoneOvertakesNothingLate(selectors, Apply(selectors, s, steps[0]), steps[1..]);
    }
  }

  lemma {:induction false} NoneTearsNothingTorn(selectors: seq<Labels>, s: State, steps: seq<Step>)
    requires Legal(selectors, s, steps) && NoneTears(selectors, s, steps) && NothingTorn(s)
    ensures NothingTorn(Run(selectors, s, steps))
    decreases |steps|
  {
    if steps == [] {
    } else {
      NothingTornStep(selectors, s, steps[0]);
      NoneTearsNothingTorn(selectors, Apply(selectors, s, steps[0]), steps[1..]);
    }
  }

  /** In runs where no listing fails, no broadcast overtakes a reply and no service dodges a listing, every
      answered subscriber is up to date when quiet. */
  lemma UndisturbedConsistent(selectors: seq<Labels>, steps: seq<Step>, id: nat)
    requires Legal(selectors, INIT, steps) && NoneOvertakes(selectors, INIT, steps) && NoneTears(selectors, INIT, steps)
    requires forall i | 0 <= i < |steps| :: !Fails(steps[i])
    requires Quiet(selectors, Run(selectors, INIT, steps)) && Answered(Run(selectors, INIT, steps), id)
    ensures Hosts(LastSent(Run(selectors, INIT, steps), id))
            == ExportedHostnames(Run(selectors, INIT, steps).cache, selectors)
  {
    NoneOvertakesNothingLate(selectors, INIT, steps);
    NoneTearsNothingTorn(selectors, INIT, steps);
    SubscriberConsistency(selectors, Run(selectors, INIT, steps), id);
  }

  /** With at most one selector the second condition is vacuous: no step of any run tears a response. */
  lemma {:induction false} OneSelectorNeverTorn(selectors: seq<Labels>, s: State, steps: seq<Step>)
    requires |selectors| <= 1 && Legal(selectors, s, steps)
    ensures NoneTears(selectors, s, steps)
    decreases |steps|
  {
    if steps == [] {
    } else {
      if steps[0].CacheChanges? {
        forall g: Gen ensures !Dodges(selectors, g, steps[0].event) {
          OneSelectorNeverDodged(selectors, g, steps[0].event);
        }
      }
      OneSelectorNeverTorn(selectors, Apply(selectors, s, steps[0]), steps[1..]);
    }
  }

  // ---------------------------------------------------------------- how replies go wrong

  lemma {:induction false} Extend(selectors: seq<Labels>, s: State, steps: seq<Step>, step: Step)
    requires Legal(selectors, s, steps) && Enabled(selectors, Run(selectors, s, steps), step)
    ensures Legal(selectors, s, steps + [step])
    ensures Run(selectors, s, steps + [step]) == Apply(selectors, Run(selectors, s, steps), step)
    decreases |steps|
  {
    var more := steps + [step];
    if steps == [] {
      assert more == [step] && more[1..] == [];
    } else {
      assert more[0] == steps[0] && more[1..] == steps[1..] + [step];
      Extend(selectors, Apply(selectors, s, steps[0]), steps[1..], step);
    }
  }

  lemma Advance(selectors: seq<Labels>, s: State, step: Step) returns (s': State)
    requires Reachable(selectors, s) && Enabled(selectors, s, step)
    ensures Reachable(selectors, s') && s' == Apply(selectors, s, step)
  {
    var steps: seq<Step> :| Legal(selectors, INIT, steps) && Run(selectors, INIT, steps) == s;
    Extend(selectors, INIT, steps, step);
    s' := Apply(selectors, s, step);
  }

  /** A client connects to a mesh and its reply is started. */
  lemma ReplyStarted(selectors: seq<Labels>, s: State, c: string) returns (s': State)
    requires Reachable(selectors, s) && s == INIT.(cache := s.cache)
    ensures Reachable(selectors, s')
    ensures s' == s.(nextId := 1, subscribers := {1}, sent := map[1 := []],
                     replies := map[1 := Reply(EMPTY, None)], clients := map[c := Client(Some(1), 0, None)])
  {
    s' := Advance(selectors, s, Connect(c));
    s' := Advance(selectors, s', StartReply(1));
  }

  lemma InitReachable(selectors: seq<Labels>)
    ensures Reachable(selectors, INIT)
  {
    assert Legal(selectors, INIT, []) && Run(selectors, INIT, []) == INIT;
  }

  lemma EmptyPart(cache: Cache, selector: Labels)
    requires forall k | k in cache :: !SelectorMatches(selector, cache[k].labels)
    ensures IsPart(cache, selector, [])
  {
    assert IsListing(cache, selector, []) && FederatedAll([]) == [];
  }

  lemma OnlyPart(selector: Labels, k: Key, svc: Service)
    requires SelectorMatches(selector, svc.labels)
    ensures IsPart(map[k := svc], selector, [Federated(k, svc)])
  {
    var cache: Cache, items: seq<Item> := map[k := svc], [(k, svc)];
    forall item ensures item in Matching(cache, selector) <==> item == (k, svc) {
      assert Listed(cache, selector, k);
    }
    assert IsListing(cache, selector, items) && FederatedAll(items) == [Federated(k, svc)];
  }

  lemma OnlyExported(selectors: seq<Labels>, k: Key, svc: Service)
    requires MatchExportRules(svc.labels, selectors)
    ensures ExportedHostnames(map[k := svc], selectors) == {Hostname(k.name, k.namespace)}
  {
    assert Exported(map[k := svc], selectors, k);
  }

  /** Late replies do occur: the only service appears between the generation and the sending of a
      reply, its broadcast goes first, and the subscriber is left believing that nothing is exported. */
  lemma LateReply(selector: Labels, k: Key, svc: Service, c: string) returns (s: State)
    requires SelectorMatches(selector, svc.labels) && ValidKey(k)
    ensures Reachable([selector], s) && Quiet([selector], s) && Answered(s, 1) && 1 !in s.torn && 1 !in s.missed
    ensures LastSent(s, 1) == [] && ExportedHostnames(s.cache, [selector]) == {Hostname(k.name, k.namespace)}
  {
    var selectors := [selector];
    assert SelectorMatches(selectors[0], svc.labels);
    s := ListedNothing(selector, c);
    s := Appears(selectors, s, k, svc);
    s := BroadcastOf(selector, s, k, svc);
    s := Advance(selectors, s, FinishReply(1, true));
    OnlyExported(selectors, k, svc);
  }

  /** No message names a service. */
  ghost predicate NothingSaid(s: State) {
    && (forall id | id in s.replies :: s.replies[id].gen.message == [])
    && (forall id | id in s.outdated :: LastMessage(s, id) == [])
  }

  /** A service appears and its event is handled. */
  lemma Appears(selectors: seq<Labels>, s: State, k: Key, svc: Service) returns (s': State)
    requires ValidKey(k) && MatchExportRules(svc.labels, selectors)
    requires Reachable(selectors, s) && s.cache == map[] && s.events == [] && s.broadcast.None? && NothingSaid(s)
    ensures Reachable(selectors, s') && s' == s.(cache := map[k := svc], pending := s.pending + 1)
  {
    s' := Advance(selectors, s, CacheChanges(Created(k, svc)));
    assert s'.replies == s.replies && s'.outdated == s.outdated;
    assert s' == s.(cache := map[k := svc], events := [Created(k, svc)]);
    s' := Advance(selectors, s', HandleEvent);
  }

  /** It is broadcast to the only subscriber, whose reply is generated but not sent. */
  lemma BroadcastOf(selector: Labels, s: State, k: Key, svc: Service) returns (s': State)
    requires ValidKey(k) && SelectorMatches(selector, svc.labels)
    requires Reachable([selector], s) && s.cache == map[k := svc] && s.pending == 1 && s.broadcast.None?
    requires s.subscribers == {1} && 1 in s.sent && 1 in s.replies && s.late == {} && s.torn == {} && s.missed == {}
    ensures Reachable([selector], s')
    ensures s' == s.(pending := 0, sent := s.sent[1 := s.sent[1] + [[Federated(k, svc)]]],
                     outdated := s.outdated[1 := {}],
                     replies := s.replies[1 := s.replies[1].(overtakenBy := Some({Hostname(k.name, k.namespace)}))])
  {
    var selectors := [selector];
    assert SelectorMatches(selectors[0], svc.labels);
    OnlyExported(selectors, k, svc);
    s' := Advance(selectors, s, StartBroadcast);
    OnlyPart(selector, k, svc);
    s' := Advance(selectors, s', ListForBroadcast([Federated(k, svc)]));
    assert s'.broadcast.value.gen == Gen([Federated(k, svc)], 1, {}, {});
    s' := SendOnly(selectors, s');
  }

  lemma SendOnly(selectors: seq<Labels>, s: State) returns (s': State)
    requires Reachable(selectors, s) && s.subscribers == {1} && 1 in s.sent && 1 in s.replies
    requires s.broadcast.Some? && s.broadcast.value.Generating? && Complete(selectors, s.broadcast.value.gen)
    requires s.broadcast.value.gen.dodged == {} && s.late == {} && s.torn == {} && s.missed == {}
    ensures Reachable(selectors, s')
    ensures s' == s.(broadcast := None, sent := s.sent[1 := s.sent[1] + [s.broadcast.value.gen.message]],
                     outdated := s.outdated[1 := s.broadcast.value.gen.outdated],
                     replies := s.replies[1 := s.replies[1].(overtakenBy := Some(s.broadcast.value.names))])
  {
    s' := Advance(selectors, s, StartSending);
    s' := Advance(selectors, s', BroadcastTo(1, true));
    s' := Advance(selectors, s', FinishBroadcast);
  }

  /** So do torn ones: with two selectors, a service moves from the second to the first between the two
      listings. It is exported all the time, so nothing is pushed, and the subscriber is left without it. */
  lemma TornReply(a: Labels, b: Labels, k: Key, x: Service, y: Service, c: string) returns (s: State)
    requires ValidKey(k) && SelectorMatches(a, y.labels) && !SelectorMatches(b, y.labels)
    requires SelectorMatches(b, x.labels) && !SelectorMatches(a, x.labels)
    ensures Reachable([a, b], s) && Quiet([a, b], s) && Answered(s, 1) && 1 !in s.late && 1 !in s.missed
    ensures LastSent(s, 1) == [] && ExportedHostnames(s.cache, [a, b]) == {Hostname(k.name, k.namespace)}
  {
    var selectors := [a, b];
    assert SelectorMatches(selectors[0], y.labels) && SelectorMatches(selectors[1], x.labels);
    s := Announced(selectors, k, x);
    s := ReplyStarted(selectors, s, c);
    EmptyPart(map[k := x], a);
    s := Advance(selectors, s, ListForReply(1, []));
    s := Moved(selectors, s, k, x, y);
    EmptyPart(map[k := y], b);
    s := FinishedWithNothing(selectors, s);
    OnlyExported(selectors, k, y);
  }

  /** The last listing of a reply is empty, like the others, and it is sent. */
  lemma FinishedWithNothing(selectors: seq<Labels>, s: State) returns (s': State)
    requires Reachable(selectors, s) && |selectors| == 2 && IsPart(s.cache, selectors[1], []) && Quiet(selectors, s)
    requires s.subscribers == {1} && s.sent == map[1 := []] && s.late == {} && s.missed == {}
    requires 1 in s.replies && s.replies[1] == Reply(Gen([], 1, s.replies[1].gen.dodged, {}), None)
    ensures Reachable(selectors, s') && Quiet(selectors, s') && Answered(s', 1) && LastSent(s', 1) == []
    ensures s'.cache == s.cache && 1 !in s'.late && 1 !in s'.missed
  {
    s' := Advance(selectors, s, ListForReply(1, []));
    s' := Advance(selectors, s', FinishReply(1, true));
  }

  /** And a push whose generation fails is lost: the service appears, one listing fails, and the subscriber is
      never told. */
  lemma LostPush(selector: Labels, k: Key, svc: Service, c: string) returns (s: State)
    requires SelectorMatches(selector, svc.labels) && ValidKey(k)
    ensures Reachable([selector], s) && Quiet([selector], s) && Answered(s, 1) && 1 !in s.late && 1 !in s.torn
    ensures LastSent(s, 1) == [] && ExportedHostnames(s.cache, [selector]) == {Hostname(k.name, k.namespace)}
  {
    var selectors := [selector];
    assert SelectorMatches(selectors[0], svc.labels);
    s := AnsweredWithNothing(selector, c);
    s := Appears(selectors, s, k, svc);
    s := Advance(selectors, s, StartBroadcast);
    s := Advance(selectors, s, FailBroadcast);
    OnlyExported(selectors, k, svc);
  }

  /** A client connects while nothing is exported. */
  lemma AnsweredWithNothing(selector: Labels, c: string) returns (s: State)
    ensures Reachable([selector], s) && s.cache == map[] && s.events == [] && s.pending == 0 && s.broadcast.None?
    ensures s.subscribers == {1} && Answered(s, 1) && LastSent(s, 1) == [] && NothingSaid(s)
  {
    s := ListedNothing(selector, c);
    s := Advance([selector], s, FinishReply(1, true));
  }

  lemma ListedNothing(selector: Labels, c: string) returns (s: State)
    ensures Reachable([selector], s)
    ensures s == INIT.(
              nextId := 1, subscribers := {1}, sent := map[1 := []],
              replies := map[1 := Reply(Gen([], 1, {}, {}), None)], clients := map[c := Client(Some(1), 0, None)])
  {
    var selectors := [selector];
    InitReachable(selectors);
    s := ReplyStarted(selectors, INIT, c);
    EmptyPart(map[], selector);
    s := Advance(selectors, s, ListForReply(1, []));
    assert s.replies[1].gen == Gen([], 1, {}, {});
  }

  /** A service appears while nobody listens. */
  lemma Announced(selectors: seq<Labels>, k: Key, svc: Service) returns (s: State)
    requires ValidKey(k) && MatchExportRules(svc.labels, selectors)
    ensures Reachable(selectors, s) && s == INIT.(cache := map[k := svc])
  {
    InitReachable(selectors);
    s := Appears(selectors, INIT, k, svc);
    s := Advance(selectors, s, SkipBroadcast);
  }

  /** An update that keeps the only service exported is handled without a push, between two listings. */
  lemma Moved(selectors: seq<Labels>, s: State, k: Key, x: Service, y: Service) returns (s': State)
    requires Reachable(selectors, s) && s.cache == map[k := x] && s.events == [] && s.broadcast.None?
    requires MatchExportRules(x.labels, selectors) && MatchExportRules(y.labels, selectors)
    requires s.replies.Keys == {1} && s.replies[1].overtakenBy.None? && s.replies[1].gen.message == []
             && s.outdated == map[]
    ensures Reachable(selectors, s')
    ensures s' == s.(cache := map[k := y], replies := s'.replies)
    ensures s'.replies.Keys == {1}
            && s'.replies[1] == Reply(s.replies[1].gen.(dodged := s'.replies[1].gen.dodged), None)
  {
    s' := Advance(selectors, s, CacheChanges(Updated(k, x, y)));
    assert s'.cache == map[k := y] && s'.events == [Updated(k, x, y)];
    s' := Advance(selectors, s', HandleEvent);
  }

  // ---------------------------------------------------------------- edits that are not pushed

  /** A client asks, and the only service is listed for it. */
  lemma Asked(selector: Labels, k: Key, svc: Service, c: string) returns (s: State)
    requires SelectorMatches(selector, svc.labels) && ValidKey(k)
    ensures Reachable([selector], s)
    ensures s == INIT.(
              cache := map[k := svc], nextId := 1, subscribers := {1}, sent := map[1 := []],
              replies := map[1 := Reply(Gen([Federated(k, svc)], 1, {}, {}), None)],
              clients := map[c := Client(Some(1), 0, None)])
  {
    var selectors := [selector];
    assert SelectorMatches(selectors[0], svc.labels);
    s := Announced(selectors, k, svc);
    s := ReplyStarted(selectors, s, c);
    OnlyPart(selector, k, svc);
    s := Advance(selectors, s, ListForReply(1, [Federated(k, svc)]));
    assert s.replies[1].gen == Gen([Federated(k, svc)], 1, {}, {});
  }

  /** It is told of the service. */
  lemma Told(selector: Labels, k: Key, svc: Service, c: string) returns (s: State)
    requires SelectorMatches(selector, svc.labels) && ValidKey(k)
    ensures Reachable([selector], s)
    ensures s == INIT.(
              cache := map[k := svc], nextId := 1, subscribers := {1}, sent := map[1 := [[Federated(k, svc)]]],
              outdated := map[1 := {}], clients := map[c := Client(Some(1), 1, Some([Federated(k, svc)]))])
  {
    s := Asked(selector, k, svc, c);
    s := ReplySent([selector], s, [Federated(k, svc)]);
    s := Advance([selector], s, Receive(c));
    assert s.clients == map[c := Client(Some(1), 1, Some([Federated(k, svc)]))];
  }

  /** The only reply is sent, on the only stream. */
  lemma ReplySent(selectors: seq<Labels>, s: State, message: Snapshot) returns (s': State)
    requires Reachable(selectors, s) && s.sent == map[1 := []]
    requires s.replies == map[1 := Reply(Gen(message, |selectors|, {}, {}), None)]
    requires s.late == {} && s.torn == {} && s.missed == {} && s.outdated == map[]
    ensures Reachable(selectors, s')
    ensures s' == s.(replies := map[], sent := map[1 := [message]], outdated := map[1 := {}])
  {
    s' := Advance(selectors, s, FinishReply(1, true));
    assert s'.sent[1] == [message];
    assert s'.replies == map[] && s'.sent == map[1 := [message]] && s'.outdated == map[1 := {}];
  }

  /** The service is edited but stays exported. Nothing is pushed, and the client, which has read all it was sent,
      goes on believing in the service as it was, in a quiet state. */
  lemma UnpushedEdit(selector: Labels, k: Key, x: Service, y: Service, c: string) returns (s: State)
    requires SelectorMatches(selector, x.labels) && SelectorMatches(selector, y.labels) && ValidKey(k)
    requires Federated(k, x) != Federated(k, y)
    ensures Reachable([selector], s) && Quiet([selector], s) && Drained(s, c) && s.clients[c].stream == Some(1)
            && Sure(s, 1)
    ensures s.cache == map[k := y] && s.clients[c].store == Some([Federated(k, x)])
    ensures s.outdated == map[1 := {k}]
  {
    var selectors := [selector];
    assert SelectorMatches(selectors[0], x.labels) && SelectorMatches(selectors[0], y.labels);
    s := Told(selector, k, x, c);
    assert LastMessage(s, 1) == [Federated(k, x)] && HostOf(k) in Hosts([Federated(k, x)]) by {
      assert [Federated(k, x)][0].hostname == HostOf(k);
    }
    assert Edit([Federated(k, x)], {}, Updated(k, x, y)) == {k};
    s := Advance(selectors, s, CacheChanges(Updated(k, x, y)));
    assert s.cache == map[k := y] && s.events == [Updated(k, x, y)] && s.outdated == map[1 := {k}];
    s := Advance(selectors, s, HandleEvent);
  }

  // ---------------------------------------------------------------- what a failed push needs

  /** Nothing is left to announce to a subscriber, and no push is being generated. */
  ghost predicate Settled(selectors: seq<Labels>, s: State) {
    !Unannounced(selectors, s) && !(s.broadcast.Some? && s.broadcast.value.Generating?)
  }

  lemma SettledStep(selectors: seq<Labels>, s: State, step: Step)
    requires Enabled(selectors, s, step) && Settled(selectors, s)
    requires step.CacheChanges? ==> !Pushes(step.event, selectors)
    ensures Settled(selectors, Apply(selectors, s, step)) && !step.FailBroadcast?
  {
    var s' := Apply(selectors, s, step);
    forall i | 0 <= i < |s'.events| ensures !Pushes(s'.events[i], selectors) {
      if step.HandleEvent? {
        assert s'.events[i] == s.events[i + 1];
      } else if i < |s.events| {
        assert s'.events[i] == s.events[i];
      }
    }
  }

  /** A subscriber to which nothing was left to announce is missed by a failed push only after a match-changing
      event; otherwise only the failure of its own request can leave it behind. */
  lemma {:induction false} MissedNeedsChange(selectors: seq<Labels>, s: State, steps: seq<Step>, id: nat)
    requires Legal(selectors, s, steps) && Settled(selectors, s) && id !in s.missed
    requires forall i | 0 <= i < |steps| :: steps[i].CacheChanges? ==> !Pushes(steps[i].event, selectors)
    requires forall i | 0 <= i < |steps| :: !(steps[i].FailReply? && steps[i].id == id)
    ensures id !in Run(selectors, s, steps).missed
    decreases |steps|
  {
    if steps == [] {
    } else {
      SettledStep(selectors, s, steps[0]);
      MissedNeedsChange(selectors, Apply(selectors, s, steps[0]), steps[1..], id);
    }
  }

  // ---------------------------------------------------------------- announcements come to an end

  /** The server's own steps towards quiet. */
  predicate Announces(step: Step) {
    step.HandleEvent? || step.SkipBroadcast? || step.StartBroadcast? || step.ListForBroadcast? || step.StartSending?
    || step.BroadcastTo? || step.FinishBroadcast? || step.FailBroadcast?
  }

  /** The steps one push takes: its start, a listing per selector, the start of sending, a send per subscriber
      and its end. */
  ghost function PushSteps(selectors: seq<Labels>, s: State): nat {
    |selectors| + |s.subscribers| + 3
  }

  /** What is left of the push in progress. */
  ghost function StepsLeft(selectors: seq<Labels>, s: State): nat {
    match s.broadcast
    case None => 0
    case Some(Generating(_, gen)) => |Rest(selectors, gen)| + |s.subscribers| + 2
    case Some(Sending(_, _, _, visited)) => |s.subscribers - visited| + 1
  }

  /** The announcing steps that a state still allows for: each queued event is handled and may cause a push. */
  ghost function Work(selectors: seq<Labels>, s: State): nat {
    |s.events| * (PushSteps(selectors, s) + 1) + s.pending * PushSteps(selectors, s) + StepsLeft(selectors, s)
  }

  lemma WorkMonotonic(events: nat, pending: nat, steps: nat, steps': nat)
    requires steps' <= steps
    ensures events * (steps' + 1) + pending * steps' <= events * (steps + 1) + pending * steps
  {}

  lemma SendDescends(selectors: seq<Labels>, s: State, step: Step)
    requires Enabled(selectors, s, step) && step.BroadcastTo?
    ensures Work(selectors, Apply(selectors, s, step)) < Work(selectors, s)
  {
    var s' := Apply(selectors, s, step);
    var left := s.subscribers - s.broadcast.value.visited;
    assert s'.subscribers - s'.broadcast.value.visited == left - {step.id};
    assert s'.subscribers == s.subscribers || s'.subscribers == s.subscribers - {step.id};
    WorkMonotonic(|s.events|, s.pending, PushSteps(selectors, s), PushSteps(selectors, s'));
  }

  /** Handling an event may ask for a push, and a push is taken from the queue. */
  lemma QueueDescends(selectors: seq<Labels>, s: State, step: Step)
    requires Enabled(selectors, s, step) && (step.HandleEvent? || step.SkipBroadcast? || step.StartBroadcast?)
    ensures Work(selectors, Apply(selectors, s, step)) < Work(selectors, s)
  {
    var s', n := Apply(selectors, s, step), PushSteps(selectors, s);
    match step {
      case HandleEvent =>
        assert |s.events| * (n + 1) == |s'.events| * (n + 1) + (n + 1);
        assert s'.pending * n <= s.pending * n + n;
      case SkipBroadcast => assert s.pending * n == s'.pending * n + n;
      case StartBroadcast =>
        assert s.pending * n == s'.pending * n + n;
        assert Rest(selectors, EMPTY) == selectors;
    }
  }

  /** The push in progress comes closer to its end. */
  lemma PushDescends(selectors: seq<Labels>, s: State, step: Step)
    requires Enabled(selectors, s, step)
    requires step.ListForBroadcast? || step.StartSending? || step.FinishBroadcast? || step.FailBroadcast?
    ensures Work(selectors, Apply(selectors, s, step)) < Work(selectors, s)
  {
    var s' := Apply(selectors, s, step);
    assert s.subscribers - {} == s.subscribers;
    assert PushSteps(selectors, s') == PushSteps(selectors, s) && s'.events == s.events && s'.pending == s.pending;
    assert StepsLeft(selectors, s') < StepsLeft(selectors, s);
  }

  /** Each announcing step leaves less to announce, whatever is sent and whichever listings and sends fail. */
  lemma AnnouncingDescends(selectors: seq<Labels>, s: State, step: Step)
    requires Enabled(selectors, s, step) && Announces(step)
    ensures Work(selectors, Apply(selectors, s, step)) < Work(selectors, s)
  {
    match step
    case HandleEvent | SkipBroadcast | StartBroadcast => QueueDescends(selectors, s, step);
    case BroadcastTo(_, _) => SendDescends(selectors, s, step);
    case _ => PushDescends(selectors, s, step);
  }

  lemma AnnouncingKeepsCache(selectors: seq<Labels>, s: State, step: Step)
    requires Enabled(selectors, s, step) && Announces(step)
    ensures Apply(selectors, s, step).cache == s.cache
  {}

  /** Steps other than new events and new subscribers leave nothing more to announce. */
  lemma OthersDoNotAdd(selectors: seq<Labels>, s: State, step: Step)
    requires Enabled(selectors, s, step) && !Announces(step) && !step.CacheChanges? && !step.Connect?
    ensures Work(selectors, Apply(selectors, s, step)) == Work(selectors, s)
  {}

  function CountAnnouncing(steps: seq<Step>): nat {
    if steps == [] then 0 else (if Announces(steps[0]) then 1 else 0) + CountAnnouncing(steps[1..])
  }

  /** In every run without new events and new subscribers, however replies and clients interleave, the number
      of announcing steps is bounded by what the first state allows for. */
  lemma {:induction false} AnnouncingBounded(selectors: seq<Labels>, s: State, steps: seq<Step>)
    requires Legal(selectors, s, steps)
    requires forall i | 0 <= i < |steps| :: !steps[i].CacheChanges? && !steps[i].Connect?
    ensures CountAnnouncing(steps) <= Work(selectors, s) - Work(selectors, Run(selectors, s, steps))
    decreases |steps|
  {
    if steps == [] {
    } else {
      if Announces(steps[0]) {
        AnnouncingDescends(selectors, s, steps[0]);
      } else {
        OthersDoNotAdd(selectors, s, steps[0]);
      }
      AnnouncingBounded(selectors, Apply(selectors, s, steps[0]), steps[1..]);
    }
  }

  /** As long as something is left to announce, an announcing step is possible. */
  lemma AnnouncingPossible(selectors: seq<Labels>, s: State) returns (step: Step)
    requires Inv(selectors, s) && !Quiet(selectors, s)
    ensures Announces(step) && Enabled(selectors, s, step)
  {
    if s.broadcast.Some? {
      var b := s.broadcast.value;
      if b.Sending? {
        if b.todo == {} {
          step := FinishBroadcast;
        } else {
          var id :| id in b.todo;
          step := BroadcastTo(id, true);
        }
      } else if b.gen.next < |selectors| {
        var part := PartExists(s.cache, selectors[b.gen.next]);
        step := ListForBroadcast(part);
      } else {
        step := StartSending;
      }
    } else if s.pending > 0 {
      step := if s.subscribers == {} then SkipBroadcast else StartBroadcast;
    } else {
      step := HandleEvent;
    }
  }

  lemma AnnouncingNeverStuck(selectors: seq<Labels>, s: State) returns (step: Step)
    requires Reachable(selectors, s) && !Quiet(selectors, s)
    ensures Announces(step) && Enabled(selectors, s, step)
  {
    ReachableInv(selectors, s);
    step := AnnouncingPossible(selectors, s);
  }

  lemma Prepend(selectors: seq<Labels>, s: State, step: Step, more: seq<Step>)
    requires Enabled(selectors, s, step) && Legal(selectors, Apply(selectors, s, step), more)
    ensures Legal(selectors, s, [step] + more)
    ensures Run(selectors, s, [step] + more) == Run(selectors, Apply(selectors, s, step), more)
  {
    assert ([step] + more)[1..] == more;
  }

  /** So from every reachable state announcing steps alone lead to a quiet state with the same services, in a
      number of steps that is known in advance. */
  lemma {:induction false} AnnouncingEnds(selectors: seq<Labels>, s: State) returns (steps: seq<Step>)
    requires Reachable(selectors, s)
    ensures Legal(selectors, s, steps) && |steps| <= Work(selectors, s)
    ensures forall i | 0 <= i < |steps| :: Announces(steps[i])
    ensures Reachable(selectors, Run(selectors, s, steps)) && Quiet(selectors, Run(selectors, s, steps))
    ensures Run(selectors, s, steps).cache == s.cache
    decreases Work(selectors, s)
  {
    if Quiet(selectors, s) {
      steps := [];
    } else {
      var step := AnnouncingNeverStuck(selectors, s);
      AnnouncingDescends(selectors, s, step);
      AnnouncingKeepsCache(selectors, s, step);
      var s' := Advance(selectors, s, step);
      var more := AnnouncingEnds(selectors, s');
      Prepend(selectors, s, step, more);
      steps := [step] + more;
    }
  }
}
