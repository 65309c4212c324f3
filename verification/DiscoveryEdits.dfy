/** Contents of the messages of the discovery protocol. Host names are kept up to date by pushes, but an edit of a
    service that stays exported is not pushed: this module says exactly which services a subscriber knows as they
    are now. */
module DiscoveryEdits {
  import opened Types
  import opened Export
  import opened Generation
  import opened Discovery

  ghost predicate GenCurrent(cache: Cache, g: Gen) {
    Current(cache, g.message, g.outdated)
  }

  ghost predicate StreamCurrent(s: State, id: nat) {
    id in s.sent && s.sent[id] != [] ==> id in s.outdated && Current(s.cache, LastMessage(s, id), s.outdated[id])
  }

  /** In responses in progress and in last messages, history tells which services are carried as they are. */
  ghost predicate EditInv(s: State) {
    && (s.broadcast.Some? ==> GenCurrent(s.cache, s.broadcast.value.gen))
    && (forall id | id in s.replies :: GenCurrent(s.cache, s.replies[id].gen))
    && (forall id: nat :: StreamCurrent(s, id))
  }

  lemma CacheChangesKeepsEdits(selectors: seq<Labels>, s: State, step: Step)
    requires EditInv(s) && Enabled(selectors, s, step) && step.CacheChanges?
    ensures EditInv(Apply(selectors, s, step))
  {
    var s', e := Apply(selectors, s, step), step.event;
    if s.broadcast.Some? {
      EditKeepsCurrent(s.cache, s.broadcast.value.gen.message, s.broadcast.value.gen.outdated, e);
    }
    forall id | id in s'.replies ensures GenCurrent(s'.cache, s'.replies[id].gen) {
      EditKeepsCurrent(s.cache, s.replies[id].gen.message, s.replies[id].gen.outdated, e);
    }
    forall id: nat ensures StreamCurrent(s', id) {
      assert StreamCurrent(s, id);
      if id in s.sent && s.sent[id] != [] {
        EditKeepsCurrent(s.cache, LastMessage(s, id), s.outdated[id], e);
      }
    }
  }

  lemma ListingKeepsEdits(selectors: seq<Labels>, s: State, step: Step)
    requires EditInv(s) && ValidCache(s.cache) && Enabled(selectors, s, step)
    requires step.ListForBroadcast? || step.ListForReply?
    ensures EditInv(Apply(selectors, s, step))
  {
    var s' := Apply(selectors, s, step);
    var g := if step.ListForBroadcast? then s.broadcast.value.gen else s.replies[step.id].gen;
    ListingKeepsCurrent(selectors, s.cache, g, step.part);
    forall id: nat ensures StreamCurrent(s', id) {
      assert StreamCurrent(s, id);
    }
  }

  lemma NothingIsCurrent(cache: Cache)
    ensures Current(cache, [], {})
  {
    forall k: Key ensures CurrentAt(cache, [], {}, k) {}
  }

  predicate Sends(step: Step) {
    step.BroadcastTo? || step.FinishReply? || step.FailReply?
  }

  lemma SentKeepsStreams(s: State, s': State, to: nat, message: Snapshot, outdated: set<Key>)
    requires EditInv(s) && Current(s.cache, message, outdated) && to in s.sent
    requires s'.cache == s.cache && s'.sent == s.sent[to := s.sent[to] + [message]]
    requires s'.outdated == s.outdated[to := outdated]
    ensures forall id: nat :: StreamCurrent(s', id)
  {
    forall id: nat ensures StreamCurrent(s', id) {
      assert StreamCurrent(s, id);
      if id == to {
        assert LastMessage(s', to) == message;
      }
    }
  }

  /** A message is sent with the history of its generation. */
  lemma SendKeepsEdits(selectors: seq<Labels>, s: State, step: Step)
    requires EditInv(s) && Enabled(selectors, s, step) && Sends(step)
    ensures EditInv(Apply(selectors, s, step))
  {
    var s' := Apply(selectors, s, step);
    if step.ok {
      var g := match step
        case BroadcastTo(_, _) => s.broadcast.value.gen
        case FinishReply(id, _) => s.replies[id].gen
        case _ => EMPTY;
      NothingIsCurrent(s.cache);
      SentKeepsStreams(s, s', step.id, g.message, g.outdated);
    } else {
      forall id: nat ensures StreamCurrent(s', id) {
        assert StreamCurrent(s, id);
      }
    }
  }

  lemma OtherStepKeepsEdits(selectors: seq<Labels>, s: State, step: Step)
    requires EditInv(s) && Enabled(selectors, s, step)
    requires !step.CacheChanges? && !step.ListForBroadcast? && !step.ListForReply? && !Sends(step)
    ensures EditInv(Apply(selectors, s, step))
  {
    var s' := Apply(selectors, s, step);
    NothingIsCurrent(s.cache);
    assert s'.cache == s.cache && s'.outdated == s.outdated;
    forall id: nat ensures StreamCurrent(s', id) {
      assert StreamCurrent(s, id);
      assert id in s'.sent && s'.sent[id] != [] ==> id in s.sent && s'.sent[id] == s.sent[id];
    }
  }

  lemma StepKeepsEdits(selectors: seq<Labels>, s: State, step: Step)
    requires Inv(selectors, s) && EditInv(s) && Enabled(selectors, s, step)
    ensures EditInv(Apply(selectors, s, step))
  {
    if step.CacheChanges? {
      CacheChangesKeepsEdits(selectors, s, step);
    } else if step.ListForBroadcast? || step.ListForReply? {
      ListingKeepsEdits(selectors, s, step);
    } else if Sends(step) {
      SendKeepsEdits(selectors, s, step);
    } else {
      OtherStepKeepsEdits(selectors, s, step);
    }
  }

  lemma {:induction false} RunKeepsEdits(selectors: seq<Labels>, s: State, steps: seq<Step>)
    requires Inv(selectors, s) && EditInv(s) && Legal(selectors, s, steps)
    ensures EditInv(Run(selectors, s, steps))
    decreases |steps|
  {
    if steps == [] {
    } else {
      StepKeepsEdits(selectors, s, steps[0]);
      StepKeepsInv(selectors, s, steps[0]);
      RunKeepsEdits(selectors, Apply(selectors, s, steps[0]), steps[1..]);
    }
  }

  /** Of the last message on a stream that is up to date: a service is carried as it is now if and only if it is
      not outdated. */
  lemma CarriedIff(selectors: seq<Labels>, s: State, id: nat, k: Key)
    requires Inv(selectors, s) && EditInv(s) && Quiet(selectors, s) && Answered(s, id) && Sure(s, id)
    requires Exported(s.cache, selectors, k)
    ensures id in s.outdated && (Federated(k, s.cache[k]) in LastSent(s, id) <==> k !in s.outdated[id])
  {
    assert SubscriberOk(selectors, s, id) && StreamCurrent(s, id);
    assert CurrentAt(s.cache, LastSent(s, id), s.outdated[id], k);
    assert HostOf(k) in ExportedHostnames(s.cache, selectors);
  }

  /** In every run, once announcements are done, a sure subscriber knows an exported service as it is now if and
      only if it was not edited, to something the last message does not say, after it was listed. */
  lemma SubscriberKnows(selectors: seq<Labels>, s: State, id: nat, k: Key)
    requires Reachable(selectors, s) && Quiet(selectors, s) && Answered(s, id) && Sure(s, id)
    requires Exported(s.cache, selectors, k)
    ensures id in s.outdated && (Federated(k, s.cache[k]) in LastSent(s, id) <==> k !in s.outdated[id])
  {
    var steps: seq<Step> :| Legal(selectors, INIT, steps) && Run(selectors, INIT, steps) == s;
    RunKeepsInv(selectors, INIT, steps);
    RunKeepsEdits(selectors, INIT, steps);
    CarriedIff(selectors, s, id, k);
  }

  /** Only an edit of a service that the message names makes it outdated; and if nothing is left to announce
      afterwards, it is an update that is not pushed because the service is exported before and after. */
  lemma OutdatedByEdit(selectors: seq<Labels>, s: State, step: Step, id: nat, k: Key)
    requires Enabled(selectors, s, step) && id in s.sent && s.sent[id] != [] && id in s.outdated && k !in s.outdated[id]
    requires var s' := Apply(selectors, s, step);
             id in s'.sent && s'.sent[id] == s.sent[id] && id in s'.outdated && k in s'.outdated[id]
    ensures step.CacheChanges? && step.event.key == k && Edits(step.event) && HostOf(k) in Hosts(LastMessage(s, id))
    ensures var s' := Apply(selectors, s, step);
            Exported(s'.cache, selectors, k) && !Unannounced(selectors, s') ==>
              && step.event.Updated?
              && MatchExportRules(step.event.oldService.labels, selectors)
              && MatchExportRules(step.event.service.labels, selectors)
  {
    if step.CacheChanges? {
      UnannouncedStep(selectors, s, step);
    }
  }
}
