/** Where the messages of the discovery protocol come from: the generator, applied to caches that the run passed
    through, in order. */
module DiscoveryTrace {
  import opened Types
  import opened Export
  import opened Generation
  import opened Discovery

  /** The caches that a run passes through. */
  ghost function Trace(selectors: seq<Labels>, s: State, steps: seq<Step>): (past: seq<Cache>)
    requires Legal(selectors, s, steps)
    ensures |past| == |steps| + 1 && past[0] == s.cache
    decreases |steps|
  {
    if steps == [] then [s.cache] else [s.cache] + Trace(selectors, Apply(selectors, s, steps[0]), steps[1..])
  }

  ghost predicate PicksAt(past: seq<Cache>, caches: seq<Cache>, at: seq<nat>) {
    && |at| == |caches|
    && (forall i | 0 <= i < |at| :: at[i] < |past| && past[at[i]] == caches[i])
    && (forall i, j | 0 <= i < j < |at| :: at[i] <= at[j])
  }

  /** The caches are among those of the past, in order. */
  ghost predicate Picks(past: seq<Cache>, caches: seq<Cache>) {
    exists at: seq<nat> :: PicksAt(past, caches, at)
  }

  ghost predicate GenTraced(selectors: seq<Labels>, past: seq<Cache>, g: Gen) {
    exists caches: seq<Cache> :: Picks(past, caches) && Generated(selectors, caches, g)
  }

  /** A response that the generator gives for caches of the past, or the empty answer to a failed request. */
  ghost predicate MessageTraced(selectors: seq<Labels>, past: seq<Cache>, message: Snapshot) {
    message == [] || exists caches: seq<Cache> :: Picks(past, caches) && IsResponse(caches, selectors, message)
  }

  ghost predicate StreamTraced(selectors: seq<Labels>, past: seq<Cache>, messages: seq<Snapshot>) {
    forall j | 0 <= j < |messages| :: MessageTraced(selectors, past, messages[j])
  }

  ghost predicate TraceInv(selectors: seq<Labels>, past: seq<Cache>, s: State) {
    && past != [] && past[|past| - 1] == s.cache
    && (s.broadcast.Some? ==> GenTraced(selectors, past, s.broadcast.value.gen))
    && (forall id | id in s.replies :: GenTraced(selectors, past, s.replies[id].gen))
    && (forall id | id in s.sent :: StreamTraced(selectors, past, s.sent[id]))
  }

  lemma PicksMore(past: seq<Cache>, more: seq<Cache>, caches: seq<Cache>)
    requires Picks(past, caches)
    ensures Picks(past + more, caches)
  {
    var at: seq<nat> :| PicksAt(past, caches, at);
    assert PicksAt(past + more, caches, at);
  }

  lemma PicksLast(past: seq<Cache>, caches: seq<Cache>)
    requires Picks(past, caches) && past != []
    ensures Picks(past, caches + [past[|past| - 1]])
  {
    var at: seq<nat> :| PicksAt(past, caches, at);
    assert PicksAt(past, caches + [past[|past| - 1]], at + [|past| - 1]);
  }

  lemma GenTracedMore(selectors: seq<Labels>, past: seq<Cache>, cache: Cache, g: Gen, g': Gen)
    requires GenTraced(selectors, past, g) && g'.message == g.message && g'.next == g.next
    ensures GenTraced(selectors, past + [cache], g')
  {
    var caches: seq<Cache> :| Picks(past, caches) && Generated(selectors, caches, g);
    PicksMore(past, [cache], caches);
    assert Generated(selectors, caches, g');
  }

  lemma StreamTracedMore(selectors: seq<Labels>, past: seq<Cache>, cache: Cache, messages: seq<Snapshot>)
    requires StreamTraced(selectors, past, messages)
    ensures StreamTraced(selectors, past + [cache], messages)
  {
    forall j | 0 <= j < |messages| ensures MessageTraced(selectors, past + [cache], messages[j]) {
      assert MessageTraced(selectors, past, messages[j]);
      if messages[j] != [] {
        var caches: seq<Cache> :| Picks(past, caches) && IsResponse(caches, selectors, messages[j]);
        PicksMore(past, [cache], caches);
      }
    }
  }

  /** A listing of the last cache extends a traced generation. */
  lemma ListingTraced(selectors: seq<Labels>, past: seq<Cache>, g: Gen, part: Snapshot)
    requires GenTraced(selectors, past, g) && past != [] && g.next < |selectors|
    requires IsPart(past[|past| - 1], selectors[g.next], part)
    ensures GenTraced(selectors, past, Listing(g, part))
  {
    var caches: seq<Cache> :| Picks(past, caches) && Generated(selectors, caches, g);
    PicksLast(past, caches);
    ListingGenerates(selectors, caches, g, past[|past| - 1], part);
  }

  lemma EmptyTraced(selectors: seq<Labels>, past: seq<Cache>)
    ensures GenTraced(selectors, past, EMPTY)
  {
    EmptyGenerated(selectors);
    assert PicksAt(past, [], []);
    assert Picks(past, []);
  }

  /** A complete generation gives a traced message. */
  lemma CompleteTraced(selectors: seq<Labels>, past: seq<Cache>, g: Gen)
    requires GenTraced(selectors, past, g) && Complete(selectors, g)
    ensures MessageTraced(selectors, past, g.message)
  {
    var caches: seq<Cache> :| Picks(past, caches) && Generated(selectors, caches, g);
    assert selectors[..g.next] == selectors;
  }

  /** While the trace gets longer, what was traced stays so. */
  lemma Longer(selectors: seq<Labels>, past: seq<Cache>, s: State, cache: Cache)
    requires TraceInv(selectors, past, s) && cache == s.cache
    ensures TraceInv(selectors, past + [cache], s)
  {
    if s.broadcast.Some? {
      GenTracedMore(selectors, past, cache, s.broadcast.value.gen, s.broadcast.value.gen);
    }
    forall id | id in s.replies ensures GenTraced(selectors, past + [cache], s.replies[id].gen) {
      GenTracedMore(selectors, past, cache, s.replies[id].gen, s.replies[id].gen);
    }
    forall id | id in s.sent ensures StreamTraced(selectors, past + [cache], s.sent[id]) {
      StreamTracedMore(selectors, past, cache, s.sent[id]);
    }
  }

  lemma CacheChangesTraced(selectors: seq<Labels>, past: seq<Cache>, s: State, step: Step)
    requires TraceInv(selectors, past, s) && Enabled(selectors, s, step) && step.CacheChanges?
    ensures var s' := Apply(selectors, s, step); TraceInv(selectors, past + [s'.cache], s')
  {
    var s' := Apply(selectors, s, step);
    if s.broadcast.Some? {
      GenTracedMore(selectors, past, s'.cache, s.broadcast.value.gen, s'.broadcast.value.gen);
    }
    forall id | id in s'.replies ensures GenTraced(selectors, past + [s'.cache], s'.replies[id].gen) {
      GenTracedMore(selectors, past, s'.cache, s.replies[id].gen, s'.replies[id].gen);
    }
    forall id | id in s'.sent ensures StreamTraced(selectors, past + [s'.cache], s'.sent[id]) {
      StreamTracedMore(selectors, past, s'.cache, s.sent[id]);
    }
  }

  lemma StreamsTraced(selectors: seq<Labels>, past: seq<Cache>, sent: map<nat, seq<Snapshot>>, to: nat,
                      message: Snapshot)
    requires (forall id | id in sent :: StreamTraced(selectors, past, sent[id])) && to in sent
    requires MessageTraced(selectors, past, message)
    ensures var sent' := sent[to := sent[to] + [message]];
            forall id | id in sent' :: StreamTraced(selectors, past, sent'[id])
  {}

  lemma SendTraced(selectors: seq<Labels>, past: seq<Cache>, s: State, step: Step)
    requires TraceInv(selectors, past, s) && BroadcastInv(selectors, s) && Enabled(selectors, s, step)
    requires step.BroadcastTo? || step.FinishReply? || step.FailReply?
    ensures TraceInv(selectors, past, Apply(selectors, s, step))
  {
    var message := match step
      case BroadcastTo(_, _) => s.broadcast.value.gen.message
      case FinishReply(id, _) => s.replies[id].gen.message
      case _ => [];
    match step {
      case BroadcastTo(_, _) => CompleteTraced(selectors, past, s.broadcast.value.gen);
      case FinishReply(id, _) => CompleteTraced(selectors, past, s.replies[id].gen);
      case _ =>
    }
    StreamsTraced(selectors, past, s.sent, step.id, message);
  }

  lemma OtherTraced(selectors: seq<Labels>, past: seq<Cache>, s: State, step: Step)
    requires TraceInv(selectors, past, s) && Enabled(selectors, s, step)
    requires !step.CacheChanges? && !step.BroadcastTo? && !step.FinishReply? && !step.FailReply?
    ensures TraceInv(selectors, past, Apply(selectors, s, step))
  {
    EmptyTraced(selectors, past);
    match step
    case ListForBroadcast(part) => ListingTraced(selectors, past, s.broadcast.value.gen, part);
    case ListForReply(id, part) => ListingTraced(selectors, past, s.replies[id].gen, part);
    case FailBroadcast =>
      var s' := Apply(selectors, s, step);
      forall id | id in s'.replies ensures GenTraced(selectors, past, s'.replies[id].gen) {
        assert s'.replies[id].gen == s.replies[id].gen;
      }
    case _ =>
  }

  lemma StepTraced(selectors: seq<Labels>, past: seq<Cache>, s: State, step: Step)
    requires TraceInv(selectors, past, s) && BroadcastInv(selectors, s) && Enabled(selectors, s, step)
    ensures var s' := Apply(selectors, s, step); TraceInv(selectors, past + [s'.cache], s')
  {
    var s' := Apply(selectors, s, step);
    if step.CacheChanges? {
      CacheChangesTraced(selectors, past, s, step);
    } else {
      if step.BroadcastTo? || step.FinishReply? || step.FailReply? {
        SendTraced(selectors, past, s, step);
      } else {
        OtherTraced(selectors, past, s, step);
      }
      Longer(selectors, past, s', s'.cache);
    }
  }

  lemma {:induction false} RunTraced(selectors: seq<Labels>, past: seq<Cache>, s: State, steps: seq<Step>)
    requires Inv(selectors, s) && TraceInv(selectors, past, s) && Legal(selectors, s, steps)
    ensures TraceInv(selectors, past + Trace(selectors, s, steps)[1..], Run(selectors, s, steps))
    decreases |steps|
  {
    if steps == [] {
      assert past + Trace(selectors, s, steps)[1..] == past;
    } else {
      var s' := Apply(selectors, s, steps[0]);
      StepTraced(selectors, past, s, steps[0]);
      StepKeepsInv(selectors, s, steps[0]);
      RunTraced(selectors, past + [s'.cache], s', steps[1..]);
      var rest := Trace(selectors, s', steps[1..]);
      assert past + Trace(selectors, s, steps)[1..] == past + [s'.cache] + rest[1..];
    }
  }

  /** In every run each message ever sent on a stream is a response that the generator gives for caches the run
      passed through, in order, or the empty answer to a failed request. */
  lemma EveryMessageGenerated(selectors: seq<Labels>, steps: seq<Step>, id: nat, j: nat)
    requires Legal(selectors, INIT, steps)
    requires id in Run(selectors, INIT, steps).sent && j < |Run(selectors, INIT, steps).sent[id]|
    ensures MessageTraced(selectors, Trace(selectors, INIT, steps), Run(selectors, INIT, steps).sent[id][j])
  {
    var trace := Trace(selectors, INIT, steps);
    RunTraced(selectors, [INIT.cache], INIT, steps);
    assert [INIT.cache] + trace[1..] == trace;
    assert StreamTraced(selectors, trace, Run(selectors, INIT, steps).sent[id]);
  }
}
