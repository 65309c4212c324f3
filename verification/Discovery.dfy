/** The federated discovery protocol as a state machine over one exporting mesh and any number of
    importing clients. A response is generated one listing at a time and sent one stream at a time, both in
    a broadcast (the push loop) and in the reply to an initial request (one goroutine per stream), so the
    two interleave freely with each other and with service events. */
module Discovery {
  import opened Types
  import opened Export
  import opened Generation

  /** A push in progress. `names` is history: the host names exported when it started. While it is sent, it
      has to reach the subscribers in `todo` (those known when sending started); the ones it has
      visited may include later ones. */
  datatype Broadcast =
    | Generating(names: set<string>, gen: Gen)
    | Sending(names: set<string>, gen: Gen, todo: set<nat>, visited: set<nat>)

  /** A reply that is not sent yet; `overtakenBy` is history: the names of the last broadcast that reached the
      same stream, or failed, in the meantime. */
  datatype Reply = Reply(gen: Gen, overtakenBy: Option<set<string>>)

  /** An importer's client: the stream it reads, how much of it, and what it stored for this peer. */
  datatype Client = Client(stream: Option<nat>, read: nat, store: Option<Snapshot>)

  /** `late`, `torn` and `missed` are history. `late`: the streams whose last message is a reply that was
      overtaken by a broadcast which started when other hosts were exported. `torn`: those whose last message
      was not overtaken, but was dodged by a service while it was generated. `missed`: those whose last message
      names other hosts than were exported when a later broadcast started and failed, or is the
      empty answer to a request whose generation failed while something was exported. `outdated`: for each stream,
      the services in its last message that were edited after they were listed. */
  datatype State = State(
    cache: Cache,
    events: seq<Event>,
    pending: nat,
    broadcast: Option<Broadcast>,
    nextId: nat,
    subscribers: set<nat>,
    sent: map<nat, seq<Snapshot>>,
    replies: map<nat, Reply>,
    late: set<nat>,
    torn: set<nat>,
    missed: set<nat>,
    outdated: map<nat, set<Key>>,
    clients: map<string, Client>)

  datatype Step =
    | CacheChanges(event: Event)
    | HandleEvent
    | SkipBroadcast
    | StartBroadcast
    | ListForBroadcast(part: Snapshot)
    | StartSending
    | BroadcastTo(id: nat, ok: bool)
    | FinishBroadcast
    | FailBroadcast
    | Connect(client: string)
    | StartReply(id: nat)
    | ListForReply(id: nat, part: Snapshot)
    | FinishReply(id: nat, ok: bool)
    | FailReply(id: nat, ok: bool)
    | Receive(client: string)
    | Disconnect(client: string)

  const INIT := State(map[], [], 0, None, 0, {}, map[], map[], {}, {}, {}, map[], map[])

  ghost predicate Enabled(selectors: seq<Labels>, s: State, step: Step) {
    match step
    case CacheChanges(e) => Describes(e, s.cache)
    case HandleEvent => s.events != []
    case SkipBroadcast => s.broadcast.None? && s.pending > 0 && s.subscribers == {}
    case StartBroadcast => s.broadcast.None? && s.pending > 0 && s.subscribers != {}
    case ListForBroadcast(part) =>
      && s.broadcast.Some? && s.broadcast.value.Generating?
      && s.broadcast.value.gen.next < |selectors| && IsPart(s.cache, selectors[s.broadcast.value.gen.next], part)
    case StartSending => s.broadcast.Some? && s.broadcast.value.Generating?
      && Complete(selectors, s.broadcast.value.gen)
    case BroadcastTo(id, _) =>
      && s.broadcast.Some? && s.broadcast.value.Sending?
      && id in s.subscribers && id in s.sent && id !in s.broadcast.value.visited
    case FinishBroadcast => s.broadcast.Some? && s.broadcast.value.Sending? && s.broadcast.value.todo == {}
    case FailBroadcast => s.broadcast.Some? && s.broadcast.value.Generating? && s.broadcast.value.gen.next < |selectors|
    case Connect(_) => true
    case StartReply(id) => id in s.sent && id !in s.replies
    case ListForReply(id, part) =>
      && id in s.replies && s.replies[id].gen.next < |selectors|
      && IsPart(s.cache, selectors[s.replies[id].gen.next], part)
    case FinishReply(id, _) => id in s.replies && Complete(selectors, s.replies[id].gen) && id in s.sent
    case FailReply(id, _) => id in s.replies && s.replies[id].gen.next < |selectors| && id in s.sent
    case Receive(c) =>
      c in s.clients && s.clients[c].stream.Some? && s.clients[c].stream.value in s.sent
      && s.clients[c].read < |s.sent[s.clients[c].stream.value]|
    case Disconnect(c) => c in s.clients
  }

  function Mark(ids: set<nat>, id: nat, marked: bool): set<nat> {
    if marked then ids + {id} else ids - {id}
  }

  /** The last message on a stream, whether or not its subscriber was dropped; none counts as empty. */
  function LastMessage(s: State, id: nat): Snapshot {
    if id in s.sent && s.sent[id] != [] then s.sent[id][|s.sent[id]| - 1] else []
  }

  ghost predicate Answered(s: State, id: nat) {
    id in s.subscribers && id in s.sent && s.sent[id] != []
  }

  ghost function LastSent(s: State, id: nat): Snapshot
    requires Answered(s, id)
  {
    LastMessage(s, id)
  }

  /** The subscribers whose last message names other hosts. */
  ghost function Behind(s: State, names: set<string>): set<nat> {
    set id | id in s.subscribers && Answered(s, id) && Hosts(LastSent(s, id)) != names
  }

  ghost function Apply(selectors: seq<Labels>, s: State, step: Step): State
    requires Enabled(selectors, s, step)
  {
    match step
    case CacheChanges(e) =>
      s.(cache := After(e, s.cache), events := s.events + [e],
         broadcast := if s.broadcast.None? then None
                      else Some(s.broadcast.value.(gen := Observe(selectors, s.broadcast.value.gen, e))),
         replies := map id | id in s.replies :: s.replies[id].(gen := Observe(selectors, s.replies[id].gen, e)),
         outdated := map id | id in s.outdated :: Edit(LastMessage(s, id), s.outdated[id], e))
    case HandleEvent =>
      s.(events := s.events[1..], pending := s.pending + |FdsRequests(s.events[0], selectors)|)
    case SkipBroadcast => s.(pending := s.pending - 1)
    case StartBroadcast =>
      s.(pending := s.pending - 1, broadcast := Some(Generating(ExportedHostnames(s.cache, selectors), EMPTY)))
    case ListForBroadcast(part) =>
      s.(broadcast := Some(s.broadcast.value.(gen := Listing(s.broadcast.value.gen, part))))
    case StartSending =>
      s.(broadcast := Some(Sending(s.broadcast.value.names, s.broadcast.value.gen, s.subscribers, {})))
    case BroadcastTo(id, ok) =>
      var Sending(names, gen, todo, visited) := s.broadcast.value;
      var s' := s.(broadcast := Some(Sending(names, gen, todo - {id}, visited + {id})));
      if ok then
        s'.(sent := s.sent[id := s.sent[id] + [gen.message]],
            late := s.late - {id},
            torn := Mark(s.torn, id, gen.dodged != {}),
            missed := s.missed - {id},
            outdated := s.outdated[id := gen.outdated],
            replies := if id in s.replies then s.replies[id := s.replies[id].(overtakenBy := Some(names))]
              else s.replies)
      else
        s'.(subscribers := s.subscribers - {id})
    case FinishBroadcast => s.(broadcast := None)
    case FailBroadcast =>
      var names := s.broadcast.value.names;
      s.(broadcast := None, late := {}, torn := {}, missed := Behind(s, names),
         replies := map id | id in s.replies :: s.replies[id].(overtakenBy := Some(names)))
    case Connect(c) =>
      var id := s.nextId + 1;
      s.(nextId := id, subscribers := s.subscribers + {id}, sent := s.sent[id := []],
         clients := s.clients[c := Client(Some(id), 0, if c in s.clients then s.clients[c].store else None)])
    case StartReply(id) => s.(replies := s.replies[id := Reply(EMPTY, None)])
    case ListForReply(id, part) =>
      s.(replies := s.replies[id := s.replies[id].(gen := Listing(s.replies[id].gen, part))])
    case FinishReply(id, ok) =>
      var Reply(gen, overtakenBy) := s.replies[id];
      var s' := s.(replies := s.replies - {id});
      if !ok then s'
      else
        s'.(sent := s.sent[id := s.sent[id] + [gen.message]],
            late := Mark(s.late, id, overtakenBy.Some? && overtakenBy.value != Hosts(gen.message)),
            torn := Mark(s.torn, id, overtakenBy.None? && gen.dodged != {}),
            missed := s.missed - {id},
            outdated := s.outdated[id := gen.outdated])
    case FailReply(id, ok) =>
      var s' := s.(replies := s.replies - {id});
      if !ok then s'
      else
        s'.(sent := s.sent[id := s.sent[id] + [[]]], late := s.late - {id}, torn := s.torn - {id},
            missed := Mark(s.missed, id, ExportedHostnames(s.cache, selectors) != {}),
            outdated := s.outdated[id := {}])
    case Receive(c) =>
      var client := s.clients[c];
      s.(clients := s.clients[c := Client(client.stream, client.read + 1,
          Some(s.sent[client.stream.value][client.read]))])
    case Disconnect(c) => s.(clients := s.clients[c := s.clients[c].(stream := None)])
  }

  ghost predicate Legal(selectors: seq<Labels>, s: State, steps: seq<Step>)
    decreases |steps|
  {
    steps == [] || (Enabled(selectors, s, steps[0]) && Legal(selectors, Apply(selectors, s, steps[0]), steps[1..]))
  }

  /** The state after a legal run. */
  ghost function Run(selectors: seq<Labels>, s: State, steps: seq<Step>): State
    requires Legal(selectors, s, steps)
    decreases |steps|
  {
    if steps == [] then s else Run(selectors, Apply(selectors, s, steps[0]), steps[1..])
  }

  // ---------------------------------------------------------------- the invariant

  /** Some change of the exported host names has not been broadcast yet. */
  ghost predicate Unannounced(selectors: seq<Labels>, s: State) {
    s.pending > 0 || exists i | 0 <= i < |s.events| :: Pushes(s.events[i], selectors)
  }

  /** No match-changing event is queued, no push is pending and none is in progress. */
  ghost predicate Quiet(selectors: seq<Labels>, s: State) {
    !Unannounced(selectors, s) && s.broadcast.None?
  }

  /** A broadcast will still be sent to a subscriber. */
  ghost predicate Settling(selectors: seq<Labels>, s: State, id: nat) {
    || Unannounced(selectors, s)
    || (s.broadcast.Some? && (s.broadcast.value.Generating? || id in s.broadcast.value.todo))
  }

  /** The last message was not overtaken, torn or missed by what came later. */
  ghost predicate Sure(s: State, id: nat) {
    id !in s.late && id !in s.torn && id !in s.missed
  }

  /** The last message is up to date exactly when history says so. */
  ghost predicate Accounted(selectors: seq<Labels>, s: State, id: nat)
    requires Answered(s, id)
  {
    Hosts(LastSent(s, id)) == ExportedHostnames(s.cache, selectors) <==> Sure(s, id)
  }

  ghost predicate SubscriberOk(selectors: seq<Labels>, s: State, id: nat) {
    Answered(s, id) && !Settling(selectors, s, id) ==> Accounted(selectors, s, id)
  }

  ghost predicate ReplyOk(selectors: seq<Labels>, s: State, id: nat) {
    id in s.replies && id in s.subscribers && !Settling(selectors, s, id) ==>
      if s.replies[id].overtakenBy.Some? then s.replies[id].overtakenBy.value == ExportedHostnames(s.cache, selectors)
      else Sound(selectors, s.cache, s.replies[id].gen)
  }

  ghost predicate BroadcastInv(selectors: seq<Labels>, s: State) {
    s.broadcast.Some? ==>
      var b := s.broadcast.value;
      && b.gen.next <= |selectors|
      && (b.Sending? ==> Complete(selectors, b.gen) && b.todo <= s.subscribers && b.todo !! b.visited)
      && (!Unannounced(selectors, s) ==>
            b.names == ExportedHostnames(s.cache, selectors) && Sound(selectors, s.cache, b.gen))
  }

  ghost predicate ClientInv(s: State) {
    forall c | c in s.clients && s.clients[c].stream.Some? ::
      var id := s.clients[c].stream.value;
      && id in s.sent
      && s.clients[c].read <= |s.sent[id]|
      && (s.clients[c].read > 0 ==> s.clients[c].store == Some(s.sent[id][s.clients[c].read - 1]))
  }

  ghost predicate Shape(s: State) {
    && ValidCache(s.cache)
    && (forall id | id in s.sent :: id <= s.nextId)
    && s.subscribers <= s.sent.Keys
    && s.replies.Keys <= s.sent.Keys
  }

  ghost predicate Inv(selectors: seq<Labels>, s: State) {
    && Shape(s) && BroadcastInv(selectors, s) && ClientInv(s)
    && (forall id: nat :: SubscriberOk(selectors, s, id))
    && (forall id: nat :: ReplyOk(selectors, s, id))
  }

  lemma UnannouncedStep(selectors: seq<Labels>, s: State, step: Step)
    requires Enabled(selectors, s, step) && (step.CacheChanges? || step.HandleEvent?)
    ensures Unannounced(selectors, s) ==> Unannounced(selectors, Apply(selectors, s, step))
    ensures step.CacheChanges? && Pushes(step.event, selectors) ==> Unannounced(selectors, Apply(selectors, s, step))
  {
    var s' := Apply(selectors, s, step);
    if step.CacheChanges? {
      assert s'.events[|s.events|] == step.event;
      if i :| 0 <= i < |s.events| && Pushes(s.events[i], selectors) {
        assert s'.events[i] == s.events[i];
      }
    } else if i :| 0 <= i < |s.events| && Pushes(s.events[i], selectors) && s.pending == 0 {
      if i > 0 {
        assert s'.events[i - 1] == s.events[i];
      }
    }
  }

  /** A change of the cache asks for a push, or leaves everything that is up to date so. */
  lemma CacheChangesKeepsInv(selectors: seq<Labels>, s: State, step: Step)
    requires Inv(selectors, s) && Enabled(selectors, s, step) && step.CacheChanges?
    ensures Inv(selectors, Apply(selectors, s, step))
  {
    var s', e := Apply(selectors, s, step), step.event;
    UnannouncedStep(selectors, s, step);
    PushesIffHostnamesChange(e, s.cache, selectors);
    if !Unannounced(selectors, s') && s.broadcast.Some? {
      ObserveKeepsSound(selectors, s.cache, s.broadcast.value.gen, e);
    }
    forall id: nat ensures ReplyOk(selectors, s', id) {
      assert ReplyOk(selectors, s, id);
      if id in s.replies && id in s.subscribers && !Settling(selectors, s', id) && s.replies[id].overtakenBy.None? {
        ObserveKeepsSound(selectors, s.cache, s.replies[id].gen, e);
      }
    }
    forall id: nat ensures SubscriberOk(selectors, s', id) {
      assert SubscriberOk(selectors, s, id);
    }
  }

  /** A step that changes nothing but what is yet to be broadcast, and keeps every subscriber settling. */
  lemma AnnouncementFrame(selectors: seq<Labels>, s: State, s': State)
    requires Inv(selectors, s) && BroadcastInv(selectors, s')
    requires s' == s.(events := s'.events, pending := s'.pending, broadcast := s'.broadcast)
    requires forall id | id in s.subscribers :: Settling(selectors, s, id) ==> Settling(selectors, s', id)
    ensures Inv(selectors, s')
  {
    forall id: nat ensures SubscriberOk(selectors, s', id) && ReplyOk(selectors, s', id) {
      assert SubscriberOk(selectors, s, id) && ReplyOk(selectors, s, id);
    }
  }

  lemma AnnouncementKeepsInv(selectors: seq<Labels>, s: State, step: Step)
    requires Inv(selectors, s) && Enabled(selectors, s, step)
    requires step.HandleEvent? || step.SkipBroadcast? || step.StartBroadcast? || step.ListForBroadcast?
             || step.StartSending? || step.FinishBroadcast?
    ensures Inv(selectors, Apply(selectors, s, step))
  {
    var s' := Apply(selectors, s, step);
    match step {
      case HandleEvent => UnannouncedStep(selectors, s, step);
      case StartBroadcast => EmptySound(selectors, s.cache);
      case ListForBroadcast(part) =>
        if !Unannounced(selectors, s') {
          assert !Unannounced(selectors, s);
          ListingKeepsSound(selectors, s.cache, s.broadcast.value.gen, part);
        }
      case _ =>
    }
    assert BroadcastInv(selectors, s');
    AnnouncementFrame(selectors, s, s');
  }

  /** Sending a message on one stream concerns its subscriber and its readers only. */
  lemma SendFrame(selectors: seq<Labels>, s: State, s': State, id: nat, message: Snapshot)
    requires Inv(selectors, s) && id in s.sent && s'.sent == s.sent[id := s.sent[id] + [message]]
    requires s'.clients == s.clients && s'.subscribers == s.subscribers && s'.cache == s.cache
    requires forall other: nat | other != id :: Sure(s', other) <==> Sure(s, other)
    requires forall other | other != id :: Settling(selectors, s, other) ==> Settling(selectors, s', other)
    ensures ClientInv(s')
    ensures forall other: nat | other != id :: SubscriberOk(selectors, s', other)
  {
    forall other: nat | other != id ensures SubscriberOk(selectors, s', other) {
      assert SubscriberOk(selectors, s, other);
    }
  }

  lemma BroadcastToKeepsInv(selectors: seq<Labels>, s: State, step: Step)
    requires Inv(selectors, s) && Enabled(selectors, s, step) && step.BroadcastTo? && step.ok
    ensures Inv(selectors, Apply(selectors, s, step))
  {
    var s', gen, id := Apply(selectors, s, step), s.broadcast.value.gen, step.id;
    assert Unannounced(selectors, s) <==> Unannounced(selectors, s');
    SendFrame(selectors, s, s', id, gen.message);
    if !Unannounced(selectors, s) {
      CompleteIff(selectors, s.cache, gen);
    }
    assert LastSent(s', id) == gen.message;
    assert SubscriberOk(selectors, s', id);
    forall other: nat ensures ReplyOk(selectors, s', other) {
      assert ReplyOk(selectors, s, other);
    }
  }

  /** A failed send drops the subscriber; its stream may still be replied to. */
  lemma DropKeepsInv(selectors: seq<Labels>, s: State, step: Step)
    requires Inv(selectors, s) && Enabled(selectors, s, step) && step.BroadcastTo? && !step.ok
    ensures Inv(selectors, Apply(selectors, s, step))
  {
    var s' := Apply(selectors, s, step);
    assert Unannounced(selectors, s) <==> Unannounced(selectors, s');
    forall id: nat ensures SubscriberOk(selectors, s', id) && ReplyOk(selectors, s', id) {
      assert SubscriberOk(selectors, s, id) && ReplyOk(selectors, s, id);
    }
  }

  lemma FinishReplyKeepsInv(selectors: seq<Labels>, s: State, step: Step)
    requires Inv(selectors, s) && Enabled(selectors, s, step) && step.FinishReply? && step.ok
    ensures Inv(selectors, Apply(selectors, s, step))
  {
    var s', gen, id := Apply(selectors, s, step), s.replies[step.id].gen, step.id;
    assert Unannounced(selectors, s) <==> Unannounced(selectors, s');
    SendFrame(selectors, s, s', id, gen.message);
    assert ReplyOk(selectors, s, id);
    if id in s.subscribers && !Settling(selectors, s, id) {
      if s.replies[id].overtakenBy.None? {
        CompleteIff(selectors, s.cache, gen);
      }
      assert LastSent(s', id) == gen.message;
    }
    assert SubscriberOk(selectors, s', id);
    forall other: nat ensures ReplyOk(selectors, s', other) {
      assert ReplyOk(selectors, s, other);
    }
  }

  /** A failed broadcast leaves subscribers as they are. */
  lemma FailBroadcastKeepsInv(selectors: seq<Labels>, s: State, step: Step)
    requires Inv(selectors, s) && Enabled(selectors, s, step) && step.FailBroadcast?
    ensures Inv(selectors, Apply(selectors, s, step))
  {
    var s' := Apply(selectors, s, step);
    assert Unannounced(selectors, s) <==> Unannounced(selectors, s');
    forall id: nat ensures SubscriberOk(selectors, s', id) && ReplyOk(selectors, s', id) {}
  }

  /** A request whose generation failed is answered with no resources. */
  lemma FailReplyKeepsInv(selectors: seq<Labels>, s: State, step: Step)
    requires Inv(selectors, s) && Enabled(selectors, s, step) && step.FailReply? && step.ok
    ensures Inv(selectors, Apply(selectors, s, step))
  {
    var s', id := Apply(selectors, s, step), step.id;
    assert Unannounced(selectors, s) <==> Unannounced(selectors, s');
    SendFrame(selectors, s, s', id, []);
    if id in s.subscribers {
      assert LastSent(s', id) == [] && Hosts([]) == {};
    }
    assert SubscriberOk(selectors, s', id);
    forall other: nat ensures ReplyOk(selectors, s', other) {
      assert ReplyOk(selectors, s, other);
    }
  }

  lemma ReplyStepKeepsInv(selectors: seq<Labels>, s: State, step: Step)
    requires Inv(selectors, s) && Enabled(selectors, s, step)
    requires step.StartReply? || step.ListForReply? || ((step.FinishReply? || step.FailReply?) && !step.ok)
    ensures Inv(selectors, Apply(selectors, s, step))
  {
    var s' := Apply(selectors, s, step);
    assert Unannounced(selectors, s) <==> Unannounced(selectors, s');
    EmptySound(selectors, s.cache);
    forall id: nat ensures SubscriberOk(selectors, s', id) && ReplyOk(selectors, s', id) {
      assert SubscriberOk(selectors, s, id) && ReplyOk(selectors, s, id);
      if step.ListForReply? && id == step.id && Sound(selectors, s.cache, s.replies[id].gen) {
        ListingKeepsSound(selectors, s.cache, s.replies[id].gen, step.part);
      }
    }
  }

  lemma ClientStepKeepsInv(selectors: seq<Labels>, s: State, step: Step)
    requires Inv(selectors, s) && Enabled(selectors, s, step) && (step.Receive? || step.Disconnect?)
    ensures Inv(selectors, Apply(selectors, s, step))
  {
    var s' := Apply(selectors, s, step);
    assert Unannounced(selectors, s) <==> Unannounced(selectors, s');
    forall id: nat ensures SubscriberOk(selectors, s', id) && ReplyOk(selectors, s', id) {
      assert SubscriberOk(selectors, s, id) && ReplyOk(selectors, s, id);
    }
  }

  lemma ConnectKeepsInv(selectors: seq<Labels>, s: State, step: Step)
    requires Inv(selectors, s) && Enabled(selectors, s, step) && step.Connect?
    ensures Inv(selectors, Apply(selectors, s, step))
  {
    var s' := Apply(selectors, s, step);
    assert Unannounced(selectors, s) <==> Unannounced(selectors, s');
    forall id: nat ensures SubscriberOk(selectors, s', id) && ReplyOk(selectors, s', id) {
      assert SubscriberOk(selectors, s, id) && ReplyOk(selectors, s, id);
      assert id != s'.nextId ==> (Answered(s', id) <==> Answered(s, id));
    }
  }

  /** Every step keeps the invariant. */
  lemma StepKeepsInv(selectors: seq<Labels>, s: State, step: Step)
    requires Inv(selectors, s) && Enabled(selectors, s, step)
    ensures Inv(selectors, Apply(selectors, s, step))
  {
    match step
    case CacheChanges(_) => CacheChangesKeepsInv(selectors, s, step);
    case HandleEvent | SkipBroadcast | StartBroadcast | ListForBroadcast(_) | StartSending | FinishBroadcast =>
      AnnouncementKeepsInv(selectors, s, step);
    case BroadcastTo(_, ok) =>
      if ok {
        BroadcastToKeepsInv(selectors, s, step);
      } else {
        DropKeepsInv(selectors, s, step);
      }
    case FailBroadcast => FailBroadcastKeepsInv(selectors, s, step);
    case FailReply(_, ok) =>
      if ok {
        FailReplyKeepsInv(selectors, s, step);
      } else {
        ReplyStepKeepsInv(selectors, s, step);
      }
    case StartReply(_) | ListForReply(_, _) => ReplyStepKeepsInv(selectors, s, step);
    case FinishReply(_, ok) =>
      if ok {
        FinishReplyKeepsInv(selectors, s, step);
      } else {
        ReplyStepKeepsInv(selectors, s, step);
      }
    case Connect(_) => ConnectKeepsInv(selectors, s, step);
    case Receive(_) | Disconnect(_) => ClientStepKeepsInv(selectors, s, step);
  }

  lemma {:induction false} RunKeepsInv(selectors: seq<Labels>, s: State, steps: seq<Step>)
    requires Inv(selectors, s) && Legal(selectors, s, steps)
    ensures Inv(selectors, Run(selectors, s, steps))
    decreases |steps|
  {
    if steps == [] {
    } else {
      StepKeepsInv(selectors, s, steps[0]);
      RunKeepsInv(selectors, Apply(selectors, s, steps[0]), steps[1..]);
    }
  }

  // ---------------------------------------------------------------- consistency over whole runs

  ghost predicate Reachable(selectors: seq<Labels>, s: State) {
    exists steps: seq<Step> :: Legal(selectors, INIT, steps) && Run(selectors, INIT, steps) == s
  }

  lemma ReachableInv(selectors: seq<Labels>, s: State)
    requires Reachable(selectors, s)
    ensures Inv(selectors, s)
  {
    var steps: seq<Step> :| Legal(selectors, INIT, steps) && Run(selectors, INIT, steps) == s;
    RunKeepsInv(selectors, INIT, steps);
  }

  /** In every run, once announcements are done, an answered subscriber was last sent exactly the exported
      host names if and only if its last message is neither a late reply, nor torn, nor missed by a failure. */
  lemma SubscriberConsistency(selectors: seq<Labels>, s: State, id: nat)
    requires Reachable(selectors, s) && Quiet(selectors, s) && Answered(s, id)
    ensures Hosts(LastSent(s, id)) == ExportedHostnames(s.cache, selectors)
            <==> id !in s.late && id !in s.torn && id !in s.missed
  {
    ReachableInv(selectors, s);
    assert SubscriberOk(selectors, s, id);
  }

  /** The client reads a stream of a subscriber that was answered, and has read all of it. */
  ghost predicate Drained(s: State, c: string) {
    && c in s.clients
    && s.clients[c].stream.Some?
    && Answered(s, s.clients[c].stream.value)
    && s.clients[c].read == |s.sent[s.clients[c].stream.value]|
  }

  /** What a client with a drained stream stores, in any state that satisfies the invariant. */
  lemma DrainedClient(selectors: seq<Labels>, s: State, c: string)
    requires Inv(selectors, s) && Quiet(selectors, s) && Drained(s, c)
    ensures s.clients[c].store.Some?
    ensures Hosts(s.clients[c].store.value) == ExportedHostnames(s.cache, selectors)
            <==> Sure(s, s.clients[c].stream.value)
  {
    assert SubscriberOk(selectors, s, s.clients[c].stream.value);
  }

  /** A client with a drained stream stores exactly the exported host names, under the same condition. */
  lemma ClientConsistency(selectors: seq<Labels>, s: State, c: string)
    requires Reachable(selectors, s) && Quiet(selectors, s) && Drained(s, c)
    ensures s.clients[c].store.Some?
    ensures Hosts(s.clients[c].store.value) == ExportedHostnames(s.cache, selectors)
            <==> Sure(s, s.clients[c].stream.value)
  {
    ReachableInv(selectors, s);
    DrainedClient(selectors, s, c);
  }
}
