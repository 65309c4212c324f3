/** The aggregated discovery server implements the server's steps of the discovery protocol: what its methods
    do to subscribers and streams is what the state machine says. */
module ServerSteps {
  import opened Types
  import opened Generation
  import opened AdsServer
  import Discovery
  import opened DiscoveryRuns

  /** The snapshots among the responses of a stream. */
  function Messages(sent: seq<Response>): seq<Snapshot> {
    if sent == [] then []
    else
      var last := sent[|sent| - 1];
      Messages(sent[..|sent| - 1]) + if last.typeUrl == EXPORTED_SERVICE then [last.resources] else []
  }

  lemma MessagesOne(sent: seq<Response>, r: Response)
    ensures Messages(sent + [r]) == if r.typeUrl == EXPORTED_SERVICE then Messages(sent) + [r.resources]
            else Messages(sent)
  {
    assert (sent + [r])[..|sent|] == sent;
  }

  /** Identifiers have not wrapped around, so stream `id - 1` is that of subscriber `id`. */
  ghost predicate Agrees(streams: seq<Stream>, subscribers: set<nat>, s: Discovery.State) {
    && |streams| < TWO_TO_THE_64 && s.nextId == |streams| && s.subscribers == subscribers
    && (forall id: nat :: id in s.sent <==> 1 <= id <= |streams|)
    && (forall id: nat | 1 <= id <= |streams| :: s.sent[id] == Messages(streams[id - 1].sent))
  }

  /** The server is in the state that the protocol describes. */
  ghost predicate Represents(server: Server, s: Discovery.State)
    reads server
  {
    server.Valid() && Agrees(server.streams, server.subscribers.Keys, s)
  }

  /** Below the wrap-around, identifiers count connections from one. */
  lemma PlainIds(connections: nat, subscribers: map<nat, nat>)
    requires connections < TWO_TO_THE_64 && forall id | id in subscribers ::
               subscribers[id] < connections && id == IdOf(subscribers[id])
    ensures forall id | id in subscribers :: 1 <= id <= connections && subscribers[id] == id - 1
  {}

  /** A connection is the step of that name. */
  method Connect(server: Server, ghost selectors: seq<Labels>, ghost s: Discovery.State, client: string)
    returns (id: nat)
    requires Represents(server, s) && |server.streams| + 1 < TWO_TO_THE_64
    modifies server
    ensures id == s.nextId + 1 && Represents(server, Discovery.Apply(selectors, s, Discovery.Connect(client)))
  {
    id := server.Connect();
  }

  /** Answering an initial request is the end of a reply, on whatever stream: with what was generated, or with
      nothing when a listing failed. */
  method Reply(server: Server, ghost selectors: seq<Labels>, ghost s: Discovery.State, id: nat,
               generated: Result<Snapshot, string>) returns (sent: bool)
    requires Represents(server, s) && EXPORTED_SERVICE in server.handlers && id in s.sent && id in s.replies
    requires Yields(selectors, s.replies[id].gen, generated)
    modifies server
    ensures Represents(server, Discovery.Apply(selectors, s, ReplyStep(id, sent, generated)))
  {
    ghost var was := server.streams;
    sent := server.HandleRequest(id - 1, EXPORTED_SERVICE, "", generated);
    ghost var message := if generated.Success? then generated.value else [];
    ghost var after := Stream(was[id - 1].sent + [Response(EXPORTED_SERVICE, message)], was[id - 1].open);
    assert server.streams == if sent then was[id - 1 := after] else was;
    if sent {
      ghost var s' := Discovery.Apply(selectors, s, ReplyStep(id, true, generated));
      AgreesAfterReply(s, s', was, server.subscribers.Keys, id, message);
    }
  }

  /** What a generation in progress hands over: its response when it is complete, or the failure of a listing. */
  ghost predicate Yields(selectors: seq<Labels>, g: Gen, generated: Result<Snapshot, string>) {
    if generated.Success? then Complete(selectors, g) && generated.value == g.message else g.next < |selectors|
  }

  ghost function ReplyStep(id: nat, sent: bool, generated: Result<Snapshot, string>): Discovery.Step {
    if generated.Success? then Discovery.FinishReply(id, sent) else Discovery.FailReply(id, sent)
  }

  lemma AgreesAfterReply(s: Discovery.State, s': Discovery.State, was: seq<Stream>, subscribers: set<nat>, id: nat,
                         message: Snapshot)
    requires Agrees(was, subscribers, s) && id in s.sent
    requires s'.nextId == s.nextId && s'.subscribers == s.subscribers && s'.sent == s.sent[id := s.sent[id] + [message]]
    ensures Agrees(was[id - 1 := Stream(was[id - 1].sent + [Response(EXPORTED_SERVICE, message)], was[id - 1].open)],
              subscribers, s')
  {
    MessagesOne(was[id - 1].sent, Response(EXPORTED_SERVICE, message));
  }

  lemma SendOne(selectors: seq<Labels>, s: Discovery.State, id: nat, ok: bool)
    requires Discovery.Enabled(selectors, s, Discovery.BroadcastTo(id, ok))
    ensures var s', b := Discovery.Apply(selectors, s, Discovery.BroadcastTo(id, ok)), s.broadcast.value;
            && s'.broadcast == Some(Discovery.Sending(b.names, b.gen, b.todo - {id}, b.visited + {id}))
            && s'.nextId == s.nextId && s'.subscribers == (if ok then s.subscribers else s.subscribers - {id})
            && s'.sent == if ok then s.sent[id := s.sent[id] + [b.gen.message]] else s.sent
  {}

  /** A broadcast that reaches the subscribers in `todo`, as `delivered` says. */
  lemma {:induction false} SendAll(selectors: seq<Labels>, s: Discovery.State, todo: set<nat>, delivered: set<nat>)
    returns (steps: seq<Discovery.Step>)
    requires s.broadcast.Some? && s.broadcast.value.Sending? && s.broadcast.value.todo == todo
    requires todo <= s.subscribers && todo <= s.sent.Keys && todo !! s.broadcast.value.visited
    ensures Discovery.Legal(selectors, s, steps)
    ensures var s' := Discovery.Run(selectors, s, steps);
            && s'.broadcast.Some? && s'.broadcast.value.Sending? && s'.broadcast.value.todo == {}
            && s'.nextId == s.nextId && s'.subscribers == s.subscribers - (todo - delivered)
              && s'.sent.Keys == s.sent.Keys
            && forall id | id in s.sent ::
                 s'.sent[id] == if id in todo && id in delivered then s.sent[id] + [s.broadcast.value.gen.message]
                   else s.sent[id]
    decreases todo
  {
    if todo == {} {
      steps := [];
    } else {
      var id :| id in todo;
      var step := Discovery.BroadcastTo(id, id in delivered);
      SendOne(selectors, s, id, id in delivered);
      var next := Discovery.Apply(selectors, s, step);
      var more := SendAll(selectors, next, todo - {id}, delivered);
      Prepend(selectors, s, step, more);
      steps := [step] + more;
    }
  }

  /** The whole of a sending broadcast. */
  lemma BroadcastRun(selectors: seq<Labels>, s: Discovery.State, delivered: set<nat>)
    returns (steps: seq<Discovery.Step>)
    requires s.broadcast.Some? && s.broadcast.value.Generating? && Complete(selectors, s.broadcast.value.gen)
    requires s.subscribers <= s.sent.Keys && delivered <= s.subscribers
    ensures Discovery.Legal(selectors, s, steps)
    ensures var s' := Discovery.Run(selectors, s, steps);
            && s'.broadcast.None? && s'.nextId == s.nextId && s'.subscribers == delivered && s'.sent.Keys == s.sent.Keys
            && forall id | id in s.sent ::
                 s'.sent[id] == if id in delivered then s.sent[id] + [s.broadcast.value.gen.message] else s.sent[id]
  {
    var sending := Discovery.Apply(selectors, s, Discovery.StartSending);
    var sends := SendAll(selectors, sending, s.subscribers, delivered);
    Extend(selectors, sending, sends, Discovery.FinishBroadcast);
    var more := sends + [Discovery.FinishBroadcast];
    Prepend(selectors, s, Discovery.StartSending, more);
    steps := [Discovery.StartSending] + more;
  }

  /** A push is such a broadcast, whichever sends fail; when a listing fails, it is a failed one. */
  method Push(server: Server, ghost selectors: seq<Labels>, ghost s: Discovery.State,
              generated: Result<Snapshot, string>)
    returns (ghost steps: seq<Discovery.Step>)
    requires Represents(server, s) && EXPORTED_SERVICE in server.handlers
    requires s.broadcast.Some? && s.broadcast.value.Generating? && Yields(selectors, s.broadcast.value.gen, generated)
    modifies server
    ensures Discovery.Legal(selectors, s, steps)
    ensures Represents(server, Discovery.Run(selectors, s, steps)) && Discovery.Run(selectors, s, steps).broadcast.None?
  {
    ghost var was, subscribers := server.streams, server.subscribers;
    var ok;
    ghost var delivered;
    ok, delivered := server.Push(EXPORTED_SERVICE, None, generated);
    if generated.Failure? {
      steps := [Discovery.FailBroadcast];
      Prepend(selectors, s, Discovery.FailBroadcast, []);
      assert [Discovery.FailBroadcast] + [] == steps;
    } else {
      PlainIds(|was|, subscribers);
      ByConnection(was, server.streams, subscribers, server.subscribers.Keys,
          Response(EXPORTED_SERVICE, generated.value));
      steps := PushRun(selectors, s, was, server.streams, subscribers.Keys, server.subscribers.Keys);
    }
  }

  /** And without subscribers it is skipped, whatever generation would have done. */
  method PushSkipped(server: Server, ghost selectors: seq<Labels>, ghost s: Discovery.State,
                     generated: Result<Snapshot, string>)
    requires Represents(server, s) && Discovery.Enabled(selectors, s, Discovery.SkipBroadcast)
    modifies server
    ensures Represents(server, Discovery.Apply(selectors, s, Discovery.SkipBroadcast))
  {
    var ok;
    ghost var delivered;
    ok, delivered := server.Push(EXPORTED_SERVICE, None, generated);
  }

  /** What a push does to each stream, by connection. */
  ghost predicate PushedTo(was: seq<Stream>, now: seq<Stream>, subscribers: set<nat>, delivered: set<nat>,
                           response: Response) {
    && |was| == |now| && delivered <= subscribers
    && forall i | 0 <= i < |was| ::
         now[i] == if i + 1 in subscribers then Server.Outcome(was[i], i + 1 in delivered, response) else was[i]
  }

  lemma ByConnection(was: seq<Stream>, now: seq<Stream>, subscribers: map<nat, nat>, delivered: set<nat>,
                     response: Response)
    requires |was| == |now| && delivered <= subscribers.Keys
    requires forall id | id in subscribers :: 1 <= id <= |was| && subscribers[id] == id - 1
    requires forall id | id in subscribers ::
               now[subscribers[id]] == Server.Outcome(was[subscribers[id]], id in delivered, response)
    requires forall i | 0 <= i < |now| && i !in subscribers.Values :: now[i] == was[i]
    ensures PushedTo(was, now, subscribers.Keys, delivered, response)
  {
    forall i | 0 <= i < |was|
      ensures now[i] == if i + 1 in subscribers then Server.Outcome(was[i], i + 1 in delivered, response) else was[i]
    {
      if i + 1 in subscribers {
        assert subscribers[i + 1] == i;
      } else {
        assert forall id | id in subscribers :: subscribers[id] != i;
      }
    }
  }

  lemma PushRun(selectors: seq<Labels>, s: Discovery.State, was: seq<Stream>, now: seq<Stream>, subscribers: set<nat>,
                delivered: set<nat>)
    returns (steps: seq<Discovery.Step>)
    requires s.broadcast.Some? && s.broadcast.value.Generating? && Complete(selectors, s.broadcast.value.gen)
    requires Agrees(was, subscribers, s) && subscribers <= s.sent.Keys
    requires PushedTo(was, now, subscribers, delivered, Response(EXPORTED_SERVICE, s.broadcast.value.gen.message))
    ensures Discovery.Legal(selectors, s, steps)
    ensures Agrees(now, delivered, Discovery.Run(selectors, s, steps))
            && Discovery.Run(selectors, s, steps).broadcast.None?
  {
    steps := BroadcastRun(selectors, s, delivered);
    AgreesAfterPush(s, Discovery.Run(selectors, s, steps), was, now, subscribers, delivered,
        s.broadcast.value.gen.message);
  }

  lemma AgreesAfterPush(s: Discovery.State, s': Discovery.State, was: seq<Stream>, now: seq<Stream>,
                        subscribers: set<nat>, delivered: set<nat>, message: Snapshot)
    requires Agrees(was, subscribers, s)
    requires PushedTo(was, now, subscribers, delivered, Response(EXPORTED_SERVICE, message))
    requires s'.nextId == s.nextId && s'.subscribers == delivered && s'.sent.Keys == s.sent.Keys
    requires forall id | id in s.sent :: s'.sent[id] == if id in delivered then s.sent[id] + [message] else s.sent[id]
    ensures Agrees(now, delivered, s')
  {
    KeysAgree(s.sent, s'.sent, |now|);
    forall i: nat | i < |was| ensures Grows(was[i].sent, now[i].sent, message, i + 1 in delivered) {
      MessagesAfterPush(was, now, subscribers, delivered, message, i);
    }
    SentAfterPush(s.sent, s'.sent, was, now, delivered, message);
  }

  /** A stream has one more message, or is as before. */
  ghost predicate Grows(was: seq<Response>, now: seq<Response>, message: Snapshot, delivered: bool) {
    Messages(now) == if delivered then Messages(was) + [message] else Messages(was)
  }

  lemma KeysAgree(sent: map<nat, seq<Snapshot>>, sent': map<nat, seq<Snapshot>>, n: nat)
    requires sent'.Keys == sent.Keys && forall id: nat :: id in sent <==> 1 <= id <= n
    ensures forall id: nat :: id in sent' <==> 1 <= id <= n
  {
    forall id: nat ensures id in sent' <==> 1 <= id <= n {
      assert id in sent'.Keys <==> id in sent.Keys;
    }
  }

  lemma SentAfterPush(sent: map<nat, seq<Snapshot>>, sent': map<nat, seq<Snapshot>>, was: seq<Stream>, now: seq<Stream>,
                      delivered: set<nat>, message: Snapshot)
    requires |was| == |now| && sent'.Keys == sent.Keys
    requires forall i: nat | i < |was| :: Grows(was[i].sent, now[i].sent, message, i + 1 in delivered)
    requires forall id: nat | 1 <= id <= |was| :: id in sent && sent[id] == Messages(was[id - 1].sent)
    requires forall id | id in sent :: sent'[id] == if id in delivered then sent[id] + [message] else sent[id]
    ensures forall id: nat | 1 <= id <= |now| :: id in sent' && sent'[id] == Messages(now[id - 1].sent)
  {
    forall id: nat | 1 <= id <= |now| ensures id in sent' && sent'[id] == Messages(now[id - 1].sent) {
      assert id in sent'.Keys <==> id in sent.Keys;
      assert Grows(was[id - 1].sent, now[id - 1].sent, message, id in delivered);
    }
  }

  lemma MessagesAfterPush(was: seq<Stream>, now: seq<Stream>, subscribers: set<nat>, delivered: set<nat>,
                          message: Snapshot, i: nat)
    requires PushedTo(was, now, subscribers, delivered, Response(EXPORTED_SERVICE, message)) && i < |was|
    ensures Grows(was[i].sent, now[i].sent, message, i + 1 in delivered)
  {
    MessagesOne(was[i].sent, Response(EXPORTED_SERVICE, message));
  }
}
