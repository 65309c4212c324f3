/** The aggregated discovery server: its map of subscribers, the identifiers it gives them, and the
    responses it sends. What a request handler generates, and whether a send succeeds, come from outside. */
module AdsServer {
  import opened Types

  datatype Response = Response(typeUrl: string, resources: Snapshot)

  const EXPORTED_SERVICE := "federation.openshift-service-mesh.io/v1alpha1/ExportedService"

  /** The server's end of a stream: all it has sent, and whether it is still open. */
  datatype Stream = Stream(sent: seq<Response>, open: bool)

  const TWO_TO_THE_64 := 0x1_0000_0000_0000_0000

  /** The identifier of the n-th connection, counting from zero: a 64-bit counter incremented first. */
  function IdOf(connection: nat): nat {
    (connection + 1) % TWO_TO_THE_64
  }

  /** Two connections share an identifier exactly when a multiple of 2^64 connections separates them. */
  lemma IdReuse(i: nat, j: nat)
    requires i <= j
    ensures IdOf(i) == IdOf(j) <==> (j - i) % TWO_TO_THE_64 == 0
  {
    var q, r := (i + 1) / TWO_TO_THE_64, (i + 1) % TWO_TO_THE_64;
    var q', r' := (j + 1) / TWO_TO_THE_64, (j + 1) % TWO_TO_THE_64;
    assert j - i == (q' - q) * TWO_TO_THE_64 + (r' - r);
  }

  /** The resources sent for a type: none without a handler, else what the handler generated. */
  function Resources(handlers: set<string>, typeUrl: string,
                     generated: Result<Snapshot, string>): (r: Result<Snapshot, string>)
    ensures typeUrl !in handlers ==> r == Success([])
    ensures typeUrl in handlers ==> r == generated
  {
    if typeUrl in handlers then generated else Success([])
  }

  class Server {
    const handlers: set<string>
    var nextSubscriberID: nat
    var subscribers: map<nat, nat>  // identifier to position in streams
    var streams: seq<Stream>        // one per connection ever made

    ghost predicate Valid()
      reads this
    {
      && nextSubscriberID == |streams| % TWO_TO_THE_64
      && forall id | id in subscribers :: subscribers[id] < |streams| && id == IdOf(subscribers[id])
    }

    constructor (handlers: set<string>)
      ensures Valid() && this.handlers == handlers && subscribers == map[] && streams == []
    {
      this.handlers := handlers;
      nextSubscriberID, subscribers, streams := 0, map[], [];
    }

    /** A new subscriber; in runs of fewer than 2^64 connections its identifier was never given before. */
    method Connect() returns (id: nat)
      requires Valid()
      modifies this
      ensures Valid()
      ensures id == IdOf(|old(streams)|) && streams == old(streams) + [Stream([], true)]
      ensures subscribers == old(subscribers)[id := |old(streams)|]
      ensures |streams| <= TWO_TO_THE_64 ==> forall c: nat | c < |old(streams)| :: id != IdOf(c)
      ensures |streams| <= TWO_TO_THE_64 ==> id !in old(subscribers)
    {
      nextSubscriberID := (nextSubscriberID + 1) % TWO_TO_THE_64;
      id := nextSubscriberID;
      subscribers := subscribers[id := |streams|];
      streams := streams + [Stream([], true)];
      forall c: nat | c < |old(streams)| && |streams| <= TWO_TO_THE_64 ensures id != IdOf(c) {
        IdReuse(c, |old(streams)|);
      }
    }

    /** Answers a request that names no version, on any stream ever connected: the receiving goroutine does
        not look at the map of subscribers. A failed generation is answered with no resources, and a failed
        send drops nobody. */
    method HandleRequest(connection: nat, typeUrl: string, version: string, generated: Result<Snapshot, string>)
      returns (sent: bool)
      requires Valid() && connection < |streams|
      modifies this`streams
      ensures Valid() && |streams| == |old(streams)|
      ensures sent ==> version == ""
      ensures forall i | 0 <= i < |streams| ::
                streams[i] == if sent && i == connection
                              then var r := Resources(handlers, typeUrl, generated);
                                   Stream(old(streams)[i].sent + [Response(typeUrl, if r.Success? then r.value
                                     else [])], old(streams)[i].open)
                              else old(streams)[i]
    {
      sent := false;
      if version == "" {
        var r := Resources(handlers, typeUrl, generated);
        var resources := if r.Success? then r.value else [];
        sent := *;
        if sent {
          var was := streams[connection];
          streams := streams[connection := Stream(was.sent + [Response(typeUrl, resources)], was.open)];
        }
      }
    }

    /** How a broadcast leaves the stream of a subscriber: one more response when it was delivered,
        closed when it was not. */
    static function Outcome(was: Stream, delivered: bool, response: Response): Stream {
      if delivered then Stream(was.sent + [response], was.open) else Stream(was.sent, false)
    }

    /** A push sends one response to every subscriber and keeps exactly those it was delivered to.
        A failed generation sends nothing and drops nobody. */
    method Push(typeUrl: string, given: Option<Snapshot>, generated: Result<Snapshot, string>)
      returns (ok: bool, ghost delivered: set<nat>)
      requires Valid()
      modifies this`streams, this`subscribers
      ensures Valid() && |streams| == |old(streams)|
      ensures var r := if given.Some? then Success(given.value) else Resources(handlers, typeUrl, generated);
              && (ok <==> old(subscribers) == map[] || r.Success?)
              && (!ok || old(subscribers) == map[] ==> subscribers == old(subscribers) && streams == old(streams))
              && (ok ==> subscribers.Keys == delivered && delivered <= old(subscribers).Keys)
              && (forall id | id in subscribers :: subscribers[id] == old(subscribers)[id])
              && (r.Success? ==> forall id | id in old(subscribers) ::
                                   streams[old(subscribers)[id]]
                                   == Outcome(old(streams)[old(subscribers)[id]], id in delivered,
                                       Response(typeUrl, r.value)))
      ensures forall i | 0 <= i < |streams| && i !in old(subscribers).Values :: streams[i] == old(streams)[i]
      ensures forall id | id in old(subscribers) && id !in subscribers :: !streams[old(subscribers)[id]].open
    {
      ok, delivered := true, {};
      if subscribers == map[] {
        return;
      }
      var resources: Snapshot;
      if given.Some? {
        resources := given.value;
      } else {
        var r := Resources(handlers, typeUrl, generated);
        if r.Failure? {
          return false, {};
        }
        resources := r.value;
      }
      delivered := Broadcast(Response(typeUrl, resources));
    }

    method Broadcast(response: Response) returns (ghost delivered: set<nat>)
      requires Valid()
      modifies this`streams, this`subscribers
      ensures Valid() && |streams| == |old(streams)|
      ensures subscribers.Keys == delivered && delivered <= old(subscribers).Keys
      ensures forall id | id in subscribers :: subscribers[id] == old(subscribers)[id]
      ensures forall id | id in old(subscribers) ::
                streams[old(subscribers)[id]] == Outcome(old(streams)[old(subscribers)[id]], id in delivered, response)
      ensures forall i | 0 <= i < |streams| && i !in old(subscribers).Values :: streams[i] == old(streams)[i]
    {
      var todo := subscribers.Keys;
      delivered := {};
      while todo != {}
        invariant Valid() && |streams| == |old(streams)|
        invariant todo !! delivered && todo + delivered == subscribers.Keys && subscribers.Keys <= old(subscribers).Keys
        invariant forall id | id in subscribers :: subscribers[id] == old(subscribers)[id]
        invariant forall id | id in old(subscribers) ::
                    var was := old(streams)[old(subscribers)[id]];
                    streams[old(subscribers)[id]] == if id in todo then was else Outcome(was, id in delivered, response)
        invariant forall i | 0 <= i < |streams| && i !in old(subscribers).Values :: streams[i] == old(streams)[i]
        decreases todo
      {
        var id :| id in todo;
        assert forall other | other in old(subscribers) && other != id ::
                 old(subscribers)[other] != old(subscribers)[id];
        var ok := SendTo(id, response);
        if ok {
          delivered := delivered + {id};
        }
        todo := todo - {id};
      }
    }

    method SendTo(id: nat, response: Response) returns (ok: bool)
      requires Valid() && id in subscribers
      modifies this`streams, this`subscribers
      ensures Valid()
      ensures streams == old(streams)[old(subscribers)[id] := Outcome(old(streams)[old(subscribers)[id]], ok, response)]
      ensures subscribers == if ok then old(subscribers) else old(subscribers) - {id}
    {
      var i := subscribers[id];
      ok := *;
      if ok {
        streams := streams[i := Stream(streams[i].sent + [response], streams[i].open)];
      } else {
        streams := streams[i := Stream(streams[i].sent, false)];
        subscribers := subscribers - {id};
      }
    }

    /** Shutting down closes every subscriber's stream, sends nothing and empties the map. */
    method CloseSubscribers()
      requires Valid()
      modifies this`streams, this`subscribers
      ensures Valid() && subscribers == map[] && |streams| == |old(streams)|
      ensures forall i | 0 <= i < |streams| ::
                streams[i] == if i in old(subscribers).Values then Stream(old(streams)[i].sent, false)
                  else old(streams)[i]
    {
      while subscribers != map[]
        invariant Valid() && |streams| == |old(streams)| && subscribers.Keys <= old(subscribers).Keys
        invariant forall id | id in subscribers :: subscribers[id] == old(subscribers)[id]
        invariant forall id | id in old(subscribers) ::
                    var was := old(streams)[old(subscribers)[id]];
                    streams[old(subscribers)[id]] == if id in subscribers then was else Stream(was.sent, false)
        invariant forall i | 0 <= i < |streams| && i !in old(subscribers).Values :: streams[i] == old(streams)[i]
        decreases subscribers.Keys
      {
        var id :| id in subscribers;
        var i := subscribers[id];
        streams := streams[i := Stream(streams[i].sent, false)];
        subscribers := subscribers - {id};
      }
    }
  }
}
