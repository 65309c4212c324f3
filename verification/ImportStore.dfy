/** The store of imported services and the handler that fills it from discovery responses. */
module ImportStore {
  import opened Types

  /** The kinds of objects derived from the store, as reconcile requests name them. */
  datatype Kind = ServiceEntries | WorkloadEntries | DestinationRules

  const ALL_KINDS: seq<Kind> := [ServiceEntries, WorkloadEntries, DestinationRules]

  /** What a peer is known to export; nothing before its first snapshot. */
  function View(store: map<string, Snapshot>, peer: string): Snapshot {
    if peer in store then store[peer] else []
  }

  class ImportedServiceStore {
    var importedServices: map<string, Snapshot>

    constructor ()
      ensures importedServices == map[]
    {
      importedServices := map[];
    }

    /** Replaces what one source exports and leaves the other sources alone. */
    method Update(source: string, services: Snapshot)
      modifies this
      ensures importedServices == old(importedServices)[source := services]
    {
      var copies: Snapshot := [];
      for i := 0 to |services|
        invariant copies == services[..i] && importedServices == old(importedServices)
      {
        copies := copies + [services[i]];
      }
      assert services[..|services|] == services;
      importedServices := importedServices[source := copies];
    }

    method From(remote: Remote) returns (out: Snapshot)
      ensures out == View(importedServices, remote.name)
    {
      out := [];
      var services := View(importedServices, remote.name);
      for i := 0 to |services|
        invariant out == services[..i]
      {
        out := out + [services[i]];
      }
    }
  }

  /** A resource on the wire; `Malformed` does not decode. */
  datatype Resource = Encoded(svc: FederatedService) | Malformed

  function Encode(message: Snapshot): seq<Resource> {
    seq(|message|, i requires 0 <= i < |message| => Encoded(message[i]))
  }

  class ImportedServiceHandler {
    const store: ImportedServiceStore
    var pushRequests: seq<Kind>

    constructor (store: ImportedServiceStore)
      ensures this.store == store && pushRequests == []
    {
      this.store := store;
      pushRequests := [];
    }

    /** All or nothing: one malformed resource rejects the response and changes nothing; otherwise the
        response replaces the source's services, and only then each kind is requested once, in order. */
    method Handle(source: string, resources: seq<Resource>) returns (ok: bool)
      modifies this, store
      ensures ok <==> Malformed !in resources
      ensures !ok ==> store.importedServices == old(store.importedServices) && pushRequests == old(pushRequests)
      ensures ok ==> exists message: Snapshot :: resources == Encode(message)
                       && store.importedServices == old(store.importedServices)[source := message]
      ensures ok ==> pushRequests == old(pushRequests) + [ServiceEntries, WorkloadEntries, DestinationRules]
    {
      var message: Snapshot := [];
      for i := 0 to |resources|
        invariant Encode(message) == resources[..i]
        invariant Malformed !in resources[..i]
        invariant store.importedServices == old(store.importedServices) && pushRequests == old(pushRequests)
      {
        match resources[i]
        case Malformed => return false;
        case Encoded(svc) =>
          assert Encode(message + [svc]) == Encode(message) + [Encoded(svc)];
          message := message + [svc];
      }
      assert resources[..|resources|] == resources;
      store.Update(source, message);
      pushRequests := pushRequests + [ServiceEntries];
      pushRequests := pushRequests + [WorkloadEntries];
      pushRequests := pushRequests + [DestinationRules];
      return true;
    }
  }

  /** Decoding what a peer encoded gives back its snapshot, and no other. */
  lemma EncodeInjective(a: Snapshot, b: Snapshot)
    requires Encode(a) == Encode(b)
    ensures a == b
    ensures Malformed !in Encode(a)
  {
    assert |a| == |Encode(a)| == |Encode(b)| == |b|;
    forall i | 0 <= i < |a| ensures a[i] == b[i] {
      assert Encode(a)[i] == Encode(b)[i];
    }
  }
}
