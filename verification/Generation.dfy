/** A discovery response being generated, selector by selector, while the informer goes on changing the
    cache. An update that keeps a service exported asks for no push, yet it can move the service away from
    every selector that is still to be listed; this module says exactly when that spoils a response. */
module Generation {
  import opened Types
  import opened Naming
  import opened Collections
  import opened Export

  /** The response so far and the next selector to list. `dodged` and `outdated` are history: the services that
      slipped past the listings, and those that changed after they were listed. */
  datatype Gen = Gen(message: Snapshot, next: nat, dodged: set<Key>, outdated: set<Key>)

  const EMPTY := Gen([], 0, {}, {})

  /** The selectors still to be listed. */
  function Rest(selectors: seq<Labels>, g: Gen): seq<Labels> {
    if g.next <= |selectors| then selectors[g.next..] else []
  }

  predicate Complete(selectors: seq<Labels>, g: Gen) {
    g.next == |selectors|
  }

  function HostOf(k: Key): string {
    Hostname(k.name, k.namespace)
  }

  /** One more listing. What it lists is up to date. */
  function Listing(g: Gen, part: Snapshot): Gen {
    Gen(g.message + part, g.next + 1, g.dodged, set k | k in g.outdated && HostOf(k) !in Hosts(part))
  }

  /** The event gives a service other ports or labels than it had. */
  predicate Edits(e: Event) {
    e.Created? || (e.Updated? && Federated(e.key, e.service) != Federated(e.key, e.oldService))
  }

  /** What an edit means to the services listed in a message: the edited one is outdated, unless it now is what
      the message says. */
  function Edit(message: Snapshot, outdated: set<Key>, e: Event): set<Key> {
    if !Edits(e) || HostOf(e.key) !in Hosts(message) then outdated
    else if Federated(e.key, e.service) in message then outdated - {e.key}
    else outdated + {e.key}
  }

  /** The response so far is what the generator makes of the caches it found. */
  ghost predicate Generated(selectors: seq<Labels>, caches: seq<Cache>, g: Gen) {
    |caches| == g.next <= |selectors| && IsResponse(caches, selectors[..g.next], g.message)
  }

  lemma ResponseOne(caches: seq<Cache>, selectors: seq<Labels>, message: Snapshot, cache: Cache, selector: Labels,
                    part: Snapshot)
    requires IsResponse(caches, selectors, message) && IsPart(cache, selector, part)
    ensures IsResponse(caches + [cache], selectors + [selector], message + part)
  {
    var parts: seq<Snapshot> :| AreParts(caches, selectors, parts) && message == Concat(parts);
    ConcatOne(parts, part);
    assert AreParts(caches + [cache], selectors + [selector], parts + [part]);
  }

  /** Listing by listing, a generation makes exactly such responses. */
  lemma ListingGenerates(selectors: seq<Labels>, caches: seq<Cache>, g: Gen, cache: Cache, part: Snapshot)
    requires Generated(selectors, caches, g) && g.next < |selectors| && IsPart(cache, selectors[g.next], part)
    ensures Generated(selectors, caches + [cache], Listing(g, part))
  {
    ResponseOne(caches, selectors[..g.next], g.message, cache, selectors[g.next], part);
    assert selectors[..g.next + 1] == selectors[..g.next] + [selectors[g.next]];
  }

  lemma EmptyGenerated(selectors: seq<Labels>)
    ensures Generated(selectors, [], EMPTY)
  {
    assert AreParts([], selectors[..0], []) && Concat<FederatedService>([]) == [];
  }

  /** The update takes a service that was not listed yet from the selectors still to be listed to others. */
  predicate Dodges(selectors: seq<Labels>, g: Gen, e: Event) {
    && e.Updated?
    && HostOf(e.key) !in Hosts(g.message)
    && MatchExportRules(e.oldService.labels, Rest(selectors, g))
    && !MatchExportRules(e.service.labels, Rest(selectors, g))
    && MatchExportRules(e.service.labels, selectors)
  }

  function Dodgers(selectors: seq<Labels>, g: Gen, e: Event): set<Key> {
    if Dodges(selectors, g, e) then g.dodged + {e.key}
    else if e.Updated? && MatchExportRules(e.service.labels, Rest(selectors, g)) then g.dodged - {e.key}
    else g.dodged
  }

  /** What a change of the cache means to a generation in progress: a service dodges it, or returns; and a
      service it has listed may be edited. */
  function Observe(selectors: seq<Labels>, g: Gen, e: Event): Gen {
    g.(dodged := Dodgers(selectors, g, e), outdated := Edit(g.message, g.outdated, e))
  }

  /** With at most one selector nothing dodges. */
  lemma OneSelectorNeverDodged(selectors: seq<Labels>, g: Gen, e: Event)
    requires |selectors| <= 1
    ensures !Dodges(selectors, g, e)
  {
    if g.next == 0 {
      assert Rest(selectors, g) == selectors;
    }
  }

  /** An exported service was listed or will be, unless it dodged; what dodged is exported, was not listed and
      will not be. */
  ghost predicate SoundAt(selectors: seq<Labels>, cache: Cache, g: Gen, k: Key) {
    if Exported(cache, selectors, k) then
      (|| HostOf(k) in Hosts(g.message)
       || MatchExportRules(cache[k].labels, Rest(selectors, g))) <==> k !in g.dodged
    else k !in g.dodged
  }

  /** That holds of every service as long as the exported host names do not change. */
  ghost predicate Sound(selectors: seq<Labels>, cache: Cache, g: Gen) {
    Hosts(g.message) <= ExportedHostnames(cache, selectors) && forall k: Key :: SoundAt(selectors, cache, g, k)
  }

  lemma EmptySound(selectors: seq<Labels>, cache: Cache)
    ensures Sound(selectors, cache, EMPTY)
  {
    assert Rest(selectors, EMPTY) == selectors;
  }

  lemma RestMatches(selectors: seq<Labels>, g: Gen, labels: Labels)
    ensures MatchExportRules(labels, Rest(selectors, g)) ==> MatchExportRules(labels, selectors)
  {
    if i :| 0 <= i < |Rest(selectors, g)| && SelectorMatches(Rest(selectors, g)[i], labels) {
      assert selectors[g.next + i] == Rest(selectors, g)[i];
    }
  }

  lemma ObserveKeepsSoundAt(selectors: seq<Labels>, cache: Cache, g: Gen, e: Event, k: Key)
    requires Describes(e, cache) && !Pushes(e, selectors) && SoundAt(selectors, cache, g, k)
    ensures SoundAt(selectors, After(e, cache), Observe(selectors, g, e), k)
  {
    assert Rest(selectors, Observe(selectors, g, e)) == Rest(selectors, g);
    if k == e.key {
      RestMatches(selectors, g, e.service.labels);
      assert Exported(After(e, cache), selectors, k) <==> Exported(cache, selectors, k);
    } else {
      assert k in After(e, cache) <==> k in cache;
    }
  }

  /** Events that ask for no push keep it. */
  lemma ObserveKeepsSound(selectors: seq<Labels>, cache: Cache, g: Gen, e: Event)
    requires ValidCache(cache) && Describes(e, cache) && !Pushes(e, selectors) && Sound(selectors, cache, g)
    ensures Sound(selectors, After(e, cache), Observe(selectors, g, e))
  {
    PushesIffHostnamesChange(e, cache, selectors);
    forall k: Key ensures SoundAt(selectors, After(e, cache), Observe(selectors, g, e), k) {
      ObserveKeepsSoundAt(selectors, cache, g, e, k);
    }
  }

  /** What one more listing matches, it lists; the rest matches what is left. */
  lemma RestSplits(selectors: seq<Labels>, g: Gen, part: Snapshot, labels: Labels)
    requires g.next < |selectors|
    ensures MatchExportRules(labels, Rest(selectors, g))
            <==> (|| SelectorMatches(selectors[g.next], labels)
                  || MatchExportRules(labels, Rest(selectors, Listing(g, part))))
  {
    var rest, rest' := Rest(selectors, g), Rest(selectors, Listing(g, part));
    assert rest == [selectors[g.next]] + rest';
    if i :| 0 <= i < |rest'| && SelectorMatches(rest'[i], labels) {
      assert rest[i + 1] == rest'[i];
    }
    if SelectorMatches(selectors[g.next], labels) {
      assert rest[0] == selectors[g.next];
    }
  }

  lemma PartHosts(cache: Cache, selector: Labels, part: Snapshot, k: Key)
    requires ValidCache(cache) && k in cache && IsPart(cache, selector, part)
    ensures HostOf(k) in Hosts(part) <==> Listed(cache, selector, k)
  {
    var h := HostOf(k);
    HostsIff(part, h);
    PartCarries(cache, selector, part, Federated(k, cache[k]));
    if x :| x in part && x.hostname == h {
      PartCarries(cache, selector, part, x);
      var k' :| Listed(cache, selector, k') && x == Federated(k', cache[k']);
      HostnameInjective(k, k');
    }
  }

  lemma HostsAppend(a: Snapshot, b: Snapshot)
    ensures Hosts(a + b) == Hosts(a) + Hosts(b)
  {
    forall h ensures h in Hosts(a + b) <==> h in Hosts(a) + Hosts(b) {
      HostsIff(a, h);
      HostsIff(b, h);
      HostsIff(a + b, h);
    }
  }

  lemma PartExported(selectors: seq<Labels>, cache: Cache, i: nat, part: Snapshot)
    requires i < |selectors| && IsPart(cache, selectors[i], part)
    ensures Hosts(part) <= ExportedHostnames(cache, selectors)
  {
    forall h | h in Hosts(part) ensures h in ExportedHostnames(cache, selectors) {
      HostsIff(part, h);
      var x :| x in part && x.hostname == h;
      PartCarries(cache, selectors[i], part, x);
      var k :| Listed(cache, selectors[i], k) && x == Federated(k, cache[k]);
      assert Exported(cache, selectors, k);
    }
  }

  /** And so does every listing. */
  lemma ListingKeepsSound(selectors: seq<Labels>, cache: Cache, g: Gen, part: Snapshot)
    requires ValidCache(cache) && g.next < |selectors| && IsPart(cache, selectors[g.next], part)
             && Sound(selectors, cache, g)
    ensures Sound(selectors, cache, Listing(g, part))
  {
    var g' := Listing(g, part);
    HostsAppend(g.message, part);
    PartExported(selectors, cache, g.next, part);
    forall k: Key ensures SoundAt(selectors, cache, g', k) {
      assert SoundAt(selectors, cache, g, k);
      if Exported(cache, selectors, k) {
        PartHosts(cache, selectors[g.next], part, k);
        RestSplits(selectors, g, part, cache[k].labels);
      }
    }
  }

  /** So a complete response names exactly the exported hosts if and only if nothing dodged its listings. */
  lemma CompleteIff(selectors: seq<Labels>, cache: Cache, g: Gen)
    requires ValidCache(cache) && Sound(selectors, cache, g) && Complete(selectors, g)
    ensures Hosts(g.message) == ExportedHostnames(cache, selectors) <==> g.dodged == {}
  {
    assert Rest(selectors, g) == [];
    if k :| k in g.dodged {
      assert SoundAt(selectors, cache, g, k);
      ExportedIff(cache, selectors, k);
    }
    if g.dodged == {} {
      forall h | h in ExportedHostnames(cache, selectors) ensures h in Hosts(g.message) {
        var k :| Exported(cache, selectors, k) && HostOf(k) == h;
        assert SoundAt(selectors, cache, g, k);
      }
    }
  }

  // ---------------------------------------------------------------- contents

  /** A service that a message names is carried as it is now, exactly unless it is outdated. */
  ghost predicate CurrentAt(cache: Cache, message: Snapshot, outdated: set<Key>, k: Key) {
    k in cache && HostOf(k) in Hosts(message) ==> (Federated(k, cache[k]) in message <==> k !in outdated)
  }

  ghost predicate Current(cache: Cache, message: Snapshot, outdated: set<Key>) {
    forall k: Key :: CurrentAt(cache, message, outdated, k)
  }

  /** Every event keeps that. */
  lemma EditKeepsCurrent(cache: Cache, message: Snapshot, outdated: set<Key>, e: Event)
    requires Describes(e, cache) && Current(cache, message, outdated)
    ensures Current(After(e, cache), message, Edit(message, outdated, e))
  {
    forall k: Key ensures CurrentAt(After(e, cache), message, Edit(message, outdated, e), k) {
      assert CurrentAt(cache, message, outdated, k);
    }
  }

  /** And every listing. */
  lemma ListingKeepsCurrent(selectors: seq<Labels>, cache: Cache, g: Gen, part: Snapshot)
    requires ValidCache(cache) && g.next < |selectors| && IsPart(cache, selectors[g.next], part)
    requires Current(cache, g.message, g.outdated)
    ensures Current(cache, Listing(g, part).message, Listing(g, part).outdated)
  {
    var g' := Listing(g, part);
    HostsAppend(g.message, part);
    forall k: Key ensures CurrentAt(cache, g'.message, g'.outdated, k) {
      assert CurrentAt(cache, g.message, g.outdated, k);
      if k in cache {
        PartHosts(cache, selectors[g.next], part, k);
        PartCarries(cache, selectors[g.next], part, Federated(k, cache[k]));
        HostsIff(part, HostOf(k));
      }
    }
  }
}
