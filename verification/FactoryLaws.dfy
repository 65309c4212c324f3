/** What the generated objects have in common, whatever peers export and whatever names collide. */
module FactoryLaws {
  import opened Types
  import opened Naming
  import opened Collections
  import opened Reconciler
  import opened Factory

  ghost predicate AllAddressed(imports: seq<Import>) {
    forall i | 0 <= i < |imports| :: Addressed(imports[i])
  }

  // ---------------------------------------------------------------- merging by name

  ghost predicate FirstNamed(imports: seq<Import>, i: nat, name: string) {
    && i < |imports|
    && EntryName(imports[i]) == name
    && forall j | 0 <= j < i :: EntryName(imports[j]) != name
  }

  /** An entry takes its host, ports and resolution from the first import of its name. */
  lemma {:induction false} MergedFirst(env: Env, imports: seq<Import>, name: string) returns (i: nat)
    requires AllAddressed(imports) && name in MergeAll(env, imports)
    ensures FirstNamed(imports, i, name)
    ensures MergeAll(env, imports)[name].hosts == [imports[i].svc.hostname]
    ensures MergeAll(env, imports)[name].ports == imports[i].svc.ports
    ensures MergeAll(env, imports)[name].resolution == STATIC <==> env.isIP(imports[i].remote.addresses[0])
  {
    var n := |imports| - 1;
    if name in MergeAll(env, imports[..n]) {
      i := MergedFirst(env, imports[..n], name);
    } else {
      i := n;
      forall j | 0 <= j < n ensures EntryName(imports[j]) != name {
        MergedHolds(env, imports[..n], j);
      }
    }
  }

  /** Every import has an entry of its name, holding at least its endpoints. */
  lemma {:induction false} MergedHolds(env: Env, imports: seq<Import>, i: nat)
    requires AllAddressed(imports) && i < |imports|
    ensures EntryName(imports[i]) in MergeAll(env, imports)
    ensures multiset(EndpointsOf(imports[i])) <= multiset(MergeAll(env, imports)[EntryName(imports[i])].endpoints)
  {
    var n := |imports| - 1;
    if i == n {
    } else {
      MergedHolds(env, imports[..n], i);
    }
  }

  /** No two imports share an entry name without sharing a host. */
  ghost predicate NoCollision(imports: seq<Import>) {
    forall i, j | 0 <= i < |imports| && 0 <= j < |imports| && EntryName(imports[i]) == EntryName(imports[j]) ::
      imports[i].svc.hostname == imports[j].svc.hostname
  }

  /** Every import is covered by the entry of its name if and only if no two imports of one name have
      different host names. */
  lemma CoverageIff(env: Env, imports: seq<Import>)
    requires AllAddressed(imports)
    ensures (forall i | 0 <= i < |imports| ::
               && EntryName(imports[i]) in MergeAll(env, imports)
               && MergeAll(env, imports)[EntryName(imports[i])].hosts == [imports[i].svc.hostname])
            <==> NoCollision(imports)
  {
    var m := MergeAll(env, imports);
    forall i | 0 <= i < |imports|
      ensures EntryName(imports[i]) in m
      ensures exists f: nat ::
                && FirstNamed(imports, f, EntryName(imports[i]))
                && m[EntryName(imports[i])].hosts == [imports[f].svc.hostname]
    {
      MergedHolds(env, imports, i);
      var f := MergedFirst(env, imports, EntryName(imports[i]));
    }
  }

  /** Names that differ only in where a dash meets a dot do collide: `x-y` in `z` with `x` in `y-z`. */
  lemma DashCollision(x: string, y: string, z: string, remote: Remote, a: FederatedService, b: FederatedService)
    requires a.hostname == Hostname(x + "-" + y, z) && b.hostname == Hostname(x, y + "-" + z)
    ensures EntryName(Import(remote, a)) == EntryName(Import(remote, b))
    ensures RuleName(a.hostname) == RuleName(b.hostname)
    ensures a.hostname != b.hostname
  {
    assert a.hostname == x + "-" + y + "." + z + "." + DOMAIN;
    assert b.hostname == x + "." + y + "-" + z + "." + DOMAIN;
    assert a.hostname[|x|] == '-' && b.hostname[|x|] == '.';
    var d := |x| + 1 + |y|;
    assert a.hostname[d] == '.' && b.hostname[d] == '-';
    forall i | 0 <= i < |a.hostname| ensures Dash(a.hostname[i]) == Dash(b.hostname[i]) {
      if i != |x| && i != d {
        assert a.hostname[i] == b.hostname[i];
      }
    }
    SeparateWithDashCollides(a.hostname, b.hostname);
  }

  /** Imports of one host share an entry name exactly when they come from peers of one name, and imports from one
      peer exactly when their hosts agree up to dots and dashes. */
  lemma EntryNameIff(a: Import, b: Import)
    ensures a.svc.hostname == b.svc.hostname ==> (EntryName(a) == EntryName(b) <==> a.remote.name == b.remote.name)
    ensures a.remote.name == b.remote.name ==>
              (EntryName(a) == EntryName(b) <==> DashAlike(a.svc.hostname, b.svc.hostname))
  {
    var x, y := SeparateWithDash(a.svc.hostname), SeparateWithDash(b.svc.hostname);
    SeparateWithDashCollides(a.svc.hostname, b.svc.hostname);
    var s, t := EntryName(a), EntryName(b);
    assert s[7..7 + |x|] == x && t[7..7 + |y|] == y;
    assert s[8 + |x|..] == a.remote.name && t[8 + |y|..] == b.remote.name;
    if s == t && a.remote.name == b.remote.name {
      assert |s| == 8 + |x| + |a.remote.name| && |t| == 8 + |y| + |b.remote.name|;
    }
  }

  /** No import entry is named like the entry of a peer's discovery service. */
  lemma ImportNamesApart(imp: Import, remote: Remote)
    ensures EntryName(imp) != remote.ServiceName()
  {
    assert EntryName(imp)[0] == 'i' && remote.ServiceName()[0] == 'f';
  }

  // ---------------------------------------------------------------- endpoint conservation

  /** All endpoints that imports contribute, with multiplicity. */
  ghost function Contributed(imports: seq<Import>): multiset<Endpoint> {
    if imports == [] then multiset{}
    else Contributed(imports[..|imports| - 1]) + multiset(EndpointsOf(imports[|imports| - 1]))
  }

  /** All endpoints of the listed entries, with multiplicity. */
  ghost function Total(m: map<string, ServiceEntry>, names: seq<string>): multiset<Endpoint>
    requires forall n | n in names :: n in m
  {
    if names == [] then multiset{} else multiset(m[names[0]].endpoints) + Total(m, names[1..])
  }

  lemma {:induction false} TotalSplit(m: map<string, ServiceEntry>, names: seq<string>, i: nat)
    requires (forall n | n in names :: n in m) && i < |names|
    ensures forall n | n in names[..i] + names[i + 1..] :: n in m
    ensures Total(m, names) == Total(m, names[..i] + names[i + 1..]) + multiset(m[names[i]].endpoints)
  {
    var rest := names[..i] + names[i + 1..];
    if i == 0 {
      assert rest == names[1..];
    } else {
      TotalSplit(m, names[1..], i - 1);
      assert rest[1..] == names[1..][..i - 1] + names[1..][i..];
      assert rest[0] == names[0];
    }
  }

  lemma {:induction false} TotalAgrees(m: map<string, ServiceEntry>, m': map<string, ServiceEntry>, names: seq<string>)
    requires forall n | n in names :: n in m && n in m' && m[n].endpoints == m'[n].endpoints
    ensures Total(m, names) == Total(m', names)
  {
    if names == [] {
    } else {
      TotalAgrees(m, m', names[1..]);
    }
  }

  /** The names enumerated before one more import is merged. */
  function NamesBefore(m: map<string, ServiceEntry>, imp: Import, names: seq<string>, i: nat): seq<string>
    requires i < |names|
  {
    if EntryName(imp) in m then names else names[..i] + names[i + 1..]
  }

  lemma NamesBeforeEnumerate(env: Env, m: map<string, ServiceEntry>, imp: Import, names: seq<string>, i: nat)
    requires Addressed(imp) && i < |names| && names[i] == EntryName(imp)
    requires IsEnumeration(names, Merge(env, m, imp).Keys)
    ensures IsEnumeration(NamesBefore(m, imp, names, i), m.Keys)
  {
    if EntryName(imp) in m {
      assert Merge(env, m, imp).Keys == m.Keys;
    } else {
      EnumerationWithout(names, i, Merge(env, m, imp).Keys);
      assert Merge(env, m, imp).Keys - {names[i]} == m.Keys;
    }
  }

  /** One more import adds exactly its endpoints to any enumeration of the entries. */
  lemma TotalMerge(env: Env, m: map<string, ServiceEntry>, imp: Import, names: seq<string>, i: nat)
    requires Addressed(imp) && i < |names| && names[i] == EntryName(imp)
    requires IsEnumeration(names, Merge(env, m, imp).Keys) && IsEnumeration(NamesBefore(m, imp, names, i), m.Keys)
    ensures Total(Merge(env, m, imp), names) == Total(m, NamesBefore(m, imp, names, i)) + multiset(EndpointsOf(imp))
  {
    var rest, m' := names[..i] + names[i + 1..], Merge(env, m, imp);
    EnumerationWithout(names, i, m'.Keys);
    TotalSplit(m', names, i);
    TotalAgrees(m', m, rest);
    if EntryName(imp) in m {
      TotalSplit(m, names, i);
    }
  }

  /** The entries hold exactly the endpoints contributed by the imports, however names merge them. */
  lemma {:induction false} EndpointConservation(env: Env, imports: seq<Import>, names: seq<string>)
    requires AllAddressed(imports) && IsEnumeration(names, MergeAll(env, imports).Keys)
    ensures Total(MergeAll(env, imports), names) == Contributed(imports)
  {
    if imports == [] {
      EnumerationOfNone(names, MergeAll(env, imports).Keys);
    } else {
      var n := |imports| - 1;
      var name, m := EntryName(imports[n]), MergeAll(env, imports[..n]);
      assert name in names;
      var i: nat :| i < |names| && names[i] == name;
      NamesBeforeEnumerate(env, m, imports[n], names, i);
      TotalMerge(env, m, imports[n], names, i);
      EndpointConservation(env, imports[..n], NamesBefore(m, imports[n], names, i));
    }
  }

  /** So the number of endpoints is the number of addresses, summed over the imports. */
  function AddressTotal(imports: seq<Import>): nat {
    if imports == [] then 0 else AddressTotal(imports[..|imports| - 1]) + |imports[|imports| - 1].remote.addresses|
  }

  lemma {:induction false} ContributedCount(imports: seq<Import>)
    ensures |Contributed(imports)| == AddressTotal(imports)
  {
    if imports == [] {
    } else {
      ContributedCount(imports[..|imports| - 1]);
    }
  }

  // ---------------------------------------------------------------- one side each

  lemma {:induction false} RemainingIff(lister: Lister, imports: seq<Import>, imp: Import)
    ensures imp in Remaining(lister, imports) <==> imp in imports && Elsewhere(lister, imp)
  {
    if imports == [] {
    } else {
      var n := |imports| - 1;
      RemainingIff(lister, imports[..n], imp);
      assert imports == imports[..n] + [imports[n]];
    }
  }

  /** The host of an import entry never names a service that exists here. */
  lemma ImportHostsAreElsewhere(env: Env, imports: seq<Import>, name: string)
    requires name in ImportMap(env, imports)
    ensures exists imp :: && imp in imports && Elsewhere(env.lister, imp)
                          && EntryName(imp) == name && ImportMap(env, imports)[name].hosts == [imp.svc.hostname]
  {
    var kept := Remaining(env.lister, imports);
    RemainingAddressed(env.lister, imports);
    var i := MergedFirst(env, kept, name);
    assert kept[i] in kept;
    RemainingIff(env.lister, imports, kept[i]);
  }

  ghost predicate BlockAt(block: Entries, entries: Entries, at: nat) {
    at + |block| <= |entries| && entries[at..at + |block|] == block
  }

  ghost predicate InEntries(block: Entries, entries: Entries) {
    exists at: nat :: BlockAt(block, entries, at)
  }

  lemma BlockInPart(block: Entries, before: Entries, after: Entries)
    ensures InEntries(block, before) ==> InEntries(block, before + after)
    ensures block == after ==> InEntries(block, before + after)
  {
    if at: nat :| BlockAt(block, before, at) {
      assert BlockAt(block, before + after, at);
    }
    if block == after {
      assert BlockAt(block, before + after, |before|);
    }
  }

  lemma {:induction false} WorkloadBlock(env: Env, imports: seq<Import>, i: nat)
    requires i < |imports|
    ensures InEntries(WorkloadEntriesFor(env, imports[i]), WorkloadEntriesOf(env, imports))
  {
    var n := |imports| - 1;
    var init, last := WorkloadEntriesOf(env, imports[..n]), WorkloadEntriesFor(env, imports[n]);
    if i == n {
      BlockInPart(last, init, last);
    } else {
      var block := WorkloadEntriesFor(env, imports[i]);
      WorkloadBlock(env, imports[..n], i);
      BlockInPart(block, init, last);
    }
  }

  /** From one view of the store, an import of an addressed peer whose side is decided goes to exactly one side: if
      its service is absent here, its endpoints are in the import entry of its name and it has no workload entries; if
      it is here, it has one workload entry per resolved address, in order, and no import entry of its own. */
  lemma OneSideEach(env: Env, imports: seq<Import>, i: nat)
    requires i < |imports| && Addressed(imports[i]) && !Blocks(env.lister, imports[i])
    ensures var imp := imports[i];
            if imp in Remaining(env.lister, imports)
            then && WorkloadEntriesFor(env, imp) == []
                 && EntryName(imp) in ImportMap(env, imports)
                 && multiset(EndpointsOf(imp)) <= multiset(ImportMap(env, imports)[EntryName(imp)].endpoints)
            else && |WorkloadEntriesFor(env, imp)| == |Resolve(env, imp.remote.addresses)|
                 && (forall idx | 0 <= idx < |WorkloadEntriesFor(env, imp)| ::
                       WorkloadEntriesFor(env, imp)[idx].1.endpoint.address == Resolve(env, imp.remote.addresses)[idx])
                 && InEntries(WorkloadEntriesFor(env, imp), WorkloadEntriesOf(env, imports))
                 && ServiceNameAndNs(imp.svc.hostname).value in env.lister.cache
  {
    var imp := imports[i];
    RemainingIff(env.lister, imports, imp);
    if imp in Remaining(env.lister, imports) {
      RemainingAddressed(env.lister, imports);
      var kept := Remaining(env.lister, imports);
      var j: nat :| j < |kept| && kept[j] == imp;
      MergedHolds(env, kept, j);
    } else {
      WorkloadBlock(env, imports, i);
    }
  }

  /** No import entry has the host of a service that exists here. */
  lemma NoEntryForLocal(env: Env, imports: seq<Import>, k: Key, name: string)
    requires DotFree(k.name) && DotFree(k.namespace) && k in env.lister.cache && name in ImportMap(env, imports)
    ensures ImportMap(env, imports)[name].hosts != [Hostname(k.name, k.namespace)]
  {
    ImportHostsAreElsewhere(env, imports, name);
    SideByCache(env.lister, k);
  }

  /** The workload entries of a service of a peer: one per resolved address, in the service's namespace. */
  ghost predicate WorkloadsFor(env: Env, entries: Entries, k: Key, imp: Import) {
    && |entries| == |Resolve(env, imp.remote.addresses)|
    && forall idx | 0 <= idx < |entries| ::
         && entries[idx].0 == Key(k.namespace, "import-" + imp.remote.name + "-" + k.name + "-" + Decimal(idx))
         && entries[idx].1 == WorkloadEntrySpec(EndpointAt(imp.remote, imp.svc,
             Resolve(env, imp.remote.addresses)[idx]))
  }

  /** In terms of the cache alone: a service that exists here gets its workload entries and no import entry of its
      host; one that does not gets no workload entries, and its endpoints are in the import entry of its name. */
  lemma OneSideByCache(env: Env, imports: seq<Import>, i: nat, k: Key)
    requires i < |imports| && imports[i].svc.hostname == Hostname(k.name, k.namespace)
    requires DotFree(k.name) && DotFree(k.namespace) && k !in env.lister.getFails && Addressed(imports[i])
    ensures if k in env.lister.cache
            then && WorkloadsFor(env, WorkloadEntriesFor(env, imports[i]), k, imports[i])
                 && InEntries(WorkloadEntriesFor(env, imports[i]), WorkloadEntriesOf(env, imports))
                 && forall name | name in ImportMap(env, imports) ::
                      ImportMap(env, imports)[name].hosts != [Hostname(k.name, k.namespace)]
            else && WorkloadEntriesFor(env, imports[i]) == []
                 && EntryName(imports[i]) in ImportMap(env, imports)
                 && multiset(EndpointsOf(imports[i])) <= multiset(ImportMap(env,
                     imports)[EntryName(imports[i])].endpoints)
  {
    SideByCache(env.lister, k);
    RemainingIff(env.lister, imports, imports[i]);
    OneSideEach(env, imports, i);
    if k in env.lister.cache {
      forall name | name in ImportMap(env, imports)
        ensures ImportMap(env, imports)[name].hosts != [Hostname(k.name, k.namespace)]
      {
        NoEntryForLocal(env, imports, k, name);
      }
    }
  }

  lemma {:induction false} WorkloadOrigin(env: Env, imports: seq<Import>, e: (Key, Spec)) returns (i: nat, idx: nat)
    requires e in WorkloadEntriesOf(env, imports)
    ensures i < |imports| && idx < |WorkloadEntriesFor(env, imports[i])|
            && e == WorkloadEntriesFor(env, imports[i])[idx]
  {
    var n := |imports| - 1;
    if e in WorkloadEntriesFor(env, imports[n]) {
      i := n;
      idx :| idx < |WorkloadEntriesFor(env, imports[n])| && WorkloadEntriesFor(env, imports[n])[idx] == e;
    } else {
      i, idx := WorkloadOrigin(env, imports[..n], e);
    }
  }

  /** Conversely, every workload entry belongs to an import whose service exists here, in its namespace. */
  lemma WorkloadsAreHere(env: Env, imports: seq<Import>, e: (Key, Spec))
    requires e in WorkloadEntriesOf(env, imports)
    ensures exists imp, key, ip, idx: nat ::
              && imp in imports && SideOf(env.lister, imp.svc.hostname) == Here(key)
              && ip in Resolve(env, imp.remote.addresses) && e == WorkloadEntry(imp, key, ip, idx)
  {
    var i, idx := WorkloadOrigin(env, imports, e);
    var key := SideOf(env.lister, imports[i].svc.hostname).key;
    assert e == WorkloadEntry(imports[i], key, Resolve(env, imports[i].remote.addresses)[idx], idx);
  }

  // ---------------------------------------------------------------- colliding workload entries

  /** Two imports give their workload entries the same keys: their services are in one namespace, and peer and
      service read the same when joined by a dash. */
  ghost predicate SameWorkloadKeys(env: Env, a: Import, b: Import) {
    var x, y := SideOf(env.lister, a.svc.hostname), SideOf(env.lister, b.svc.hostname);
    x.Here? && y.Here? && x.key.namespace == y.key.namespace
      && a.remote.name + "-" + x.key.name == b.remote.name + "-" + y.key.name
  }

  /** The workloads behind two imports are the same as far as both have them. */
  ghost predicate SameWorkloads(env: Env, a: Import, b: Import) {
    forall idx | 0 <= idx < |WorkloadEntriesFor(env, a)| && idx < |WorkloadEntriesFor(env, b)| ::
      WorkloadEntriesFor(env, a)[idx].1 == WorkloadEntriesFor(env, b)[idx].1
  }

  ghost predicate NoWorkloadCollision(env: Env, imports: seq<Import>) {
    forall i, j | 0 <= i < |imports| && 0 <= j < |imports| && SameWorkloadKeys(env, imports[i], imports[j]) ::
      SameWorkloads(env, imports[i], imports[j])
  }

  lemma WorkloadKeysIff(env: Env, a: Import, i: nat, b: Import, j: nat)
    requires i < |WorkloadEntriesFor(env, a)| && j < |WorkloadEntriesFor(env, b)|
    ensures WorkloadEntriesFor(env, a)[i].0 == WorkloadEntriesFor(env, b)[j].0
            <==> i == j && SameWorkloadKeys(env, a, b)
  {
    var x, y := SideOf(env.lister, a.svc.hostname).key, SideOf(env.lister, b.svc.hostname).key;
    var s, t := a.remote.name + "-" + x.name, b.remote.name + "-" + y.name;
    assert WorkloadName(a.remote, x.name, i) == "import-" + (s + "-" + Decimal(i));
    assert WorkloadName(b.remote, y.name, j) == "import-" + (t + "-" + Decimal(j));
    if WorkloadEntriesFor(env, a)[i].0 == WorkloadEntriesFor(env, b)[j].0 {
      assert s + "-" + Decimal(i) == WorkloadName(a.remote, x.name, i)[7..] == t + "-" + Decimal(j);
      LastDash(s, Decimal(i), t, Decimal(j));
      DecimalRoundTrip(i);
      DecimalRoundTrip(j);
    }
  }

  /** The workload entries of an import are desired, each with its own spec. */
  ghost predicate Joined(env: Env, imports: seq<Import>, imp: Import) {
    forall idx | 0 <= idx < |WorkloadEntriesFor(env, imp)| ::
      && WorkloadEntriesFor(env, imp)[idx].0 in LastWins(WorkloadEntriesOf(env, imports))
      && LastWins(WorkloadEntriesOf(env, imports))[WorkloadEntriesFor(env, imp)[idx].0]
        == WorkloadEntriesFor(env, imp)[idx].1
  }

  lemma BlockListed(block: Entries, entries: Entries, idx: nat)
    requires InEntries(block, entries) && idx < |block|
    ensures block[idx] in entries && block[idx].0 in LastWins(entries)
  {
    var at: nat :| BlockAt(block, entries, at);
    assert entries[at..at + |block|][idx] == entries[at + idx];
    LastWinsHas(entries, at + idx);
  }

  lemma WorkloadListed(env: Env, imports: seq<Import>, i: nat, idx: nat)
    requires i < |imports| && idx < |WorkloadEntriesFor(env, imports[i])|
    ensures WorkloadEntriesFor(env, imports[i])[idx] in WorkloadEntriesOf(env, imports)
    ensures WorkloadEntriesFor(env, imports[i])[idx].0 in LastWins(WorkloadEntriesOf(env, imports))
  {
    WorkloadBlock(env, imports, i);
    BlockListed(WorkloadEntriesFor(env, imports[i]), WorkloadEntriesOf(env, imports), idx);
  }

  lemma NoCollisionJoins(env: Env, imports: seq<Import>, i: nat)
    requires NoWorkloadCollision(env, imports) && i < |imports|
    ensures Joined(env, imports, imports[i])
  {
    var block, entries := WorkloadEntriesFor(env, imports[i]), WorkloadEntriesOf(env, imports);
    forall idx | 0 <= idx < |block|
      ensures block[idx].0 in LastWins(entries) && LastWins(entries)[block[idx].0] == block[idx].1
    {
      WorkloadListed(env, imports, i, idx);
      var c := LastWinsFrom(entries, block[idx].0);
      var j, idx' := WorkloadOrigin(env, imports, entries[c]);
      WorkloadKeysIff(env, imports[i], idx, imports[j], idx');
    }
  }

  /** Every import has all its workload entries in the desired state, each with its own spec, if and only if
      imports that share keys share workloads. A service carried twice does no harm. */
  lemma WorkloadsSurviveIff(env: Env, imports: seq<Import>)
    ensures (forall i | 0 <= i < |imports| :: Joined(env, imports, imports[i])) <==> NoWorkloadCollision(env, imports)
  {
    if NoWorkloadCollision(env, imports) {
      forall i | 0 <= i < |imports| ensures Joined(env, imports, imports[i]) {
        NoCollisionJoins(env, imports, i);
      }
    }
    if forall i | 0 <= i < |imports| :: Joined(env, imports, imports[i]) {
      forall i, j, idx | && 0 <= i < |imports| && 0 <= j < |imports| && SameWorkloadKeys(env, imports[i], imports[j])
                         && 0 <= idx < |WorkloadEntriesFor(env, imports[i])|
                           && idx < |WorkloadEntriesFor(env, imports[j])|
        ensures WorkloadEntriesFor(env, imports[i])[idx].1 == WorkloadEntriesFor(env, imports[j])[idx].1
      {
        WorkloadKeysIff(env, imports[i], idx, imports[j], idx);
        assert Joined(env, imports, imports[i]) && Joined(env, imports, imports[j]);
      }
    }
  }

  /** Keys do collide: peer `x` with service `y-z` and peer `x-y` with service `z`, in one namespace. Unless
      they resolve to the same workloads, some import is not joined. */
  lemma WorkloadCollision(env: Env, imports: seq<Import>, x: string, y: string, z: string, ns: string, a: Import,
                          b: Import)
    requires a in imports && a.remote.name == x && SideOf(env.lister, a.svc.hostname) == Here(Key(ns, y + "-" + z))
    requires b in imports && b.remote.name == x + "-" + y && SideOf(env.lister, b.svc.hostname) == Here(Key(ns, z))
    ensures SameWorkloadKeys(env, a, b)
    ensures !SameWorkloads(env, a, b) ==> exists imp :: imp in imports && !Joined(env, imports, imp)
  {
    assert x + "-" + (y + "-" + z) == x + "-" + y + "-" + z;
    WorkloadsSurviveIff(env, imports);
    if !SameWorkloads(env, a, b) {
      assert !NoWorkloadCollision(env, imports);
      var i :| 0 <= i < |imports| && !Joined(env, imports, imports[i]);
      assert imports[i] in imports;
    }
  }

  // ---------------------------------------------------------------- desired state

  function ImportedSpecs(env: Env, m: map<string, ServiceEntry>): map<Key, Spec> {
    map n | n in m :: Key(env.cfg.local.controlPlaneNamespace, n) := ServiceEntrySpec(m[n])
  }

  /** The desired service entries by key. */
  function DesiredServiceEntries(env: Env, imports: seq<Import>): map<Key, Spec> {
    LastWins(DiscoveryEntries(env, env.cfg.remotes)) + ImportedSpecs(env, ImportMap(env, imports))
  }

  lemma {:induction false} LastWinsAt(env: Env, prefix: Entries, m: map<string, ServiceEntry>, names: seq<string>,
                                      k: Key)
    requires forall n | n in names :: n in m
    ensures var named := k.namespace == env.cfg.local.controlPlaneNamespace && k.name in names;
            var all := LastWins(prefix + NamedEntries(env, m, names));
            && (k in all <==> named || k in LastWins(prefix))
            && (k in all ==> all[k] == if named then ServiceEntrySpec(m[k.name]) else LastWins(prefix)[k])
  {
    var all := prefix + NamedEntries(env, m, names);
    if names == [] {
      assert all == prefix;
    } else {
      var n := |names| - 1;
      assert all[..|all| - 1] == prefix + NamedEntries(env, m, names[..n]);
      assert k.name in names <==> k.name in names[..n] || k.name == names[n];
      LastWinsAt(env, prefix, m, names[..n], k);
    }
  }

  /** The order in which the import entries are listed does not matter to the reconciler. */
  lemma ListingOrderIrrelevant(env: Env, imports: seq<Import>, names: seq<string>)
    requires IsEnumeration(names, ImportMap(env, imports).Keys)
    ensures LastWins(DiscoveryEntries(env, env.cfg.remotes) + NamedEntries(env, ImportMap(env, imports), names))
            == DesiredServiceEntries(env, imports)
  {
    var prefix, m := DiscoveryEntries(env, env.cfg.remotes), ImportMap(env, imports);
    var all, desired := LastWins(prefix + NamedEntries(env, m, names)), DesiredServiceEntries(env, imports);
    forall k: Key ensures (k in all <==> k in desired) && (k in all ==> all[k] == desired[k]) {
      LastWinsAt(env, prefix, m, names, k);
      ImportedAt(env, m, k);
    }
  }

  lemma ImportedAt(env: Env, m: map<string, ServiceEntry>, k: Key)
    ensures k in ImportedSpecs(env, m) <==> k.namespace == env.cfg.local.controlPlaneNamespace && k.name in m
    ensures k in ImportedSpecs(env, m) ==> ImportedSpecs(env, m)[k] == ServiceEntrySpec(m[k.name])
  {
    if k.namespace == env.cfg.local.controlPlaneNamespace && k.name in m {
      assert k == Key(env.cfg.local.controlPlaneNamespace, k.name);
    }
  }

  lemma {:induction false} DiscoveryKeys(env: Env, remotes: seq<Remote>, k: Key)
    requires k in LastWins(DiscoveryEntries(env, remotes))
    ensures exists r: Remote :: k.name == r.ServiceName()
  {
    var n := |remotes| - 1;
    var init := DiscoveryEntries(env, remotes[..n]);
    if remotes[n].addresses == [] {
      assert DiscoveryEntries(env, remotes) == init;
      DiscoveryKeys(env, remotes[..n], k);
    } else {
      assert DiscoveryEntries(env, remotes)[..|init|] == init;
      if k.name != remotes[n].ServiceName() {
        DiscoveryKeys(env, remotes[..n], k);
      }
    }
  }

  /** The service entry through which a peer's discovery service is reached: its host, one gRPC port, and each
      address of the peer at its gateway port. */
  ghost predicate OffersDiscovery(env: Env, spec: Spec, remote: Remote) {
    && spec.ServiceEntrySpec? && remote.addresses != []
    && spec.entry.hosts == ["federation-discovery-service-" + remote.name + ".istio-system.svc.cluster.local"]
    && spec.entry.ports == [ServicePort("grpc", 15080, "GRPC", 0)]
    && |spec.entry.endpoints| == |remote.addresses|
    && (forall i | 0 <= i < |remote.addresses| ::
          && spec.entry.endpoints[i].address == remote.addresses[i] && spec.entry.endpoints[i].network == remote.network
          && spec.entry.endpoints[i].ports == map["grpc" := if remote.port.Some? then remote.port.value else 15443]
          && spec.entry.endpoints[i].labels == map["security.istio.io/tlsMode" := "istio"])
    && (spec.entry.resolution == STATIC <==> env.isIP(remote.addresses[0]))
  }

  lemma DiscoveryEntryOffers(env: Env, remote: Remote)
    requires remote.addresses != []
    ensures OffersDiscovery(env, DiscoveryEntry(env, remote).1, remote)
  {
    var entry := DiscoveryEntry(env, remote).1.entry;
    assert remote.ServiceFQDN() == "federation-discovery-service-" + remote.name + ".istio-system.svc.cluster.local";
    forall i | 0 <= i < |remote.addresses|
      ensures entry.endpoints[i]
              == Endpoint(remote.addresses[i], TLS_MODE, map["grpc" := remote.GetPort()], remote.network)
    {}
  }

  lemma {:induction false} DiscoveryListed(env: Env, remotes: seq<Remote>, i: nat)
    requires i < |remotes| && remotes[i].addresses != []
    ensures DiscoveryEntry(env, remotes[i]) in DiscoveryEntries(env, remotes)
  {
    var n := |remotes| - 1;
    if i == n {
    } else {
      DiscoveryListed(env, remotes[..n], i);
    }
  }

  lemma {:induction false} DiscoveryOrigin(env: Env, remotes: seq<Remote>, e: (Key, Spec)) returns (j: nat)
    requires e in DiscoveryEntries(env, remotes)
    ensures j < |remotes| && remotes[j].addresses != [] && e == DiscoveryEntry(env, remotes[j])
  {
    var n := |remotes| - 1;
    if e in DiscoveryEntries(env, remotes[..n]) {
      j := DiscoveryOrigin(env, remotes[..n], e);
    } else {
      j := n;
    }
  }

  /** Each addressed peer has it in the desired state, unless another one has the same name. */
  lemma DiscoveryDesired(env: Env, imports: seq<Import>, i: nat)
    requires i < |env.cfg.remotes| && env.cfg.remotes[i].addresses != []
    requires forall j | 0 <= j < |env.cfg.remotes| && env.cfg.remotes[j].name == env.cfg.remotes[i].name ::
               env.cfg.remotes[j] == env.cfg.remotes[i]
    ensures var remote := env.cfg.remotes[i];
            var key := Key(env.cfg.local.controlPlaneNamespace, "federation-discovery-service-" + remote.name);
            && key in DesiredServiceEntries(env, imports)
            && OffersDiscovery(env, DesiredServiceEntries(env, imports)[key], remote)
  {
    var entries, remote := DiscoveryEntries(env, env.cfg.remotes), env.cfg.remotes[i];
    var key := DiscoveryEntry(env, remote).0;
    DiscoveryListed(env, env.cfg.remotes, i);
    var at: nat :| at < |entries| && entries[at] == DiscoveryEntry(env, remote);
    LastWinsHas(entries, at);
    var c := LastWinsFrom(entries, key);
    var j := DiscoveryOrigin(env, env.cfg.remotes, entries[c]);
    assert env.cfg.remotes[j].ServiceName()[29..] == env.cfg.remotes[j].name
           && remote.ServiceName()[29..] == remote.name;
    DiscoveryEntryOffers(env, remote);
    DesiredKeepsBoth(env, imports);
  }

  /** Both kinds of service entries survive in the desired state: their names never collide. */
  lemma DesiredKeepsBoth(env: Env, imports: seq<Import>)
    ensures ImportedSpecs(env, ImportMap(env, imports)).Keys !! LastWins(DiscoveryEntries(env, env.cfg.remotes)).Keys
  {
    forall k | k in LastWins(DiscoveryEntries(env, env.cfg.remotes))
      ensures k !in ImportedSpecs(env, ImportMap(env, imports)) {
      DiscoveryKeys(env, env.cfg.remotes, k);
      var r: Remote :| k.name == r.ServiceName();
      if k.name in ImportMap(env, imports) {
        ImportHostsAreElsewhere(env, imports, k.name);
        var imp :| imp in imports && EntryName(imp) == k.name;
        ImportNamesApart(imp, r);
      }
    }
  }

  // ---------------------------------------------------------------- colliding destination rules

  function RuleHost(spec: Spec): string {
    match spec
    case MtlsRule(host, _) => host
    case PortRules(host, _) => host
    case _ => ""
  }

  /** A rule is named after its host. */
  ghost predicate NamedByHost(env: Env, rule: (Key, Spec)) {
    rule.0 == Key(env.cfg.local.controlPlaneNamespace, RuleName(RuleHost(rule.1)))
  }

  lemma DiscoveryHost(remote: Remote)
    ensures Hostname(remote.ServiceName(), "istio-system") == remote.ServiceFQDN()
  {}

  lemma RulesForNamed(env: Env, remote: Remote, services: Snapshot, i: nat)
    requires i < |RulesFor(env, remote, services)|
    ensures NamedByHost(env, RulesFor(env, remote, services)[i])
  {
    if i == 0 {
      DiscoveryHost(remote);
    } else {
      assert RulesFor(env, remote, services)[i] == ServiceRule(env, services[i - 1]);
    }
  }

  lemma {:induction false} RuleKeys(env: Env, remotes: seq<Remote>, views: seq<Snapshot>, i: nat)
    requires |views| == |remotes| && i < |RulesOf(env, remotes, views)|
    ensures NamedByHost(env, RulesOf(env, remotes, views)[i])
  {
    var n := |remotes| - 1;
    var init := RulesOf(env, remotes[..n], views[..n]);
    if i < |init| {
      RuleKeys(env, remotes[..n], views[..n], i);
    } else {
      RulesForNamed(env, remotes[n], views[n], i - |init|);
    }
  }

  lemma RuleKeysIff(env: Env, remotes: seq<Remote>, views: seq<Snapshot>, i: nat, j: nat)
    requires |views| == |remotes| && i < |RulesOf(env, remotes, views)| && j < |RulesOf(env, remotes, views)|
    ensures var rules := RulesOf(env, remotes, views);
            rules[i].0 == rules[j].0 <==> DashAlike(RuleHost(rules[i].1), RuleHost(rules[j].1))
  {
    var rules := RulesOf(env, remotes, views);
    RuleKeys(env, remotes, views, i);
    RuleKeys(env, remotes, views, j);
    var a, b := SeparateWithDash(RuleHost(rules[i].1)), SeparateWithDash(RuleHost(rules[j].1));
    SeparateWithDashCollides(RuleHost(rules[i].1), RuleHost(rules[j].1));
    assert ("mtls-sni-" + a)[9..] == a && ("mtls-sni-" + b)[9..] == b;
  }

  /** Rules whose hosts agree up to dots and dashes are equal. */
  ghost predicate RulesAgree(rules: Entries) {
    forall i, j | 0 <= i < |rules| && 0 <= j < |rules| && DashAlike(RuleHost(rules[i].1), RuleHost(rules[j].1)) ::
      rules[i].1 == rules[j].1
  }

  /** Every generated rule is in the desired state if and only if rules whose hosts agree up to dots and dashes
      are equal. */
  lemma RulesSurviveIff(env: Env, remotes: seq<Remote>, views: seq<Snapshot>)
    requires |views| == |remotes|
    ensures var rules := RulesOf(env, remotes, views);
            (forall i: nat | i < |rules| :: Survives(rules, i)) <==> RulesAgree(rules)
  {
    var rules := RulesOf(env, remotes, views);
    AllSurviveIff(rules);
    forall i, j | 0 <= i < |rules| && 0 <= j < |rules|
      ensures rules[i].0 == rules[j].0 <==> DashAlike(RuleHost(rules[i].1), RuleHost(rules[j].1))
    {
      RuleKeysIff(env, remotes, views, i, j);
    }
  }

  /** Every host has a rule of its own in the desired state if and only if no two different hosts agree up to
      dots and dashes. */
  lemma RuleHostsSurviveIff(env: Env, remotes: seq<Remote>, views: seq<Snapshot>)
    requires |views| == |remotes|
    ensures var rules := RulesOf(env, remotes, views);
            (forall i | 0 <= i < |rules| :: Names(LastWins(rules), RuleHost, RuleHost(rules[i].1)))
            <==> forall i, j | 0 <= i < |rules| && 0 <= j < |rules|
              && DashAlike(RuleHost(rules[i].1), RuleHost(rules[j].1)) ::
                   RuleHost(rules[i].1) == RuleHost(rules[j].1)
  {
    var rules := RulesOf(env, remotes, views);
    forall i, j | 0 <= i < |rules| && 0 <= j < |rules|
      ensures rules[i].0 == rules[j].0 <==> DashAlike(RuleHost(rules[i].1), RuleHost(rules[j].1))
    {
      RuleKeysIff(env, remotes, views, i, j);
    }
    NamesSurviveIff(rules, RuleHost);
  }

  /** Generating rules panics exactly when a router peer exports a service with ports under a host name without a
      dot. */
  lemma RulesPanicIff(remotes: seq<Remote>, views: seq<Snapshot>)
    requires |views| == |remotes|
    ensures SomeUnreadable(remotes, views)
            <==> exists i, j | 0 <= i < |remotes| && 0 <= j < |views[i]| ::
                   remotes[i].ingressType == "openshift-router" && views[i][j].ports != []
                     && '.' !in views[i][j].hostname
  {
    forall i, j | 0 <= i < |remotes| && 0 <= j < |views[i]|
      ensures Unreadable(views[i][j]) <==> views[i][j].ports != [] && '.' !in views[i][j].hostname
    {
      UnreadableIff(views[i][j].hostname);
    }
  }

  /** The side of an import is undecided exactly when its host name has no dot, or the lookup of its service fails. */
  lemma BlocksIff(lister: Lister, imp: Import)
    ensures Blocks(lister, imp)
            <==> || '.' !in imp.svc.hostname
                 || exists k :: ServiceNameAndNs(imp.svc.hostname) == Some(k) && k in lister.getFails
  {
    UnreadableIff(imp.svc.hostname);
  }

  /** The destination-rule list is non-empty exactly when its reconciler is registered. */
  lemma {:induction false} RulesExistIff(env: Env, remotes: seq<Remote>, views: seq<Snapshot>)
    requires |views| == |remotes|
    ensures RulesOf(env, remotes, views) != []
            <==> exists i | 0 <= i < |remotes| :: remotes[i].ingressType == OPENSHIFT_ROUTER
  {
    if remotes == [] {
    } else {
      var n := |remotes| - 1;
      RulesExistIff(env, remotes[..n], views[..n]);
      if i :| 0 <= i < n && remotes[..n][i].ingressType == OPENSHIFT_ROUTER {
        assert remotes[i].ingressType == OPENSHIFT_ROUTER;
      }
    }
  }
}
