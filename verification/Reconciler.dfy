/** The list/diff/apply/delete algorithm that the five object reconcilers share. Maps are iterated in
    any order, API calls fail at any point, and the comparison of specs may miss equal ones. */
module Reconciler {
  import opened Types

  const PEER_LABEL := "federation.openshift-service-mesh.io/peer"
  const ROUTE_LIST_LABEL := "federation.openshift.io/peer"
  const PEER_VALUE := "todo"

  /** A stored object. */
  datatype Obj<+S> = Obj(labels: Labels, spec: S)

  type Cluster<+S> = map<Key, Obj<S>>

  predicate HasLabel<S>(o: Obj<S>, mark: string) {
    mark in o.labels && o.labels[mark] == PEER_VALUE
  }

  /** The specs of the objects that carry a label. */
  function Owned<S>(c: Cluster<S>, mark: string): map<Key, S> {
    map k | k in c && HasLabel(c[k], mark) :: c[k].spec
  }

  /** That is: the objects to whose labels the label selector adds nothing. */
  lemma OwnedIff<S>(c: Cluster<S>, mark: string, k: Key)
    ensures k in Owned(c, mark) <==> k in c && c[k].labels + map[mark := "todo"] == c[k].labels
    ensures k in Owned(c, mark) ==> Owned(c, mark)[k] == c[k].spec
  {
    if k in c && c[k].labels + map[mark := "todo"] == c[k].labels {
      assert (c[k].labels + map[mark := "todo"])[mark] == "todo";
    }
  }

  /** The map built from a generated list: a later entry replaces an earlier one of the same key. */
  function LastWins<S>(entries: seq<(Key, S)>): map<Key, S> {
    if entries == [] then map[]
    else LastWins(entries[..|entries| - 1])[entries[|entries| - 1].0 := entries[|entries| - 1].1]
  }

  // ---------------------------------------------------------------- what survives under colliding keys

  /** Equal keys have equal specs. */
  ghost predicate Compatible<S>(entries: seq<(Key, S)>) {
    forall i, j | 0 <= i < |entries| && 0 <= j < |entries| && entries[i].0 == entries[j].0 ::
        entries[i].1 == entries[j].1
  }

  ghost predicate Survives<S>(entries: seq<(Key, S)>, i: nat)
    requires i < |entries|
  {
    entries[i].0 in LastWins(entries) && LastWins(entries)[entries[i].0] == entries[i].1
  }

  lemma {:induction false} LastWinsHas<S>(entries: seq<(Key, S)>, i: nat)
    requires i < |entries|
    ensures entries[i].0 in LastWins(entries)
  {
    var n := |entries| - 1;
    if i == n {
    } else {
      LastWinsHas(entries[..n], i);
    }
  }

  lemma {:induction false} LastWinsFrom<S>(entries: seq<(Key, S)>, k: Key) returns (i: nat)
    requires k in LastWins(entries)
    ensures i < |entries| && entries[i].0 == k && LastWins(entries)[k] == entries[i].1
  {
    var n := |entries| - 1;
    if k == entries[n].0 {
      i := n;
    } else {
      i := LastWinsFrom(entries[..n], k);
    }
  }

  /** It is the last entry of a key that counts. */
  lemma {:induction false} LastWinsLast<S>(entries: seq<(Key, S)>, i: nat)
    requires i < |entries| && forall j | i < j < |entries| :: entries[j].0 != entries[i].0
    ensures entries[i].0 in LastWins(entries) && LastWins(entries)[entries[i].0] == entries[i].1
  {
    var n := |entries| - 1;
    if i == n {
    } else {
      LastWinsLast(entries[..n], i);
    }
  }

  /** Every entry of a list ends up in the map with its own spec if and only if equal keys have equal specs. */
  lemma AllSurviveIff<S>(entries: seq<(Key, S)>)
    ensures (forall i: nat | i < |entries| :: Survives(entries, i)) <==> Compatible(entries)
  {
    if Compatible(entries) {
      forall i: nat | i < |entries| ensures Survives(entries, i) {
        LastWinsHas(entries, i);
        var j := LastWinsFrom(entries, entries[i].0);
      }
    }
    if forall i: nat | i < |entries| :: Survives(entries, i) {
      forall i, j | 0 <= i < |entries| && 0 <= j < |entries| && entries[i].0 == entries[j].0
        ensures entries[i].1 == entries[j].1 {
        assert Survives(entries, i) && Survives(entries, j);
      }
    }
  }

  /** Some object of the map has a given name, as `name` reads it from a spec. */
  ghost predicate Names<S>(m: map<Key, S>, name: S -> string, x: string) {
    exists k :: k in m && name(m[k]) == x
  }

  ghost predicate NameGivesKey<S>(entries: seq<(Key, S)>, name: S -> string) {
    forall i, j | 0 <= i < |entries| && 0 <= j < |entries| && name(entries[i].1) == name(entries[j].1) ::
      entries[i].0 == entries[j].0
  }

  ghost predicate KeyGivesName<S>(entries: seq<(Key, S)>, name: S -> string) {
    forall i, j | 0 <= i < |entries| && 0 <= j < |entries| && entries[i].0 == entries[j].0 ::
      name(entries[i].1) == name(entries[j].1)
  }

  lemma NamedAtItsKey<S>(entries: seq<(Key, S)>, name: S -> string, i: nat)
    requires NameGivesKey(entries, name) && i < |entries|
    ensures entries[i].0 in LastWins(entries)
    ensures Names(LastWins(entries), name, name(entries[i].1))
            <==> name(LastWins(entries)[entries[i].0]) == name(entries[i].1)
  {
    LastWinsHas(entries, i);
    if k :| k in LastWins(entries) && name(LastWins(entries)[k]) == name(entries[i].1) {
      var d := LastWinsFrom(entries, k);
    }
  }

  /** The same for one name in each spec, such as a host or a server name, provided that the name gives the
      key: each listed name is that of an object in the map if and only if the key gives the name. */
  lemma NamesSurviveIff<S>(entries: seq<(Key, S)>, name: S -> string)
    requires NameGivesKey(entries, name)
    ensures (forall i | 0 <= i < |entries| :: Names(LastWins(entries), name, name(entries[i].1)))
            <==> KeyGivesName(entries, name)
  {
    forall i: nat | i < |entries|
      ensures entries[i].0 in LastWins(entries)
      ensures Names(LastWins(entries), name, name(entries[i].1))
              <==> name(LastWins(entries)[entries[i].0]) == name(entries[i].1)
    {
      NamedAtItsKey(entries, name, i);
    }
    if KeyGivesName(entries, name) {
      forall i: nat | i < |entries| ensures name(LastWins(entries)[entries[i].0]) == name(entries[i].1) {
        var c := LastWinsFrom(entries, entries[i].0);
      }
    }
  }

  // ---------------------------------------------------------------- the algorithm

  function LabelsAt<S>(c: Cluster<S>, k: Key): Labels {
    if k in c then c[k].labels else map[]
  }

  ghost predicate SameAt<S>(before: Cluster<S>, now: Cluster<S>, k: Key) {
    (k in before <==> k in now) && (k in before ==> before[k] == now[k])
  }

  /** Key `k` has the value a complete run gives it: a desired object is applied over what was there,
      except that an object listed with the desired spec may be left alone; a listed object that is not
      desired is gone; anything else is as before. */
  ghost predicate FinalAt<S>(before: Cluster<S>, now: Cluster<S>, desired: map<Key, S>, list: string, create: string,
                             k: Key) {
    if k in desired then
      && k in now
      && now[k].spec == desired[k]
      && (|| now[k].labels == LabelsAt(before, k)[create := PEER_VALUE]
          || (k in before && HasLabel(before[k], list) && now[k] == before[k]))
    else if k in before && HasLabel(before[k], list) then k !in now
    else SameAt(before, now, k)
  }

  ghost predicate Completed<S>(before: Cluster<S>, now: Cluster<S>, desired: map<Key, S>, list: string,
                               create: string) {
    forall k: Key :: FinalAt(before, now, desired, list, create, k)
  }

  /** Every key is untouched or already final. */
  ghost predicate Interrupted<S>(before: Cluster<S>, now: Cluster<S>, desired: map<Key, S>, list: string,
                                 create: string) {
    forall k: Key :: SameAt(before, now, k) || FinalAt(before, now, desired, list, create, k)
  }

  method BuildMap<S>(entries: seq<(Key, S)>) returns (m: map<Key, S>)
    ensures m == LastWins(entries)
  {
    m := map[];
    for i := 0 to |entries|
      invariant m == LastWins(entries[..i])
    {
      m := m[entries[i].0 := entries[i].1];
      assert entries[..i + 1][..i] == entries[..i];
    }
    assert entries[..|entries|] == entries;
  }

  /** `reflect.DeepEqual` on specs: true only for equal ones, but equal ones may compare unequal. */
  method DeepEqual<S(==)>(a: S, b: S) returns (equal: bool)
    ensures equal ==> a == b
  {
    var exact: bool := *;
    equal := exact && a == b;
  }

  class Reconciler<S(==)> {
    const listLabel: string
    const createLabel: string
    const skipsEmpty: bool  // returns early when nothing is generated
    var cluster: Cluster<S>

    constructor (listLabel: string, createLabel: string, skipsEmpty: bool, cluster: Cluster<S>)
      ensures this.listLabel == listLabel && this.createLabel == createLabel
      ensures this.skipsEmpty == skipsEmpty && this.cluster == cluster
    {
      this.listLabel, this.createLabel, this.skipsEmpty, this.cluster := listLabel, createLabel, skipsEmpty, cluster;
    }

    /** A nil return means a complete run; an error leaves every key untouched or final. */
    method Reconcile(entries: seq<(Key, S)>) returns (ok: bool)
      modifies this
      ensures skipsEmpty && entries == [] ==> ok && cluster == old(cluster)
      ensures !(skipsEmpty && entries == []) && ok
              ==> Completed(old(cluster), cluster, LastWins(entries), listLabel, createLabel)
      ensures Interrupted(old(cluster), cluster, LastWins(entries), listLabel, createLabel)
    {
      if skipsEmpty && entries == [] {
        return true;
      }
      var desired := BuildMap(entries);
      var listOk: bool := *;
      if !listOk {
        return false;
      }
      var listed := Owned(cluster, listLabel);
      ok := ApplyAll(desired, listed);
      if ok {
        ok := DeleteStale(old(cluster), desired, listed);
      }
    }

    method ApplyAll(desired: map<Key, S>, listed: map<Key, S>) returns (ok: bool)
      requires listed == Owned(cluster, listLabel)
      modifies this
      ensures Interrupted(old(cluster), cluster, desired, listLabel, createLabel)
      ensures ok ==> forall k :: if k in desired then FinalAt(old(cluster), cluster, desired, listLabel, createLabel, k)
                                 else SameAt(old(cluster), cluster, k)
    {
      var todo := desired.Keys;
      while todo != {}
        invariant todo <= desired.Keys
        invariant forall k :: if k in desired && k !in todo
                  then FinalAt(old(cluster), cluster, desired, listLabel, createLabel, k)
                              else SameAt(old(cluster), cluster, k)
        decreases todo
      {
        var k :| k in todo;
        var upToDate := false;
        if k in listed {
          upToDate := DeepEqual(listed[k], desired[k]);
        }
        if !upToDate {
          var applied: bool := *;
          if !applied {
            return false;
          }
          cluster := cluster[k := Obj(LabelsAt(cluster, k)[createLabel := PEER_VALUE], desired[k])];
        }
        todo := todo - {k};
      }
      return true;
    }

    method DeleteStale(ghost before: Cluster<S>, desired: map<Key, S>, listed: map<Key, S>) returns (ok: bool)
      requires listed == Owned(before, listLabel)
      requires forall k :: if k in desired then FinalAt(before, cluster, desired, listLabel, createLabel, k)
               else SameAt(before, cluster, k)
      modifies this
      ensures Interrupted(before, cluster, desired, listLabel, createLabel)
      ensures ok ==> Completed(before, cluster, desired, listLabel, createLabel)
    {
      var todo := listed.Keys;
      while todo != {}
        invariant todo <= listed.Keys
        invariant forall k :: if k in todo && k !in desired then SameAt(before, cluster, k)
                              else FinalAt(before, cluster, desired, listLabel, createLabel, k)
        decreases todo
      {
        var k :| k in todo;
        if k !in desired {
          var deleted: bool := *;
          if !deleted {
            return false;
          }
          cluster := cluster - {k};
        }
        todo := todo - {k};
      }
      return true;
    }
  }

  // ---------------------------------------------------------------- one label for listing and creating

  /** The cluster a complete run produces when objects are listed by the label they are created with. */
  function Target<S>(c: Cluster<S>, desired: map<Key, S>, mark: string): Cluster<S> {
    map k | k in c.Keys + desired.Keys && (k in desired || !HasLabel(c[k], mark)) ::
      if k in desired then Obj(LabelsAt(c, k)[mark := PEER_VALUE], desired[k]) else c[k]
  }

  /** Neither iteration order nor missed equalities show in the result. */
  lemma CompletedIsTarget<S>(before: Cluster<S>, now: Cluster<S>, desired: map<Key, S>, mark: string)
    ensures Completed(before, now, desired, mark, mark) <==> now == Target(before, desired, mark)
  {
    var target := Target(before, desired, mark);
    forall k: Key ensures FinalAt(before, now, desired, mark, mark, k) <==> SameAt(target, now, k) {
      if k in before && HasLabel(before[k], mark) {
        assert before[k].labels[mark := PEER_VALUE] == before[k].labels;
      }
    }
    if Completed(before, now, desired, mark, mark) {
      forall k: Key ensures k in now <==> k in target {
        assert FinalAt(before, now, desired, mark, mark, k);
      }
      forall k | k in now ensures now[k] == target[k] {
        assert FinalAt(before, now, desired, mark, mark, k);
      }
    }
  }

  /** A complete run leaves exactly the desired objects labelled and does not touch unlabelled objects
      under other keys, nor other labels of the desired ones. */
  lemma TargetExact<S>(c: Cluster<S>, desired: map<Key, S>, mark: string)
    ensures Owned(Target(c, desired, mark), mark) == desired
    ensures forall k, l | k in desired && l != mark && k in Target(c, desired, mark) ::
              l in Target(c, desired, mark)[k].labels <==> k in c && l in c[k].labels
    ensures forall k, l | k in desired && l != mark && k in c && l in c[k].labels ::
              Target(c, desired, mark)[k].labels[l] == c[k].labels[l]
    ensures forall k | k !in desired && !(k in c && HasLabel(c[k], mark)) :: SameAt(c, Target(c, desired, mark), k)
  {}

  /** A second run changes nothing. */
  lemma TargetIdempotent<S>(c: Cluster<S>, desired: map<Key, S>, mark: string)
    ensures Target(Target(c, desired, mark), desired, mark) == Target(c, desired, mark)
  {
    var target := Target(c, desired, mark);
    forall k | k in desired ensures target[k].labels[mark := PEER_VALUE] == target[k].labels {}
  }

  /** From any interrupted state, a complete run reaches the same cluster as an uninterrupted one. */
  lemma InterruptedConverges<S>(before: Cluster<S>, now: Cluster<S>, desired: map<Key, S>, mark: string)
    requires Interrupted(before, now, desired, mark, mark)
    ensures Target(now, desired, mark) == Target(before, desired, mark)
  {
    var t, t' := Target(before, desired, mark), Target(now, desired, mark);
    forall k: Key ensures SameAt(t, t', k) {
      assert SameAt(before, now, k) || FinalAt(before, now, desired, mark, mark, k);
      if k in before && HasLabel(before[k], mark) {
        assert before[k].labels[mark := PEER_VALUE] == before[k].labels;
      }
      if k in now && HasLabel(now[k], mark) {
        assert now[k].labels[mark := PEER_VALUE] == now[k].labels;
      }
    }
    forall k: Key ensures k in t <==> k in t' {
      assert SameAt(t, t', k);
    }
    forall k | k in t ensures t[k] == t'[k] {
      assert SameAt(t, t', k);
    }
  }

  /** Interrupted runs compose: any number of failed attempts is like one. */
  lemma InterruptedComposes<S>(a: Cluster<S>, b: Cluster<S>, c: Cluster<S>, desired: map<Key, S>, mark: string)
    requires Interrupted(a, b, desired, mark, mark) && Interrupted(b, c, desired, mark, mark)
    ensures Interrupted(a, c, desired, mark, mark)
  {
    forall k: Key ensures SameAt(a, c, k) || FinalAt(a, c, desired, mark, mark, k) {
      assert SameAt(a, b, k) || FinalAt(a, b, desired, mark, mark, k);
      assert SameAt(b, c, k) || FinalAt(b, c, desired, mark, mark, k);
      if k in a {
        assert a[k].labels[mark := PEER_VALUE][mark := PEER_VALUE] == a[k].labels[mark := PEER_VALUE];
      }
    }
  }

  /** The keys on which owned and desired state differ. */
  ghost function Distance<S>(c: Cluster<S>, desired: map<Key, S>, mark: string): set<Key> {
    var owned := Owned(c, mark);
    set k | k in owned.Keys + desired.Keys && !(k in owned && k in desired && owned[k] == desired[k])
  }

  /** An interrupted run never moves away from the target, and a complete one reaches it. */
  lemma DistanceShrinks<S>(before: Cluster<S>, now: Cluster<S>, desired: map<Key, S>, mark: string)
    requires Interrupted(before, now, desired, mark, mark)
    ensures Distance(now, desired, mark) <= Distance(before, desired, mark)
    ensures |Distance(now, desired, mark)| <= |Distance(before, desired, mark)|
    ensures Completed(before, now, desired, mark, mark) ==> Distance(now, desired, mark) == {}
  {
    forall k | k in Distance(now, desired, mark) ensures k in Distance(before, desired, mark) {
      assert SameAt(before, now, k) || FinalAt(before, now, desired, mark, mark, k);
    }
    Subset(Distance(now, desired, mark), Distance(before, desired, mark));
    if Completed(before, now, desired, mark, mark) {
      CompletedIsTarget(before, now, desired, mark);
      TargetExact(before, desired, mark);
    }
  }

  lemma {:induction false} Subset<T>(a: set<T>, b: set<T>)
    requires a <= b
    ensures |a| <= |b|
  {
    if a == {} {
    } else {
      var x :| x in a;
      Subset(a - {x}, b - {x});
    }
  }

  // ---------------------------------------------------------------- listing by another label (routes)

  /** When objects are listed by a label other than the one they are created with, every desired
      object is still present with its spec; but the created objects are exactly the desired ones if and
      only if no undesired object already carried the creation label without the listing label, and no
      desired one that was listed without the creation label was found up to date and left alone. */
  lemma MismatchedLabels<S>(before: Cluster<S>, now: Cluster<S>, desired: map<Key, S>, list: string, create: string)
    requires Completed(before, now, desired, list, create)
    ensures forall k | k in desired :: k in now && now[k].spec == desired[k]
    ensures Owned(now, create) == desired
            <==> && (forall k | k in before && HasLabel(before[k], create) && !HasLabel(before[k], list) ::
                k in desired)
                 && (forall k | k in before && k in desired && HasLabel(before[k], list)
                   && !HasLabel(before[k], create) :: now[k] != before[k])
  {
    forall k: Key ensures FinalAt(before, now, desired, list, create, k) {}
    forall k | k in desired
      ensures k in now && now[k].spec == desired[k]
      ensures HasLabel(now[k], create)
              <==> !(k in before && HasLabel(before[k], list) && !HasLabel(before[k], create) && now[k] == before[k])
    {
      assert FinalAt(before, now, desired, list, create, k);
    }
    forall k | k !in desired ensures k in Owned(now, create)
      <==> k in before && HasLabel(before[k], create) && !HasLabel(before[k], list) {
      assert FinalAt(before, now, desired, list, create, k);
    }
    assert forall k | k in desired :: k in Owned(now, create) <==> HasLabel(now[k], create);
  }

  ghost predicate NeverListed<S>(c: Cluster<S>) {
    forall k | k in c :: !HasLabel(c[k], ROUTE_LIST_LABEL)
  }

  /** Routes are listed by a label that nothing creates. A run that fails or succeeds then deletes nothing,
      and adds nothing that is not desired. */
  lemma RouteRunKeepsAll<S>(before: Cluster<S>, now: Cluster<S>, desired: map<Key, S>)
    requires Interrupted(before, now, desired, ROUTE_LIST_LABEL, PEER_LABEL) && NeverListed(before)
    ensures NeverListed(now)
    ensures before.Keys <= now.Keys <= before.Keys + desired.Keys
    ensures forall k | k in before && k !in desired :: now[k] == before[k]
    ensures forall k | k in before && k in Owned(before, PEER_LABEL) :: k in Owned(now, PEER_LABEL)
  {
    forall k: Key
      ensures k in before ==> k in now
      ensures k in now ==> (k in before || k in desired) && !HasLabel(now[k], ROUTE_LIST_LABEL)
      ensures k in before && k !in desired ==> now[k] == before[k]
      ensures k in before && HasLabel(before[k], PEER_LABEL) ==> HasLabel(now[k], PEER_LABEL)
    {
      assert SameAt(before, now, k) || FinalAt(before, now, desired, ROUTE_LIST_LABEL, PEER_LABEL, k);
    }
  }

  /** The clusters after each run of the route reconciler, with the routes it desired. */
  ghost predicate RouteRuns<S>(clusters: seq<Cluster<S>>, desired: seq<map<Key, S>>) {
    && |clusters| == |desired| + 1
    && forall i | 0 <= i < |desired| ::
        Interrupted(clusters[i], clusters[i + 1], desired[i], ROUTE_LIST_LABEL, PEER_LABEL)
  }

  /** Over any sequence of runs, failed or complete and whatever they desired, no route is ever deleted: what
      was there at any time, or desired by a complete run, is there at the end. */
  lemma {:induction false} RoutesNeverDeleted<S>(clusters: seq<Cluster<S>>, desired: seq<map<Key, S>>)
    requires RouteRuns(clusters, desired) && NeverListed(clusters[0])
    ensures NeverListed(clusters[|desired|])
    ensures forall i | 0 <= i <= |desired| ::
              Owned(clusters[i], PEER_LABEL).Keys <= Owned(clusters[|desired|], PEER_LABEL).Keys
    ensures forall i | 0 <= i <= |desired| :: clusters[i].Keys <= clusters[|desired|].Keys
  {
    var n := |desired| - 1;
    if desired == [] {
    } else {
      RoutesNeverDeleted(clusters[..n + 1], desired[..n]);
      RouteRunKeepsAll(clusters[n], clusters[n + 1], desired[n]);
      forall i | 0 <= i <= |desired|
        ensures Owned(clusters[i], PEER_LABEL).Keys <= Owned(clusters[|desired|], PEER_LABEL).Keys
        ensures clusters[i].Keys <= clusters[|desired|].Keys
      {
        assert i <= n ==> clusters[..n + 1][i] == clusters[i];
      }
    }
  }

  /** So after a complete run every desired route is there, and there are no others if and only if no earlier
      run left one that is no longer desired. */
  lemma RoutesExactIff<S>(clusters: seq<Cluster<S>>, desired: seq<map<Key, S>>)
    requires RouteRuns(clusters, desired) && NeverListed(clusters[0]) && desired != []
    requires var n := |desired| - 1; Completed(clusters[n], clusters[n + 1], desired[n], ROUTE_LIST_LABEL, PEER_LABEL)
    ensures var n := |desired| - 1;
            && (forall k | k in desired[n] :: k in clusters[n + 1] && clusters[n + 1][k].spec == desired[n][k])
            && (Owned(clusters[n + 1], PEER_LABEL) == desired[n]
                <==> forall i | 0 <= i <= n :: Owned(clusters[i], PEER_LABEL).Keys <= desired[n].Keys)
  {
    var n := |desired| - 1;
    RoutesNeverDeleted(clusters[..n + 1], desired[..n]);
    MismatchedLabels(clusters[n], clusters[n + 1], desired[n], ROUTE_LIST_LABEL, PEER_LABEL);
    assert forall i | 0 <= i <= n :: clusters[..n + 1][i] == clusters[i];
    if forall i | 0 <= i <= n :: Owned(clusters[i], PEER_LABEL).Keys <= desired[n].Keys {
      assert Owned(clusters[n], PEER_LABEL).Keys <= desired[n].Keys;
      forall k | k in clusters[n] && HasLabel(clusters[n][k], PEER_LABEL) && !HasLabel(clusters[n][k], ROUTE_LIST_LABEL)
        ensures k in desired[n] {
        assert k in Owned(clusters[n], PEER_LABEL).Keys;
      }
    }
  }
}
