/** Address resolution, and the loop that watches it for changes. */
module Networking {
  import opened Types
  import opened Ordering

  /** The answers for names at some time; a name without one does not resolve. */
  type Answers = map<string, seq<string>>

  function Lookup(answers: Answers, name: string): seq<string> {
    if name in answers then answers[name] else []
  }

  /** The addresses behind the given ones: literal addresses, and the answers for names. */
  function Resolve(isIP: string -> bool, answers: Answers, addresses: seq<string>): seq<string> {
    if addresses == [] then []
    else
      var last := addresses[|addresses| - 1];
      Resolve(isIP, answers, addresses[..|addresses| - 1]) + if isIP(last) then [last] else Lookup(answers, last)
  }

  lemma ResolveNext(isIP: string -> bool, answers: Answers, addresses: seq<string>, a: string)
    ensures Resolve(isIP, answers, addresses + [a])
            == Resolve(isIP, answers, addresses) + if isIP(a) then [a] else Lookup(answers, a)
  {
    assert (addresses + [a])[..|addresses|] == addresses;
  }

  /** Addresses are resolved one by one, in order. */
  lemma {:induction false} ResolveAppend(isIP: string -> bool, answers: Answers, a: seq<string>, b: seq<string>)
    ensures Resolve(isIP, answers, a + b) == Resolve(isIP, answers, a) + Resolve(isIP, answers, b)
  {
    if b == [] {
      assert a + b == a;
    } else {
      var init, last := b[..|b| - 1], b[|b| - 1];
      assert b == init + [last] && a + b == a + init + [last];
      ResolveAppend(isIP, answers, a, init);
      ResolveNext(isIP, answers, init, last);
      ResolveNext(isIP, answers, a + init, last);
      var x, y := Resolve(isIP, answers, a), Resolve(isIP, answers, init);
      Regroup(x, y, if isIP(last) then [last] else Lookup(answers, last));
    }
  }

  lemma Regroup<T>(x: seq<T>, y: seq<T>, z: seq<T>)
    ensures x + y + z == x + (y + z)
  {}

  /** A literal address stands for itself, and a name for its answers. */
  lemma ResolveOne(isIP: string -> bool, answers: Answers, a: string)
    ensures isIP(a) ==> Resolve(isIP, answers, [a]) == [a]
    ensures !isIP(a) ==> Resolve(isIP, answers, [a]) == if a in answers then answers[a] else []
  {
    assert [a][..0] == [];
  }

  /** So the result holds exactly the literal addresses and the answers for the names. */
  lemma {:induction false} ResolvesTo(isIP: string -> bool, answers: Answers, addresses: seq<string>, x: string)
    ensures x in Resolve(isIP, answers, addresses)
            <==> exists a | a in addresses :: (isIP(a) && x == a) || (!isIP(a) && a in answers && x in answers[a])
  {
    if addresses == [] {
    } else {
      var n := |addresses| - 1;
      ResolvesTo(isIP, answers, addresses[..n], x);
      assert forall a :: a in addresses <==> a in addresses[..n] || a == addresses[n];
    }
  }

  /** Literal addresses resolve to themselves, whatever the answers. */
  lemma {:induction false} ResolveLiteral(isIP: string -> bool, answers: Answers, addresses: seq<string>)
    requires forall i | 0 <= i < |addresses| :: isIP(addresses[i])
    ensures Resolve(isIP, answers, addresses) == addresses
  {
    if addresses == [] {
    } else {
      ResolveLiteral(isIP, answers, addresses[..|addresses| - 1]);
    }
  }

  function FirstAddresses(remotes: seq<Remote>): seq<string>
    requires forall i | 0 <= i < |remotes| :: remotes[i].addresses != []
  {
    seq(|remotes|, i requires 0 <= i < |remotes| => remotes[i].addresses[0])
  }

  /** What one round of resolving the first address of every peer yields, in order. */
  function Round(remotes: seq<Remote>, isIP: string -> bool, answers: Answers): seq<string>
    requires forall i | 0 <= i < |remotes| :: remotes[i].addresses != []
  {
    Resolve(isIP, answers, FirstAddresses(remotes))
  }

  method CollectIPs(remotes: seq<Remote>, isIP: string -> bool, answers: Answers)
    returns (ips: seq<string>)
    requires forall i | 0 <= i < |remotes| :: remotes[i].addresses != []
    ensures ips == Round(remotes, isIP, answers)
  {
    ips := [];
    ghost var addresses := FirstAddresses(remotes);
    for i := 0 to |remotes|
      invariant ips == Resolve(isIP, answers, addresses[..i])
    {
      assert addresses[..i + 1] == addresses[..i] + [remotes[i].addresses[0]];
      ResolveAppend(isIP, answers, addresses[..i], [remotes[i].addresses[0]]);
      ips := ips + Resolve(isIP, answers, [remotes[i].addresses[0]]);
    }
    assert addresses[..|remotes|] == addresses;
  }

  /** What one lookup per tick finds. */
  function Rounds(remotes: seq<Remote>, isIP: string -> bool, ticks: seq<Answers>): seq<seq<string>>
    requires forall i | 0 <= i < |remotes| :: remotes[i].addresses != []
  {
    seq(|ticks|, t requires 0 <= t < |ticks| => Round(remotes, isIP, ticks[t]))
  }

  lemma RoundsOne(remotes: seq<Remote>, isIP: string -> bool, ticks: seq<Answers>, t: nat)
    requires (forall i | 0 <= i < |remotes| :: remotes[i].addresses != []) && t < |ticks|
    ensures Rounds(remotes, isIP, ticks[..t + 1])
            == Rounds(remotes, isIP, ticks[..t]) + [Round(remotes, isIP, ticks[t])]
  {}

  /** What the next tick compares with: the initial list as it was found, later the sorted list of the last tick. */
  function Previous(sort: seq<string> -> seq<string>, initial: seq<string>, found: seq<seq<string>>): seq<string> {
    if found == [] then initial else sort(found[|found| - 1])
  }

  /** Which ticks push, given what they find: those whose sorted list is another than the previous one. */
  function PushesFor(sort: seq<string> -> seq<string>, initial: seq<string>, found: seq<seq<string>>): seq<bool> {
    if found == [] then []
    else
      var n := |found| - 1;
      PushesFor(sort, initial, found[..n]) + [Previous(sort, initial, found[..n]) != sort(found[n])]
  }

  lemma PushesOne(sort: seq<string> -> seq<string>, initial: seq<string>, found: seq<seq<string>>, ips: seq<string>)
    ensures Previous(sort, initial, found + [ips]) == sort(ips)
    ensures PushesFor(sort, initial, found + [ips])
            == PushesFor(sort, initial, found) + [Previous(sort, initial, found) != sort(ips)]
  {
    assert (found + [ips])[..|found|] == found;
  }

  /** The next round of lookups. */
  method CollectNext(remotes: seq<Remote>, isIP: string -> bool, ticks: seq<Answers>, t: nat,
                     ghost found: seq<seq<string>>)
    returns (ips: seq<string>)
    requires (forall i | 0 <= i < |remotes| :: remotes[i].addresses != []) && t < |ticks|
    requires found == Rounds(remotes, isIP, ticks[..t])
    ensures found + [ips] == Rounds(remotes, isIP, ticks[..t + 1])
  {
    ips := CollectIPs(remotes, isIP, ticks[t]);
    RoundsOne(remotes, isIP, ticks, t);
  }

  /** The loop over ticks, starting from an initial list. */
  method WatchIPs(remotes: seq<Remote>, isIP: string -> bool, initial: seq<string>, ticks: seq<Answers>,
                  sort: seq<string> -> seq<string>) returns (pushed: seq<bool>)
    requires forall i | 0 <= i < |remotes| :: remotes[i].addresses != []
    ensures pushed == PushesFor(sort, initial, Rounds(remotes, isIP, ticks))
  {
    pushed := [];
    var prevIPs := initial;
    ghost var found := [];
    for t := 0 to |ticks|
      invariant found == Rounds(remotes, isIP, ticks[..t])
      invariant prevIPs == Previous(sort, initial, found) && pushed == PushesFor(sort, initial, found)
    {
      var currIPs := CollectNext(remotes, isIP, ticks, t, found);
      PushesOne(sort, initial, found, currIPs);
      found := found + [currIPs];
      currIPs := sort(currIPs);
      if prevIPs != currIPs {
        prevIPs := currIPs;
        pushed := pushed + [true];
      } else {
        pushed := pushed + [false];
      }
    }
    assert ticks[..|ticks|] == ticks;
  }

  /** One lookup at the start and one per tick. */
  method ResolveRemoteIP(remotes: seq<Remote>, isIP: string -> bool, first: Answers, ticks: seq<Answers>)
    returns (pushed: seq<bool>)
    requires forall i | 0 <= i < |remotes| :: remotes[i].addresses != []
    ensures pushed == PushesFor(Sort, Round(remotes, isIP, first), Rounds(remotes, isIP, ticks))
  {
    var initial := CollectIPs(remotes, isIP, first);
    pushed := WatchIPs(remotes, isIP, initial, ticks, Sort);
  }

  /** A tick compares with the initial list, or with the sorted one of the tick before. */
  lemma {:induction false} PushAt(sort: seq<string> -> seq<string>, initial: seq<string>, found: seq<seq<string>>,
                                  t: nat)
    requires t < |found|
    ensures |PushesFor(sort, initial, found)| == |found|
    ensures PushesFor(sort, initial, found)[t]
            <==> (if t == 0 then initial else sort(found[t - 1])) != sort(found[t])
  {
    var n := |found| - 1;
    if n == 0 {
    } else {
      PushAt(sort, initial, found[..n], if t < n then t else 0);
    }
  }

  /** No change of the multiset of addresses is missed, and from the second tick on a push means a change. The
      first tick compares with an unsorted list, so there a push without a change happens exactly when that list
      was not sorted. */
  lemma PushMeansChange(initial: seq<string>, found: seq<seq<string>>, t: nat)
    requires t < |found|
    ensures |PushesFor(Sort, initial, found)| == |found|
    ensures t == 0 ==>
              (PushesFor(Sort, initial, found)[t] <==> multiset(found[0]) != multiset(initial) || !IsSorted(initial))
    ensures t > 0 ==> (PushesFor(Sort, initial, found)[t] <==> multiset(found[t]) != multiset(found[t - 1]))
  {
    PushAt(Sort, initial, found, t);
    if t == 0 {
      SortedAlready(initial, found[0]);
    } else {
      SortCanonical(found[t - 1], found[t]);
    }
  }

  ghost predicate AllLiteral(remotes: seq<Remote>, isIP: string -> bool)
    requires forall i | 0 <= i < |remotes| :: remotes[i].addresses != []
  {
    forall i | 0 <= i < |remotes| :: isIP(remotes[i].addresses[0])
  }

  /** When every first address is literal, two rounds never differ: no tick after the first pushes. */
  lemma LiteralsNeverPush(remotes: seq<Remote>, isIP: string -> bool, initial: seq<string>, ticks: seq<Answers>, t: nat)
    requires (forall i | 0 <= i < |remotes| :: remotes[i].addresses != []) && AllLiteral(remotes, isIP)
    requires 1 <= t < |ticks|
    ensures |PushesFor(Sort, initial, Rounds(remotes, isIP, ticks))| == |ticks|
    ensures !PushesFor(Sort, initial, Rounds(remotes, isIP, ticks))[t]
  {
    var found := Rounds(remotes, isIP, ticks);
    LiteralRound(remotes, isIP, ticks[t]);
    LiteralRound(remotes, isIP, ticks[t - 1]);
    assert found[t] == found[t - 1];
    PushAt(Sort, initial, found, t);
  }

  lemma LiteralRound(remotes: seq<Remote>, isIP: string -> bool, answers: Answers)
    requires (forall i | 0 <= i < |remotes| :: remotes[i].addresses != []) && AllLiteral(remotes, isIP)
    ensures Round(remotes, isIP, answers) == FirstAddresses(remotes)
  {
    ResolveLiteral(isIP, answers, FirstAddresses(remotes));
  }

  /** A list equals the sorted form of another exactly when it is sorted and holds the same strings. */
  lemma SortedAlready(a: seq<string>, b: seq<string>)
    ensures a == Sort(b) <==> multiset(a) == multiset(b) && IsSorted(a)
  {
    SortSorts(b);
    if multiset(a) == multiset(b) && IsSorted(a) {
      OneOrderedForm(a, Sort(b));
    }
  }
}
