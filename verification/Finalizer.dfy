/** The finalizer handler over a shared, versioned object. */
module Finalizer {
  import opened Types
  import opened Retry

  function AddFinalizer(fs: seq<string>, f: string): seq<string> {
    if f in fs then fs else fs + [f]
  }

  /** Removes every occurrence, and nothing else. */
  function RemoveFinalizer(fs: seq<string>, f: string): (r: seq<string>)
    ensures f !in r && (f !in fs ==> r == fs)
  {
    if fs == [] then []
    else RemoveFinalizer(fs[..|fs| - 1], f) + if fs[|fs| - 1] == f then [] else [fs[|fs| - 1]]
  }

  /** The others stay, each as often as before. */
  lemma {:induction false} RemovesOnly(fs: seq<string>, f: string)
    ensures multiset(RemoveFinalizer(fs, f)) == multiset(fs)[f := 0]
  {
    if fs == [] {
    } else {
      var init, last := fs[..|fs| - 1], fs[|fs| - 1];
      RemovesOnly(init, f);
      assert fs == init + [last];
      assert multiset(fs) == multiset(init) + multiset{last};
      var rest := RemoveFinalizer(init, f);
      assert RemoveFinalizer(fs, f) == rest + if last == f then [] else [last];
    }
  }

  /** And in the same order. */
  lemma {:induction false} RemoveInOrder(a: seq<string>, b: seq<string>, f: string)
    ensures RemoveFinalizer(a + b, f) == RemoveFinalizer(a, f) + RemoveFinalizer(b, f)
  {
    if b == [] {
      assert a + b == a;
    } else {
      var init, last := b[..|b| - 1], b[|b| - 1];
      RemoveInOrder(a, init, f);
      assert (a + b)[..|a + b| - 1] == a + init && (a + b)[|a + b| - 1] == last;
      var x, y, z := RemoveFinalizer(a, f), RemoveFinalizer(init, f), if last == f then [] else [last];
      assert x + y + z == x + (y + z);
    }
  }

  function Adding(f: string): Content -> Content {
    (c: Content) => c.(finalizers := AddFinalizer(c.finalizers, f))
  }

  function Removing(f: string): Content -> Content {
    (c: Content) => c.(finalizers := RemoveFinalizer(c.finalizers, f))
  }

  lemma {:induction false} RemoveAppended(fs: seq<string>, f: string)
    ensures RemoveFinalizer(fs + [f], f) == RemoveFinalizer(fs, f)
    ensures RemoveFinalizer(RemoveFinalizer(fs, f), f) == RemoveFinalizer(fs, f)
  {
    assert (fs + [f])[..|fs|] == fs;
  }

  function FinalizersOf(s: Option<Stored>): seq<string> {
    if s.Some? then s.value.content.finalizers else []
  }

  // ---------------------------------------------------------------- what every run of the handler keeps

  /** The write takes the finalizer away from a living object, or takes the object away with it. */
  ghost predicate Removes(e: Entry, f: string) {
    e.Write? && f in FinalizersOf(e.before) && f !in FinalizersOf(e.after)
  }

  /** Within the call that the entry belongs to, cleanup succeeded before. */
  ghost predicate CleanedUp(log: seq<Entry>, i: nat)
    requires i <= |log|
  {
    exists j: nat :: j < i && log[j] == Cleanup(true) && forall k | j < k < i :: log[k] != CallStart
  }

  ghost predicate SameOthers(a: seq<string>, b: seq<string>, f: string) {
    forall g | g != f :: multiset(a)[g] == multiset(b)[g]
  }

  lemma SameOthersIff(a: seq<string>, b: seq<string>, f: string)
    requires RemoveFinalizer(a, f) == RemoveFinalizer(b, f)
    ensures SameOthers(a, b, f)
  {
    RemovesOnly(a, f);
    RemovesOnly(b, f);
    forall g | g != f ensures multiset(a)[g] == multiset(b)[g] {
      assert multiset(a)[f := 0][g] == multiset(b)[f := 0][g];
    }
  }

  /** Other finalizers survive, each as often as before and in the same order: so an object does not disappear
      while it has some. */
  ghost predicate KeepsOthers(e: Entry, f: string) {
    && e.Write?
    && SameOthers(FinalizersOf(e.before), FinalizersOf(e.after), f)
    && RemoveFinalizer(FinalizersOf(e.before), f) == RemoveFinalizer(FinalizersOf(e.after), f)
  }

  ghost predicate SafeAt(log: seq<Entry>, i: nat, f: string)
    requires i < |log|
  {
    log[i].Write? && log[i].author == Mine ==> KeepsOthers(log[i], f) && (Removes(log[i], f) ==> CleanedUp(log, i))
  }

  /** Every write of the handler is safe. */
  ghost predicate Safe(log: seq<Entry>, f: string) {
    forall i: nat | i < |log| :: SafeAt(log, i, f)
  }

  lemma SafeExtends(log: seq<Entry>, more: seq<Entry>, f: string)
    requires Safe(log, f) && log <= more
    requires forall i: nat | |log| <= i < |more| :: SafeAt(more, i, f)
    ensures Safe(more, f)
  {
    forall i: nat | i < |log| ensures SafeAt(more, i, f) {
      assert SafeAt(log, i, f);
      assert log[i] == more[i];
      if CleanedUp(log, i) {
        var j: nat :| j < i && log[j] == Cleanup(true) && forall k | j < k < i :: log[k] != CallStart;
        assert more[j] == Cleanup(true);
      }
    }
  }

  /** A full update by either mutation touches nothing but this finalizer. */
  lemma MutationsKeepOthers(e: Entry, f: string)
    ensures MyWrite(e, Full, Adding(f)) ==> KeepsOthers(e, f) && !Removes(e, f) && e.after.Some?
    ensures MyWrite(e, Full, Removing(f)) ==> KeepsOthers(e, f)
  {
    if e.Write? && e.before.Some? {
      RemoveAppended(e.before.value.content.finalizers, f);
      if MyWrite(e, Full, Adding(f)) || MyWrite(e, Full, Removing(f)) {
        SameOthersIff(FinalizersOf(e.before), FinalizersOf(e.after), f);
      }
    }
  }

  /** The finalizer is held, and was added at most once. */
  ghost predicate HoldsOnce(e: Entry, f: string) {
    && e.Write? && e.before.Some? && e.after.Some?
    && FinalizersOf(e.after) == (if f in FinalizersOf(e.before) then FinalizersOf(e.before)
      else FinalizersOf(e.before) + [f])
    && e.after.value.content == e.before.value.content.(finalizers := FinalizersOf(e.after))
  }

  class Handler {
    const server: ApiServer
    const finalizerName: string

    constructor (server: ApiServer, finalizerName: string)
      ensures this.server == server && this.finalizerName == finalizerName
    {
      this.server, this.finalizerName := server, finalizerName;
    }

    /** Adds to the caller's copy and, unless it was there, to the stored object. After success the stored
        object holds the finalizer, not duplicated, and is otherwise what it was. */
    method Add(obj: Content) returns (present: bool, r: Outcome, copy: Content)
      requires server.Valid() && Safe(server.log, finalizerName)
      modifies server
      ensures server.Valid() && Safe(server.log, finalizerName)
      ensures present <==> finalizerName in obj.finalizers
      ensures copy == Adding(finalizerName)(obj)
      ensures old(server.log) + [CallStart] <= server.log
      ensures present ==> server.log == old(server.log) + [CallStart] && server.stored == old(server.stored)
      ensures !present && r == Succeeded ==>
                && HoldsOnce(server.log[|server.log| - 1], finalizerName)
                && server.log[|server.log| - 1].after == server.stored
      ensures !present && r in {ConflictsExhausted, ReadFailed} ==> OnlyOthers(server.log[|old(server.log)| + 1..])
    {
      ghost var was := server.log;
      server.Note(CallStart);
      SafeExtends(was, server.log, finalizerName);
      ghost var start := server.log;
      copy := Adding(finalizerName)(obj);
      if finalizerName in obj.finalizers {
        return true, Succeeded, copy;
      }
      present := false;
      var attempts, current;
      r, attempts, current := RetryCall(server, Full, copy, Adding(finalizerName));
      RetriedMutationIsSafe(start, server.log, finalizerName, Adding(finalizerName));
    }

    /** Acts only on an object marked for deletion that holds the finalizer. A failed cleanup writes nothing. */
    method Finalize(obj: Content, cleanupOk: bool) returns (attempted: bool, r: Option<Outcome>)
      requires server.Valid() && Safe(server.log, finalizerName)
      modifies server
      ensures server.Valid() && Safe(server.log, finalizerName)
      ensures attempted <==> obj.deleting && finalizerName in obj.finalizers
      ensures !attempted ==> r == None && server.log == old(server.log) + [CallStart]
      ensures attempted ==> (r.None? <==> !cleanupOk) && old(server.log) + [CallStart, Cleanup(cleanupOk)] <= server.log
      ensures !attempted || !cleanupOk ==> server.stored == old(server.stored)
      ensures attempted && !cleanupOk ==> server.log == old(server.log) + [CallStart, Cleanup(false)]
      ensures r == Some(Succeeded) ==> finalizerName !in FinalizersOf(server.stored)
      ensures r in {Some(ConflictsExhausted), Some(ReadFailed)} ==> OnlyOthers(server.log[|old(server.log)| + 2..])
    {
      ghost var was := server.log;
      server.Note(CallStart);
      SafeExtends(was, server.log, finalizerName);
      if !(obj.deleting && finalizerName in obj.finalizers) {
        return false, None;
      }
      ghost var started := server.log;
      server.Note(Cleanup(cleanupOk));
      SafeExtends(started, server.log, finalizerName);
      if !cleanupOk {
        return true, None;
      }
      ghost var start := server.log;
      var outcome, attempts, current := RetryCall(server, Full, obj, Removing(finalizerName));
      assert start[|start| - 1] == Cleanup(true);
      RetriedMutationIsSafe(start, server.log, finalizerName, Removing(finalizerName));
      return true, Some(outcome);
    }
  }

  /** A retried mutation keeps the log safe when adding, and when removing right after a cleanup. */
  lemma RetriedMutationIsSafe(start: seq<Entry>, log: seq<Entry>, f: string, mutate: Content -> Content)
    requires Safe(start, f) && start <= log
    requires OnlyOthers(log[|start|..]) || EndsWithMine(log, |start|, Full, mutate)
    requires mutate == Adding(f) || (mutate == Removing(f) && start != [] && start[|start| - 1] == Cleanup(true))
    ensures Safe(log, f)
  {
    if OnlyOthers(log[|start|..]) {
      OthersAreSafe(start, log, f);
    } else {
      var init, e := log[..|log| - 1], log[|log| - 1];
      assert init[|start|..] == log[|start|..|log| - 1];
      OthersAreSafe(start, init, f);
      MutationsKeepOthers(e, f);
      if mutate == Removing(f) {
        assert start[|start| - 1] == init[|start| - 1] == log[|start| - 1];
        forall k | |start| <= k < |init| ensures log[k] != CallStart {
          assert log[k] == init[|start|..][k - |start|];
        }
        assert CleanedUp(log, |init|);
      }
      SafeExtends(init, log, f);
    }
  }

  lemma OthersAreSafe(start: seq<Entry>, log: seq<Entry>, f: string)
    requires Safe(start, f) && start <= log && OnlyOthers(log[|start|..])
    ensures Safe(log, f)
  {
    forall i: nat | |start| <= i < |log| ensures SafeAt(log, i, f) {
      assert log[i] == log[|start|..][i - |start|];
    }
    SafeExtends(start, log, f);
  }

  datatype Call = AddCall(obj: Content) | FinalizeCall(obj: Content, cleanupOk: bool)

  /** Any sequence of calls, with other writers between and during them, leaves a safe log: the handler
      removed its finalizer only after a successful cleanup in the same call, and never touched others'. */
  method AnyRun(h: Handler, calls: seq<Call>)
    requires h.server.Valid() && h.server.log == []
    modifies h.server
    ensures h.server.Valid() && Safe(h.server.log, h.finalizerName)
  {
    for i := 0 to |calls|
      invariant h.server.Valid() && Safe(h.server.log, h.finalizerName)
    {
      ghost var start := h.server.log;
      h.server.Interfere();
      OthersAreSafe(start, h.server.log, h.finalizerName);
      match calls[i]
      case AddCall(obj) =>
        var present, r, copy := h.Add(obj);
      case FinalizeCall(obj, cleanupOk) =>
        var attempted, r := h.Finalize(obj, cleanupOk);
    }
  }
}
