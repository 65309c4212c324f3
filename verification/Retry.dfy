/** Read-mutate-write with retry on conflict, against an API server that other writers use at the same
    time. The server keeps a log of everything that happens to the object. */
module Retry {
  import opened Types

  /** What an object holds besides its resource version. */
  datatype Content = Content(finalizers: seq<string>, deleting: bool, spec: string, status: string)

  datatype Stored = Stored(version: nat, content: Content)

  datatype Writer = Mine | Other

  /** The log: writes with the object before and after, and the marks a caller leaves. */
  datatype Entry =
    | Write(author: Writer, before: Option<Stored>, after: Option<Stored>)
    | CallStart
    | Cleanup(ok: bool)

  /** An update of the whole object, or of its status only. */
  datatype Scope = Full | Status

  /** What the server stores for a submitted object: a full update cannot change the status or the deletion
      mark, and a status update changes nothing else. */
  function Commit(scope: Scope, before: Content, submitted: Content): Content {
    match scope
    case Full => submitted.(status := before.status, deleting := before.deleting)
    case Status => before.(status := submitted.status)
  }

  /** An object marked for deletion disappears with its last finalizer. */
  function Committed(scope: Scope, before: Content, submitted: Content, version: nat): Option<Stored> {
    var content := Commit(scope, before, submitted);
    if content.deleting && content.finalizers == [] then None else Some(Stored(version, content))
  }

  /** So of a full update specification and finalizers are stored, and of a status update the status alone; and an
      object disappears exactly when it is marked for deletion and left without finalizers. */
  lemma CommittedFields(scope: Scope, before: Content, submitted: Content, version: nat)
    ensures var content := Commit(scope, before, submitted);
            && content.deleting == before.deleting
            && content.spec == (if scope == Full then submitted else before).spec
            && content.finalizers == (if scope == Full then submitted else before).finalizers
            && content.status == (if scope == Full then before else submitted).status
            && (Committed(scope, before, submitted, version).None? <==> before.deleting && content.finalizers == [])
            && (Committed(scope, before, submitted, version).Some? ==>
                  Committed(scope, before, submitted, version).value == Stored(version, content))
  {}

  /** The log explains how the object got from `initial` to `now`. */
  ghost predicate Explains(log: seq<Entry>, initial: Option<Stored>, now: Option<Stored>) {
    if log == [] then initial == now
    else
      var last := log[|log| - 1];
      if last.Write? then last.after == now && Explains(log[..|log| - 1], initial, last.before)
      else Explains(log[..|log| - 1], initial, now)
  }

  datatype UpdateResult = Updated | Conflict | Rejected | Unknown

  class ApiServer {
    ghost const initial: Option<Stored>
    var stored: Option<Stored>
    var revision: nat
    ghost var log: seq<Entry>

    ghost predicate Valid()
      reads this
    {
      (stored.Some? ==> stored.value.version <= revision) && Explains(log, initial, stored)
    }

    constructor (stored: Option<Stored>)
      ensures Valid() && this.stored == stored && log == []
    {
      this.stored, initial, log := stored, stored, [];
      revision := if stored.Some? then stored.value.version else 0;
    }

    ghost method Note(e: Entry)
      requires Valid() && !e.Write?
      modifies this`log
      ensures Valid() && log == old(log) + [e]
    {
      log := log + [e];
      assert log[..|log| - 1] == old(log);
    }

    /** Any number of writes by others; each takes a new revision. */
    method Interfere()
      requires Valid()
      modifies this
      ensures Valid() && revision >= old(revision)
      ensures stored == old(stored) || (stored.Some? ==> stored.value.version > old(revision))
      ensures old(log) <= log && OnlyOthers(log[|old(log)|..])
    {
      var n: nat := *;
      while n > 0
        invariant Valid() && revision >= old(revision)
        invariant stored == old(stored) || (stored.Some? ==> stored.value.version > old(revision))
        invariant old(log) <= log && OnlyOthers(log[|old(log)|..])
      {
        var next: Option<Content> := *;
        revision := revision + 1;
        var after := if next.Some? then Some(Stored(revision, next.value)) else None;
        log := log + [Write(Other, stored, after)];
        assert log[..|log| - 1] + [Write(Other, stored, after)] == log;
        stored := after;
        n := n - 1;
      }
    }

    /** A read sees the stored object, or fails. */
    method Get() returns (r: Option<Stored>)
      ensures r.Some? ==> r == stored
    {
      var reachable: bool := *;
      r := if reachable then stored else None;
    }

    /** An update is committed only over the version it was read at. A conflict or a rejection writes
        nothing; an unknown failure may have written. */
    method Update(scope: Scope, obj: Stored) returns (r: UpdateResult)
      requires Valid()
      modifies this
      ensures Valid() && revision >= old(revision)
      ensures r == Updated ==> log != old(log)
      ensures r == Conflict || r == Rejected ==> log == old(log)
      ensures log != old(log) ==>
                && old(stored).Some? && obj.version == old(stored).value.version
                && log == old(log) + [Write(Mine, old(stored), stored)]
                && stored == Committed(scope, old(stored).value.content, obj.content, old(revision) + 1)
      ensures log == old(log) ==> stored == old(stored)
    {
      var rejected: bool := *;
      if rejected || stored.None? {
        return Rejected;
      }
      if obj.version != stored.value.version {
        return Conflict;
      }
      var lost: bool := *;
      if lost {
        return Unknown;
      }
      revision := revision + 1;
      var after := Committed(scope, stored.value.content, obj.content, revision);
      log := log + [Write(Mine, stored, after)];
      assert log[..|log| - 1] == old(log);
      stored := after;
      var answered: bool := *;
      r := if answered then Updated else Unknown;
    }
  }

  ghost predicate OnlyOthers(entries: seq<Entry>) {
    forall i | 0 <= i < |entries| :: entries[i].Write? && entries[i].author == Other
  }

  lemma OthersCompose(a: seq<Entry>, b: seq<Entry>, c: seq<Entry>)
    requires a <= b <= c && OnlyOthers(b[|a|..]) && OnlyOthers(c[|b|..])
    ensures OnlyOthers(c[|a|..])
  {
    assert c[|a|..] == b[|a|..] + c[|b|..];
  }

  /** A write of mine that is the mutation of the object stored right before it. */
  ghost predicate MyWrite(e: Entry, scope: Scope, mutate: Content -> Content) {
    && e.Write? && e.author == Mine && e.before.Some?
    && (e.after.Some? ==>
          e.after == Committed(scope, e.before.value.content, mutate(e.before.value.content), e.after.value.version))
    && (e.after.None? ==> Committed(scope, e.before.value.content, mutate(e.before.value.content), 0) == None)
  }

  /** The object was stored at some time after the first `from` entries of the log. */
  ghost predicate StoredSince(log: seq<Entry>, from: nat, initial: Option<Stored>, obj: Stored) {
    exists n: nat :: from <= n <= |log| && Explains(log[..n], initial, Some(obj))
  }

  /** The mutation of an object that was stored in the meantime. */
  ghost predicate MutatedSince(log: seq<Entry>, from: nat, initial: Option<Stored>, mutate: Content -> Content,
                               content: Content) {
    exists obj :: StoredSince(log, from, initial, obj) && content == mutate(obj.content)
  }

  lemma SinceExtends(log: seq<Entry>, more: seq<Entry>, from: nat, initial: Option<Stored>,
                     mutate: Content -> Content, content: Content)
    requires log <= more && MutatedSince(log, from, initial, mutate, content)
    ensures MutatedSince(more, from, initial, mutate, content)
  {
    var obj :| StoredSince(log, from, initial, obj) && content == mutate(obj.content);
    var n: nat :| from <= n <= |log| && Explains(log[..n], initial, Some(obj));
    assert more[..n] == log[..n];
    assert StoredSince(more, from, initial, obj);
  }

  const MAX_ATTEMPTS := 4  // steps of client-go's default back-off

  datatype Outcome = Succeeded | ConflictsExhausted | ReadFailed | WriteFailed

  /** Success means that the last thing that happened to the object is this call's write, that it is the
      mutation of the object stored right before it, whatever others wrote in the meantime, and that `current` is
      what was committed. With exhausted conflicts or a failed read this call wrote nothing. Without success
      `current` is the mutation of an object that some attempt read, or the original if none did. */
  method RetryCall(server: ApiServer, scope: Scope, original: Content, mutate: Content -> Content)
    returns (r: Outcome, attempts: nat, current: Content)
    requires server.Valid()
    modifies server
    ensures server.Valid()
    ensures 1 <= attempts <= 4 && (r == ConflictsExhausted ==> attempts == 4)
    ensures old(server.log) <= server.log
    ensures r == ConflictsExhausted || r == ReadFailed ==> OnlyOthers(server.log[|old(server.log)|..])
    ensures r == Succeeded ==> EndsWithMine(server.log, |old(server.log)|, scope, mutate)
    ensures r == Succeeded ==> CommittedBy(server.log[|server.log| - 1], scope, mutate, current)
    ensures r == WriteFailed ==>
              OnlyOthers(server.log[|old(server.log)|..]) || EndsWithMine(server.log, |old(server.log)|, scope, mutate)
    ensures r != Succeeded ==>
              || (r == ReadFailed && current == original)
              || MutatedSince(server.log, |old(server.log)|, server.initial, mutate, current)
  {
    attempts, current := 0, original;
    ghost var start := server.log;
    while attempts < MAX_ATTEMPTS
      invariant server.Valid() && attempts <= MAX_ATTEMPTS
      invariant start <= server.log && OnlyOthers(server.log[|start|..])
      invariant if attempts == 0 then current == original
                else MutatedSince(server.log, |start|, server.initial, mutate, current)
      decreases MAX_ATTEMPTS - attempts
    {
      attempts := attempts + 1;
      var again: bool;
      r, again, current := Attempt(server, start, scope, original, current, mutate);
      if !again {
        return;
      }
    }
    r := ConflictsExhausted;
  }

  /** What the server answers to a write: the object as committed, with its new version if it still exists. */
  ghost predicate CommittedBy(e: Entry, scope: Scope, mutate: Content -> Content, current: Content) {
    && e.Write? && e.before.Some?
    && current == Commit(scope, e.before.value.content, mutate(e.before.value.content))
    && (e.after.Some? ==> e.after.value.content == current)
  }

  ghost predicate EndsWithMine(log: seq<Entry>, from: nat, scope: Scope, mutate: Content -> Content) {
    && from < |log|
    && OnlyOthers(log[from..|log| - 1])
    && MyWrite(log[|log| - 1], scope, mutate)
  }

  /** One attempt of a call that began with log `start`. */
  method Attempt(server: ApiServer, ghost start: seq<Entry>, scope: Scope, ghost original: Content, last: Content,
                 mutate: Content -> Content)
    returns (r: Outcome, again: bool, current: Content)
    requires server.Valid() && start <= server.log && OnlyOthers(server.log[|start|..])
    requires last == original || MutatedSince(server.log, |start|, server.initial, mutate, last)
    modifies server
    ensures server.Valid() && start <= server.log
    ensures again <==> r == ConflictsExhausted
    ensures r == ConflictsExhausted || r == ReadFailed ==> OnlyOthers(server.log[|start|..])
    ensures r == Succeeded ==> EndsWithMine(server.log, |start|, scope, mutate)
    ensures r == Succeeded ==> CommittedBy(server.log[|server.log| - 1], scope, mutate, current)
    ensures r == WriteFailed ==> OnlyOthers(server.log[|start|..]) || EndsWithMine(server.log, |start|, scope, mutate)
    ensures r != Succeeded ==>
              || (r == ReadFailed && current == original)
              || MutatedSince(server.log, |start|, server.initial, mutate, current)
  {
    ghost var was := server.log;
    server.Interfere();
    OthersCompose(start, was, server.log);
    var got := server.Get();
    if got.None? {
      if last != original {
        SinceExtends(was, server.log, |start|, server.initial, mutate, last);
      }
      return ReadFailed, false, last;
    }
    r, current := WriteBack(server, start, scope, got.value, mutate);
    again := r == ConflictsExhausted;
  }

  /** Mutates what was read and submits it, after others may have written. */
  method WriteBack(server: ApiServer, ghost start: seq<Entry>, scope: Scope, got: Stored, mutate: Content -> Content)
    returns (r: Outcome, current: Content)
    requires server.Valid() && start <= server.log && OnlyOthers(server.log[|start|..]) && server.stored == Some(got)
    modifies server
    ensures server.Valid() && start <= server.log && r != ReadFailed
    ensures r == ConflictsExhausted ==> OnlyOthers(server.log[|start|..])
    ensures r == Succeeded ==> EndsWithMine(server.log, |start|, scope, mutate)
    ensures r == Succeeded ==> CommittedBy(server.log[|server.log| - 1], scope, mutate, current)
    ensures r == WriteFailed ==> OnlyOthers(server.log[|start|..]) || EndsWithMine(server.log, |start|, scope, mutate)
    ensures r != Succeeded ==> MutatedSince(server.log, |start|, server.initial, mutate, current)
  {
    current := mutate(got.content);
    ghost var read := server.log;
    server.Interfere();
    OthersCompose(start, read, server.log);
    ghost var log, stored := server.log, server.stored;
    var updated := server.Update(scope, Stored(got.version, current));
    // the version is unchanged, so the object is the one that was read
    assert server.log != log ==> stored == Some(got);
    assert server.log != log ==>
             server.log[..|server.log| - 1] == log && MyWrite(server.log[|server.log| - 1], scope, mutate);
    assert StoredSince(server.log, |start|, server.initial, got) by {
      assert server.log[..|read|] == read;
    }
    match updated
    case Updated =>
      current := Commit(scope, got.content, current);
      return Succeeded, current;
    case Conflict => return ConflictsExhausted, current;
    case Rejected | Unknown => return WriteFailed, current;
  }
}
