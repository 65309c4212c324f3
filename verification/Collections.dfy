/** Sequences of sequences, and enumerations of sets in any order, as Go iterates over maps. */
module Collections {

  function Concat<T>(ss: seq<seq<T>>): seq<T> {
    if ss == [] then [] else Concat(ss[..|ss| - 1]) + ss[|ss| - 1]
  }

  lemma ConcatOne<T>(ss: seq<seq<T>>, s: seq<T>)
    ensures Concat(ss + [s]) == Concat(ss) + s
  {
    assert (ss + [s])[..|ss|] == ss;
  }

  lemma {:induction false} InConcat<T>(ss: seq<seq<T>>, x: T)
    ensures x in Concat(ss) <==> exists i | 0 <= i < |ss| :: x in ss[i]
  {
    if ss == [] {
    } else {
      InConcat(ss[..|ss| - 1], x);
    }
  }

  ghost predicate Distinct<T>(s: seq<T>) {
    forall i, j | 0 <= i < j < |s| :: s[i] != s[j]
  }

  /** A sequence without repetition counts each of its elements once. */
  lemma {:induction false} DistinctOnce<T>(s: seq<T>, x: T)
    requires Distinct(s)
    ensures multiset(s)[x] == if x in s then 1 else 0
  {
    if s == [] {
      assert x !in s;
    } else {
      var init := s[..|s| - 1];
      DistinctOnce(init, x);
      assert s == init + [s[|s| - 1]];
    }
  }

  /** The sequence lists the set, each element once. */
  ghost predicate IsEnumeration<T(!new)>(s: seq<T>, of: set<T>) {
    Distinct(s) && forall x :: x in s <==> x in of
  }

  /** Any enumeration of a set. */
  method Enumerate<T(==, !new)>(s: set<T>) returns (order: seq<T>)
    ensures IsEnumeration(order, s)
  {
    var todo := s;
    order := [];
    while todo != {}
      invariant Distinct(order)
      invariant todo <= s && forall x :: x in order <==> x in s && x !in todo
      decreases todo
    {
      var x :| x in todo;
      todo := todo - {x};
      order := order + [x];
    }
  }

  lemma {:induction false} SomeEnumeration<T(!new)>(s: set<T>) returns (order: seq<T>)
    ensures IsEnumeration(order, s)
  {
    if s == {} {
      order := [];
    } else {
      var x :| x in s;
      var rest := SomeEnumeration(s - {x});
      order := rest + [x];
    }
  }

  lemma EnumerationOfNone<T(!new)>(s: seq<T>, of: set<T>)
    requires IsEnumeration(s, of)
    ensures s == [] || of != {}
  {
    if s != [] {
      assert s[0] in of;
    }
  }

  lemma EnumerationWithout<T(!new)>(s: seq<T>, i: nat, of: set<T>)
    requires IsEnumeration(s, of) && i < |s|
    ensures IsEnumeration(s[..i] + s[i + 1..], of - {s[i]})
  {
    var rest := s[..i] + s[i + 1..];
    forall x ensures x in rest <==> x in s && x != s[i] {
      if x in s && x != s[i] {
        var j :| 0 <= j < |s| && s[j] == x;
        assert rest[if j < i then j else j - 1] == x;
      }
    }
  }

  /** Two enumerations of a set are permutations of each other. */
  lemma EnumerationsPermuted<T(!new)>(a: seq<T>, b: seq<T>, of: set<T>)
    requires IsEnumeration(a, of) && IsEnumeration(b, of)
    ensures multiset(a) == multiset(b)
  {
    forall x ensures multiset(a)[x] == multiset(b)[x] {
      DistinctOnce(a, x);
      DistinctOnce(b, x);
    }
  }

  /** One step along a sequence. */
  lemma NextPrefix<T>(a: seq<T>, s: seq<T>, j: nat)
    requires j < |s|
    ensures a + s[..j] + [s[j]] == a + s[..j + 1]
  {}
}
