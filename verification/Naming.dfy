/** Host names, object names and the router-compatible SNI, with the string functions they rest on
    (decimal printing, `strings.Split` on dots and `strings.Join`). */
module Naming {
  import opened Types

  // ---------------------------------------------------------------- decimal printing

  predicate IsDigit(c: char) {
    '0' <= c <= '9'
  }

  /** `%d` of a non-negative number. */
  function Decimal(n: nat): (s: string)
    ensures |s| >= 1 && forall i | 0 <= i < |s| :: IsDigit(s[i])
  {
    if n < 10 then ['0' + n as char] else Decimal(n / 10) + ['0' + (n % 10) as char]
  }

  /** `%d` of a signed number. */
  function SignedDecimal(x: int): string {
    if x < 0 then "-" + Decimal(-x) else Decimal(x)
  }

  /** Reads a string of digits back. */
  function Value(s: string): nat
    requires forall i | 0 <= i < |s| :: IsDigit(s[i])
  {
    if s == [] then 0
    else
      assert IsDigit(s[|s| - 1]);
      Value(s[..|s| - 1]) * 10 + (s[|s| - 1] as int - '0' as int)
  }

  lemma {:induction false} DecimalRoundTrip(n: nat)
    ensures Value(Decimal(n)) == n
  {
    if n < 10 {
      assert Decimal(n)[..0] == [];
    } else {
      DecimalRoundTrip(n / 10);
      assert Decimal(n)[..|Decimal(n)| - 1] == Decimal(n / 10);
    }
  }

  /** No leading zeros. */
  lemma {:induction false} DecimalLeads(n: nat)
    ensures Decimal(n)[0] == '0' <==> n == 0
  {
    if n < 10 {
    } else {
      DecimalLeads(n / 10);
    }
  }

  // ---------------------------------------------------------------- labels of a host name

  predicate DotFree(s: string) {
    '.' !in s
  }

  /** The labels of a string with one more character in front. */
  function WithChar(c: char, labels: seq<string>): (r: seq<string>)
    requires |labels| >= 1
    ensures |r| >= 1
  {
    if c == '.' then [[]] + labels else [[c] + labels[0]] + labels[1..]
  }

  /** `strings.Split(s, ".")`. */
  function Split(s: string): (labels: seq<string>)
    ensures |labels| >= 1
  {
    if s == [] then [[]] else WithChar(s[0], Split(s[1..]))
  }

  /** `strings.Join(labels, sep)`. */
  function Join(labels: seq<string>, sep: string): string {
    if |labels| == 0 then [] else if |labels| == 1 then labels[0] else labels[0] + sep + Join(labels[1..], sep)
  }

  lemma {:induction false} SplitDotFree(s: string)
    ensures forall i | 0 <= i < |Split(s)| :: DotFree(Split(s)[i])
  {
    if s == [] {
    } else {
      SplitDotFree(s[1..]);
    }
  }

  lemma {:induction false} SplitSingle(a: string)
    requires DotFree(a)
    ensures Split(a) == [a]
  {
    if a == [] {
    } else {
      SplitSingle(a[1..]);
      assert a == [a[0]] + a[1..];
    }
  }

  lemma WithCharAppend(c: char, x: seq<string>, y: seq<string>)
    requires |x| >= 1
    ensures WithChar(c, x + y) == WithChar(c, x) + y
  {
    assert (x + y)[1..] == x[1..] + y;
  }

  lemma {:induction false} SplitAppend(a: string, t: string)
    ensures Split(a + "." + t) == Split(a) + Split(t)
  {
    var s := a + "." + t;
    if a == [] {
      assert s[1..] == t;
    } else {
      SplitAppend(a[1..], t);
      assert s[1..] == a[1..] + "." + t;
      WithCharAppend(a[0], Split(a[1..]), Split(t));
    }
  }

  lemma SplitFirst(a: string, t: string)
    requires DotFree(a)
    ensures Split(a + "." + t) == [a] + Split(t)
  {
    SplitAppend(a, t);
    SplitSingle(a);
  }

  lemma SingleLabel(a: string)
    requires |Split(a)| == 1
    ensures DotFree(a)
  {
    SplitDotFree(a);
    JoinSplit(a);
  }

  lemma JoinWithChar(c: char, labels: seq<string>, sep: string)
    requires |labels| >= 1
    ensures Join(WithChar(c, labels), sep) == (if c == '.' then sep else [c]) + Join(labels, sep)
  {
    var more := WithChar(c, labels);
    if c == '.' {
      assert more[1..] == labels;
    } else {
      assert more[1..] == labels[1..];
    }
  }

  /** Splitting and joining with dots undo each other. */
  lemma {:induction false} JoinSplit(s: string)
    ensures Join(Split(s), ".") == s
  {
    if s == [] {
    } else {
      JoinSplit(s[1..]);
      JoinWithChar(s[0], Split(s[1..]), ".");
      assert s == [s[0]] + s[1..];
    }
  }

  // ---------------------------------------------------------------- the names in use

  /** svc.cluster.local */
  const DOMAIN: string := "svc" + "." + ("cluster" + "." + "local")

  /** The host name under which a service is exported: name.namespace.svc.cluster.local */
  function Hostname(name: string, namespace: string): string {
    name + "." + (namespace + "." + DOMAIN)
  }

  /** How an importer reads a host name; `None` is Go's index-out-of-range panic. */
  function ServiceNameAndNs(hostname: string): Option<Key> {
    var labels := Split(hostname);
    if |labels| < 2 then None else Some(Key(labels[1], labels[0]))
  }

  function SeparateWithDash(hostname: string): string {
    Join(Split(hostname), "-")
  }

  function RouterCompatibleSNI(name: string, namespace: string, port: uint32): string {
    Hostname(name + "-" + Decimal(port), namespace)
  }

  /** A host name cannot be read exactly when it has no dot. */
  lemma UnreadableIff(hostname: string)
    ensures ServiceNameAndNs(hostname).None? <==> DotFree(hostname)
  {
    if DotFree(hostname) {
      SplitSingle(hostname);
    } else if |Split(hostname)| == 1 {
      SingleLabel(hostname);
    }
  }

  /** The first label read from `a.t` is `a` exactly when `a` has no dot of its own. */
  lemma FirstLabel(a: string, t: string)
    ensures Split(a + "." + t)[0] == a <==> DotFree(a)
  {
    SplitDotFree(a + "." + t);
    if DotFree(a) {
      SplitFirst(a, t);
    }
  }

  /** Parsing undoes printing exactly for dot-free names and namespaces. */
  lemma HostnameRoundTrip(name: string, namespace: string)
    ensures ServiceNameAndNs(Hostname(name, namespace)) == Some(Key(namespace, name))
            <==> DotFree(name) && DotFree(namespace)
    ensures ServiceNameAndNs(Hostname(name, namespace)).Some?
  {
    var tail := namespace + "." + DOMAIN;
    FirstLabel(name, tail);
    FirstLabel(namespace, DOMAIN);
    SplitAppend(name, tail);
    if DotFree(name) {
      SplitFirst(name, tail);
    }
  }

  /** Distinct valid services have distinct host names. */
  lemma HostnameInjective(a: Key, b: Key)
    requires DotFree(a.name) && DotFree(a.namespace) && DotFree(b.name) && DotFree(b.namespace)
    requires Hostname(a.name, a.namespace) == Hostname(b.name, b.namespace)
    ensures a == b
  {
    HostnameRoundTrip(a.name, a.namespace);
    HostnameRoundTrip(b.name, b.namespace);
  }

  // ---------------------------------------------------------------- dash-joined names

  function Dash(c: char): char {
    if c == '.' then '-' else c
  }

  /** Joining the labels with dashes replaces every dot by a dash and nothing else. */
  lemma {:induction false} SeparateWithDashReplaces(h: string)
    ensures |SeparateWithDash(h)| == |h|
    ensures forall i | 0 <= i < |h| :: SeparateWithDash(h)[i] == Dash(h[i])
  {
    if h == [] {
    } else {
      SeparateWithDashReplaces(h[1..]);
      JoinWithChar(h[0], Split(h[1..]), "-");
      assert SeparateWithDash(h) == [Dash(h[0])] + SeparateWithDash(h[1..]);
    }
  }

  /** The strings agree up to dots and dashes. */
  predicate DashAlike(a: string, b: string) {
    |a| == |b| && forall i | 0 <= i < |a| :: Dash(a[i]) == Dash(b[i])
  }

  /** So two host names share a dashed form exactly when they agree up to dots and dashes. */
  lemma SeparateWithDashCollides(a: string, b: string)
    ensures SeparateWithDash(a) == SeparateWithDash(b) <==> DashAlike(a, b)
  {
    SeparateWithDashReplaces(a);
    SeparateWithDashReplaces(b);
    if DashAlike(a, b) {
      assert SeparateWithDash(a) == SeparateWithDash(b);
    }
  }

  // ---------------------------------------------------------------- the router SNI

  lemma DomainLabels()
    ensures Split(DOMAIN) == ["svc", "cluster", "local"]
  {
    SplitFirst("svc", "cluster" + "." + "local");
    SplitFirst("cluster", "local");
    SplitSingle("local");
  }

  /** The five labels of the SNI of a service with dot-free names. */
  lemma SniLabels(name: string, namespace: string, port: uint32)
    requires DotFree(name) && DotFree(namespace)
    ensures Split(RouterCompatibleSNI(name, namespace, port))
            == [name + "-" + Decimal(port), namespace, "svc", "cluster", "local"]
  {
    var first := name + "-" + Decimal(port);
    assert DotFree(first) by {
      assert forall i | 0 <= i < |Decimal(port)| :: IsDigit(Decimal(port)[i]);
    }
    SplitFirst(first, namespace + "." + DOMAIN);
    SplitFirst(namespace, DOMAIN);
    DomainLabels();
  }

  /** A suffix without dashes is determined by the last dash. */
  lemma LastDash(a: string, d: string, b: string, e: string)
    requires '-' !in d && '-' !in e
    requires a + "-" + d == b + "-" + e
    ensures a == b && d == e
  {
    var s, t := a + "-" + d, b + "-" + e;
    assert s[|a|] == '-' && t[|b|] == '-';
    assert forall i | |a| < i < |s| :: s[i] == d[i - |a| - 1] && s[i] != '-';
    assert forall i | |b| < i < |t| :: t[i] == e[i - |b| - 1] && t[i] != '-';
    assert |a| == |b|;
    assert a == s[..|a|] && b == t[..|b|];
    assert d == s[|a| + 1..] && e == t[|b| + 1..];
  }

  /** Only dot-free names give an SNI of five labels. */
  lemma SniLabelCount(name: string, namespace: string, port: uint32)
    requires |Split(RouterCompatibleSNI(name, namespace, port))| == 5
    ensures DotFree(name) && DotFree(namespace)
  {
    var first := name + "-" + Decimal(port);
    SplitAppend(first, namespace + "." + DOMAIN);
    SplitAppend(namespace, DOMAIN);
    DomainLabels();
    SingleLabel(first);
    SingleLabel(namespace);
    assert name == first[..|name|];
  }

  /** The SNI of a service with dot-free names is that of no other service, namespace or port. */
  lemma SniInjective(n1: string, s1: string, p1: uint32, n2: string, s2: string, p2: uint32)
    requires DotFree(n1) && DotFree(s1)
    requires RouterCompatibleSNI(n1, s1, p1) == RouterCompatibleSNI(n2, s2, p2)
    ensures n1 == n2 && s1 == s2 && p1 == p2
  {
    SniLabels(n1, s1, p1);
    SniLabelCount(n2, s2, p2);
    SniLabels(n2, s2, p2);
    assert [n1 + "-" + Decimal(p1), s1, "svc", "cluster", "local"][0]
        == [n2 + "-" + Decimal(p2), s2, "svc", "cluster", "local"][0];
    assert [n1 + "-" + Decimal(p1), s1, "svc", "cluster", "local"][1]
        == [n2 + "-" + Decimal(p2), s2, "svc", "cluster", "local"][1];
    LastDash(n1, Decimal(p1), n2, Decimal(p2));
    DecimalRoundTrip(p1);
    DecimalRoundTrip(p2);
  }

  // ---------------------------------------------------------------- host-name grammar

  predicate IsAlphanumeric(c: char) {
    'a' <= c <= 'z' || 'A' <= c <= 'Z' || IsDigit(c)
  }

  predicate IsLabelChar(c: char) {
    IsAlphanumeric(c) || c == '-'
  }

  /** A label of the grammar of RFC 952 as relaxed by section 2.1 of RFC 1123. */
  predicate ValidLabel(s: string) {
    && |s| >= 1
    && IsAlphanumeric(s[0])
    && IsAlphanumeric(s[|s| - 1])
    && forall i | 0 <= i < |s| :: IsLabelChar(s[i])
  }

  predicate ValidHostName(h: string) {
    forall i | 0 <= i < |Split(h)| :: ValidLabel(Split(h)[i])
  }

  /** What a service name must satisfy to begin a label: it need not end one. */
  predicate BeginsLabel(s: string) {
    && |s| >= 1
    && IsAlphanumeric(s[0])
    && forall i | 0 <= i < |s| :: IsLabelChar(s[i])
  }

  const MAX_LABEL := 63  // section 2.3.4 of RFC 1035

  lemma PortLabel(name: string, port: uint32)
    ensures ValidLabel(name + "-" + Decimal(port)) <==> BeginsLabel(name)
  {
    var d := Decimal(port);
    var s := name + "-" + d;
    assert s[|s| - 1] == d[|d| - 1];
    if BeginsLabel(name) {
      forall i | 0 <= i < |s| ensures IsLabelChar(s[i]) {
        if i < |name| {
          assert s[i] == name[i];
        } else if i > |name| {
          assert s[i] == d[i - |name| - 1];
        }
      }
    } else if ValidLabel(s) {
      assert s[0] == if name == [] then '-' else name[0];
      forall i | 0 <= i < |name| ensures IsLabelChar(name[i]) {
        assert s[i] == name[i];
      }
    }
  }

  /** The SNI is a host name the router accepts exactly when the service name can begin a label and
      the namespace is one; its first label respects the length limit exactly as computed. */
  lemma SniGrammar(name: string, namespace: string, port: uint32)
    requires DotFree(name) && DotFree(namespace)
    ensures ValidHostName(RouterCompatibleSNI(name, namespace, port))
            <==> BeginsLabel(name) && ValidLabel(namespace)
    ensures |Split(RouterCompatibleSNI(name, namespace, port))[0]| <= MAX_LABEL
            <==> |name| + 1 + |Decimal(port)| <= MAX_LABEL
  {
    var labels := [name + "-" + Decimal(port), namespace, "svc", "cluster", "local"];
    SniLabels(name, namespace, port);
    PortLabel(name, port);
    assert ValidLabel("svc") && ValidLabel("cluster") && ValidLabel("local");
    assert ValidLabel(labels[0]) <==> BeginsLabel(name);
    assert ValidLabel(labels[1]) <==> ValidLabel(namespace);
    assert labels[2] == "svc" && labels[3] == "cluster" && labels[4] == "local";
  }
}
