/** Label values that identify services, and the names generated for their PublicIPAddress objects. */
module Labels {
  const SEPARATOR := '.'

  datatype NamespacedName = NamespacedName(namespace: string, name: string) {
    function String(): string {
      namespace + "/" + name
    }
  }

  /** The parts of a string between the separators; one part if there is no separator. */
  function Split(s: string, separator: char): (parts: seq<string>)
    ensures |parts| >= 1
  {
    if s == [] then [""]
    else
      var rest := Split(s[1..], separator);
      if s[0] == separator then [""] + rest else [[s[0]] + rest[0]] + rest[1..]
  }

  function LabelValue(namespace: string, name: string): string {
    if name != "" then namespace + [SEPARATOR] + name else ""
  }

  function FromLabelValue(value: string): NamespacedName {
    var parts := Split(value, SEPARATOR);
    if |parts| == 2 then NamespacedName(parts[0], parts[1]) else NamespacedName("", "")
  }

  function PublicIPAddressName(namespace: string, name: string, ip: string): string {
    namespace + "-" + name + "-" + ip
  }

  lemma {:induction false} SplitWithout(s: string, separator: char)
    requires separator !in s
    ensures Split(s, separator) == [s]
  {
    if s != [] {
      SplitWithout(s[1..], separator);
      assert [s[0]] + s[1..] == s;
      assert s[0] in s;
    }
  }

  lemma {:induction false} SplitAt(before: string, after: string, separator: char)
    requires separator !in before
    ensures Split(before + [separator] + after, separator) == [before] + Split(after, separator)
  {
    var s := before + [separator] + after;
    if before == [] {
      assert s[1..] == after;
    } else {
      assert s[1..] == before[1..] + [separator] + after;
      SplitAt(before[1..], after, separator);
      assert before[0] in before && s[0] == before[0];
      assert [before[0]] + before[1..] == before;
    }
  }

  lemma {:induction false} SplitCount(s: string, separator: char)
    ensures |Split(s, separator)| == 1 + multiset(s)[separator]
  {
    if s != [] {
      SplitCount(s[1..], separator);
      assert s == [s[0]] + s[1..];
    }
  }

  /** A label value leads back to the object exactly if neither its namespace nor its name contains the
      separator (and, for an object without a name, if there is no namespace either). */
  lemma RoundTripIff(namespace: string, name: string)
    ensures FromLabelValue(LabelValue(namespace, name)) == NamespacedName(namespace, name) <==>
      if name == "" then namespace == "" else SEPARATOR !in namespace && SEPARATOR !in name
  {
    var value := LabelValue(namespace, name);
    if name != "" {
      SplitCount(value, SEPARATOR);
      assert multiset(value) == multiset(namespace) + multiset([SEPARATOR]) + multiset(name);
      assert SEPARATOR in namespace <==> multiset(namespace)[SEPARATOR] > 0;
      assert SEPARATOR in name <==> multiset(name)[SEPARATOR] > 0;
      if SEPARATOR !in namespace && SEPARATOR !in name {
        SplitAt(namespace, name, SEPARATOR);
        SplitWithout(name, SEPARATOR);
      }
    }
  }

  /** Concatenations around a separator are equal only part by part, if it is absent before it. */
  lemma PrefixUnique(a: string, b: string, c: string, d: string, separator: char)
    requires separator !in a && separator !in c
    requires a + [separator] + b == c + [separator] + d
    ensures a == c && b == d
  {
    var s, t := a + [separator] + b, c + [separator] + d;
    assert s[|a|] == separator && t[|c|] == separator;
    assert forall i :: 0 <= i < |a| ==> s[i] == a[i] && a[i] in a;
    assert forall i :: 0 <= i < |c| ==> t[i] == c[i] && c[i] in c;
    assert |a| == |c|;
    assert a == s[..|a|] && c == t[..|c|];
    assert b == s[|a| + 1..] && d == t[|c| + 1..];
  }

  /** Different services have different label values: a namespace contains no separator. */
  lemma LabelValueInjective(ns1: string, name1: string, ns2: string, name2: string)
    requires SEPARATOR !in ns1 && SEPARATOR !in ns2 && name1 != "" && name2 != ""
    requires LabelValue(ns1, name1) == LabelValue(ns2, name2)
    ensures ns1 == ns2 && name1 == name2
  {
    PrefixUnique(ns1, name1, ns2, name2, SEPARATOR);
  }

  /** Concatenations around a separator are equal only part by part, if it is absent after it. */
  lemma SuffixUnique(a: string, b: string, c: string, d: string, separator: char)
    requires separator !in b && separator !in d
    requires a + [separator] + b == c + [separator] + d
    ensures a == c && b == d
  {
    var s, t := a + [separator] + b, c + [separator] + d;
    assert s[|a|] == separator && t[|c|] == separator;
    assert |a| + 1 + |b| == |c| + 1 + |d|;
    assert forall i :: |a| < i < |s| ==> s[i] == b[i - |a| - 1] && s[i] in b;
    assert forall i :: |c| < i < |t| ==> t[i] == d[i - |c| - 1] && t[i] in d;
    assert |a| == |c|;
    assert a == s[..|a|] && c == t[..|c|];
    assert b == s[|a| + 1..] && d == t[|c| + 1..];
  }

  /** For one service, different IPs have different object names. */
  lemma NameInjectiveInIP(namespace: string, name: string, ip1: string, ip2: string)
    requires PublicIPAddressName(namespace, name, ip1) == PublicIPAddressName(namespace, name, ip2)
    ensures ip1 == ip2
  {
    var prefix := namespace + "-" + name + "-";
    assert PublicIPAddressName(namespace, name, ip1)[|prefix|..] == ip1;
    assert PublicIPAddressName(namespace, name, ip2)[|prefix|..] == ip2;
  }

  /** Across services, names collide exactly if the IPs are equal and the joined service names are. */
  lemma NameCollisionIff(ns1: string, name1: string, ip1: string, ns2: string, name2: string, ip2: string)
    requires '-' !in ip1 && '-' !in ip2
    ensures PublicIPAddressName(ns1, name1, ip1) == PublicIPAddressName(ns2, name2, ip2) <==>
      ip1 == ip2 && ns1 + "-" + name1 == ns2 + "-" + name2
  {
    if PublicIPAddressName(ns1, name1, ip1) == PublicIPAddressName(ns2, name2, ip2) {
      SuffixUnique(ns1 + "-" + name1, ip1, ns2 + "-" + name2, ip2, '-');
    }
  }

  /** Such services exist. */
  lemma NameCollisionExample(ip: string)
    ensures PublicIPAddressName("a", "b-c", ip) == PublicIPAddressName("a-b", "c", ip)
    ensures LabelValue("a", "b-c") != LabelValue("a-b", "c")
  {
    assert "a" + "-" + "b-c" == "a-b" + "-" + "c";
    assert LabelValue("a", "b-c") == "a.b-c" && LabelValue("a-b", "c") == "a-b.c";
    assert "a.b-c"[1] != "a-b.c"[1];
  }

  /** The parts of a string hold no separator, and if there are one or two they make it up. */
  lemma {:induction false} TwoParts(s: string, separator: char)
    ensures var parts := Split(s, separator);
      && (|parts| == 1 ==> s == parts[0])
      && (|parts| == 2 ==> s == parts[0] + [separator] + parts[1])
      && (forall i :: 0 <= i < |parts| ==> separator !in parts[i])
  {
    if s != [] {
      TwoParts(s[1..], separator);
      assert s == [s[0]] + s[1..];
    }
  }

  /** A value leads to an object exactly if it has one separator, between the object's namespace and name. */
  lemma FromLabelValueIff(value: string, namespace: string, name: string)
    requires namespace + name != ""
    ensures FromLabelValue(value) == NamespacedName(namespace, name) <==>
      value == namespace + "." + name && '.' !in namespace && '.' !in name
  {
    TwoParts(value, SEPARATOR);
    if value == namespace + "." + name && '.' !in namespace && '.' !in name {
      SplitAt(namespace, name, SEPARATOR);
      SplitWithout(name, SEPARATOR);
      assert value == namespace + [SEPARATOR] + name;
    }
  }
}
