/**
 Sorting host names into the subject alternative names of a request: categorizeHosts of
 pkg/operation/generate/generate.go.
 */
module Hosts {
  import opened Base
  import opened Objects

  /** Go's order on strings. */
  predicate Less(a: string, b: string) {
    b != [] && (a == [] || a[0] < b[0] || (a[0] == b[0] && Less(a[1..], b[1..])))
  }

  lemma {:induction false} LessIsTotal(a: string, b: string)
    ensures a == b || Less(a, b) || Less(b, a)
    ensures !(Less(a, b) && (a == b || Less(b, a)))
  {
    if a != [] && b != [] && a[0] == b[0] {
      LessIsTotal(a[1..], b[1..]);
      if a[1..] == b[1..] {
        assert a == [a[0]] + a[1..] && b == [b[0]] + b[1..];
      }
    }
  }

  lemma {:induction false} LessIsTransitive(a: string, b: string, c: string)
    requires Less(a, b) && Less(b, c)
    ensures Less(a, c)
  {
    if a != [] && a[0] == b[0] == c[0] {
      LessIsTransitive(a[1..], b[1..], c[1..]);
    }
  }

  /** The first difference decides: after k equal characters a ends and b goes on, or a has the lower character. */
  ghost predicate DiffersAt(a: string, b: string, k: nat) {
    k <= |a| && k < |b| && a[..k] == b[..k] && (k == |a| || a[k] < b[k])
  }

  lemma {:induction false} LessExactly(a: string, b: string)
    ensures Less(a, b) <==> exists k: nat :: DiffersAt(a, b, k)
  {
    if a == [] {
      assert b != [] ==> DiffersAt(a, b, 0);
    } else if b == [] {
    } else if a[0] != b[0] {
      assert a[0] < b[0] ==> DiffersAt(a, b, 0);
      assert forall k: nat :: DiffersAt(a, b, k) && k > 0 ==> a[..k][0] == b[..k][0];
    } else {
      LessExactly(a[1..], b[1..]);
      forall k: nat ensures DiffersAt(a[1..], b[1..], k) ==> DiffersAt(a, b, k + 1) {
        if DiffersAt(a[1..], b[1..], k) {
          assert a[..k + 1] == [a[0]] + a[1..][..k] && b[..k + 1] == [b[0]] + b[1..][..k];
        }
      }
      forall k: nat | DiffersAt(a, b, k) ensures k > 0 && DiffersAt(a[1..], b[1..], k - 1) {
        assert a[1..][..k - 1] == a[..k][1..] && b[1..][..k - 1] == b[..k][1..];
      }
    }
  }

  ghost predicate Increasing(s: seq<string>) {
    forall i, j :: 0 <= i < j < |s| ==> Less(s[i], s[j])
  }

  /** An increasing sequence is determined by its elements. */
  lemma {:induction false} IncreasingIsUnique(a: seq<string>, b: seq<string>)
    requires Increasing(a) && Increasing(b) && forall x :: x in a <==> x in b
    ensures a == b
  {
    assert forall i :: 0 <= i < |a| ==> a[i] in b;
    assert forall i :: 0 <= i < |b| ==> b[i] in a;
    if a != [] && b != [] {
      var i :| 0 <= i < |b| && b[i] == a[0];
      var j :| 0 <= j < |a| && a[j] == b[0];
      LessIsTotal(a[0], b[0]);
      assert i == 0 && j == 0;
      forall x ensures x in a[1..] <==> x in b[1..] {
        LessIsTotal(x, a[0]);
        RestOfIncreasing(a, x);
        RestOfIncreasing(b, x);
      }
      IncreasingIsUnique(a[1..], b[1..]);
      assert a == [a[0]] + a[1..] && b == [b[0]] + b[1..];
    }
  }

  lemma RestOfIncreasing(a: seq<string>, x: string)
    requires a != [] && Increasing(a)
    ensures x in a[1..] <==> x in a && x != a[0]
  {
    forall i | 1 <= i < |a| ensures a[i] != a[0] && a[i] == a[1..][i - 1] {
      LessIsTotal(a[0], a[i]);
    }
    assert a == [a[0]] + a[1..];
  }

  /** Puts x in its place. */
  function Insert(x: string, s: seq<string>): (r: seq<string>)
    requires Increasing(s) && x !in s
    ensures Increasing(r) && multiset(r) == multiset(s) + multiset{x}
  {
    hide Less;
    if s == [] then [x]
    else if Less(x, s[0]) then
      assert forall i :: 0 < i < |s| ==> Less(x, s[i]) by {
        forall i | 0 < i < |s| ensures Less(x, s[i]) {
          LessIsTransitive(x, s[0], s[i]);
        }
      }
      [x] + s
    else
      var rest := Insert(x, s[1..]);
      assert s == [s[0]] + s[1..];
      assert forall y :: y in rest ==> Less(s[0], y) by {
        LessIsTotal(x, s[0]);
        forall y | y in rest ensures Less(s[0], y) {
          assert y in multiset(rest);
          assert y in s[1..] || y == x;
        }
      }
      [s[0]] + rest
  }

  /** sort.Strings on distinct strings. */
  function Sorted(s: seq<string>): (r: seq<string>)
    requires forall i, j :: 0 <= i < j < |s| ==> s[i] != s[j]
    ensures Increasing(r) && multiset(r) == multiset(s)
  {
    if s == [] then []
    else
      assert s == [s[0]] + s[1..];
      var rest := Sorted(s[1..]);
      assert s[0] !in rest by {
        assert s[0] !in s[1..];
        assert s[0] !in multiset(rest);
      }
      Insert(s[0], rest)
  }

  /** net.ParseIP is a parameter of the model. */
  type IPParser = string -> Option<IP>

  /** The distinct hosts that name the given address. */
  function Naming(hosts: set<string>, parse: IPParser, ip: IP): set<string> {
    set h | h in hosts && parse(h) == Some(ip)
  }

  function Elements(s: seq<string>): set<string> {
    set h | h in s
  }

  /**
   The names are exactly the hosts that are no addresses, in increasing order,
   and every address is there once for each distinct host that names it.
   */
  ghost predicate Categorized(hosts: set<string>, parse: IPParser, dnsNames: seq<string>, ips: seq<IP>) {
    Increasing(dnsNames)
    && (forall h :: h in dnsNames <==> h in hosts && parse(h).None?)
    && (forall ip: IP :: multiset(ips)[ip] == |Naming(hosts, parse, ip)|)
    && |dnsNames| + |ips| == |hosts|
  }

  /** No host is lost. */
  lemma IsCategorized(hosts: seq<string>, parse: IPParser, dnsNames: seq<string>, ips: seq<IP>, x: string)
    requires Categorized(Elements(hosts), parse, dnsNames, ips) && x in hosts
    ensures match parse(x)
            case None => x in dnsNames
            case Some(ip) => ip in ips
  {
    if parse(x).Some? {
      var ip := parse(x).value;
      assert x in Naming(Elements(hosts), parse, ip);
      assert multiset(ips)[ip] > 0;
    }
  }

  /** Host lists with equal elements give equal names and the same addresses equally often. */
  lemma CategoriesAreCanonical(hosts: set<string>, parse: IPParser, d1: seq<string>, i1: seq<IP>, d2: seq<string>,
                               i2: seq<IP>)
    requires Categorized(hosts, parse, d1, i1) && Categorized(hosts, parse, d2, i2)
    ensures d1 == d2 && multiset(i1) == multiset(i2)
  {
    IncreasingIsUnique(d1, d2);
    assert forall ip: IP :: multiset(i1)[ip] == multiset(i2)[ip];
  }

  /** Hosts that are appended again, as each run does with the services it queried, change nothing. */
  lemma RepeatsChangeNothing(hosts: seq<string>, again: seq<string>, parse: IPParser, d1: seq<string>, i1: seq<IP>,
                             d2: seq<string>, i2: seq<IP>)
    requires forall h :: h in again ==> h in hosts
    requires Categorized(Elements(hosts), parse, d1, i1) && Categorized(Elements(hosts + again), parse, d2, i2)
    ensures d1 == d2 && multiset(i1) == multiset(i2)
  {
    assert Elements(hosts + again) == Elements(hosts);
    CategoriesAreCanonical(Elements(hosts), parse, d1, i1, d2, i2);
  }

  /** Removing duplicate hosts does not remove duplicate addresses: one stays iff two distinct hosts name it. */
  lemma DuplicateAddresses(hosts: set<string>, parse: IPParser, dnsNames: seq<string>, ips: seq<IP>, ip: IP)
    requires Categorized(hosts, parse, dnsNames, ips)
    ensures multiset(ips)[ip] >= 2 <==>
            exists g, h :: g in hosts && h in hosts && g != h && parse(g) == Some(ip) && parse(h) == Some(ip)
  {
    var named := Naming(hosts, parse, ip);
    if |named| >= 2 {
      var g :| g in named;
      assert |named - {g}| == |named| - 1;
      var h :| h in named - {g};
      assert g in hosts && h in hosts;
    }
    if g, h :| g in hosts && h in hosts && g != h && parse(g) == Some(ip) && parse(h) == Some(ip) {
      assert {g, h} <= named;
      assert |{g, h}| == 2;
      SubsetSize({g, h}, named);
    }
  }

  lemma SubsetSize(a: set<string>, b: set<string>)
    requires a <= b
    ensures |a| <= |b|
  {
    assert b == a + (b - a);
  }

  /** The addresses of the distinct hosts, in the order in which those are first mentioned. */
  function Addresses(hosts: seq<string>, parse: IPParser): seq<IP> {
    if hosts == [] then []
    else
      var before, host := hosts[..|hosts| - 1], hosts[|hosts| - 1];
      Addresses(before, parse) + if host in before || parse(host).None? then [] else [parse(host).value]
  }

  /** So the order of addresses depends on the order of hosts, even for equal sets of hosts. */
  lemma OrderMatters(g: string, h: string, parse: IPParser)
    requires parse(g).Some? && parse(h).Some? && parse(g) != parse(h)
    ensures Elements([g, h]) == Elements([h, g])
    ensures Addresses([g, h], parse) == [parse(g).value, parse(h).value]
    ensures Addresses([h, g], parse) == [parse(h).value, parse(g).value]
  {
    assert Elements([g, h]) == {g, h} == Elements([h, g]);
    TwoAddresses(g, h, parse);
    TwoAddresses(h, g, parse);
  }

  lemma TwoAddresses(g: string, h: string, parse: IPParser)
    requires parse(g).Some? && parse(h).Some? && g != h
    ensures Addresses([g, h], parse) == [parse(g).value, parse(h).value]
  {
    AddressesNext([g, h], 0, parse);
    AddressesNext([g, h], 1, parse);
    assert [g, h][..1] == [g] && [g, h][..2] == [g, h];
  }

  lemma AddressesNext(hosts: seq<string>, i: nat, parse: IPParser)
    requires i < |hosts|
    ensures Addresses(hosts[..i + 1], parse) ==
            Addresses(hosts[..i], parse)
            + if hosts[i] in hosts[..i] || parse(hosts[i]).None? then [] else [parse(hosts[i]).value]
  {
    assert hosts[..i + 1][..i] == hosts[..i];
  }

  /** Hosts that are mentioned again do not change it. */
  lemma {:induction false} RepeatsKeepOrder(hosts: seq<string>, again: seq<string>, parse: IPParser)
    requires forall h :: h in again ==> h in hosts
    ensures Addresses(hosts + again, parse) == Addresses(hosts, parse)
  {
    if again == [] {
      assert hosts + again == hosts;
    } else {
      var before, host := again[..|again| - 1], again[|again| - 1];
      assert (hosts + again)[..|hosts + again| - 1] == hosts + before;
      assert host in again;
      RepeatsKeepOrder(hosts, before, parse);
    }
  }

  /**
   sort.Slice with a comparison that compares an element with itself. Up to twelve elements it sorts by insertion,
   which then moves nothing; more it partitions around pivots, which may swap, but promises no order.
   */
  method SortByNothing(ips: seq<IP>) returns (r: seq<IP>)
    ensures multiset(r) == multiset(ips)
    ensures |ips| <= 12 ==> r == ips
  {
    r := ips;
    var swaps: nat := *;
    while |ips| > 12 && swaps > 0
      invariant multiset(r) == multiset(ips)
      invariant |ips| <= 12 ==> r == ips
    {
      var i: nat, j: nat := *, *;
      if i < j < |r| {
        r := r[i := r[j]][j := r[i]];
      }
      swaps := swaps - 1;
    }
  }

  lemma NothingSeen(parse: IPParser)
    ensures Elements([]) == {} && Addresses([], parse) == [] && forall ip: IP :: Naming({}, parse, ip) == {}
  {
  }

  lemma SeenNext(hosts: seq<string>, i: nat)
    requires i < |hosts|
    ensures Elements(hosts[..i + 1]) == Elements(hosts[..i]) + {hosts[i]}
    ensures hosts[i] in Elements(hosts[..i]) <==> hosts[i] in hosts[..i]
  {
    assert hosts[..i + 1] == hosts[..i] + [hosts[i]];
  }

  method CategorizeHosts(hosts: seq<string>, parse: IPParser) returns (dnsNames: seq<string>, ips: seq<IP>)
    ensures Categorized(Elements(hosts), parse, dnsNames, ips)
    ensures |ips| <= 12 ==> ips == Addresses(hosts, parse)
  {
    hide Addresses, Elements, Naming, Increasing, Sorted;
    dnsNames, ips := [], [];
    NothingSeen(parse);
    var seen: set<string> := {};
    for i := 0 to |hosts|
      invariant seen == Elements(hosts[..i])
      invariant forall j, k :: 0 <= j < k < |dnsNames| ==> dnsNames[j] != dnsNames[k]
      invariant forall h :: h in dnsNames <==> h in seen && parse(h).None?
      invariant forall ip: IP :: multiset(ips)[ip] == |Naming(seen, parse, ip)|
      invariant |dnsNames| + |ips| == |seen|
      invariant ips == Addresses(hosts[..i], parse)
    {
      var host := hosts[i];
      SeenNext(hosts, i);
      AddressesNext(hosts, i, parse);
      if host in seen {
        continue;
      }
      ghost var before := seen;
      seen := seen + {host};
      match parse(host) {
        case Some(ip) =>
          ips := ips + [ip];
          NamingGrows(before, parse, host);
        case None =>
          dnsNames := dnsNames + [host];
          NamingGrows(before, parse, host);
      }
    }
    assert hosts[..|hosts|] == hosts;
    ghost var names, addresses := dnsNames, ips;
    dnsNames := Sorted(dnsNames);
    ips := SortByNothing(ips);
    SamePermutation(names, dnsNames);
    SamePermutation(addresses, ips);
  }

  lemma SamePermutation<T>(a: seq<T>, b: seq<T>)
    requires multiset(a) == multiset(b)
    ensures |a| == |b| && forall x :: x in a <==> x in b
  {
    assert |a| == |multiset(a)| && |b| == |multiset(b)|;
    assert forall x :: x in a <==> x in multiset(a);
    assert forall x :: x in b <==> x in multiset(b);
  }

  lemma NamingGrows(seen: set<string>, parse: IPParser, host: string)
    requires host !in seen
    ensures forall ip: IP ::
              |Naming(seen + {host}, parse, ip)| == |Naming(seen, parse, ip)| + if parse(host) == Some(ip) then 1 else 0
  {
    forall ip: IP
      ensures |Naming(seen + {host}, parse, ip)| == |Naming(seen, parse, ip)| + if parse(host) == Some(ip) then 1 else 0
    {
      assert Naming(seen + {host}, parse, ip) ==
             Naming(seen, parse, ip) + if parse(host) == Some(ip) then {host} else {};
    }
  }
}
