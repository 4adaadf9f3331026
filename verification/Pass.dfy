/** One pass of the garbage collector of pkg/operation/purge/purge.go, among other actors. */
module Pass {
  import opened Base
  import opened Objects
  import opened Cluster
  import opened Protocol
  import opened Collectable

  /** What the clock shows when rule j examines item i. */
  type Clock = (nat, nat) -> Instant

  /** How many of the first j rules match the object listed at i. */
  function Hits(c: Csr, rules: seq<Rule>, grace: Duration, clock: Clock, i: nat, j: nat): nat
    requires j <= |rules|
  {
    if j == 0 then 0
    else Hits(c, rules, grace, clock, i, j - 1) + if rules[j - 1](c, grace, clock(i, j - 1)) then 1 else 0
  }

  lemma {:induction false} HitsGrow(c: Csr, rules: seq<Rule>, grace: Duration, clock: Clock, i: nat, j: nat, k: nat)
    requires j <= k <= |rules|
    ensures Hits(c, rules, grace, clock, i, j) <= Hits(c, rules, grace, clock, i, k)
    decreases k
  {
    if j == k {
    } else {
      HitsGrow(c, rules, grace, clock, i, j, k - 1);
    }
  }

  lemma {:induction false} NoHit(c: Csr, rules: seq<Rule>, grace: Duration, clock: Clock, i: nat, j: nat, k: nat)
    requires j < k <= |rules| && Hits(c, rules, grace, clock, i, k) == 0
    ensures !rules[j](c, grace, clock(i, j))
    decreases k
  {
    if j == k - 1 {
    } else {
      NoHit(c, rules, grace, clock, i, j, k - 1);
    }
  }

  /** The first item that two rules match, or the number of items. */
  function FirstClash(hits: seq<nat>): (k: nat)
    ensures k <= |hits|
    ensures forall i :: 0 <= i < k ==> hits[i] <= 1
    ensures k < |hits| ==> hits[k] >= 2
  {
    if hits == [] || hits[0] >= 2 then 0 else 1 + FirstClash(hits[1..])
  }

  /** Names of the items before position n that some rule matches. */
  function Matching(items: seq<(string, Csr)>, hits: seq<nat>, n: nat): set<string>
    requires n <= |items| == |hits|
  {
    if n == 0 then {}
    else if hits[n - 1] == 0 then Matching(items, hits, n - 1)
    else Matching(items, hits, n - 1) + {items[n - 1].0}
  }

  lemma {:induction false} InMatching(items: seq<(string, Csr)>, hits: seq<nat>, n: nat, name: string)
    requires n <= |items| == |hits|
    ensures name in Matching(items, hits, n) <==> exists i :: 0 <= i < n && items[i].0 == name && hits[i] >= 1
  {
    if n == 0 {
    } else {
      InMatching(items, hits, n - 1, name);
    }
  }

  /** What an undisturbed pass deletes: matching items up to and including the first clash. */
  function Collected(items: seq<(string, Csr)>, hits: seq<nat>): set<string>
    requires |items| == |hits|
  {
    var k := FirstClash(hits);
    Matching(items, hits, if k < |hits| then k + 1 else k)
  }

  // ---- What the log says about the objects ----

  /** Between two logs the collector made n accepted requests, all of them deletes. */
  ghost predicate OnlyDeletes(a: Log, b: Log, n: nat) {
    a <= b && (forall k :: |a| <= k < |b| && b[k].Author() == Self ==> b[k].Delete?)
    && |Mine(b)| == |Mine(a)| + n
    && (Clean(a) ==> Clean(b))
  }

  lemma OnlyDeletesTogether(a: Log, b: Log, c: Log, n: nat, m: nat)
    requires OnlyDeletes(a, b, n) && OnlyDeletes(b, c, m)
    ensures OnlyDeletes(a, c, n + m)
  {
    assert forall k :: |a| <= k < |b| ==> c[k] == b[k];
  }

  /** And all deletes were of the given names. */
  ghost predicate Purged(a: Log, b: Log, names: set<string>, n: nat) {
    OnlyDeletes(a, b, n) && forall k :: |a| <= k < |b| && b[k].Author() == Self ==> b[k].name in names
  }

  lemma PurgedTogether(a: Log, b: Log, c: Log, names: set<string>, more: set<string>, all: set<string>, n: nat, m: nat)
    requires Purged(a, b, names, n) && Purged(b, c, more, m) && names <= all && more <= all
    ensures Purged(a, c, all, n + m)
  {
    OnlyDeletesTogether(a, b, c, n, m);
    assert forall k :: |a| <= k < |b| ==> c[k] == b[k];
  }

  /** A name outside the deletes of the collector is where the others left it. */
  lemma NotPurged(a: Log, b: Log, names: set<string>, n: nat, name: string)
    requires Purged(a, b, names, n) && name !in names && Kept(a, b, {name})
    ensures name in Replay(b).objects <==> name in Replay(a).objects
  {
    assert Undisturbed(b, |a|, name, {Other});
    assert Undisturbed(b, |a|, name, Anyone);
    Unmoved(a, b, name);
  }

  /** How many objects others created. */
  function Arrivals(log: Log): nat {
    if log == [] then 0
    else Arrivals(Before(log)) + if log[|log| - 1].Create? && log[|log| - 1].Author() == Other then 1 else 0
  }

  /** How many objects others deleted. */
  function Departures(log: Log): nat {
    if log == [] then 0
    else Departures(Before(log)) + if log[|log| - 1].Delete? && log[|log| - 1].Author() == Other then 1 else 0
  }

  lemma RemoveOne(m: map<string, Csr>, n: string)
    requires n in m
    ensures |m - {n}| == |m| - 1
  {
    assert (m - {n}).Keys == m.Keys - {n};
  }

  lemma SizeStep(s: Store, e: Event)
    requires Accepted(s, e)
    ensures |Apply(s, e).objects| == |s.objects| + (if e.Create? then 1 else 0) - if e.Delete? then 1 else 0
  {
    if e.Delete? {
      RemoveOne(s.objects, e.name);
    } else {
      var objects := Apply(s, e).objects;
      assert objects.Keys == s.objects.Keys + {e.name};
      assert e.Create? || objects.Keys == s.objects.Keys;
      assert |objects.Keys| == |objects| && |s.objects.Keys| == |s.objects|;
    }
  }

  /** No object is lost: what was there or arrived is there still, was deleted by the collector, or was by others. */
  lemma {:induction false} Census(a: Log, b: Log, n: nat)
    requires OnlyDeletes(a, b, n) && Clean(b)
    ensures |Replay(b).objects| + n + Departures(b) + Arrivals(a) == |Replay(a).objects| + Departures(a) + Arrivals(b)
    ensures Departures(a) <= Departures(b) && Arrivals(a) <= Arrivals(b)
    decreases |b|
  {
    if |a| == |b| {
      assert a == b;
    } else {
      var before, e := Before(b), b[|b| - 1];
      SizeStep(Replay(before), e);
      hide Apply, Accepted, Disciplined;
      MineGrows(a, before);
      var m := |Mine(before)| - |Mine(a)|;
      CleanIsClosed(b);
      Census(a, before, m);
    }
  }

  lemma CleanIsClosed(log: Log)
    requires Clean(log) && log != []
    ensures Clean(Before(log))
  {
  }

  lemma {:induction false} DeparturesCount(a: Log, b: Log, name: string)
    requires a <= b
    ensures Departures(a) <= Departures(b)
    ensures Deleted(a, b, Other, name) ==> Departures(a) < Departures(b)
    decreases |b|
  {
    if |a| == |b| {
      assert a == b;
    } else {
      DeparturesCount(a, Before(b), name);
      if Deleted(a, b, Other, name) && b[|b| - 1] != Event.Delete(Other, name) {
        var k :| |a| <= k < |b| && b[k] == Event.Delete(Other, name);
        assert Before(b)[k] == Event.Delete(Other, name);
      }
    }
  }

  // ---- One examination and one pass ----

  function OnlyIf(h: nat, name: string): set<string> {
    if h == 0 then {} else {name}
  }

  /**
   The object listed under the name was examined, h rules matched, and purged deletes were accepted.
   A failure means that the object was gone when a match asked for its delete.
   While others leave the name alone, the first match deletes and a second one fails.
   */
  ghost predicate Examined(h: nat, failed: bool, purged: nat, name: string, a: Log, b: Log) {
    Purged(a, b, OnlyIf(h, name), purged)
    && (if failed then purged < h && name !in Replay(b).objects else purged == h)
    && (purged >= 1 ==> Deleted(a, b, Self, name))
    && (Kept(a, b, {name}) && name in Replay(a).objects ==>
          purged == (if h == 0 then 0 else 1) && (name in Replay(b).objects <==> h == 0))
  }

  lemma ExamineStart(name: string, a: Log)
    ensures Examined(0, false, 0, name, a, a)
  {
  }

  /** One more match: its delete request is served at the end of log c. */
  lemma ExamineStep(h: nat, purged: nat, failed: bool, name: string, a: Log, b: Log, c: Log)
    requires Examined(h, false, purged, name, a, b) && Purged(b, c, {name}, if failed then 0 else 1)
    requires name !in Replay(c).objects && (!failed ==> Deleted(b, c, Self, name))
    requires Kept(b, c, {name}) ==> (failed <==> name !in Replay(b).objects)
    ensures Examined(h + 1, failed, purged + if failed then 0 else 1, name, a, c)
  {
    hide Clean, Mine, Replay;
    PurgedTogether(a, b, c, OnlyIf(h, name), {name}, {name}, purged, if failed then 0 else 1);
    if purged >= 1 {
      DeletedInPart(a, a, b, c, Self, name);
    } else if !failed {
      DeletedInPart(a, b, c, c, Self, name);
    }
    if Kept(a, c, {name}) {
      KeptParts(a, b, c, {name}, {name});
    }
  }

  ghost predicate Clash(hits: seq<nat>) {
    exists i :: 0 <= i < |hits| && hits[i] >= 2
  }

  /** Another actor deleted a listed object since the listing. */
  ghost predicate Robbed(items: seq<(string, Csr)>, a: Log, b: Log) {
    exists i :: 0 <= i < |items| && Deleted(a, b, Other, items[i].0)
  }

  /** What a pass has done to the objects when others leave the listed names alone. */
  ghost predicate Exact(items: seq<(string, Csr)>, hits: seq<nat>, failed: bool, purged: nat, log: Log)
    requires |items| == |hits|
  {
    (failed <==> Clash(hits)) && purged == |Collected(items, hits)|
    && forall i :: 0 <= i < |items| ==> (items[i].0 in Replay(log).objects <==> items[i].0 !in Collected(items, hits))
  }

  /** A pass before item i, none of its deletes having failed. */
  ghost predicate PassedTo(items: seq<(string, Csr)>, hits: seq<nat>, i: nat, purged: nat, a: Log, b: Log)
    requires i <= |items| == |hits|
  {
    Purged(a, b, Matching(items, hits, i), purged)
    && (forall k :: 0 <= k < i && hits[k] >= 1 ==> Deleted(a, b, Self, items[k].0))
    && (Kept(a, b, Replay(a).objects.Keys) ==>
          FirstClash(hits) >= i && purged == |Matching(items, hits, i)|
          && forall k :: 0 <= k < |items| ==> (items[k].0 in Replay(b).objects <==> k >= i || hits[k] == 0))
  }

  /**
   The end of a pass over the objects listed at log a.
   Whatever others did: a failure means that two rules matched an object or that somebody else deleted one,
   and without a failure every matching object was deleted. While others leave the listed names alone the effect
   is exact.
   */
  ghost predicate PassDone(items: seq<(string, Csr)>, hits: seq<nat>, failed: bool, purged: nat, a: Log, b: Log)
    requires |items| == |hits|
  {
    Purged(a, b, Matching(items, hits, |items|), purged)
    && (failed ==> (purged >= 1 && Clash(hits)) || Robbed(items, a, b))
    && (!failed ==> forall k :: 0 <= k < |items| && hits[k] >= 1 ==> Deleted(a, b, Self, items[k].0))
    && (Kept(a, b, Replay(a).objects.Keys) ==> Exact(items, hits, failed, purged, b))
  }

  lemma PassStart(items: seq<(string, Csr)>, hits: seq<nat>, a: Log)
    requires |items| == |hits| && Lists(items, Replay(a).objects)
    ensures PassedTo(items, hits, 0, 0, a, a)
  {
    hide Clean, Mine, Replay;
  }

  lemma ClashAt(hits: seq<nat>, i: nat)
    requires i < |hits| && FirstClash(hits) >= i
    ensures if hits[i] >= 2 then FirstClash(hits) == i else FirstClash(hits) >= i + 1
  {
  }

  /** No listed object comes twice, so the deletes before item i are of other names. */
  lemma NotYetMatched(items: seq<(string, Csr)>, hits: seq<nat>, i: nat, objects: map<string, Csr>)
    requires i < |items| == |hits| && Lists(items, objects)
    ensures items[i].0 in objects && items[i].0 !in Matching(items, hits, i)
  {
    InMatching(items, hits, i, items[i].0);
  }

  lemma {:induction false} MatchingGrows(items: seq<(string, Csr)>, hits: seq<nat>, i: nat, j: nat)
    requires i <= j <= |items| == |hits|
    ensures Matching(items, hits, i) <= Matching(items, hits, j)
    decreases j
  {
    if i == j {
    } else {
      MatchingGrows(items, hits, i, j - 1);
    }
  }

  /** What is known once item i was examined, whatever others did. */
  lemma StepUnderAny(items: seq<(string, Csr)>, hits: seq<nat>, i: nat, failed: bool, purged: nat, n: nat, a: Log,
                     b: Log, c: Log)
    requires i < |items| == |hits| && Lists(items, Replay(a).objects)
    requires PassedTo(items, hits, i, purged, a, b) && Examined(hits[i], failed, n, items[i].0, b, c)
    ensures Purged(a, c, Matching(items, hits, i + 1), purged + n)
    ensures forall k :: 0 <= k < i && hits[k] >= 1 ==> Deleted(a, c, Self, items[k].0)
    ensures n >= 1 ==> Deleted(a, c, Self, items[i].0)
    ensures failed && n == 0 ==> Robbed(items, a, c)
  {
    hide Clean, Mine, Replay, Kept;
    var name := items[i].0;
    PurgedTogether(a, b, c, Matching(items, hits, i), OnlyIf(hits[i], name), Matching(items, hits, i + 1), purged, n);
    forall k | 0 <= k < i && hits[k] >= 1 ensures Deleted(a, c, Self, items[k].0) {
      DeletedInPart(a, a, b, c, Self, items[k].0);
    }
    if n >= 1 {
      DeletedInPart(a, b, c, c, Self, name);
    }
    if failed && n == 0 {
      NotYetMatched(items, hits, i, Replay(a).objects);
      var who := GoneWasDeleted(a, c, name);
      var k :| |a| <= k < |c| && c[k] == Event.Delete(who, name);
      if who == Self {
        OwnDeleteIsMatched(items, hits, i, purged, n, a, b, c, k);
        assert false;
      }
      assert who == Other by {
        match who
        case Self =>
        case Other =>
      }
    }
  }

  /** With no accepted delete at item i, every delete of the collector is of a name matched before. */
  lemma OwnDeleteIsMatched(items: seq<(string, Csr)>, hits: seq<nat>, i: nat, purged: nat, n: nat, a: Log, b: Log,
                           c: Log, k: nat)
    requires i <= |items| == |hits|
    requires Purged(a, b, Matching(items, hits, i), purged) && OnlyDeletes(b, c, 0)
    requires |a| <= k < |c| && c[k].Author() == Self
    ensures c[k].name in Matching(items, hits, i)
  {
    if k < |b| {
      assert c[k] == b[k];
    } else {
      NothingMine(b, c, k);
    }
  }

  /** Where the number of own requests stays, there is none. */
  lemma {:induction false} NothingMine(a: Log, b: Log, k: nat)
    requires a <= b && |Mine(b)| == |Mine(a)| && |a| <= k < |b|
    ensures b[k].Author() != Self
    decreases |b|
  {
    var before := Before(b);
    MineGrows(a, before);
    if k < |before| {
      NothingMine(a, before, k);
    }
  }

  /** What is known besides if others left the listed names alone. */
  lemma StepUndisturbed(items: seq<(string, Csr)>, hits: seq<nat>, i: nat, failed: bool, purged: nat, n: nat, a: Log,
                        b: Log, c: Log)
    requires i < |items| == |hits| && Lists(items, Replay(a).objects)
    requires PassedTo(items, hits, i, purged, a, b) && Examined(hits[i], failed, n, items[i].0, b, c)
    requires a <= b <= c && Kept(a, c, Replay(a).objects.Keys)
    ensures FirstClash(hits) >= i && (failed <==> hits[i] >= 2)
    ensures purged + n == |Matching(items, hits, i + 1)|
    ensures forall k :: 0 <= k < |items| ==> (items[k].0 in Replay(c).objects <==> k > i || hits[k] == 0)
  {
    hide Clean, Mine, Replay, Deleted, Kept, Purged, Matching, FirstClash, Lists;
    var names, name := Replay(a).objects.Keys, items[i].0;
    NotYetMatched(items, hits, i, Replay(a).objects);
    MatchingNext(items, hits, i);
    KeptParts(a, b, c, names, names);
    KeptParts(a, b, c, names, {name});
    forall k | 0 <= k < |items| && k != i
      ensures items[k].0 in Replay(c).objects <==> items[k].0 in Replay(b).objects
    {
      Elsewhere(items, hits[i], i, k, n, a, b, c);
    }
  }

  lemma MatchingNext(items: seq<(string, Csr)>, hits: seq<nat>, i: nat)
    requires i < |items| == |hits| && items[i].0 !in Matching(items, hits, i)
    ensures |Matching(items, hits, i + 1)| == |Matching(items, hits, i)| + if hits[i] == 0 then 0 else 1
  {
  }

  /** Examining one listed object does not move another. */
  lemma Elsewhere(items: seq<(string, Csr)>, h: nat, i: nat, k: nat, n: nat, a: Log, b: Log, c: Log)
    requires i < |items| && k < |items| && k != i && Lists(items, Replay(a).objects)
    requires a <= b <= c && Kept(a, c, Replay(a).objects.Keys) && Purged(b, c, OnlyIf(h, items[i].0), n)
    ensures items[k].0 in Replay(c).objects <==> items[k].0 in Replay(b).objects
  {
    hide Replay, Clean, Mine, Purged, Kept;
    KeptParts(a, b, c, Replay(a).objects.Keys, {items[k].0});
    NotPurged(b, c, OnlyIf(h, items[i].0), n, items[k].0);
  }

  lemma PassStep(items: seq<(string, Csr)>, hits: seq<nat>, i: nat, failed: bool, purged: nat, n: nat, a: Log,
                 b: Log, c: Log)
    requires i < |items| == |hits| && Lists(items, Replay(a).objects)
    requires PassedTo(items, hits, i, purged, a, b) && Examined(hits[i], failed, n, items[i].0, b, c)
    ensures if failed
            then PassDone(items, hits, true, purged + n, a, c)
            else PassedTo(items, hits, i + 1, purged + n, a, c)
  {
    hide Clean, Mine, Replay, Deleted, Kept, Exact, Robbed, Matching, FirstClash;
    StepUnderAny(items, hits, i, failed, purged, n, a, b, c);
    assert a <= b <= c && (failed ==> n < hits[i] && (n >= 1 ==> Clash(hits)));
    hide Examined;
    if Kept(a, c, Replay(a).objects.Keys) {
      StepUndisturbed(items, hits, i, failed, purged, n, a, b, c);
      ClashAt(hits, i);
      if failed {
        StoppedAt(items, hits, i, purged + n, c);
      }
    }
    if failed {
      MatchingGrows(items, hits, i + 1, |items|);
      PurgedTogether(a, c, c, Matching(items, hits, i + 1), {}, Matching(items, hits, |items|), purged + n, 0);
    }
  }

  lemma StoppedAt(items: seq<(string, Csr)>, hits: seq<nat>, i: nat, purged: nat, log: Log)
    requires i < |items| == |hits| && FirstClash(hits) == i && hits[i] >= 2
    requires purged == |Matching(items, hits, i + 1)|
    requires forall j, k :: 0 <= j < k < |items| ==> items[j].0 != items[k].0
    requires forall k :: 0 <= k < |items| ==> (items[k].0 in Replay(log).objects <==> k > i || hits[k] == 0)
    ensures Exact(items, hits, true, purged, log)
  {
    hide Replay, Matching, FirstClash;
    forall k | 0 <= k < |items| ensures items[k].0 in Replay(log).objects <==> items[k].0 !in Collected(items, hits) {
      InMatching(items, hits, i + 1, items[k].0);
    }
  }

  lemma PassComplete(items: seq<(string, Csr)>, hits: seq<nat>, purged: nat, a: Log, b: Log)
    requires |items| == |hits| && Lists(items, Replay(a).objects) && PassedTo(items, hits, |items|, purged, a, b)
    ensures PassDone(items, hits, false, purged, a, b)
  {
    hide Clean, Mine, Replay, Deleted, Kept, Matching;
    if Kept(a, b, Replay(a).objects.Keys) {
      forall k | 0 <= k < |items| ensures items[k].0 in Replay(b).objects <==> items[k].0 !in Collected(items, hits) {
        InMatching(items, hits, |items|, items[k].0);
      }
    }
  }

  lemma ExaminedGrows(h: nat, more: nat, purged: nat, name: string, a: Log, b: Log)
    requires Examined(h, true, purged, name, a, b) && h <= more
    ensures Examined(more, true, purged, name, a, b)
  {
  }

  lemma Position(items: seq<(string, Csr)>, objects: map<string, Csr>, n: string) returns (i: nat)
    requires Lists(items, objects) && n in objects
    ensures i < |items| && items[i] == (n, objects[n])
  {
    var k :| 0 <= k < |items| && items[k].0 == n;
    i := k;
  }

  // ---- A pass among actors that create nothing ----

  lemma {:induction false} ListingSize(items: seq<(string, Csr)>, m: map<string, Csr>)
    requires Lists(items, m)
    ensures |items| == |m|
  {
    if items == [] {
      assert m.Keys == {};
    } else {
      var n := items[0].0;
      var rest, m' := items[1..], m - {n};
      assert forall x :: x in m' ==> exists i :: 0 <= i < |rest| && rest[i].0 == x by {
        forall x | x in m' ensures exists i :: 0 <= i < |rest| && rest[i].0 == x {
          var i :| 0 <= i < |items| && items[i].0 == x;
          assert rest[i - 1].0 == x;
        }
      }
      ListingSize(rest, m');
      RemoveOne(m, n);
    }
  }

  /** While others create nothing, nothing new is there. */
  lemma {:induction false} NewHasArrived(a: Log, b: Log, name: string)
    requires a <= b && (forall k :: |a| <= k < |b| && b[k].Author() == Self ==> b[k].Delete?)
    requires name !in Replay(a).objects && name in Replay(b).objects
    ensures Arrivals(a) < Arrivals(b)
    decreases |b|
  {
    assert a != b;
    ArrivalsGrow(a, Before(b));
    if name in Replay(Before(b)).objects {
      NewHasArrived(a, Before(b), name);
    } else {
      SomeoneDidIt(b[|b| - 1]);
    }
  }

  lemma {:induction false} ArrivalsGrow(a: Log, b: Log)
    requires a <= b
    ensures Arrivals(a) <= Arrivals(b)
    decreases |b|
  {
    if |a| == |b| {
      assert a == b;
    } else {
      ArrivalsGrow(a, Before(b));
    }
  }

  /**
   While others create nothing and delete nothing listed, the store loses exactly what is collected; the gauge is its
   size.
   */
  lemma PassLeaves(items: seq<(string, Csr)>, hits: seq<nat>, failed: bool, purged: nat, a: Log, b: Log)
    requires |items| == |hits| && Lists(items, Replay(a).objects) && PassDone(items, hits, failed, purged, a, b)
    requires Kept(a, b, Replay(a).objects.Keys) && Arrivals(a) == Arrivals(b)
    ensures Replay(b).objects.Keys == Replay(a).objects.Keys - Collected(items, hits)
    ensures |Replay(b).objects| == |items| - purged
  {
    hide Clean, Mine, Replay, Kept, Lists, Collected, Deleted, Matching;
    var before, after, gone := Replay(a).objects, Replay(b).objects, Collected(items, hits);
    CollectedIsListed(items, hits, before);
    ListingSize(items, before);
    forall n | n in after ensures n in before {
      if n !in before {
        NewHasArrived(a, b, n);
      }
    }
    assert Exact(items, hits, failed, purged, b);
    hide PassDone;
    forall n | n in before ensures n in after <==> n !in gone {
      var i := Position(items, before, n);
    }
    hide Exact;
    assert after.Keys == before.Keys - gone;
    assert |after| == |after.Keys| && |before| == |before.Keys|;
  }

  lemma CollectedIsListed(items: seq<(string, Csr)>, hits: seq<nat>, objects: map<string, Csr>)
    requires |items| == |hits| && Lists(items, objects)
    ensures Collected(items, hits) <= objects.Keys
  {
    hide FirstClash, Matching;
    forall n | n in Collected(items, hits) ensures n in objects {
      InMatching(items, hits, if FirstClash(hits) < |hits| then FirstClash(hits) + 1 else FirstClash(hits), n);
    }
  }
}
