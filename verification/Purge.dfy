/** The garbage collector of pkg/operation/purge/purge.go: one pass, and the daemon that repeats it. */
module Purge {
  import opened Base
  import opened Decimal
  import opened Calendar
  import opened Objects
  import opened Cluster
  import opened Protocol
  import opened Collectable
  import opened Pass

  class Collector {
    const api: ApiServer
    const rules: seq<Rule>
    const grace: Duration
    /** kubernetes_apiserver_csr, kubernetes_csr_deletes and kubernetes_csr_delete_errors */
    var gauge: int
    var deletes: nat
    var deleteErrors: nat

    constructor (api: ApiServer, rules: seq<Rule>, grace: Duration)
      ensures this.api == api && this.rules == rules && this.grace == grace
    {
      this.api, this.rules, this.grace := api, rules, grace;
      gauge, deletes, deleteErrors := 0, 0, 0;
    }

    /** Deletes one object; it fails exactly when the object is not there at the moment the request is served. */
    method Delete(name: string) returns (err: Option<ApiError>)
      requires api.Valid()
      modifies api
      ensures api.Valid() && Purged(old(api.log), api.log, {name}, if err.None? then 1 else 0)
      ensures Mine(api.log) == Mine(old(api.log)) + if err.None? then [Event.Delete(Self, name)] else []
      ensures name !in api.store.objects && (err.Some? ==> err.value == NotFound)
      ensures err.None? ==> Deleted(old(api.log), api.log, Self, name)
      ensures Kept(old(api.log), api.log, {name}) ==> (err.None? <==> name in old(api.store.objects))
    {
      ghost var before := api.log;
      err := api.Delete(name);
      if err.Some? {
        QuietIsNotMine(before, api.log);
        QuietKeeps(before, api.log, api.log, name);
      } else {
        ServedIsMine(before, api.log, Event.Delete(Self, name));
        QuietKeeps(before, Before(api.log), api.log, name);
        assert api.log[|api.log| - 1] == Event.Delete(Self, name);
      }
    }

    /** Every rule examines the object listed at i, and each match is a delete request; the first that fails ends it. */
    method Examine(name: string, c: Csr, clock: Clock, i: nat) returns (err: Option<ApiError>, purged: nat)
      requires api.Valid()
      modifies this`deletes, api
      ensures api.Valid() && deletes == old(deletes) + purged
      ensures Examined(Hits(c, rules, grace, clock, i, |rules|), err.Some?, purged, name, old(api.log), api.log)
    {
      hide Clean, Mine, Replay, Examined, Purged, Kept, Deleted;
      err, purged := None, 0;
      ExamineStart(name, api.log);
      for j := 0 to |rules|
        invariant err.None? && api.Valid() && deletes == old(deletes) + purged
        invariant Examined(Hits(c, rules, grace, clock, i, j), false, purged, name, old(api.log), api.log)
      {
        if !rules[j](c, grace, clock(i, j)) {
          continue;
        }
        ghost var before := api.log;
        err := Delete(name);
        ExamineStep(Hits(c, rules, grace, clock, i, j), purged, err.Some?, name, old(api.log), before, api.log);
        if err.Some? {
          HitsGrow(c, rules, grace, clock, i, j + 1, |rules|);
          ExaminedGrows(Hits(c, rules, grace, clock, i, j + 1), Hits(c, rules, grace, clock, i, |rules|), purged, name,
                        old(api.log), api.log);
          return;
        }
        deletes := deletes + 1;
        purged := purged + 1;
      }
    }

    /** The loop of a pass over the objects just listed; the first failing delete ends it. */
    method Sweep(items: seq<(string, Csr)>, clock: Clock) returns (err: Option<ApiError>, purged: nat)
      requires api.Valid() && Lists(items, api.store.objects)
      modifies this`deletes, api
      ensures api.Valid() && deletes == old(deletes) + purged
      ensures PassDone(items, AllHits(items, clock), err.Some?, purged, old(api.log), api.log)
    {
      hide Clean, Mine, Replay, PassedTo, PassDone, Examined, Lists;
      ghost var hits := AllHits(items, clock);
      err, purged := None, 0;
      PassStart(items, hits, api.log);
      for i := 0 to |items|
        invariant err.None? && api.Valid() && deletes == old(deletes) + purged
        invariant PassedTo(items, hits, i, purged, old(api.log), api.log)
      {
        ghost var before := api.log;
        var n;
        err, n := Examine(items[i].0, items[i].1, clock, i);
        PassStep(items, hits, i, err.Some?, purged, n, old(api.log), before, api.log);
        purged := purged + n;
        if err.Some? {
          return;
        }
      }
      PassComplete(items, hits, purged, old(api.log), api.log);
    }

    /** How many rules match each listed object. */
    function AllHits(items: seq<(string, Csr)>, clock: Clock): (hits: seq<nat>)
      ensures |hits| == |items|
      ensures forall i :: 0 <= i < |items| ==> hits[i] == Hits(items[i].1, rules, grace, clock, i, |rules|)
    {
      seq(|items|, i requires 0 <= i < |items| => Hits(items[i].1, rules, grace, clock, i, |rules|))
    }

    /** One pass: list, sweep, and set the gauge if nothing failed. */
    method GarbageCollect(clock: Clock)
      returns (err: Option<ApiError>, ghost listed: Log, ghost items: seq<(string, Csr)>)
      requires api.Valid()
      modifies this`deletes, this`gauge, api
      ensures api.Valid() && deletes >= old(deletes)
      ensures gauge == if err.None? then |items| - (deletes - old(deletes)) else old(gauge)
      ensures Quiet(old(api.log), listed) && (Clean(old(api.log)) ==> Clean(listed))
      ensures Lists(items, Replay(listed).objects)
      ensures PassDone(items, AllHits(items, clock), err.Some?, deletes - old(deletes), listed, api.log)
    {
      hide Clean, Replay, PassDone, Lists;
      var list := api.List();
      items, listed := list, api.log;
      var purged;
      err, purged := Sweep(list, clock);
      if err.None? {
        gauge := |list| - purged;
      }
    }

    /** The pass is one of this collector, by that clock: over a true listing, and done to its end. */
    ghost predicate Ran(r: Round, clock: Clock) {
      Quiet(r.began, r.listed) && (Clean(r.began) ==> Clean(r.listed)) && Lists(r.items, Replay(r.listed).objects)
      && PassDone(r.items, AllHits(r.items, clock), r.failed, r.purged, r.listed, r.ended)
    }

    /** What the daemon does at a tick: a pass, whose failure is counted and swallowed. */
    method Tick(clock: Clock) returns (ghost r: Round)
      requires api.Valid()
      modifies this, api
      ensures api.Valid() && r.began == old(api.log) && r.ended == api.log && Ran(r, clock)
      ensures deletes == old(deletes) + r.purged
      ensures deleteErrors == old(deleteErrors) + (if r.failed then 1 else 0)
      ensures gauge == if r.failed then old(gauge) else r.Left()
      ensures Progress(old(api.log), api.log, r.purged, if r.failed then 1 else 0)
    {
      hide Clean, Mine, Replay, PassDone, Lists;
      ghost var listed, items;
      var err;
      err, listed, items := GarbageCollect(clock);
      r := Round(old(api.log), listed, items, err.Some?, deletes - old(deletes), api.log);
      PassProgress(items, AllHits(items, clock), r.failed, r.purged, r.began, listed, r.ended);
      if err.Some? {
        deleteErrors := deleteErrors + 1;
      }
    }

    /**
     The daemon: a tick after another until a signal, and a pass at each of them, whatever became of the one before.
     Every failed pass has seen a delete, its own or another actor's, so no more fail than there ever were objects.
     Every completed pass leaves nothing as it was that had been collectable when it began; and after more ticks than
     there ever were objects nothing is left that was collectable when the daemon started.
     */
    method GarbageCollectLoop(ticks: nat, clock: (nat, nat, nat) -> Instant, ghost start: Instant)
      returns (ghost rounds: seq<Round>)
      requires api.Valid()
      modifies this, api
      ensures api.Valid() && deletes >= old(deletes) && deleteErrors >= old(deleteErrors)
      ensures |rounds| == ticks && Chained(rounds, old(api.log), api.log)
      ensures forall n :: 0 <= n < ticks ==> Ran(rounds[n], ClockAt(clock, n))
      ensures deletes == old(deletes) + Removed(rounds) && deleteErrors == old(deleteErrors) + Failures(rounds)
      ensures gauge == LastLeft(rounds, old(gauge))
      ensures Clean(old(api.log)) && Reliable(rules, grace) ==>
        forall n: nat, t: Instant :: n < ticks && !rounds[n].failed && NeverBefore(ClockAt(clock, n), t) ==>
          Settled(rounds[n].began, api.log, rules, grace, t)
      ensures Progress(old(api.log), api.log, deletes - old(deletes), deleteErrors - old(deleteErrors))
      ensures Clean(old(api.log)) ==>
        |api.store.objects| + (deletes - old(deletes)) + Departures(api.log) + Arrivals(old(api.log))
        == |old(api.store.objects)| + Departures(old(api.log)) + Arrivals(api.log)
      ensures Clean(old(api.log)) ==>
        deleteErrors - old(deleteErrors) + |api.store.objects|
        <= |old(api.store.objects)| + Arrivals(api.log) - Arrivals(old(api.log))
      ensures Clean(old(api.log)) && ticks > |old(api.store.objects)| + Arrivals(api.log) - Arrivals(old(api.log)) ==>
        (Reliable(rules, grace) && StartsAt(clock, start) ==> Settled(old(api.log), api.log, rules, grace, start))
    {
      hide Clean, Mine, Replay, Progress, Settled, Reliable, Ran, Chained, Removed, Failures, LastLeft, ClockAt;
      hide NeverBefore;
      rounds := [];
      NoRounds(api.log, gauge);
      for n := 0 to ticks
        invariant api.Valid() && |rounds| == n && Chained(rounds, old(api.log), api.log)
        invariant forall m :: 0 <= m < n ==> Ran(rounds[m], ClockAt(clock, m))
        invariant deletes == old(deletes) + Removed(rounds) && deleteErrors == old(deleteErrors) + Failures(rounds)
        invariant gauge == LastLeft(rounds, old(gauge))
      {
        ghost var before := rounds;
        ghost var r := Tick(ClockAt(clock, n));
        rounds := before + [r];
        RoundsNext(before, r, old(api.log), old(gauge));
      }
      RoundsProgress(rounds, clock, old(api.log), api.log);
      if Clean(old(api.log)) {
        Balance(old(api.log), api.log, deletes - old(deletes), deleteErrors - old(deleteErrors));
        if Reliable(rules, grace) {
          RoundsSettle(rounds, clock, old(api.log), api.log);
          if StartsAt(clock, start) && Failures(rounds) < ticks {
            var n := SomeCompleted(rounds);
            SettledBefore(rounds, clock, n, old(api.log), api.log, start);
          }
        }
      }
    }

    /** All passes together make the progress that each of them makes. */
    lemma {:induction false} RoundsProgress(rounds: seq<Round>, clock: (nat, nat, nat) -> Instant, a: Log, b: Log)
      requires Chained(rounds, a, b) && forall n :: 0 <= n < |rounds| ==> Ran(rounds[n], ClockAt(clock, n))
      ensures Progress(a, b, Removed(rounds), Failures(rounds)) && a <= b && (Clean(a) ==> Clean(b))
    {
      hide Clean, Mine, Replay, Progress, PassDone, Lists;
      if rounds == [] {
        NoProgress(a);
      } else {
        var n := |rounds| - 1;
        var r := rounds[n];
        RoundsProgress(rounds[..n], clock, a, r.began);
        PassProgress(r.items, AllHits(r.items, ClockAt(clock, n)), r.failed, r.purged, r.began, r.listed, r.ended);
        ProgressTogether(a, r.began, b, Removed(rounds[..n]), Failures(rounds[..n]), r.purged,
                         if r.failed then 1 else 0);
      }
    }

    /** Every pass begins and ends within the run. */
    lemma {:induction false} RoundWithin(rounds: seq<Round>, clock: (nat, nat, nat) -> Instant, n: nat, a: Log, b: Log)
      requires Chained(rounds, a, b) && n < |rounds|
      requires forall m :: 0 <= m < |rounds| ==> Ran(rounds[m], ClockAt(clock, m))
      ensures a <= rounds[n].began <= rounds[n].listed <= rounds[n].ended <= b
      ensures Clean(a) ==> Clean(rounds[n].began) && Clean(rounds[n].listed)
    {
      hide Clean, Mine, Replay, Progress, Lists, ClockAt;
      var last := |rounds| - 1;
      RoundsProgress(rounds[..last], clock, a, rounds[last].began);
      RanGrows(rounds[last], ClockAt(clock, last));
      if n == last {
      } else {
        RoundWithin(rounds[..last], clock, n, a, rounds[last].began);
      }
    }

    lemma RanGrows(r: Round, clock: Clock)
      requires Ran(r, clock)
      ensures r.began <= r.listed <= r.ended && (Clean(r.began) ==> Clean(r.listed))
    {
      hide Clean, Mine, Replay, Lists;
    }

    /** Every completed pass settles the log at its own beginning, and what is settled stays so. */
    lemma RoundsSettle(rounds: seq<Round>, clock: (nat, nat, nat) -> Instant, a: Log, b: Log)
      requires Chained(rounds, a, b) && forall n :: 0 <= n < |rounds| ==> Ran(rounds[n], ClockAt(clock, n))
      requires Clean(a) && Reliable(rules, grace)
      ensures forall n: nat, t: Instant :: n < |rounds| && !rounds[n].failed && NeverBefore(ClockAt(clock, n), t) ==>
                Settled(rounds[n].began, b, rules, grace, t)
    {
      hide Clean, Mine, Replay, Chained, Reliable, ClockAt, NeverBefore, Ran, Settled;
      forall n: nat, t: Instant | n < |rounds| && !rounds[n].failed && NeverBefore(ClockAt(clock, n), t)
        ensures Settled(rounds[n].began, b, rules, grace, t)
      {
        RoundWithin(rounds, clock, n, a, b);
        RoundSettles(rounds[n], ClockAt(clock, n), rounds[n].began, b, t);
      }
    }

    /** A completed pass settles any log before its listing. */
    lemma RoundSettles(r: Round, clock: Clock, origin: Log, b: Log, t: Instant)
      requires Ran(r, clock) && !r.failed && origin <= r.listed && r.ended <= b && Clean(r.listed)
      requires Reliable(rules, grace) && NeverBefore(clock, t)
      ensures Settled(origin, b, rules, grace, t)
    {
      hide Clean, Mine, Replay, Lists, Reliable, Settled, PassDone;
      RanGrows(r, clock);
      PassSettles(r.items, rules, grace, clock, AllHits(r.items, clock), r.purged, origin, r.listed, r.ended, t);
      StaysSettled(origin, r.ended, b, rules, grace, t);
    }

    /** And so the log at the start of the daemon. */
    lemma SettledBefore(rounds: seq<Round>, clock: (nat, nat, nat) -> Instant, n: nat, a: Log, b: Log, start: Instant)
      requires Chained(rounds, a, b) && forall m :: 0 <= m < |rounds| ==> Ran(rounds[m], ClockAt(clock, m))
      requires Clean(a) && Reliable(rules, grace) && StartsAt(clock, start) && n < |rounds| && !rounds[n].failed
      ensures Settled(a, b, rules, grace, start)
    {
      hide Clean, Mine, Replay, Chained, Reliable, Ran, Settled;
      RoundWithin(rounds, clock, n, a, b);
      RoundSettles(rounds[n], ClockAt(clock, n), a, b, start);
    }
  }

  // ---- Passes in a row ----

  /** A pass: the logs when it began, had listed and ended, what it listed, whether it failed, how many it deleted. */
  datatype Round = Round(began: Log, listed: Log, items: seq<(string, Csr)>, failed: bool, purged: nat, ended: Log) {
    /** The number of listed objects less the deleted ones. */
    function Left(): int {
      |items| - purged
    }
  }

  /** The clock during pass n. */
  function ClockAt(clock: (nat, nat, nat) -> Instant, n: nat): Clock {
    (i: nat, j: nat) => clock(n, i, j)
  }

  ghost predicate NeverBefore(clock: Clock, t: Instant) {
    forall i, j :: t <= clock(i, j)
  }

  /** The passes follow each other from log a to log b. */
  ghost predicate Chained(rounds: seq<Round>, a: Log, b: Log) {
    if rounds == [] then a == b
    else rounds[|rounds| - 1].ended == b && Chained(rounds[..|rounds| - 1], a, rounds[|rounds| - 1].began)
  }

  function Removed(rounds: seq<Round>): nat {
    if rounds == [] then 0 else Removed(rounds[..|rounds| - 1]) + rounds[|rounds| - 1].purged
  }

  function Failures(rounds: seq<Round>): nat {
    if rounds == [] then 0 else Failures(rounds[..|rounds| - 1]) + if rounds[|rounds| - 1].failed then 1 else 0
  }

  /** The gauge shows what the last completed pass left. */
  function LastLeft(rounds: seq<Round>, gauge: int): int {
    if rounds == [] then gauge
    else if rounds[|rounds| - 1].failed then LastLeft(rounds[..|rounds| - 1], gauge)
    else rounds[|rounds| - 1].Left()
  }

  lemma NoRounds(log: Log, gauge: int)
    ensures Chained([], log, log) && Removed([]) == Failures([]) == 0 && LastLeft([], gauge) == gauge
  {
  }

  lemma RoundsNext(rounds: seq<Round>, r: Round, a: Log, gauge: int)
    requires Chained(rounds, a, r.began)
    ensures Chained(rounds + [r], a, r.ended) && Removed(rounds + [r]) == Removed(rounds) + r.purged
    ensures Failures(rounds + [r]) == Failures(rounds) + if r.failed then 1 else 0
    ensures LastLeft(rounds + [r], gauge) == if r.failed then LastLeft(rounds, gauge) else r.Left()
  {
    assert (rounds + [r])[..|rounds|] == rounds;
  }

  /** If not all passes failed, one completed. */
  lemma {:induction false} SomeCompleted(rounds: seq<Round>) returns (n: nat)
    requires Failures(rounds) < |rounds|
    ensures n < |rounds| && !rounds[n].failed
  {
    var last := |rounds| - 1;
    if rounds[last].failed {
      n := SomeCompleted(rounds[..last]);
    } else {
      n := last;
    }
  }

  // ---- The daemon ----

  /** The collector only deleted, and every failed pass saw a delete, by the collector or by others. */
  ghost predicate Progress(a: Log, b: Log, deletes: nat, failures: nat) {
    OnlyDeletes(a, b, deletes) && failures + Departures(a) <= deletes + Departures(b)
  }

  lemma NoProgress(a: Log)
    ensures Progress(a, a, 0, 0)
  {
  }

  lemma ProgressTogether(a: Log, b: Log, c: Log, n: nat, failures: nat, m: nat, more: nat)
    requires Progress(a, b, n, failures) && Progress(b, c, m, more)
    ensures Progress(a, c, n + m, failures + more) && a <= b <= c && (Clean(a) ==> Clean(c))
  {
    OnlyDeletesTogether(a, b, c, n, m);
  }

  /** No more passes fail than there were objects at the start or arrived since, without those that are left. */
  lemma Balance(a: Log, b: Log, deletes: nat, failures: nat)
    requires Progress(a, b, deletes, failures) && Clean(a)
    ensures |Replay(b).objects| + deletes + Departures(b) + Arrivals(a) ==
            |Replay(a).objects| + Departures(a) + Arrivals(b)
    ensures failures + |Replay(b).objects| <= |Replay(a).objects| + Arrivals(b) - Arrivals(a)
  {
    Census(a, b, deletes);
  }

  /** A failed pass has deleted an object, or another actor has. */
  lemma PassProgress(items: seq<(string, Csr)>, hits: seq<nat>, failed: bool, purged: nat, a: Log, listed: Log, b: Log)
    requires |items| == |hits| && Quiet(a, listed) && (Clean(a) ==> Clean(listed))
    requires PassDone(items, hits, failed, purged, listed, b)
    ensures Progress(a, b, purged, if failed then 1 else 0)
  {
    hide Clean, Mine, Replay, Deleted;
    QuietIsNotMine(a, listed);
    OnlyDeletesTogether(a, listed, b, 0, purged);
    DeparturesCount(a, listed, "");
    DeparturesCount(listed, b, "");
    if failed && Robbed(items, listed, b) {
      var i :| 0 <= i < |items| && Deleted(listed, b, Other, items[i].0);
      DeparturesCount(listed, b, items[i].0);
    }
  }

  /** Every rule is lasting. */
  ghost predicate Reliable(rules: seq<Rule>, grace: Duration) {
    forall j :: 0 <= j < |rules| ==> Lasting(rules[j], grace)
  }

  /** The clock never shows less than its value at the start. */
  ghost predicate StartsAt(clock: (nat, nat, nat) -> Instant, start: Instant) {
    forall n, i, j :: start <= clock(n, i, j)
  }

  /** Of the objects of log a that nobody replaced or fetched since, none was collectable at the start. */
  ghost predicate Settled(a: Log, b: Log, rules: seq<Rule>, grace: Duration, start: Instant) {
    forall name, j :: name in Replay(a).objects && 0 <= j < |rules| && Steady(b, |a|, name) ==>
      !rules[j](Replay(a).objects[name], grace, start)
  }

  lemma SteadyPart(a: Log, b: Log, c: Log, name: string)
    requires a <= b <= c && Steady(c, |a|, name)
    ensures Steady(b, |a|, name)
  {
    assert forall i :: 0 <= i < |b| ==> c[i] == b[i];
  }

  lemma StaysSettled(a: Log, b: Log, c: Log, rules: seq<Rule>, grace: Duration, start: Instant)
    requires Settled(a, b, rules, grace, start) && a <= b <= c
    ensures Settled(a, c, rules, grace, start)
  {
    forall name | name in Replay(a).objects && Steady(c, |a|, name) ensures Steady(b, |a|, name) {
      SteadyPart(a, b, c, name);
    }
  }

  /** After a completed pass nothing is left as it was that had been collectable at the start. */
  lemma PassSettles(items: seq<(string, Csr)>, rules: seq<Rule>, grace: Duration, clock: Clock, hits: seq<nat>,
                    purged: nat, a: Log, listed: Log, b: Log, start: Instant)
    requires |items| == |hits| && Lists(items, Replay(listed).objects) && a <= listed && Clean(listed)
    requires forall i :: 0 <= i < |items| ==> hits[i] == Hits(items[i].1, rules, grace, clock, i, |rules|)
    requires PassDone(items, hits, false, purged, listed, b)
    requires Reliable(rules, grace) && forall i, j :: start <= clock(i, j)
    ensures Settled(a, b, rules, grace, start)
  {
    hide Clean, Mine, Replay, Hits, Lists, Kept, Steady;
    forall name, j | name in Replay(a).objects && 0 <= j < |rules| && Steady(b, |a|, name)
      ensures !rules[j](Replay(a).objects[name], grace, start)
    {
      if rules[j](Replay(a).objects[name], grace, start) {
        SteadyPart(a, listed, b, name);
        assert listed[..|a|] == a;
        assert Ripe(listed, |a|, name, rules[j], grace, start);
        assert Lasting(rules[j], grace);
        assert Matched(listed, name, rules[j], grace, start);
        var i := Position(items, Replay(listed).objects, name);
        assert Matched(listed, name, rules[j], grace, clock(i, j));
        if hits[i] == 0 {
          NoHit(items[i].1, rules, grace, clock, i, j, |rules|);
        }
        NotSteady(a, listed, b, name);
      }
    }
  }

  /** A deleted object is not steady. */
  lemma NotSteady(a: Log, b: Log, c: Log, name: string)
    requires a <= b && Deleted(b, c, Self, name)
    ensures !Steady(c, |a|, name)
  {
    var k :| |b| <= k < |c| && c[k] == Event.Delete(Self, name);
    assert c[k].Replaces(name) && c[k].Author() in Anyone;
  }

  // ---- The configured rules ----

  /** The rules that cmd/cmd.go configures, in its order. */
  function Configured(denied: bool, fetched: bool, expired: bool): seq<Rule> {
    (if denied then [IsConditionDenied] else [])
    + (if fetched then [IsAnnotationFetched] else [])
    + (if expired then [IsCertificateExpired] else [])
  }

  ghost predicate Matches(c: Csr, rules: seq<Rule>, grace: Duration, clock: Clock, i: nat, j: nat) {
    j < |rules| && rules[j](c, grace, clock(i, j))
  }

  lemma HitsOfFew(c: Csr, rules: seq<Rule>, grace: Duration, clock: Clock, i: nat)
    requires |rules| <= 3
    ensures Hits(c, rules, grace, clock, i, |rules|) ==
            (if Matches(c, rules, grace, clock, i, 0) then 1 else 0)
            + (if Matches(c, rules, grace, clock, i, 1) then 1 else 0)
            + (if Matches(c, rules, grace, clock, i, 2) then 1 else 0)
  {
    assert Hits(c, rules, grace, clock, i, 0) == 0;
    if |rules| > 1 {
      assert Hits(c, rules, grace, clock, i, 1) == if rules[0](c, grace, clock(i, 0)) then 1 else 0;
    }
    if |rules| > 2 {
      assert Hits(c, rules, grace, clock, i, 2) ==
             Hits(c, rules, grace, clock, i, 1) + if rules[1](c, grace, clock(i, 1)) then 1 else 0;
    }
  }

  /**
   On reachable objects two configured rules match only as fetched and expired.
   So a pass over a reachable store with denied and at most one of the other two never fails on its own second delete.
   */
  lemma ClashExactly(log: Log, name: string, denied: bool, fetched: bool, expired: bool, grace: Duration,
                     clock: Clock, i: nat)
    requires Clean(log) && name in Replay(log).objects
    ensures var c := Replay(log).objects[name];
            var rules := Configured(denied, fetched, expired);
            Hits(c, rules, grace, clock, i, |rules|) >= 2 <==>
            fetched && expired
            && IsAnnotationFetched(c, grace, clock(i, if denied then 1 else 0))
            && IsCertificateExpired(c, grace, clock(i, if denied then 2 else 1))
  {
    var c := Replay(log).objects[name];
    var rules := Configured(denied, fetched, expired);
    if denied && IsConditionDenied(c, grace, clock(i, 0)) {
      forall t: Instant ensures !IsCertificateExpired(c, grace, t) && !IsAnnotationFetched(c, grace, t) {
        DeniedExcludesOthers(log, name, grace, clock(i, 0), t);
      }
    }
    hide IsCertificateExpired, IsAnnotationFetched, IsConditionDenied, Clean, Replay;
    HitsOfFew(c, rules, grace, clock, i);
    hide Hits;
  }

  /** So a pass over a reachable store never fails by itself, unless it collects both fetched and expired objects. */
  lemma NeverFailsItself(items: seq<(string, Csr)>, denied: bool, fetched: bool, expired: bool, grace: Duration,
                         clock: Clock, hits: seq<nat>, failed: bool, purged: nat, a: Log, b: Log)
    requires Clean(a) && Lists(items, Replay(a).objects) && !(fetched && expired)
    requires var rules := Configured(denied, fetched, expired);
             |hits| == |items|
             && forall i :: 0 <= i < |items| ==> hits[i] == Hits(items[i].1, rules, grace, clock, i, |rules|)
    requires PassDone(items, hits, failed, purged, a, b)
    ensures failed ==> Robbed(items, a, b)
    ensures Kept(a, b, Replay(a).objects.Keys) ==>
              !failed && forall i :: 0 <= i < |items| ==> (items[i].0 in Replay(b).objects <==> hits[i] == 0)
  {
    hide Clean, Mine, Replay, Hits, Matching, Kept, Deleted;
    forall i | 0 <= i < |items| ensures hits[i] <= 1 {
      ClashExactly(a, items[i].0, denied, fetched, expired, grace, clock, i);
    }
    forall i | 0 <= i < |items| ensures items[i].0 in Matching(items, hits, |items|) <==> hits[i] >= 1 {
      InMatching(items, hits, |items|, items[i].0);
    }
  }

  /** The clash is real: for every grace period there is a reachable object and a time at which two rules match. */
  lemma ClashHappens(grace: Duration, name: string) returns (log: Log, clock: Clock)
    ensures Clean(log) && name in Replay(log).objects
    ensures var rules := Configured(false, true, true);
            Hits(Replay(log).objects[name], rules, grace, clock, 0, |rules|) >= 2
  {
    hide Clean, Replay, Hits, Format, Parse, Itoa, Atoi;
    log := IssuedAndFetched(name, NotPem(0), Certificate(NotPem(0), 0));
    var now := Max(0, EffectiveGrace(grace));
    clock := (i, j) => now;
    var c := Replay(log).objects[name];
    ExpiredExactly(c, grace, now);
    assert IsAnnotationFetched(c, grace, now) by {
      ParseFormat(0);
      BumpFirst(None, Format(0));
      AtoiItoa(1);
      KeysDiffer();
      GraceIsEffective(now, grace);
      assert |Format(0)| == 20 by { FormatSize(0); }
    }
    hide IsCertificateExpired, IsAnnotationFetched;
    HitsOfFew(c, Configured(false, true, true), grace, clock, 0);
  }

  lemma FormatSize(t: Instant)
    requires InCalendar(t)
    ensures |Format(t)| == 20
  {
  }
}
