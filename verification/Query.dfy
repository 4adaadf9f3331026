/** Asking for the addresses of services: pkg/operation/query/query.go. */
module Query {
  import opened Base
  import opened Cluster
  import opened Disk

  datatype Service = Service(clusterIP: string, externalIPs: seq<string>, loadBalancerIP: string,
                             externalName: string) {
    /** The names and addresses that the service answers to. */
    function Sans(): seq<string> {
      NonEmpty(clusterIP) + externalIPs + NonEmpty(loadBalancerIP) + NonEmpty(externalName)
    }
  }

  function NonEmpty(s: string): seq<string> {
    if s == "" then [] else [s]
  }

  /** A service is known by these names and addresses and no others, those without text left out, and in this order. */
  lemma SansOfService(s: Service, x: string)
    ensures x in s.Sans() <==>
            x in s.externalIPs || (x != "" && (x == s.clusterIP || x == s.loadBalancerIP || x == s.externalName))
    ensures s.clusterIP != "" ==> s.Sans()[0] == s.clusterIP
    ensures s.clusterIP == "" ==> s.externalIPs <= s.Sans()
    ensures s.clusterIP != "" ==> [s.clusterIP] + s.externalIPs <= s.Sans()
    ensures s.externalName != "" ==> s.Sans()[|s.Sans()| - 1] == s.externalName
    ensures s.loadBalancerIP != "" && s.externalName == "" ==> s.Sans()[|s.Sans()| - 1] == s.loadBalancerIP
    ensures s.loadBalancerIP != "" && s.externalName != "" ==> s.Sans()[|s.Sans()| - 2] == s.loadBalancerIP
    ensures |s.Sans()| == |s.externalIPs| + (if s.clusterIP != "" then 1 else 0)
                          + (if s.loadBalancerIP != "" then 1 else 0) + (if s.externalName != "" then 1 else 0)
  {
  }

  /** What the API server answers when asked for a service. */
  datatype Answer = Found(service: Service) | Unknown | Broken

  /** The answer about entry i at a tick. */
  type Answers = (nat, nat) -> Answer

  /** Whether entry i is marked when a tick begins, given its mark at entry to the call. */
  function Marked(flags: seq<bool>, ask: Answers, tick: nat, i: nat): bool
    requires i < |flags|
  {
    if tick == 0 then flags[i] else Marked(flags, ask, tick - 1, i) || ask(tick - 1, i).Found?
  }

  /** Entry i is found for the first time at this tick. */
  function Discovered(flags: seq<bool>, ask: Answers, tick: nat, i: nat): bool
    requires i < |flags|
  {
    !Marked(flags, ask, tick, i) && ask(tick, i).Found?
  }

  /** Everything discovered before entry n of the given tick, in order of discovery. */
  function SansTo(flags: seq<bool>, ask: Answers, tick: nat, n: nat): seq<string>
    requires n <= |flags|
    decreases tick, n
  {
    if n > 0 then
      SansTo(flags, ask, tick, n - 1)
      + if Discovered(flags, ask, tick, n - 1) then ask(tick, n - 1).service.Sans() else []
    else if tick > 0 then SansTo(flags, ask, tick - 1, |flags|)
    else []
  }

  ghost predicate AllMarked(flags: seq<bool>, ask: Answers, tick: nat) {
    forall i :: 0 <= i < |flags| ==> Marked(flags, ask, tick, i)
  }

  /** Entry i is asked for at this tick and the request fails. */
  ghost predicate FailsAt(flags: seq<bool>, ask: Answers, tick: nat, i: nat)
    requires i < |flags|
  {
    !Marked(flags, ask, tick, i) && ask(tick, i).Broken?
  }

  /** No request about the first n entries fails at this tick. */
  ghost predicate NoFailure(flags: seq<bool>, ask: Answers, tick: nat, n: nat)
    requires n <= |flags|
  {
    forall i :: 0 <= i < n ==> !FailsAt(flags, ask, tick, i)
  }

  /** Before the given tick no request failed, and no tick ended with everything marked. */
  ghost predicate StillAsking(flags: seq<bool>, ask: Answers, tick: nat) {
    (forall t :: 0 <= t < tick ==> NoFailure(flags, ask, t, |flags|))
    && (forall t :: 0 < t <= tick ==> !AllMarked(flags, ask, t))
  }

  /** How a call went: the marks at its entry, the ticks it completed, and the entries a failing tick got through. */
  datatype Call = Call(flags: seq<bool>, rounds: nat, n: nat) {
    ghost predicate Explains(r: Result<seq<string>, Failure>, ask: Answers, ticks: nat) {
      n <= |flags| &&
      match r
      case Ok(sans) =>
        0 < rounds <= ticks && n == 0 && StillAsking(flags, ask, rounds - 1) && AllMarked(flags, ask, rounds)
        && NoFailure(flags, ask, rounds - 1, |flags|)
        && sans == SansTo(flags, ask, rounds, 0)
      case Err(e) =>
        StillAsking(flags, ask, rounds) &&
        if e == TimedOut then rounds == ticks && n == 0
        else e == QueryError && rounds < ticks && n < |flags| && FailsAt(flags, ask, rounds, n)
             && NoFailure(flags, ask, rounds, n)
    }

    /** The marks that the call leaves behind. */
    ghost function Left(ask: Answers): (left: seq<bool>)
      ensures |left| == |flags|
      ensures forall i :: 0 <= i < |flags| ==> left[i] == Marked(flags, ask, if i < n then rounds + 1 else rounds, i)
    {
      seq(|flags|, i requires 0 <= i < |flags| => Marked(flags, ask, if i < n then rounds + 1 else rounds, i))
    }
  }

  /** The namespace and the service that an entry names; without a slash the namespace is the current one. */
  function SplitEntry(entry: string, current: string): (r: (string, string))
    ensures '/' in entry ==> r.0 + "/" + r.1 == entry && '/' !in r.0
    ensures '/' !in entry ==> r == (current, entry)
  {
    if entry == "" then (current, "")
    else
      assert entry == [entry[0]] + entry[1..];
      if entry[0] == '/' then ("", entry[1..])
      else
        var rest := SplitEntry(entry[1..], current);
        assert ([entry[0]] + rest.0) + "/" + rest.1 == [entry[0]] + (rest.0 + "/" + rest.1);
        if '/' in entry[1..] then ([entry[0]] + rest.0, rest.1) else (current, entry)
  }

  /** Joining a namespace without a slash to any service name, also one with slashes, is undone by the split. */
  lemma {:induction false} SplitJoined(ns: string, svc: string, current: string)
    requires '/' !in ns
    ensures SplitEntry(ns + "/" + svc, current) == (ns, svc)
  {
    var entry := ns + "/" + svc;
    assert entry[|ns|] == '/';
    if ns != [] {
      assert ns == [entry[0]] + ns[1..] && entry[1..] == ns[1..] + "/" + svc;
      assert entry[1..][|ns| - 1] == '/';
      SplitJoined(ns[1..], svc, current);
    } else {
      assert entry[1..] == svc;
    }
  }

  class ServiceToQuery {
    const ns: string
    const svc: string
    var ok: bool

    constructor (ns: string, svc: string)
      ensures this.ns == ns && this.svc == svc && !ok
    {
      this.ns, this.svc, ok := ns, svc, false;
    }
  }

  class Querier {
    const services: seq<ServiceToQuery>

    constructor (services: seq<ServiceToQuery>)
      ensures this.services == services
    {
      this.services := services;
    }

    /** Every entry has its own flag. */
    ghost predicate Valid() {
      forall i, j :: 0 <= i < j < |services| ==> services[i] != services[j]
    }

    ghost function Flags(): (flags: seq<bool>)
      reads services
      ensures |flags| == |services| && forall i :: 0 <= i < |flags| ==> flags[i] == services[i].ok
    {
      seq(|services|, i requires 0 <= i < |services| reads services => services[i].ok)
    }

    /** The marks when the call has looked at n entries of the given tick. */
    ghost predicate MarksAre(flags: seq<bool>, ask: Answers, tick: nat, n: nat)
      requires |flags| == |services|
      reads services
    {
      (forall i :: 0 <= i < |services| && i < n ==> services[i].ok == Marked(flags, ask, tick + 1, i))
      && (forall i :: 0 <= i < |services| && n <= i ==> services[i].ok == Marked(flags, ask, tick, i))
    }

    static method AppendSans(found: seq<string>, service: Service) returns (sans: seq<string>)
      ensures sans == found + service.Sans()
    {
      sans := found;
      if service.clusterIP != "" {
        sans := sans + [service.clusterIP];
      }
      if |service.externalIPs| > 0 {
        sans := sans + service.externalIPs;
      }
      if service.loadBalancerIP != "" {
        sans := sans + [service.loadBalancerIP];
      }
      if service.externalName != "" {
        sans := sans + [service.externalName];
      }
    }

    /** One tick: every unmarked entry is asked for; a missing service is asked for again at the next tick. */
    method Sweep(ask: Answers, tick: nat, found: seq<string>, ghost flags: seq<bool>)
      returns (sans: seq<string>, failed: bool, ghost n: nat)
      requires Valid() && |flags| == |services| && MarksAre(flags, ask, tick, 0) && found == SansTo(flags, ask, tick, 0)
      modifies services
      ensures n <= |services| && MarksAre(flags, ask, tick, n)
      ensures NoFailure(flags, ask, tick, n)
      ensures if failed
              then n < |services| && FailsAt(flags, ask, tick, n)
              else n == |services| && sans == SansTo(flags, ask, tick, n)
    {
      sans, failed := found, false;
      for i := 0 to |services|
        invariant MarksAre(flags, ask, tick, i) && sans == SansTo(flags, ask, tick, i) && !failed
        invariant NoFailure(flags, ask, tick, i)
      {
        if services[i].ok {
          continue;
        }
        match ask(tick, i) {
          case Broken =>
            return sans, true, i;
          case Unknown =>
          case Found(service) =>
            sans := AppendSans(sans, service);
            services[i].ok := true;
        }
      }
      n := |services|;
    }

    method Count() returns (todo: nat, done: nat)
      ensures todo + done == |services| && (todo == 0 <==> forall i :: 0 <= i < |services| ==> services[i].ok)
    {
      todo, done := 0, 0;
      for i := 0 to |services|
        invariant todo + done == i && (todo == 0 <==> forall j :: 0 <= j < i ==> services[j].ok)
      {
        if services[i].ok {
          done := done + 1;
        } else {
          todo := todo + 1;
        }
      }
    }

    /** A tick without a failure: it ends the call if everything is marked now. */
    lemma NextTick(flags: seq<bool>, ask: Answers, tick: nat)
      requires |flags| == |services| && MarksAre(flags, ask, tick, |services|)
      requires StillAsking(flags, ask, tick) && NoFailure(flags, ask, tick, |services|)
      ensures SansTo(flags, ask, tick + 1, 0) == SansTo(flags, ask, tick, |flags|)
      ensures MarksAre(flags, ask, tick + 1, 0)
      ensures AllMarked(flags, ask, tick + 1) <==> forall i :: 0 <= i < |services| ==> services[i].ok
      ensures !AllMarked(flags, ask, tick + 1) ==> StillAsking(flags, ask, tick + 1)
    {
      hide FailsAt, Discovered;
    }

    lemma MarksLeft(call: Call, ask: Answers)
      requires |call.flags| == |services| && MarksAre(call.flags, ask, call.rounds, call.n)
      ensures Flags() == call.Left(ask)
    {
    }

    /**
     Polls until every entry is marked, a request fails, or the timer fires after the given number of ticks.
     The marks outlive the call, also when it fails and its names are lost.
     */
    method GetSubjectAlternativeNames(ask: Answers, ticks: nat)
      returns (r: Result<seq<string>, Failure>, ghost call: Call)
      requires Valid()
      modifies services
      ensures call.Explains(r, ask, ticks) && call.flags == old(Flags())
      ensures Flags() == call.Left(ask)
    {
      var sans := [];
      var tick := 0;
      ghost var flags := Flags();
      assert MarksAre(flags, ask, 0, 0) && SansTo(flags, ask, 0, 0) == [] && StillAsking(flags, ask, 0);
      hide MarksAre, SansTo, FailsAt, NoFailure, StillAsking, AllMarked, Flags, Call.Left;
      while true
        invariant tick <= ticks && MarksAre(flags, ask, tick, 0) && sans == SansTo(flags, ask, tick, 0)
        invariant StillAsking(flags, ask, tick)
        decreases ticks - tick
      {
        if tick == ticks {
          MarksLeft(Call(flags, tick, 0), ask);
          return Err(TimedOut), Call(flags, tick, 0);
        }
        var failed;
        ghost var n;
        sans, failed, n := Sweep(ask, tick, sans, flags);
        if failed {
          MarksLeft(Call(flags, tick, n), ask);
          return Err(QueryError), Call(flags, tick, n);
        }
        NextTick(flags, ask, tick);
        tick := tick + 1;
        var todo, done := Count();
        if todo == 0 && done == |services| {
          MarksLeft(Call(flags, tick, 0), ask);
          return Ok(sans), Call(flags, tick, 0);
        }
      }
    }
  }

  /** One entry object for each configured name, none of them marked. */
  method NewQuery(entries: seq<string>, current: string) returns (q: Querier)
    ensures fresh(q) && q.Valid() && |q.services| == |entries|
    ensures forall i :: 0 <= i < |entries| ==>
              fresh(q.services[i]) && !q.services[i].ok
              && (q.services[i].ns, q.services[i].svc) == SplitEntry(entries[i], current)
  {
    var services: seq<ServiceToQuery> := [];
    for i := 0 to |entries|
      invariant |services| == i && forall j, k :: 0 <= j < k < i ==> services[j] != services[k]
      invariant forall j :: 0 <= j < i ==>
                  fresh(services[j]) && !services[j].ok
                  && (services[j].ns, services[j].svc) == SplitEntry(entries[j], current)
    {
      var (ns, svc) := SplitEntry(entries[i], current);
      var service := new ServiceToQuery(ns, svc);
      services := services + [service];
    }
    q := new Querier(services);
  }

  /** Marks are never taken back. */
  lemma {:induction false} MarksStay(flags: seq<bool>, ask: Answers, t: nat, u: nat, i: nat)
    requires i < |flags| && t <= u && Marked(flags, ask, t, i)
    ensures Marked(flags, ask, u, i)
    decreases u
  {
    if t == u {
    } else {
      MarksStay(flags, ask, t, u - 1, i);
    }
  }

  /** Each entry is discovered at most once, and never if it was marked at entry. */
  lemma DiscoveredOnce(flags: seq<bool>, ask: Answers, t: nat, u: nat, i: nat)
    requires i < |flags| && Discovered(flags, ask, t, i) && Discovered(flags, ask, u, i)
    ensures t == u && !flags[i]
  {
    if t < u {
      MarksStay(flags, ask, t + 1, u, i);
    } else if u < t {
      MarksStay(flags, ask, u + 1, t, i);
    }
    if flags[i] {
      MarksStay(flags, ask, 0, t, i);
    }
  }

  /** An entry that a call has marked was discovered at one of its ticks. */
  lemma {:induction false} MarkedWasDiscovered(flags: seq<bool>, ask: Answers, tick: nat, i: nat) returns (t: nat)
    requires i < |flags| && Marked(flags, ask, tick, i) && !flags[i]
    ensures t < tick && Discovered(flags, ask, t, i)
  {
    if Marked(flags, ask, tick - 1, i) {
      t := MarkedWasDiscovered(flags, ask, tick - 1, i);
    } else {
      t := tick - 1;
    }
  }

  /** Entry i was discovered at this tick. */
  datatype Find = Find(tick: nat, i: nat) {
    predicate Before(tick: nat, n: nat) {
      this.tick < tick || (this.tick == tick && i < n)
    }
  }

  function SansOf(ask: Answers, finds: seq<Find>): seq<string>
    requires forall f :: f in finds ==> ask(f.tick, f.i).Found?
  {
    if finds == [] then []
    else
      var last := finds[|finds| - 1];
      SansOf(ask, finds[..|finds| - 1]) + ask(last.tick, last.i).service.Sans()
  }

  ghost predicate IsFind(flags: seq<bool>, ask: Answers, tick: nat, n: nat, f: Find) {
    f.i < |flags| && f.Before(tick, n) && Discovered(flags, ask, f.tick, f.i)
  }

  /** What a call returns is what each discovered entry answered, in the order of ticks and within a tick of entries. */
  lemma {:induction false} SansInOrder(flags: seq<bool>, ask: Answers, tick: nat, n: nat) returns (finds: seq<Find>)
    requires n <= |flags|
    ensures forall f :: f in finds <==> IsFind(flags, ask, tick, n, f)
    ensures forall f :: f in finds ==> ask(f.tick, f.i).Found?
    ensures forall j, k :: 0 <= j < k < |finds| ==> finds[j].Before(finds[k].tick, finds[k].i)
    ensures SansTo(flags, ask, tick, n) == SansOf(ask, finds)
    decreases tick, n
  {
    if n > 0 {
      var before := SansInOrder(flags, ask, tick, n - 1);
      var f := Find(tick, n - 1);
      finds := if Discovered(flags, ask, tick, n - 1) then before + [f] else before;
      assert finds != before ==> finds[..|before|] == before;
      forall g
        ensures IsFind(flags, ask, tick, n, g) <==>
                IsFind(flags, ask, tick, n - 1, g) || (g == f && IsFind(flags, ask, tick, n, f))
      {
      }
      forall g | g in before ensures g.Before(f.tick, f.i) {
        assert IsFind(flags, ask, tick, n - 1, g);
      }
      hide Discovered, IsFind, SansTo, SansOf;
    } else if tick > 0 {
      finds := SansInOrder(flags, ask, tick - 1, |flags|);
    } else {
      finds := [];
    }
  }

  /** After a success everything is marked, so a later call finds nothing; it returns at its first tick. */
  lemma {:induction false} NothingLeft(flags: seq<bool>, ask: Answers, tick: nat, n: nat)
    requires n <= |flags| && forall i :: 0 <= i < |flags| ==> flags[i]
    ensures SansTo(flags, ask, tick, n) == [] && AllMarked(flags, ask, tick)
    decreases tick, n
  {
    forall i | 0 <= i < |flags| ensures Marked(flags, ask, tick, i) {
      MarksStay(flags, ask, 0, tick, i);
    }
    if n > 0 {
      NothingLeft(flags, ask, tick, n - 1);
    } else if tick > 0 {
      NothingLeft(flags, ask, tick - 1, |flags|);
    }
  }

  // ---- Any number of calls, one after another ----

  /** A call that is over. */
  datatype Finished = Finished(call: Call, ask: Answers, ticks: nat, result: Result<seq<string>, Failure>) {
    ghost function Left(): (left: seq<bool>)
      ensures |left| == |call.flags|
    {
      call.Left(ask)
    }

    /** The call marked entry i. */
    ghost predicate Marks(i: nat) {
      i < |call.flags| && !call.flags[i] && Left()[i]
    }
  }

  /** Successive calls: each is explained, and begins with the marks that the one before left. */
  ghost predicate Session(calls: seq<Finished>) {
    (forall k :: 0 <= k < |calls| ==> calls[k].call.Explains(calls[k].result, calls[k].ask, calls[k].ticks))
    && forall k :: 0 < k < |calls| ==> calls[k].call.flags == calls[k - 1].Left()
  }

  /** An entry is unmarked when a call begins exactly if it was at the first call and no call before marked it. */
  lemma {:induction false} UnmarkedYet(calls: seq<Finished>, m: nat, i: nat)
    requires Session(calls) && m < |calls| && i < |calls[0].call.flags|
    ensures |calls[m].call.flags| == |calls[0].call.flags|
    ensures !calls[m].call.flags[i] <==> Unheard(calls, m, i)
  {
    if m == 0 {
    } else {
      UnmarkedYet(calls, m - 1, i);
      var before := calls[m - 1];
      if before.call.flags[i] {
        MarksStay(before.call.flags, before.ask, 0, before.call.rounds, i);
        MarksStay(before.call.flags, before.ask, 0, before.call.rounds + 1, i);
      }
    }
  }

  /** The call succeeded with what it heard at the finds, which are in order of discovery and of different entries. */
  ghost predicate Returns(f: Finished, finds: seq<Find>) {
    (forall x :: x in finds ==> f.ask(x.tick, x.i).Found?)
    && f.result == Ok(SansOf(f.ask, finds))
    && forall j, k :: 0 <= j < k < |finds| ==>
         finds[j].Before(finds[k].tick, finds[k].i) && finds[j].i != finds[k].i
  }

  ghost predicate Names(finds: seq<Find>, i: nat) {
    exists f :: f in finds && f.i == i
  }

  /** Entry i was not marked at the beginning of the session, nor by a call before call m. */
  ghost predicate Unheard(calls: seq<Finished>, m: nat, i: nat)
    requires m < |calls| && i < |calls[0].call.flags|
  {
    !calls[0].call.flags[i] && forall k :: 0 <= k < m ==> !calls[k].Marks(i)
  }

  /**
   A successful call returns, in order of discovery, what it heard of exactly the entries that were not marked
   at the beginning of the session nor by a call before, whether that succeeded or failed; each of them once.
   */
  lemma SuccessReturnsTheRest(calls: seq<Finished>, m: nat) returns (finds: seq<Find>)
    requires Session(calls) && m < |calls| && calls[m].result.Ok?
    ensures Returns(calls[m], finds)
    ensures forall f :: f in finds ==> f.i < |calls[0].call.flags|
    ensures forall i :: 0 <= i < |calls[0].call.flags| ==> (Names(finds, i) <==> Unheard(calls, m, i))
  {
    var flags, ask, rounds := calls[m].call.flags, calls[m].ask, calls[m].call.rounds;
    finds := SansInOrder(flags, ask, rounds, 0);
    hide SansTo, SansOf, Discovered, Marked;
    SameSize(calls, m);
    forall j, k | 0 <= j < k < |finds| ensures finds[j].i != finds[k].i {
      assert IsFind(flags, ask, rounds, 0, finds[j]) && IsFind(flags, ask, rounds, 0, finds[k]);
      if finds[j].i == finds[k].i {
        DiscoveredOnce(flags, ask, finds[j].tick, finds[k].tick, finds[j].i);
      }
    }
    hide Session, Finished.Marks;
    forall i: nat | i < |flags|
      ensures Names(finds, i) <==> Unheard(calls, m, i)
    {
      UnmarkedYet(calls, m, i);
      FoundIfUnmarked(flags, ask, rounds, finds, i);
    }
  }

  lemma FoundIfUnmarked(flags: seq<bool>, ask: Answers, rounds: nat, finds: seq<Find>, i: nat)
    requires i < |flags| && AllMarked(flags, ask, rounds)
    requires forall f :: f in finds <==> IsFind(flags, ask, rounds, 0, f)
    ensures Names(finds, i) <==> !flags[i]
  {
    if f :| f in finds && f.i == i {
      DiscoveredOnce(flags, ask, f.tick, f.tick, i);
    }
    if !flags[i] {
      var t := MarkedWasDiscovered(flags, ask, rounds, i);
      assert IsFind(flags, ask, rounds, 0, Find(t, i));
    }
  }

  lemma {:induction false} SameSize(calls: seq<Finished>, m: nat)
    requires Session(calls) && m < |calls|
    ensures |calls[m].call.flags| == |calls[0].call.flags|
  {
    if m == 0 {
    } else {
      SameSize(calls, m - 1);
    }
  }

  /** After a success every later call that ends well returns nothing, and none fails on a request. */
  lemma NothingAfterSuccess(calls: seq<Finished>, k: nat, m: nat)
    requires Session(calls) && k < m < |calls| && calls[k].result.Ok?
    ensures calls[m].result == Ok([]) || calls[m].result == Err(TimedOut)
  {
    SameSize(calls, k);
    SameSize(calls, m);
    var flags, ask, rounds := calls[m].call.flags, calls[m].ask, calls[m].call.rounds;
    forall i: nat | i < |flags| ensures flags[i] {
      UnmarkedYet(calls, k, i);
      UnmarkedYet(calls, m, i);
      assert Marked(calls[k].call.flags, calls[k].ask, calls[k].call.rounds, i);
      assert calls[k].call.flags[i] || calls[k].Marks(i);
    }
    NothingLeft(flags, ask, rounds, 0);
  }

  /** So a failed call can lose an address for good: nothing that this session returns names the first service. */
  lemma AddressIsLost(lost: string, other: string) returns (calls: seq<Finished>)
    requires lost != "" && other != "" && lost != other
    ensures Session(calls) && |calls| == 2 && calls[0].call.flags == [false, false]
    ensures calls[0].result == Err(QueryError) && calls[0].Marks(0)
    ensures calls[0].ask(0, 0).Found? && lost in calls[0].ask(0, 0).service.Sans()
    ensures calls[1].result == Ok([other])
  {
    var found, late := Found(Service(lost, [], "", "")), Found(Service(other, [], "", ""));
    var fails: Answers := (t: nat, i: nat) => if i == 0 then found else Broken;
    var works: Answers := (t: nat, i: nat) => if i == 0 then found else late;
    var one := Finished(Call([false, false], 0, 1), fails, 1, Err(QueryError));
    var two := Finished(Call([true, false], 1, 0), works, 1, Ok([other]));
    assert one.Left() == [true, false];
    calls := [one, two];
    var flags := two.call.flags;
    assert SansTo(flags, works, 1, 0) == SansTo(flags, works, 0, 2);
    assert SansTo(flags, works, 0, 2) == SansTo(flags, works, 0, 1) + [other];
    assert SansTo(flags, works, 0, 1) == SansTo(flags, works, 0, 0) == [];
    assert two.call.Explains(two.result, works, 1);
    assert one.call.Explains(one.result, fails, 1);
  }
}
