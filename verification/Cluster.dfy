/**
 The API server shared by all actors, as a log of the write requests it accepted.
 Its state is the replay of that log, so a statement about every log is one about every interleaving.
 */
module Cluster {
  import opened Base
  import opened Calendar
  import opened Objects

  /** Self is the kube-csr process under study, Other is everybody else. */
  datatype Actor = Self | Other

  /** An accepted write request. fetchedAt is set on the writes that updateAnnotations makes. */
  datatype Event =
    | Create(actor: Actor, name: string, request: Pem, annotations: Option<Annotations>)
    | Delete(actor: Actor, name: string)
    | SetConditions(actor: Actor, name: string, conditions: seq<Condition>)
    | SetAnnotations(actor: Actor, name: string, annotations: Option<Annotations>, fetchedAt: Option<Instant>)
    | Sign(name: string, certificate: Pem)
  {
    function Author(): Actor {
      if Sign? then Other else actor
    }

    /** Whether the event starts or ends an incarnation of the named object. */
    predicate Replaces(n: string) {
      (Create? || Delete?) && name == n
    }
  }

  type Log = seq<Event>

  /** revision counts accepted writes; it provides fresh uids and resource versions. */
  datatype Store = Store(objects: map<string, Csr>, revision: nat)

  predicate Accepted(s: Store, e: Event) {
    if e.Create? then e.name !in s.objects else e.name in s.objects
  }

  /** The object that an update leaves behind. */
  function Revised(c: Csr, e: Event, version: nat): Csr {
    match e
    case SetConditions(_, _, conditions) => c.(conditions := conditions, version := version)
    case SetAnnotations(_, _, annotations, _) => c.(annotations := annotations, version := version)
    case Sign(_, certificate) => c.(certificate := Some(certificate), version := version)
    case _ => c
  }

  function Apply(s: Store, e: Event): Store {
    if !Accepted(s, e) then s
    else if e.Delete? then Store(s.objects - {e.name}, s.revision + 1)
    else
      var c := if e.Create? then Csr(s.revision, s.revision, e.request, [], None, e.annotations)
               else Revised(s.objects[e.name], e, s.revision);
      Store(s.objects[e.name := c], s.revision + 1)
  }

  function Replay(log: Log): Store {
    if log == [] then Store(map[], 0) else Apply(Replay(log[..|log| - 1]), log[|log| - 1])
  }

  /** The zero time.Time, which the API server replaces by its clock: 0001-01-01T00:00:00Z. */
  const ZERO_TIME: Instant := -62_135_596_800_000_000_000

  predicate AllStamped(conditions: seq<Condition>) {
    forall i :: 0 <= i < |conditions| ==> conditions[i].lastUpdate != ZERO_TIME
  }

  /** Two annotation maps agree on both fetch keys. */
  predicate SameFetchKeys(a: Option<Annotations>, b: Option<Annotations>) {
    var m, n := a.GetOr(map[]), b.GetOr(map[]);
    (FETCH_COUNT in m <==> FETCH_COUNT in n) && (FETCH_COUNT in m ==> m[FETCH_COUNT] == n[FETCH_COUNT])
    && (FETCH_DATE in m <==> FETCH_DATE in n) && (FETCH_DATE in m ==> m[FETCH_DATE] == n[FETCH_DATE])
  }

  /**
   What actors other than the one under study are assumed to do:
   objects are born without fetch annotations, conditions are only appended to and carry a time,
   a certificate is issued once, for the stored request, when approved and not denied,
   and fetch annotations change only as updateAnnotations changes them, on an issued object.
   */
  predicate Disciplined(s: Store, e: Event)
    requires Accepted(s, e)
  {
    match e
    case Create(_, _, _, annotations) => Unfetched(annotations)
    case Delete(_, _) => true
    case SetConditions(_, n, conditions) => s.objects[n].conditions <= conditions && AllStamped(conditions)
    case SetAnnotations(_, n, annotations, None) => SameFetchKeys(s.objects[n].annotations, annotations)
    case SetAnnotations(_, n, annotations, Some(t)) =>
      s.objects[n].certificate.Some? && InCalendar(t) && annotations == Some(Bump(s.objects[n].annotations, Format(t)))
    case Sign(n, certificate) =>
      var c := s.objects[n];
      c.certificate.None? && c.HasCondition(Approved) && !c.HasCondition(Denied)
      && certificate.Issues(c.request)
  }

  /** Every event of the log was accepted and disciplined when it happened. */
  predicate Clean(log: Log) {
    log == [] ||
    var before, e := log[..|log| - 1], log[|log| - 1];
    Clean(before) && Accepted(Replay(before), e) && Disciplined(Replay(before), e)
  }

  /** From log a to log b only others were served. */
  ghost predicate Quiet(a: Log, b: Log) {
    a <= b && forall i :: |a| <= i < |b| ==> b[i].Author() == Other
  }

  /** From log a to log b others were served, and then e. */
  ghost predicate Served(a: Log, b: Log, e: Event) {
    |a| < |b| && Quiet(a, b[..|b| - 1]) && b[|b| - 1] == e
  }

  /** The log just before its last event. */
  function Before(log: Log): Log
    requires log != []
  {
    log[..|log| - 1]
  }

  /** The events of the actor under study. */
  function Mine(log: Log): Log {
    if log == [] then []
    else
      var rest := Mine(log[..|log| - 1]);
      if log[|log| - 1].Author() == Self then rest + [log[|log| - 1]] else rest
  }

  lemma {:induction false} QuietIsNotMine(a: Log, b: Log)
    requires Quiet(a, b)
    ensures Mine(b) == Mine(a)
    decreases |b|
  {
    if |a| < |b| {
      QuietIsNotMine(a, b[..|b| - 1]);
    } else {
      assert a == b;
    }
  }

  lemma {:induction false} MineGrows(a: Log, b: Log)
    requires a <= b
    ensures Mine(a) <= Mine(b)
    decreases |b|
  {
    if |a| < |b| {
      MineGrows(a, b[..|b| - 1]);
    } else {
      assert a == b;
    }
  }

  lemma ServedIsMine(a: Log, b: Log, e: Event)
    requires Served(a, b, e) && e.Author() == Self
    ensures Mine(b) == Mine(a) + [e]
  {
    QuietIsNotMine(a, b[..|b| - 1]);
  }

  /** The failures the API server answers with. */
  datatype ApiError = AlreadyExists | NotFound | Conflict

  /** Requests of the actor under study. Any number of other requests may be served before each of them. */
  class ApiServer {
    var store: Store
    ghost var log: Log

    ghost predicate Valid()
      reads this
    {
      store == Replay(log)
    }

    constructor ()
      ensures Valid() && log == []
    {
      store := Store(map[], 0);
      log := [];
    }

    /** Accepts one write. */
    method Commit(e: Event)
      requires Valid() && Accepted(store, e)
      modifies this
      ensures Valid() && log == old(log) + [e]
      ensures Clean(old(log)) && Disciplined(old(store), e) ==> Clean(log)
    {
      store := Apply(store, e);
      log := log + [e];
      assert log[..|log| - 1] == old(log);
    }

    /** Serves any number of requests of other actors. */
    method Others()
      requires Valid()
      modifies this
      ensures Valid() && Quiet(old(log), log)
      ensures Clean(old(log)) ==> Clean(log)
    {
      var n: nat := *;
      while n > 0
        invariant Valid() && Quiet(old(log), log)
        invariant Clean(old(log)) ==> Clean(log)
      {
        var e: Event := *;
        if e.Author() == Other && Accepted(store, e) && Disciplined(store, e) {
          Commit(e);
        }
        n := n - 1;
      }
    }

    method Get(name: string) returns (r: Result<Csr, ApiError>)
      requires Valid()
      modifies this
      ensures Valid() && Quiet(old(log), log)
      ensures Clean(old(log)) ==> Clean(log)
      ensures r == if name in store.objects then Ok(store.objects[name]) else Err(NotFound)
    {
      Others();
      r := if name in store.objects then Ok(store.objects[name]) else Err(NotFound);
    }

    /** All objects with their names, in some order. */
    method List() returns (items: seq<(string, Csr)>)
      requires Valid()
      modifies this
      ensures Valid() && Quiet(old(log), log)
      ensures Clean(old(log)) ==> Clean(log)
      ensures Lists(items, store.objects)
    {
      Others();
      items := [];
      var left := store.objects.Keys;
      while left != {}
        invariant left <= store.objects.Keys
        invariant forall i :: 0 <= i < |items| ==>
          items[i].0 in store.objects && items[i].0 !in left && items[i].1 == store.objects[items[i].0]
        invariant forall i, j :: 0 <= i < j < |items| ==> items[i].0 != items[j].0
        invariant forall n :: n in store.objects && n !in left ==> exists i :: 0 <= i < |items| && items[i].0 == n
      {
        var n :| n in left;
        ghost var before := items;
        items := items + [(n, store.objects[n])];
        left := left - {n};
        assert items[|before|].0 == n;
        assert forall i :: 0 <= i < |before| ==> items[i] == before[i];
      }
    }

    method Create(name: string, request: Pem) returns (r: Result<Csr, ApiError>)
      requires Valid()
      modifies this
      ensures Valid()
      ensures Clean(old(log)) ==> Clean(log)
      ensures r.Ok? ==> Served(old(log), log, Event.Create(Self, name, request, None))
      ensures r.Ok? ==> name in store.objects && r.value == store.objects[name]
      ensures r.Ok? ==> name !in Replay(Before(log)).objects
      ensures r.Err? ==> Quiet(old(log), log) && r.error == AlreadyExists && name in store.objects
    {
      Others();
      if name in store.objects {
        return Err(AlreadyExists);
      }
      Commit(Event.Create(Self, name, request, None));
      r := Ok(store.objects[name]);
    }

    method Delete(name: string) returns (r: Option<ApiError>)
      requires Valid()
      modifies this
      ensures Valid()
      ensures Clean(old(log)) ==> Clean(log)
      ensures r.None? ==>
        Served(old(log), log, Event.Delete(Self, name)) && name in Replay(Before(log)).objects && name !in store.objects
      ensures r.Some? ==> Quiet(old(log), log) && r.value == NotFound && name !in store.objects
    {
      Others();
      if name !in store.objects {
        return Some(NotFound);
      }
      Commit(Event.Delete(Self, name));
      r := None;
    }

    /** Writes the conditions of c back if c is still the current version; unset update times are filled in. */
    method UpdateApproval(name: string, c: Csr) returns (r: Option<ApiError>, ghost e: Event)
      requires Valid()
      modifies this
      ensures Valid()
      ensures r.None? ==>
        Served(old(log), log, e) && Accepted(Replay(Before(log)), e) && Current(Before(log), name, c.version)
      ensures r.None? ==> (Clean(old(log)) && Disciplined(Replay(Before(log)), e) ==> Clean(log))
      ensures r.None? ==> e.SetConditions? && e.actor == Self && e.name == name && Stamped(c.conditions, e.conditions)
      ensures r.Some? ==> Quiet(old(log), log) && r.value == (if name in store.objects then Conflict else NotFound)
      ensures r.Some? ==> (Clean(old(log)) ==> Clean(log))
      ensures r.Some? ==> !Current(log, name, c.version)
    {
      Others();
      var now: Instant :| now != ZERO_TIME;
      var stamped := seq(|c.conditions|, i requires 0 <= i < |c.conditions| =>
        if c.conditions[i].lastUpdate == ZERO_TIME then c.conditions[i].(lastUpdate := now) else c.conditions[i]);
      e := SetConditions(Self, name, stamped);
      if name !in store.objects {
        return Some(NotFound), e;
      }
      if store.objects[name].version != c.version {
        return Some(Conflict), e;
      }
      Commit(SetConditions(Self, name, stamped));
      r := None;
    }

    /** Writes the annotations of c back if c is still the current version. */
    method Update(name: string, c: Csr, ghost fetchedAt: Option<Instant>) returns (r: Option<ApiError>, ghost e: Event)
      requires Valid()
      modifies this
      ensures Valid()
      ensures e == SetAnnotations(Self, name, c.annotations, fetchedAt)
      ensures r.None? ==>
        Served(old(log), log, e) && Accepted(Replay(Before(log)), e) && Current(Before(log), name, c.version)
      ensures r.None? ==> (Clean(old(log)) && Disciplined(Replay(Before(log)), e) ==> Clean(log))
      ensures r.Some? ==> Quiet(old(log), log) && r.value == (if name in store.objects then Conflict else NotFound)
      ensures r.Some? ==> (Clean(old(log)) ==> Clean(log))
      ensures r.Some? ==> !Current(log, name, c.version)
    {
      Others();
      e := SetAnnotations(Self, name, c.annotations, fetchedAt);
      if name !in store.objects {
        return Some(NotFound), e;
      }
      if store.objects[name].version != c.version {
        return Some(Conflict), e;
      }
      store := Apply(store, SetAnnotations(Self, name, c.annotations, None));
      log := log + [e];
      assert log[..|log| - 1] == old(log) + log[|old(log)|..|log| - 1];
      r := None;
    }
  }

  /** The stored conditions are the submitted ones, except that unset update times are filled in. */
  ghost predicate Stamped(a: seq<Condition>, b: seq<Condition>) {
    |a| == |b| && AllStamped(b)
    && forall i :: 0 <= i < |a| ==> a[i].kind == b[i].kind && (a[i].lastUpdate != ZERO_TIME ==> a[i] == b[i])
  }

  /** The named object exists in the given version. */
  predicate Current(log: Log, name: string, version: nat) {
    name in Replay(log).objects && Replay(log).objects[name].version == version
  }

  /** A listing names every object once. */
  ghost predicate Lists(items: seq<(string, Csr)>, objects: map<string, Csr>) {
    (forall i :: 0 <= i < |items| ==> items[i].0 in objects && items[i].1 == objects[items[i].0])
    && (forall i, j :: 0 <= i < j < |items| ==> items[i].0 != items[j].0)
    && (forall n :: n in objects ==> exists i :: 0 <= i < |items| && items[i].0 == n)
  }
}
