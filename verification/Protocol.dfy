/** What every run of the CSR protocol keeps, whatever the interleaving of its actors. */
module Protocol {
  import opened Base
  import opened Decimal
  import opened Calendar
  import opened Objects
  import opened Cluster

  /** Store after the first k events. */
  function At(log: Log, k: nat): Store
    requires k <= |log|
  {
    Replay(log[..k])
  }

  lemma StepAt(log: Log, k: nat)
    requires k < |log|
    ensures At(log, k + 1) == Apply(At(log, k), log[k])
  {
    assert log[..k + 1][..k] == log[..k];
  }

  lemma {:induction false} CleanPrefix(log: Log, k: nat)
    requires Clean(log) && k <= |log|
    ensures Clean(log[..k])
    ensures k < |log| ==> Accepted(At(log, k), log[k]) && Disciplined(At(log, k), log[k])
    decreases |log|
  {
    if k < |log| - 1 {
      CleanPrefix(Before(log), k);
      assert Before(log)[..k] == log[..k];
    } else if k == |log| {
      assert log[..k] == log;
    }
  }

  /** Uids and versions in use are below the revision counter, so the next ones are fresh. */
  lemma {:induction false} VersionsAreOld(log: Log, name: string)
    requires name in Replay(log).objects
    ensures Replay(log).objects[name].uid <= Replay(log).objects[name].version < Replay(log).revision
  {
    if log != [] && name in Replay(Before(log)).objects {
      VersionsAreOld(Before(log), name);
    }
  }

  lemma {:induction false} RevisionGrows(log: Log, k: nat)
    requires k <= |log|
    ensures At(log, k).revision <= Replay(log).revision
    decreases |log|
  {
    if k < |log| {
      RevisionGrows(Before(log), k);
      assert Before(log)[..k] == log[..k];
    } else {
      assert log[..k] == log;
    }
  }

  /** Optimistic concurrency: an object that still has the version that was read is the object that was read. */
  lemma {:induction false} VersionFixesObject(log: Log, k: nat, name: string, c: Csr)
    requires k <= |log|
    requires name in At(log, k).objects && At(log, k).objects[name] == c
    requires Current(log, name, c.version)
    ensures Replay(log).objects[name] == c
    decreases |log|
  {
    if k == |log| {
      assert log[..k] == log;
    } else {
      var before := Before(log);
      assert before[..k] == log[..k];
      VersionsAreOld(log[..k], name);
      RevisionGrows(before, k);
      if Current(before, name, c.version) {
        VersionFixesObject(before, k, name, c);
      }
    }
  }

  /** The first condition decides: a certificate is only ever issued behind a first condition that is not a denial. */
  ghost predicate IssuedIsNotDenied(c: Csr) {
    c.certificate.Some? ==> c.conditions != [] && c.conditions[0].kind != Denied
  }

  /** What every object of every reachable store satisfies. */
  ghost predicate Sound(c: Csr) {
    IssuedIsNotDenied(c) && AllStamped(c.conditions)
    && (c.certificate.None? ==> Unfetched(c.annotations))
    && (c.certificate.Some? ==> c.certificate.value.Issues(c.request))
  }

  lemma {:induction false} ReachableIsSound(log: Log, name: string)
    requires Clean(log) && name in Replay(log).objects
    ensures Sound(Replay(log).objects[name])
  {
    var s, e := Replay(Before(log)), log[|log| - 1];
    if name in s.objects && !e.Replaces(name) {
      ReachableIsSound(Before(log), name);
      SoundStep(s.objects[name], s, e, name);
    }
  }

  lemma SoundStep(c: Csr, s: Store, e: Event, name: string)
    requires Accepted(s, e) && Disciplined(s, e) && !e.Replaces(name)
    requires name in s.objects && s.objects[name] == c && Sound(c)
    ensures Sound(Apply(s, e).objects[name])
  {
  }

  /** The event is a fetch annotation of the incarnation uid. */
  predicate Fetched(s: Store, e: Event, uid: nat) {
    e.SetAnnotations? && e.fetchedAt.Some? && e.name in s.objects && s.objects[e.name].uid == uid
  }

  /** Number of fetch annotations of one incarnation. */
  function Fetches(log: Log, uid: nat): nat {
    if log == [] then 0
    else Fetches(Before(log), uid) + if Fetched(Replay(Before(log)), log[|log| - 1], uid) then 1 else 0
  }

  /** Time of the last fetch annotation of one incarnation. */
  function LastFetch(log: Log, uid: nat): Option<Instant> {
    if log == [] then None
    else if Fetched(Replay(Before(log)), log[|log| - 1], uid) then log[|log| - 1].fetchedAt
    else LastFetch(Before(log), uid)
  }

  lemma {:induction false} UnbornIsUnfetched(log: Log, uid: nat)
    requires Replay(log).revision <= uid
    ensures Fetches(log, uid) == 0
  {
    if log == [] {
    } else {
      var before, e := Before(log), log[|log| - 1];
      UnbornIsUnfetched(before, uid);
      if Fetched(Replay(before), e, uid) {
        VersionsAreOld(before, e.name);
      }
    }
  }

  lemma {:induction false} UidsDiffer(log: Log, a: string, b: string)
    requires a in Replay(log).objects && b in Replay(log).objects && a != b
    ensures Replay(log).objects[a].uid != Replay(log).objects[b].uid
  {
    var before := Before(log);
    if a in Replay(before).objects {
      VersionsAreOld(before, a);
    }
    if b in Replay(before).objects {
      VersionsAreOld(before, b);
      if a in Replay(before).objects {
        UidsDiffer(before, a, b);
      }
    }
  }

  /** The annotations of an object tell how often and when last its incarnation was fetched. */
  ghost predicate Counted(log: Log, c: Csr) {
    var n, last := Fetches(log, c.uid), LastFetch(log, c.uid);
    if n == 0 then Unfetched(c.annotations)
    else last.Some? && InCalendar(last.value) && Recorded(c.annotations, n, Format(last.value))
  }

  /** fetchCount is exact for every incarnation, as long as it fits an int; re-creating an object starts over. */
  lemma {:induction false} CountIsExact(log: Log, name: string)
    requires Clean(log) && name in Replay(log).objects
    requires Fetches(log, Replay(log).objects[name].uid) <= MAX64
    ensures Counted(log, Replay(log).objects[name])
  {
    var before, e := Before(log), log[|log| - 1];
    var s := Replay(before);
    var c := Replay(log).objects[name];
    assert log == before + [e];
    if name in s.objects {
      assert c.uid == s.objects[name].uid;
      CountIsExact(before, name);
      CountStep(before, e, name);
    } else {
      CountBirth(before, e);
    }
  }

  lemma CountBirth(before: Log, e: Event)
    requires Accepted(Replay(before), e) && Disciplined(Replay(before), e) && e.Create?
    ensures Counted(before + [e], Apply(Replay(before), e).objects[e.name])
  {
    assert Before(before + [e]) == before;
    UnbornIsUnfetched(before, Replay(before).revision);
  }

  lemma CountStep(before: Log, e: Event, name: string)
    requires Accepted(Replay(before), e) && Disciplined(Replay(before), e)
    requires name in Replay(before).objects && name in Apply(Replay(before), e).objects
    requires Replay(before).objects[name].uid == Apply(Replay(before), e).objects[name].uid
    requires Counted(before, Replay(before).objects[name])
    requires Fetches(before + [e], Replay(before).objects[name].uid) <= MAX64
    ensures Counted(before + [e], Apply(Replay(before), e).objects[name])
  {
    hide Format;
    var s, log := Replay(before), before + [e];
    var c := s.objects[name];
    assert Before(log) == before;
    if e.name != name {
      if e.name in s.objects {
        UidsDiffer(before, e.name, name);
      }
    } else if Fetched(s, e, c.uid) {
      var date := Format(e.fetchedAt.value);
      BumpFirst(Some(map[]), date);
      if Fetches(before, c.uid) == 0 {
        BumpFirst(c.annotations, date);
      } else {
        BumpNext(c.annotations, Fetches(before, c.uid), Format(LastFetch(before, c.uid).value), date);
      }
    }
  }

  const Anyone: set<Actor> := {Self, Other}

  lemma SomeoneDidIt(e: Event)
    ensures e.Author() in Anyone
  {
    match e.Author()
    case Self =>
    case Other =>
  }

  /** From position k on, none of the given actors starts or ends an incarnation of the name. */
  ghost predicate Undisturbed(log: Log, k: nat, name: string, who: set<Actor>) {
    forall i :: k <= i < |log| && log[i].Author() in who ==> !log[i].Replaces(name)
  }

  /** Since log a, the given actor deleted the named object. */
  ghost predicate Deleted(a: Log, b: Log, who: Actor, name: string) {
    exists k :: |a| <= k < |b| && b[k] == Event.Delete(who, name)
  }

  lemma DeletedInPart(a: Log, b: Log, c: Log, d: Log, who: Actor, name: string)
    requires a <= b <= c <= d && Deleted(b, c, who, name)
    ensures Deleted(a, d, who, name)
  {
    var k :| |b| <= k < |c| && c[k] == Event.Delete(who, name);
    assert d[k] == Event.Delete(who, name);
  }

  /** Since log a, no other actor created or deleted one of the names; anything else may have happened. */
  ghost predicate Kept(a: Log, b: Log, names: set<string>) {
    a <= b && forall n :: n in names ==> Undisturbed(b, |a|, n, {Other})
  }

  lemma KeptParts(a: Log, b: Log, c: Log, names: set<string>, some: set<string>)
    requires Kept(a, c, names) && a <= b <= c && some <= names
    ensures Kept(a, b, some) && Kept(b, c, some)
  {
    forall n | n in some ensures Undisturbed(b, |a|, n, {Other}) && Undisturbed(c, |b|, n, {Other}) {
      assert Undisturbed(c, |a|, n, {Other});
      assert forall i :: |a| <= i < |b| ==> c[i] == b[i];
    }
  }

  /** An object that nobody created or deleted is there as it was. */
  lemma {:induction false} Unmoved(a: Log, b: Log, name: string)
    requires a <= b && Undisturbed(b, |a|, name, Anyone)
    ensures name in Replay(b).objects <==> name in Replay(a).objects
    decreases |b|
  {
    if |a| == |b| {
      assert a == b;
    } else {
      SomeoneDidIt(b[|b| - 1]);
      Unmoved(a, Before(b), name);
    }
  }

  /** An object that is gone was deleted by somebody. */
  lemma {:induction false} GoneWasDeleted(a: Log, b: Log, name: string) returns (who: Actor)
    requires a <= b && name in Replay(a).objects && name !in Replay(b).objects
    ensures Deleted(a, b, who, name)
    decreases |b|
  {
    assert a != b;
    var before, e := Before(b), b[|b| - 1];
    if name in Replay(before).objects {
      who := e.Author();
      assert b[|b| - 1] == Event.Delete(who, name);
    } else {
      who := GoneWasDeleted(a, before, name);
      DeletedInPart(a, a, before, b, who, name);
    }
  }

  /** While others leave the name alone, a quiet stretch does not move it. */
  lemma QuietKeeps(a: Log, b: Log, c: Log, name: string)
    requires Quiet(a, b) && b <= c
    ensures Kept(a, c, {name}) ==> (name in Replay(b).objects <==> name in Replay(a).objects)
  {
    if Kept(a, c, {name}) {
      KeptParts(a, b, c, {name}, {name});
      assert Undisturbed(b, |a|, name, {Other});
      Unmoved(a, b, name);
    }
  }

  /** An object that is new was created by somebody. */
  lemma {:induction false} NewWasCreated(a: Log, b: Log, name: string) returns (k: nat)
    requires a <= b && name !in Replay(a).objects && name in Replay(b).objects
    ensures |a| <= k < |b| && b[k].Create? && b[k].name == name
    decreases |b|
  {
    assert a != b;
    if name in Replay(Before(b)).objects {
      k := NewWasCreated(a, Before(b), name);
    } else {
      k := |b| - 1;
    }
  }

  lemma {:induction false} IncarnationLasts(log: Log, k: nat, name: string)
    requires k <= |log| && name in At(log, k).objects && Undisturbed(log, k, name, Anyone)
    ensures name in Replay(log).objects
    ensures Replay(log).objects[name].uid == At(log, k).objects[name].uid
    ensures Replay(log).objects[name].request == At(log, k).objects[name].request
    decreases |log|
  {
    if k < |log| {
      assert Before(log)[..k] == log[..k];
      SomeoneDidIt(log[|log| - 1]);
      IncarnationLasts(Before(log), k, name);
    } else {
      assert log[..k] == log;
    }
  }

  /** A certificate that appeared since position k was put there by a signer since then. */
  lemma {:induction false} SignedSince(log: Log, k: nat, name: string) returns (signed: nat)
    requires k <= |log| && name in At(log, k).objects && At(log, k).objects[name].certificate.None?
    requires Undisturbed(log, k, name, Anyone)
    requires name in Replay(log).objects && Replay(log).objects[name].certificate.Some?
    ensures k <= signed < |log| && log[signed] == Sign(name, Replay(log).objects[name].certificate.value)
    decreases |log|
  {
    assert log[..|log|] == log;
    if k == |log| {
      assert false;
    } else {
      var before, e := Before(log), log[|log| - 1];
      assert before[..k] == log[..k];
      IncarnationLasts(before, k, name);
      if e.Sign? && e.name == name {
        signed := |log| - 1;
      } else {
        signed := SignedSince(before, k, name);
      }
    }
  }

  /**
   The certificate that the creator of an object finds on it, when nobody else created or deleted
   that name meanwhile, was issued after the creation and for the very request that was submitted.
   */
  lemma OwnCertificate(log: Log, created: nat, name: string, request: Pem) returns (signed: nat)
    requires Clean(log) && created < |log| && log[created] == Create(Self, name, request, None)
    requires Undisturbed(log, created + 1, name, Anyone)
    requires name in Replay(log).objects && Replay(log).objects[name].certificate.Some?
    ensures created < signed < |log| && log[signed] == Sign(name, Replay(log).objects[name].certificate.value)
    ensures Replay(log).objects[name].certificate.value.Issues(request)
  {
    CleanPrefix(log, created);
    StepAt(log, created);
    IncarnationLasts(log, created + 1, name);
    ReachableIsSound(log, name);
    signed := SignedSince(log, created + 1, name);
  }

  lemma NothingIsClean()
    ensures Clean([]) && Replay([]) == Store(map[], 0)
  {
  }

  lemma CleanNext(log: Log, e: Event)
    requires Clean(log) && Accepted(Replay(log), e) && Disciplined(Replay(log), e)
    ensures Clean(log + [e]) && Replay(log + [e]) == Apply(Replay(log), e)
  {
    assert (log + [e])[..|log|] == log;
  }

  /** An object for any request, with any certificate for it, can be reached: approved, issued and fetched. */
  lemma IssuedAndFetched(name: string, request: Pem, certificate: Pem) returns (log: Log)
    requires certificate.Issues(request)
    ensures Clean(log) && name in Replay(log).objects
    ensures Replay(log).objects[name].request == request
    ensures Replay(log).objects[name].certificate == Some(certificate)
    ensures Replay(log).objects[name].annotations == Some(Bump(None, Format(0)))
  {
    hide Clean, Replay, Format, Bump;
    var create := Create(Other, name, request, None);
    var approve := SetConditions(Other, name, [Condition(Approved, 0)]);
    var sign := Sign(name, certificate);
    var fetch := SetAnnotations(Other, name, Some(Bump(None, Format(0))), Some(0));
    NothingIsClean();
    CleanNext([], create);
    var approved := [create] + [approve];
    CleanNext([create], approve);
    assert Replay(approved).objects[name].conditions[0].kind == Approved;
    CleanNext(approved, sign);
    CleanNext(approved + [sign], fetch);
    log := approved + [sign] + [fetch];
  }
}
