/** Submitting and approving: pkg/operation/submit/submit.go and pkg/operation/approve/approve.go. */
module Submit {
  import opened Base
  import opened Objects
  import opened Cluster
  import opened Protocol
  import opened Disk

  class Submitter {
    const api: ApiServer
    const files: Files
    const override: bool

    constructor (api: ApiServer, files: Files, override: bool)
      ensures this.api == api && this.files == files && this.override == override
    {
      this.api, this.files, this.override := api, files, override;
    }

    /**
     How a submission ends between logs a and b, whatever others do meanwhile; q is what the request file holds.
     While others leave the name alone it succeeds exactly if the name is free or may be overridden.
     */
    ghost predicate Submits(a: Log, b: Log, name: string, q: Option<Pem>, err: Option<Failure>) {
      a <= b && (Clean(a) ==> Clean(b))
      && (q.None? <==> err == Some(NoFile)) && (q.None? ==> b == a)
      && (err.None? ==>
            Born(b, name, q.value) && |b| > |a|
            && (Mine(b) == Mine(a) + [Create(Self, name, q.value, None)]
                || (override && Mine(b) == Mine(a) + [Delete(Self, name), Create(Self, name, q.value, None)])))
      && (err.Some? && q.Some? ==> Refused(a, b, name, err.value))
      && (q.Some? && Kept(a, b, {name}) ==>
            (err.None? <==> override || name !in Replay(a).objects)
            && Mine(b) == Mine(a) + OwnRequests(name in Replay(a).objects, name, q.value))
    }

    /** What is asked of the server when nobody interferes. */
    function OwnRequests(taken: bool, name: string, q: Pem): Log {
      if !taken then [Create(Self, name, q, None)]
      else if override then [Delete(Self, name), Create(Self, name, q, None)]
      else []
    }

    /**
     Why the server refused. Without override the object is there. With override either another actor deleted it before
     we could, or another actor created it again after we had deleted it.
     */
    ghost predicate Refused(a: Log, b: Log, name: string, e: Failure) {
      if !override then e == Api(AlreadyExists) && name in Replay(b).objects && Mine(b) == Mine(a)
      else if e == Api(NotFound) then
        name !in Replay(b).objects && Deleted(a, b, Other, name) && Present(a, b, name) && Mine(b) == Mine(a)
      else
        e == Api(AlreadyExists) && name in Replay(b).objects && Recreated(a, b, name)
        && Mine(b) == Mine(a) + [Delete(Self, name)]
    }

    /** Creates the object; with override an existing one is deleted first and the creation tried once more. */
    method Submit(name: string, csrPath: string) returns (r: Result<Csr, Failure>)
      requires api.Valid()
      modifies api
      ensures api.Valid() && (r.Ok? ==> name in api.store.objects && r.value == api.store.objects[name])
      ensures Submits(old(api.log), api.log, name, files.Read(csrPath), if r.Ok? then None else Some(r.error))
    {
      hide Clean, Replay, Mine;
      if csrPath !in files.content {
        return Err(NoFile);
      }
      var request := files.content[csrPath];
      ghost var log := api.log;
      var created := api.Create(name, request);
      if created.Ok? {
        ServedIsMine(log, api.log, Create(Self, name, request, None));
        QuietKeeps(log, Before(api.log), api.log, name);
        return Ok(created.value);
      }
      ghost var seen := api.log;
      QuietIsNotMine(log, seen);
      QuietKeeps(log, seen, seen, name);
      if created.error != AlreadyExists || !override {
        return Err(Api(created.error));
      }
      r := Recreate(name, request);
      QuietFirst(log, seen, api.log, name, if r.Ok? then None else Some(r.error));
    }

    /** How the second attempt ends, begun while the object is there. */
    ghost predicate Recreates(a: Log, b: Log, name: string, q: Pem, err: Option<Failure>) {
      a <= b && (Clean(a) ==> Clean(b))
      && (match err
          case None =>
            Born(b, name, q) && |b| > |a| && Mine(b) == Mine(a) + [Delete(Self, name), Create(Self, name, q, None)]
          case Some(e) => Refused(a, b, name, e))
      && (Kept(a, b, {name}) ==> err.None?)
    }

    /** Deletes the existing object and creates the new one; either can fail when others interfere. */
    method Recreate(name: string, request: Pem) returns (r: Result<Csr, Failure>)
      requires api.Valid() && override && name in api.store.objects
      modifies api
      ensures api.Valid() && (r.Ok? ==> name in api.store.objects && r.value == api.store.objects[name])
      ensures Recreates(old(api.log), api.log, name, request, if r.Ok? then None else Some(r.error))
    {
      hide Clean, Mine;
      ghost var log := api.log;
      var deleted := api.Delete(name);
      if deleted.Some? {
        QuietIsNotMine(log, api.log);
        QuietKeeps(log, api.log, api.log, name);
        StolenFirst(log, api.log, name);
        return Err(Api(deleted.value));
      }
      ghost var freed := api.log;
      ServedIsMine(log, freed, Delete(Self, name));
      var created := api.Create(name, request);
      if created.Err? {
        QuietIsNotMine(freed, api.log);
        QuietKeeps(freed, api.log, api.log, name);
        CreatedAgain(log, freed, api.log, name);
        return Err(Api(created.error));
      }
      ServedIsMine(freed, api.log, Create(Self, name, request, None));
      r := Ok(created.value);
    }

    lemma QuietFirst(a: Log, seen: Log, b: Log, name: string, err: Option<Failure>)
      requires Quiet(a, seen) && seen <= b && Mine(seen) == Mine(a)
      ensures Kept(a, b, {name}) ==>
        Kept(seen, b, {name}) && (name in Replay(seen).objects <==> name in Replay(a).objects)
      ensures err.Some? && Refused(seen, b, name, err.value) ==> Refused(a, b, name, err.value)
    {
      hide Mine, Replay;
      QuietKeeps(a, seen, b, name);
      if Kept(a, b, {name}) {
        KeptParts(a, seen, b, {name}, {name});
      }
      if Deleted(seen, b, Other, name) {
        DeletedInPart(a, seen, b, b, Other, name);
      }
    }

    /** In a quiet stretch only others delete. */
    lemma StolenFirst(a: Log, b: Log, name: string)
      requires Quiet(a, b) && name in Replay(a).objects && name !in Replay(b).objects
      ensures Deleted(a, b, Other, name) && Present(a, b, name)
    {
      var who := GoneWasDeleted(a, b, name);
      var k :| |a| <= k < |b| && b[k] == Delete(who, name);
      assert b[k].Author() == Other;
      assert b[..|a|] == a;
    }

    /** And only others create. */
    lemma CreatedAgain(a: Log, freed: Log, b: Log, name: string)
      requires Served(a, freed, Delete(Self, name)) && Quiet(freed, b)
      requires name !in Replay(freed).objects && name in Replay(b).objects
      ensures Recreated(a, b, name) && (Kept(a, b, {name}) ==> Kept(freed, b, {name}))
    {
      var k := NewWasCreated(freed, b, name);
      assert b[|freed| - 1] == Delete(Self, name) && b[k].Author() == Other;
      if Kept(a, b, {name}) {
        KeptParts(a, freed, b, {name}, {name});
      }
    }
  }

  /** Since log a, the object was there at some time. */
  ghost predicate Present(a: Log, b: Log, name: string) {
    exists k :: |a| <= k <= |b| && name in Replay(b[..k]).objects
  }

  /** Since log a, we deleted the object and another actor created it later. */
  ghost predicate Recreated(a: Log, b: Log, name: string) {
    exists j, k :: |a| <= j < k < |b| && b[j] == Delete(Self, name)
                   && b[k].Create? && b[k].actor == Other && b[k].name == name
  }

  /** The last event of the log is our creation of the object. */
  ghost predicate Born(log: Log, name: string, request: Pem) {
    log != [] && log[|log| - 1] == Create(Self, name, request, None) && name !in Replay(Before(log)).objects
    && name in Replay(log).objects
  }

  /** The object as it was read, when the log was readAt events long. */
  ghost predicate WasRead(log: Log, readAt: nat, name: string, c: Csr) {
    readAt <= |log| && name in At(log, readAt).objects && At(log, readAt).objects[name] == c
  }

  lemma StillRead(a: Log, b: Log, readAt: nat, name: string, c: Csr)
    requires WasRead(a, readAt, name, c) && a <= b
    ensures WasRead(b, readAt, name, c)
  {
    assert b[..readAt] == a[..readAt];
  }

  class Approval {
    const api: ApiServer

    constructor (api: ApiServer)
      ensures this.api == api
    {
      this.api := api;
    }

    /** Appends an Approved condition to the object as it was read; fails if it changed meanwhile. */
    method ApproveCSR(name: string, c: Csr, ghost readAt: nat) returns (err: Option<Failure>, ghost e: Event)
      requires api.Valid() && WasRead(api.log, readAt, name, c)
      modifies api
      ensures api.Valid() && old(api.log) <= api.log && (Clean(old(api.log)) ==> Clean(api.log))
      ensures err.None? ==> Served(old(api.log), api.log, e) && Mine(api.log) == Mine(old(api.log)) + [e]
      ensures err.None? ==>
        e.SetConditions? && e.actor == Self && e.name == name && Approves(c.conditions, e.conditions)
      ensures err.None? ==> name in Replay(Before(api.log)).objects && Replay(Before(api.log)).objects[name] == c
      ensures err.None? && Clean(old(api.log)) ==> c.conditions <= e.conditions
      ensures err.Some? ==> Quiet(old(api.log), api.log) && Mine(api.log) == Mine(old(api.log))
      ensures err.Some? ==> err.value.Api? && !Current(api.log, name, c.version)
      ensures err.Some? ==> err.value == Api(if name in api.store.objects then Conflict else NotFound)
    {
      var approved := c.(conditions := c.conditions + [Condition(Approved, ZERO_TIME)]);
      ghost var log := api.log;
      var error;
      error, e := api.UpdateApproval(name, approved);
      if error.Some? {
        QuietIsNotMine(log, api.log);
        return Some(Api(error.value)), e;
      }
      err := None;
      ServedIsMine(log, api.log, e);
      ghost var before := Before(api.log);
      StillRead(log, before, readAt, name, c);
      VersionFixesObject(before, readAt, name, c);
      if Clean(log) {
        CleanPrefixOf(log, readAt, name);
        assert c.conditions <= e.conditions;
      }
    }

    /**
     Approves the object as the server shows it; fails if it is not there or changes between the read and the write.
     */
    method GetAndApproveCSR(name: string) returns (err: Option<Failure>, ghost approve: Log)
      requires api.Valid()
      modifies api
      ensures api.Valid() && ApprovalEnds(old(api.log), api.log, name, err, approve)
    {
      hide Clean, Replay;
      ghost var log := api.log;
      approve := [];
      var r := api.Get(name);
      QuietIsNotMine(log, api.log);
      if r.Err? {
        return Some(Api(r.error)), approve;
      }
      assert api.log[..|api.log|] == api.log;
      ghost var read, e := api.log, Delete(Self, name);
      err, e := ApproveCSR(name, r.value, |read|);
      approve := if err.None? then [e] else [];
      ApprovalIs(log, read, api.log, name, r.value, err, e);
    }
  }

  /** Since log a, the object is gone or was changed. */
  ghost predicate Unsettled(a: Log, b: Log, name: string) {
    name !in Replay(b).objects
    || exists k: nat :: |a| <= k <= |b| && ReadThen(b, k, name)
  }

  /** The object was there at position k, in a version that is not the current one. */
  ghost predicate ReadThen(b: Log, k: nat, name: string) {
    k <= |b| && name in At(b, k).objects && !Current(b, name, At(b, k).objects[name].version)
  }

  /**
   How an approval ends: with exactly one Approved condition appended to what the object had,
   or with a failure that says whether the object is gone or was changed meanwhile.
   */
  ghost predicate ApprovalEnds(a: Log, b: Log, name: string, err: Option<Failure>, approve: Log) {
    a <= b && (Clean(a) ==> Clean(b)) && Mine(b) == Mine(a) + approve
    && match err
       case None =>
         |approve| == 1 && approve[0].SetConditions? && approve[0].name == name && |a| < |b| && b[|b| - 1] == approve[0]
         && name in Replay(Before(b)).objects
         && Approves(Replay(Before(b)).objects[name].conditions, approve[0].conditions)
       case Some(e) =>
         approve == [] && e == Api(if name in Replay(b).objects then Conflict else NotFound) && Unsettled(a, b, name)
  }

  /** An approval of what was read after log a ends that way. */
  lemma ApprovalIs(a: Log, read: Log, b: Log, name: string, c: Csr, err: Option<Failure>, e: Event)
    requires Quiet(a, read) && Mine(read) == Mine(a) && (Clean(a) ==> Clean(read)) && (Clean(read) ==> Clean(b))
    requires read <= b && WasRead(read, |read|, name, c)
    requires err.None? ==> Served(read, b, e) && Mine(b) == Mine(read) + [e] && e.SetConditions? && e.name == name
    requires err.None? ==> name in Replay(Before(b)).objects && Replay(Before(b)).objects[name] == c
    requires err.None? ==> Approves(c.conditions, e.conditions)
    requires err.Some? ==> Mine(b) == Mine(read) && !Current(b, name, c.version)
    requires err.Some? ==> err.value == Api(if name in Replay(b).objects then Conflict else NotFound)
    ensures ApprovalEnds(a, b, name, err, if err.None? then [e] else [])
  {
    hide Clean, Mine, Replay;
    StillRead(read, b, |read|, name, c);
    assert err.Some? ==> ReadThen(b, |read|, name);
  }

  /** The same conditions and one Approved more; the API server may fill in times that were unset. */
  ghost predicate Approves(a: seq<Condition>, b: seq<Condition>) {
    |b| == |a| + 1 && b[|a|].kind == Approved && forall i :: 0 <= i < |a| ==> b[i].kind == a[i].kind
  }

  lemma CleanPrefixOf(log: Log, k: nat, name: string)
    requires Clean(log) && k <= |log| && name in At(log, k).objects
    ensures Sound(At(log, k).objects[name])
  {
    CleanPrefix(log, k);
    ReachableIsSound(log[..k], name);
  }
}
