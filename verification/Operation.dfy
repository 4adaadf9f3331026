/** The pipeline of pkg/operation/operation.go: query, generate, submit, approve, fetch, delete. */
module Operation {
  import opened Base
  import opened Calendar
  import opened Objects
  import opened Cluster
  import opened Protocol
  import opened Disk
  import Hosts
  import opened Generate
  import Query
  import opened Submit
  import opened Fetch
  import Purge

  datatype Step = QueryStep | GenerateStep | SubmitStep | ApproveStep | FetchStep | DeleteStep

  /** The place of a step in the pipeline. */
  function Rank(step: Step): nat {
    match step
    case QueryStep => 1
    case GenerateStep => 2
    case SubmitStep => 3
    case ApproveStep => 4
    case FetchStep => 5
    case DeleteStep => 6
  }

  /** The steps come in the order of the pipeline, each at most once, with places above lo and up to hi. */
  ghost predicate InOrder(steps: seq<Step>, lo: nat, hi: nat) {
    (forall i :: 0 <= i < |steps| ==> lo < Rank(steps[i]) <= hi)
    && forall i, j :: 0 <= i < j < |steps| ==> Rank(steps[i]) < Rank(steps[j])
  }

  lemma OrderJoined(a: seq<Step>, b: seq<Step>, lo: nat, mid: nat, hi: nat)
    requires InOrder(a, lo, mid) && InOrder(b, mid, hi) && lo <= mid <= hi
    ensures InOrder(a + b, lo, hi)
  {
  }

  /** Whether a step can fail that way. */
  predicate FailsWith(step: Step, e: Failure) {
    match step
    case QueryStep => e == TimedOut || e == QueryError
    case GenerateStep => e in {NoFile, BadKey, KeyGeneration, EmptyCommonName, FileExists}
    case SubmitStep => e in {NoFile, Api(AlreadyExists), Api(NotFound)}
    case ApproveStep => e.Api?
    case FetchStep => e.Api? || e in {Interrupted, TimedOut, Refused, FileExists}
    case DeleteStep => e == Api(NotFound)
  }

  /** The steps that were done are the first of those configured, and a failure is one of the step after them. */
  predicate CarriedOut(done: seq<Step>, steps: seq<Step>, err: Option<Failure>) {
    done <= steps
    && match err
       case None => done == steps
       case Some(e) => |done| < |steps| && FailsWith(steps[|done|], e)
  }

  /** Two stages, the second of which only begins when the first is complete. */
  lemma StepsInOrder(first: seq<Step>, second: seq<Step>, a: seq<Step>, b: seq<Step>, err: Option<Failure>)
    requires if a == first then CarriedOut(b, second, err) else b == [] && err.Some? && CarriedOut(a, first, err)
    ensures CarriedOut(a + b, first + second, err)
    ensures a <= first && b <= second
    ensures forall x :: x in a + b <==> x in a || x in b
    ensures forall x :: (x in a ==> x in first) && (x in b ==> x in second)
  {
    assert forall i :: 0 <= i < |a| ==> a[i] == first[i];
    assert forall i :: 0 <= i < |b| ==> b[i] == second[i];
  }

  /** From log a to log b the run made the given accepted requests. */
  ghost predicate Performed(a: Log, b: Log, effects: Log) {
    a <= b && Mine(b) == Mine(a) + effects && (Clean(a) ==> Clean(b))
  }

  lemma PerformedTogether(a: Log, b: Log, c: Log, first: Log, second: Log)
    requires Performed(a, b, first) && Performed(b, c, second)
    ensures Performed(a, c, first + second)
  {
    assert Mine(a) + first + second == Mine(a) + (first + second);
  }

  /** How many of the requests changed conditions. */
  function Approvals(log: Log): nat {
    if log == [] then 0 else Approvals(log[..|log| - 1]) + if log[|log| - 1].SetConditions? then 1 else 0
  }

  lemma {:induction false} ApprovalsAdd(a: Log, b: Log)
    ensures Approvals(a + b) == Approvals(a) + Approvals(b)
  {
    if b == [] {
      assert a + b == a;
    } else {
      assert (a + b)[..|a + b| - 1] == a + b[..|b| - 1];
      ApprovalsAdd(a, b[..|b| - 1]);
    }
  }

  /** The request approves the named object: the condition it adds last is Approved. */
  predicate IsApproval(e: Event, name: string) {
    e.SetConditions? && e.name == name && e.conditions != [] && e.conditions[|e.conditions| - 1].kind == Approved
  }

  /** Of the requests that change conditions there are n, and all approve the named object. */
  ghost predicate ApprovesTimes(log: Log, name: string, n: nat) {
    Approvals(log) == n && forall e :: e in log && e.SetConditions? ==> IsApproval(e, name)
  }

  lemma {:induction false} NoApprovals(log: Log)
    requires forall e :: e in log ==> !e.SetConditions?
    ensures Approvals(log) == 0
  {
    if log == [] {
    } else {
      NoApprovals(log[..|log| - 1]);
      assert log[|log| - 1] in log;
    }
  }

  /** Requests of a whole run: at most one approval, made after the submission and before the rest. */
  lemma RunTogether(a: Log, b: Log, c: Log, d: Log, e: Log, submit: Log, approve: Log, fetch: Log, delete: Log,
                    name: string)
    requires Performed(a, b, submit) && Performed(b, c, approve) && Performed(c, d, fetch) && Performed(d, e, delete)
    requires forall x :: x in submit ==> !x.SetConditions?
    requires approve == [] || (|approve| == 1 && IsApproval(approve[0], name))
    requires (forall x :: x in fetch ==> x.SetAnnotations?) && forall x :: x in delete ==> x.Delete?
    ensures Performed(a, e, submit + approve + fetch + delete) && Performed(b, d, approve + fetch)
    ensures ApprovesTimes(submit + approve + fetch + delete, name, |approve|)
    ensures forall x :: x in approve + fetch ==> !x.Create? && !x.Delete?
  {
    PerformedTogether(a, b, c, submit, approve);
    PerformedTogether(a, c, d, submit + approve, fetch);
    PerformedTogether(a, d, e, submit + approve + fetch, delete);
    PerformedTogether(b, c, d, approve, fetch);
    NoApprovals(submit);
    NoApprovals(fetch);
    NoApprovals(delete);
    if |approve| == 1 {
      assert approve[..0] == [];
      assert Approvals(approve) == 1;
    }
    ApprovalsAdd(submit, approve);
    ApprovalsAdd(submit + approve, fetch);
    ApprovalsAdd(submit + approve + fetch, delete);
  }

  lemma NothingPerformed(a: Log)
    ensures Performed(a, a, [])
  {
  }

  lemma {:induction false} OwnEvents(a: Log, b: Log, effects: Log)
    requires a <= b && Mine(b) == Mine(a) + effects
    ensures forall i :: |a| <= i < |b| && b[i].Author() == Self ==> b[i] in effects
    decreases |b|
  {
    if |a| == |b| {
    } else {
      var before, e := b[..|b| - 1], b[|b| - 1];
      MineGrows(a, before);
      var rest := Mine(before)[|Mine(a)|..];
      OwnEvents(a, before, rest);
      assert forall x :: x in rest ==> x in effects by {
        assert effects == Mine(b)[|Mine(a)|..];
        assert rest <= effects;
      }
      if e.Author() == Self {
        assert effects[|effects| - 1] == e;
      }
    }
  }

  /**
   The certificate that a run finds on the object it created was issued since, for the request it submitted,
   if nobody else created or deleted that name and the run itself did not do so again.
   */
  lemma FoundIsOwn(log: Log, submitted: Log, effects: Log, readAt: nat, name: string, request: Pem, c: Csr)
    returns (signed: nat)
    requires Clean(log) && submitted <= log && submitted != []
    requires submitted[|submitted| - 1] == Create(Self, name, request, None)
    requires Mine(log) == Mine(submitted) + effects && forall e :: e in effects ==> !e.Replaces(name)
    requires |submitted| <= readAt && WasRead(log, readAt, name, c) && c.certificate.Some?
    requires Undisturbed(log[..readAt], |submitted|, name, {Other})
    ensures |submitted| <= signed < readAt && log[signed] == Sign(name, c.certificate.value)
    ensures c.certificate.value.Issues(request)
  {
    OwnEvents(submitted, log, effects);
    CleanPrefix(log, readAt);
    var seen := log[..readAt];
    forall i | |submitted| <= i < readAt ensures !seen[i].Replaces(name) {
      assert seen[i] == log[i];
      SomeoneDidIt(seen[i]);
    }
    signed := OwnCertificate(seen, |submitted| - 1, name, request);
  }

  /** A certificate that was issued to us: for the request we submitted, by a signer that came after our submission. */
  ghost predicate IssuedToUs(log: Log, submitted: nat, signed: nat, name: string, request: Pem, certificate: Pem) {
    submitted < signed < |log| && log[submitted] == Create(Self, name, request, None)
    && log[signed] == Sign(name, certificate)
    && certificate.Issues(request)
  }

  /** What a run is given from outside: answers, the ticks before a timer fires, a key, and the time of the clock. */
  datatype Inputs = Inputs(ask: Query.Answers, ticks: nat, newKey: Option<nat>, schedule: seq<bool>, fetchedAt: Moment)

  /** Submission and approval: completed steps, the log after the submission, and the accepted requests of both. */
  datatype Enrolled = Enrolled(done: seq<Step>, created: Log, submit: Log, approve: Log)

  /** Fetch and delete: completed steps, the log after the fetch, the accepted requests of both, and what was polled. */
  datatype Concluded = Concluded(done: seq<Step>, fetched: Log, fetch: Log, delete: Log, polls: seq<Poll>) {
    /** Where the log stood when the certificate was read. */
    ghost function ReadAt(): nat {
      if polls != [] && polls[|polls| - 1].Seen? then polls[|polls| - 1].at else 0
    }
  }

  /**
   What is to be told about a run: completed steps, the query and what it found, generated key and request, the disk
   after generation, the log between approval and fetch, the two stages there, and where the certificate was signed.
   */
  datatype Report = Report(done: seq<Step>, call: Query.Call, sans: seq<string>, key: nat, request: Pem,
                           disk: map<string, Pem>, middle: Log, enrolled: Enrolled, concluded: Concluded, signed: nat) {
    /** The accepted requests of the run. */
    ghost function Effects(): Log {
      enrolled.submit + enrolled.approve + concluded.fetch + concluded.delete
    }

    /** Where the log has our creation, if the run submitted. */
    ghost function Submitted(): nat {
      if enrolled.created == [] then 0 else |enrolled.created| - 1
    }
  }

  /** How deleting ends: the object is gone, by our request if that was accepted. */
  ghost predicate DeleteEnds(a: Log, b: Log, name: string, err: Option<Failure>, delete: Log) {
    a <= b && (Clean(a) ==> Clean(b)) && Mine(b) == Mine(a) + delete && name !in Replay(b).objects
    && (err.None? || err == Some(Api(NotFound)))
    && delete == (if err.None? then [Delete(Self, name)] else [])
    && (Kept(a, b, {name}) ==> (err.None? <==> name in Replay(a).objects))
  }

  class Operation {
    const conf: Config
    const api: ApiServer
    const files: Files
    const query: Query.Querier?
    const generator: Generator?
    const submitter: Submitter?
    const approval: Approval?
    const fetcher: Fetcher?
    const purger: Purge.Collector?
    var approved: bool

    constructor (conf: Config, api: ApiServer, files: Files, query: Query.Querier?, generator: Generator?,
                 submitter: Submitter?, approval: Approval?, fetcher: Fetcher?, purger: Purge.Collector?)
      ensures this.conf == conf && this.api == api && this.files == files
      ensures this.query == query && this.generator == generator && this.submitter == submitter
      ensures this.approval == approval && this.fetcher == fetcher && this.purger == purger
      ensures !approved
    {
      this.conf, this.api, this.files, this.query, this.generator := conf, api, files, query, generator;
      this.submitter, this.approval, this.fetcher, this.purger, approved := submitter, approval, fetcher, purger, false;
    }

    /** All configured steps work on the same server, disk and configuration. */
    ghost predicate Valid()
      reads api
    {
      api.Valid()
      && (query != null ==> query.Valid())
      && (generator != null ==> generator.conf == conf && generator.files == files)
      && (submitter != null ==> submitter.api == api && submitter.files == files)
      && (approval != null ==> approval.api == api)
      && (fetcher != null ==> fetcher.api == api && fetcher.files == files)
      && (purger != null ==> purger.api == api)
    }

    ghost function Footprint(): set<object> {
      if query == null then {} else set s | s in query.services
    }

    /** The marks of the query. */
    ghost function Flags(): seq<bool>
      reads if query == null then {} else set s | s in query.services
    {
      if query == null then [] else query.Flags()
    }

    function PrepareSteps(): seq<Step> {
      (if query != null then [QueryStep] else []) + (if generator != null then [GenerateStep] else [])
    }

    function EnrollSteps(): seq<Step> {
      (if submitter != null then [SubmitStep] else []) + (if approval != null then [ApproveStep] else [])
    }

    function ConcludeSteps(): seq<Step> {
      (if fetcher != null then [FetchStep] else []) + (if purger != null then [DeleteStep] else [])
    }

    function ExchangeSteps(): seq<Step> {
      EnrollSteps() + ConcludeSteps()
    }

    /** The configured steps, in order. */
    function Configured(): seq<Step> {
      PrepareSteps() + ExchangeSteps()
    }

    /** The configured steps are those whose component is there, each once, in the order of the pipeline. */
    lemma ConfiguredExactly()
      ensures QueryStep in Configured() <==> query != null
      ensures GenerateStep in Configured() <==> generator != null
      ensures SubmitStep in Configured() <==> submitter != null
      ensures ApproveStep in Configured() <==> approval != null
      ensures FetchStep in Configured() <==> fetcher != null
      ensures DeleteStep in Configured() <==> purger != null
      ensures InOrder(Configured(), 0, 6)
    {
      hide PrepareSteps, EnrollSteps, ConcludeSteps, InOrder, Rank;
      StageMembers();
      StageOrders();
      ConfiguredMembers();
      OrderJoined(EnrollSteps(), ConcludeSteps(), 2, 4, 6);
      OrderJoined(PrepareSteps(), ExchangeSteps(), 0, 2, 6);
    }

    lemma StageMembers()
      ensures forall s :: s in PrepareSteps() <==>
        (s == QueryStep && query != null) || (s == GenerateStep && generator != null)
      ensures forall s :: s in EnrollSteps() <==>
        (s == SubmitStep && submitter != null) || (s == ApproveStep && approval != null)
      ensures forall s :: s in ConcludeSteps() <==>
        (s == FetchStep && fetcher != null) || (s == DeleteStep && purger != null)
    {
    }

    lemma StageOrders()
      ensures InOrder(PrepareSteps(), 0, 2) && InOrder(EnrollSteps(), 2, 4) && InOrder(ConcludeSteps(), 4, 6)
    {
    }

    lemma ConfiguredMembers()
      ensures forall s :: s in Configured() <==> s in PrepareSteps() || s in EnrollSteps() || s in ConcludeSteps()
    {
      hide PrepareSteps, EnrollSteps, ConcludeSteps;
    }

    /**
     Asking the services: what a successful call returned joins the hosts, and the marks are those that the call left,
     also when it failed.
     */
    ghost predicate QueriedBy(flags: seq<bool>, left: seq<bool>, before: seq<string>, hosts: seq<string>, given: Inputs,
                              done: seq<Step>, err: Option<Failure>, call: Query.Call, sans: seq<string>) {
      if query == null then left == flags && hosts == before
      else
        call.flags == flags && left == call.Left(given.ask)
        && if QueryStep in done then hosts == before + sans && call.Explains(Ok(sans), given.ask, given.ticks)
           else hosts == before && err.Some? && call.Explains(Err(err.value), given.ask, given.ticks)
    }

    /**
     The disk after generation. If it was reached and could not be done, it may have left a request without its key;
     if it was done, the key is the loaded or the new one.
     */
    ghost predicate GeneratedBy(before: map<string, Pem>, after: map<string, Pem>, newKey: Option<nat>, done: seq<Step>,
                                key: nat, request: Pem)
      reads if generator == null then {} else {generator.conf}
    {
      if generator == null then after == before
      else if GenerateStep in done then
        (query == null || QueryStep in done) && generator.CanGenerate(before, newKey)
        && generator.Requests(key, request) && after == generator.Written(before, key, request)
        && Some(key) == if generator.conf.loadPrivateKey then KeyIn(before, generator.conf.keyPath) else newKey
      else if query == null || QueryStep in done then
        !generator.CanGenerate(before, newKey)
        && after == if generator.Orphan(before, newKey) then before[generator.conf.csrPath := request] else before
      else after == before
    }

    /**
     The steps before the server is written to: service names join the hosts, and key and request are made from them.
     */
    method Prepare(given: Inputs)
      returns (err: Option<Failure>, ghost done: seq<Step>, ghost call: Query.Call, ghost sans: seq<string>,
               ghost key: nat, ghost request: Pem)
      requires Valid()
      modifies conf`hosts, files, Footprint()
      ensures Valid() && CarriedOut(done, PrepareSteps(), err)
      ensures QueriedBy(old(Flags()), Flags(), old(conf.hosts), conf.hosts, given, done, err, call, sans)
      ensures GeneratedBy(old(files.content), files.content, given.newKey, done, key, request)
    {
      err, done, call, sans, key, request := None, [], Query.Call([], 0, 0), [], 0, NotPem(0);
      if query != null {
        var found;
        found, call := query.GetSubjectAlternativeNames(given.ask, given.ticks);
        if found.Err? {
          return Some(found.error), done, call, sans, key, request;
        }
        sans := found.value;
        conf.hosts := conf.hosts + found.value;
        done := [QueryStep];
      }
      if generator != null {
        err, key, request := generator.Generate(given.newKey);
        if err.Some? {
          return;
        }
        done := done + [GenerateStep];
      }
    }

    /** With different files, what was generated is on disk. */
    lemma GeneratedIsThere(before: map<string, Pem>, after: map<string, Pem>, newKey: Option<nat>, done: seq<Step>,
                           key: nat, request: Pem)
      requires generator != null && generator.conf == conf && GenerateStep in done
      requires GeneratedBy(before, after, newKey, done, key, request)
      ensures conf.csrPath != conf.keyPath ==>
        ContentOf(after, conf.csrPath) == Some(request) && KeyIn(after, conf.keyPath) == Some(key)
      ensures generator.Requests(key, request)
    {
    }

    /** Every name and address that a query found is in the request that is generated then. */
    lemma DiscoveredIsRequested(flags: seq<bool>, left: seq<bool>, before: seq<string>, hosts: seq<string>,
                                given: Inputs, done: seq<Step>, err: Option<Failure>, call: Query.Call,
                                sans: seq<string>, key: nat, request: Pem, x: string)
      requires generator != null && generator.conf == conf && hosts == conf.hosts && generator.Requests(key, request)
      requires QueriedBy(flags, left, before, hosts, given, done, err, call, sans) && query != null && QueryStep in done
      requires x in before || x in sans
      ensures match generator.parse(x)
              case None => x in request.dnsNames
              case Some(ip) => ip in request.ipAddresses
    {
      assert x in hosts;
      Hosts.IsCategorized(hosts, generator.parse, request.dnsNames, request.ipAddresses, x);
    }

    /** How submission and approval end, between logs a and b. */
    ghost predicate Enrolls(a: Log, b: Log, name: string, content: map<string, Pem>, err: Option<Failure>,
                            x: Enrolled) {
      CarriedOut(x.done, EnrollSteps(), err)
      && (if submitter == null then x.created == a && x.submit == []
          else
            submitter.Submits(a, x.created, name, ContentOf(content, conf.csrPath),
                              if SubmitStep in x.done then None else err)
            && Mine(x.created) == Mine(a) + x.submit)
      && if approval != null && (submitter == null || SubmitStep in x.done)
         then ApprovalEnds(x.created, b, name, err, x.approve)
         else b == x.created && x.approve == []
    }

    /** Submits, and approves the object that the submission returned. */
    method SubmitAndApprove() returns (err: Option<Failure>, ghost x: Enrolled)
      requires Valid() && submitter != null && !approved
      modifies this`approved, api
      ensures Valid() && approved == (ApproveStep in x.done)
      ensures Enrolls(old(api.log), api.log, conf.name, files.content, err, x)
    {
      hide Clean, Replay, Mine, ApprovalEnds, Approves;
      ghost var log := api.log;
      var r := submitter.Submit(conf.name, conf.csrPath);
      ghost var created := api.log;
      MineGrows(log, created);
      ghost var submit := Mine(created)[|Mine(log)|..];
      if r.Err? {
        return Some(r.error), Enrolled([], created, submit, []);
      }
      if approval == null {
        return None, Enrolled([SubmitStep], created, submit, []);
      }
      assert created[..|created|] == created;
      ghost var e;
      err, e := approval.ApproveCSR(conf.name, r.value, |created|);
      ApprovalIs(created, created, api.log, conf.name, r.value, err, e);
      if err.Some? {
        x := Enrolled([SubmitStep], created, submit, []);
        return;
      }
      x := Enrolled([SubmitStep, ApproveStep], created, submit, [e]);
      approved := true;
    }

    /** Submission and approval; a run that submits approves what the submission returned, others what they read. */
    method Enroll() returns (err: Option<Failure>, ghost x: Enrolled)
      requires Valid() && !approved
      modifies this`approved, api
      ensures Valid() && Enrolls(old(api.log), api.log, conf.name, files.content, err, x)
    {
      hide Clean, Replay, Mine;
      err, x := None, Enrolled([], api.log, [], []);
      if submitter != null {
        err, x := SubmitAndApprove();
        if err.Some? {
          return;
        }
      }
      if approval != null && !approved {
        ghost var approve;
        err, approve := approval.GetAndApproveCSR(conf.name);
        x := Enrolled(if err.None? then [ApproveStep] else [], x.created, [], approve);
      }
    }

    /** How fetch and delete end, between logs a and b. */
    ghost predicate Concludes(a: Log, b: Log, name: string, before: map<string, Pem>, after: map<string, Pem>,
                              given: Inputs, err: Option<Failure>, y: Concluded)
      reads if fetcher == null then {} else {fetcher}
    {
      CarriedOut(y.done, ConcludeSteps(), err)
      && (if fetcher == null then y.fetched == a && y.fetch == [] && y.polls == [] && after == before
          else
            fetcher.Waits(a, y.fetched, name, given.schedule, given.fetchedAt, before, after,
                          if FetchStep in y.done then None else err, y.polls)
            && Mine(y.fetched) == Mine(a) + y.fetch)
      && if purger != null && (fetcher == null || FetchStep in y.done)
         then DeleteEnds(y.fetched, b, name, err, y.delete)
         else b == y.fetched && y.delete == []
    }

    /** Fetching the certificate and deleting the object. */
    method Conclude(given: Inputs) returns (err: Option<Failure>, ghost y: Concluded)
      requires Valid()
      modifies api, files
      ensures Valid()
      ensures Concludes(old(api.log), api.log, conf.name, old(files.content), files.content, given, err, y)
    {
      hide Clean, Replay, Mine, Polled, Format, Bump;
      err, y := None, Concluded([], api.log, [], [], []);
      if fetcher != null {
        ghost var polls;
        err, polls := fetcher.Fetch(conf.name, given.schedule, given.fetchedAt);
        WaitFails(old(api.log), api.log, given, old(files.content), files.content, err, polls);
        MineGrows(old(api.log), api.log);
        ghost var fetch := Mine(api.log)[|Mine(old(api.log))|..];
        if err.Some? {
          y := Concluded([], api.log, fetch, [], polls);
          return;
        }
        y := Concluded([FetchStep], api.log, fetch, [], polls);
      }
      hide Fetcher.Waits;
      if purger != null {
        var error := purger.Delete(conf.name);
        ghost var delete := if error.None? then [Delete(Self, conf.name)] else [];
        if error.Some? {
          return Some(Api(error.value)), y;
        }
        y := Concluded(y.done + [DeleteStep], y.fetched, y.fetch, delete, y.polls);
      }
    }

    lemma WaitFails(a: Log, b: Log, given: Inputs, before: map<string, Pem>, after: map<string, Pem>,
                    err: Option<Failure>, polls: seq<Poll>)
      requires fetcher != null
      requires fetcher.Waits(a, b, conf.name, given.schedule, given.fetchedAt, before, after, err, polls)
      ensures a <= b && (err.Some? ==> FailsWith(FetchStep, err.value))
    {
      hide Clean, Replay, Mine, Polled, Format, Bump;
    }

    lemma ExchangeOrder(enrolled: seq<Step>, concluded: seq<Step>, err: Option<Failure>)
      requires if enrolled == EnrollSteps() then CarriedOut(concluded, ConcludeSteps(), err)
               else concluded == [] && err.Some? && CarriedOut(enrolled, EnrollSteps(), err)
      ensures var done := enrolled + concluded;
              CarriedOut(done, ExchangeSteps(), err)
              && (ApproveStep in done <==> ApproveStep in enrolled) && (FetchStep in done <==> FetchStep in concluded)
    {
      StepsInOrder(EnrollSteps(), ConcludeSteps(), enrolled, concluded, err);
    }

    lemma Order(prepared: seq<Step>, exchanged: seq<Step>, err: Option<Failure>)
      requires if prepared == PrepareSteps() then CarriedOut(exchanged, ExchangeSteps(), err)
               else exchanged == [] && err.Some? && CarriedOut(prepared, PrepareSteps(), err)
      ensures var done := prepared + exchanged;
              CarriedOut(done, Configured(), err)
              && (GenerateStep in done <==> GenerateStep in prepared) && (QueryStep in done <==> QueryStep in prepared)
              && (ApproveStep in done <==> ApproveStep in exchanged) && (FetchStep in done <==> FetchStep in exchanged)
    {
      StepsInOrder(PrepareSteps(), ExchangeSteps(), prepared, exchanged, err);
    }

    /**
     A completed fetch has the certificate that the server showed. If the run submitted, it did so before, and if since
     then no other actor created or deleted the object until it was read, the certificate was issued to us.
     */
    ghost predicate ObtainsOwn(start: Log, log: Log, name: string, before: map<string, Pem>, certificate: Pem,
                               submitted: nat, signed: nat, readAt: nat) {
      readAt <= |log| && name in At(log, readAt).objects
      && At(log, readAt).objects[name].certificate == Some(certificate)
      && (submitter != null ==>
            conf.csrPath in before && |start| <= submitted < readAt
            && log[submitted] == Create(Self, name, before[conf.csrPath], None)
            && (Clean(start) && Undisturbed(log[..readAt], submitted + 1, name, {Other}) ==>
                  signed < readAt && IssuedToUs(log, submitted, signed, name, before[conf.csrPath], certificate)))
    }

    lemma OwnIsIssued(start: Log, submitted: Log, fetched: Log, log: Log, submit: Log, effects: Log, delete: Log,
                      name: string, request: Pem, readAt: nat, c: Csr)
      returns (signed: nat)
      requires Clean(start) && Performed(start, submitted, submit) && Performed(fetched, log, delete)
      requires |submitted| > |start| && Born(submitted, name, request)
      requires Performed(submitted, fetched, effects) && forall e :: e in effects ==> !e.Create? && !e.Delete?
      requires |submitted| <= readAt && WasRead(fetched, readAt, name, c) && c.certificate.Some?
      requires Undisturbed(log[..readAt], |submitted|, name, {Other})
      ensures signed < readAt && IssuedToUs(log, |submitted| - 1, signed, name, request, c.certificate.value)
    {
      assert fetched[..readAt] == log[..readAt];
      signed := FoundIsOwn(fetched, submitted, effects, readAt, name, request, c);
      assert log[signed] == fetched[signed];
      assert log[|submitted| - 1] == submitted[|submitted| - 1];
    }

    /** The same of the log at the end of the exchange, in terms of positions. */
    lemma FetchObtains(start: Log, submitted: Log, fetched: Log, log: Log, submit: Log, effects: Log, delete: Log,
                       name: string, before: map<string, Pem>, readAt: nat, c: Csr)
      returns (signed: nat)
      requires Performed(start, submitted, submit) && Performed(fetched, log, delete)
      requires Performed(submitted, fetched, effects) && forall e :: e in effects ==> !e.Create? && !e.Delete?
      requires |submitted| <= readAt && WasRead(fetched, readAt, name, c) && c.certificate.Some?
      requires submitter != null ==>
        |submitted| > |start| && conf.csrPath in before && Born(submitted, name, before[conf.csrPath])
      ensures ObtainsOwn(start, log, name, before, c.certificate.value,
                         if submitted == [] then 0 else |submitted| - 1, signed, readAt)
    {
      hide Clean, Mine, Replay, IssuedToUs, Undisturbed;
      assert fetched[..readAt] == log[..readAt];
      signed := 0;
      if submitter != null {
        assert log[|submitted| - 1] == submitted[|submitted| - 1];
        if Clean(start) && Undisturbed(log[..readAt], |submitted|, name, {Other}) {
          signed := OwnIsIssued(start, submitted, fetched, log, submit, effects, delete, name, before[conf.csrPath],
                                readAt, c);
        }
      }
    }

    /** The disk after the fetch: the certificate is only written over another one if that is allowed. */
    ghost predicate FetchedBy(before: map<string, Pem>, after: map<string, Pem>, done: seq<Step>, certificate: Pem)
      reads if fetcher == null then {} else {fetcher}
    {
      if fetcher == null || FetchStep !in done then after == before
      else after == before[fetcher.certificatePath := certificate]
           && (fetcher.override || fetcher.certificatePath !in before)
    }

    /** What a run does to the disk, in two steps: generation, and the fetch. */
    ghost predicate DiskAfter(before: map<string, Pem>, after: map<string, Pem>, newKey: Option<nat>, r: Report)
      reads if generator == null then {} else {generator.conf}, if fetcher == null then {} else {fetcher}
    {
      GeneratedBy(before, r.disk, newKey, r.done, r.key, r.request)
      && FetchedBy(r.disk, after, r.done, LastCertificate(r.concluded.polls))
    }

    /** From the creation of the object until its certificate was read, no other actor created or deleted it. */
    ghost predicate Undisputed(start: Log, log: Log, name: string, r: Report) {
      Clean(start) && r.concluded.ReadAt() <= |log|
      && Undisturbed(log[..r.concluded.ReadAt()], r.Submitted() + 1, name, {Other})
    }

    /** The three files of the operation are different files. */
    predicate Distinct()
      requires fetcher != null
    {
      conf.keyPath != conf.csrPath && conf.keyPath != fetcher.certificatePath && conf.csrPath != fetcher.certificatePath
    }

    /** The private key on disk is that of the certificate on disk. */
    predicate Paired(content: map<string, Pem>)
      requires fetcher != null
    {
      CertifiedKey(content, fetcher.certificatePath).Some?
      && KeyIn(content, conf.keyPath) == CertifiedKey(content, fetcher.certificatePath)
    }

    /**
     A run that fetched what it had generated and submitted ends with its own pair:
     the certificate for the request it generated, and that request's key. Deleting the object may still have failed.
     */
    ghost predicate EndsWithOwnPair(start: Log, log: Log, content: map<string, Pem>, name: string, r: Report) {
      generator != null && submitter != null && fetcher != null && Undisputed(start, log, name, r)
      && conf.keyPath != conf.csrPath && conf.keyPath != fetcher.certificatePath ==>
        fetcher.certificatePath in content && content[fetcher.certificatePath] == LastCertificate(r.concluded.polls)
        && |start| <= r.Submitted() < r.signed < r.concluded.ReadAt()
        && IssuedToUs(log, r.Submitted(), r.signed, name, r.request, content[fetcher.certificatePath])
        && r.request.CertRequest? && KeyIn(content, conf.keyPath) == Some(r.request.key)
        && Paired(content)
    }

    /** The requests of submission and approval, and those of fetch and delete. */
    lemma ExchangePerforms(a: Log, b: Log, c: Log, name: string, content: map<string, Pem>, after: map<string, Pem>,
                           given: Inputs, e1: Option<Failure>, err: Option<Failure>, x: Enrolled, y: Concluded)
      requires Enrolls(a, b, name, content, e1, x) && Concludes(b, c, name, content, after, given, err, y)
      ensures Performed(a, x.created, x.submit) && Performed(x.created, b, x.approve)
      ensures Performed(b, y.fetched, y.fetch) && Performed(y.fetched, c, y.delete)
      ensures forall e :: e in x.submit ==> !e.SetConditions?
      ensures if ApproveStep in x.done then |x.approve| == 1 && IsApproval(x.approve[0], name) else x.approve == []
      ensures (forall e :: e in y.fetch ==> e.SetAnnotations?) && forall e :: e in y.delete ==> e.Delete?
    {
      EnrollPerforms(a, b, name, content, e1, x);
      ConcludePerforms(b, c, name, content, after, given, err, y);
    }

    lemma EnrollPerforms(a: Log, b: Log, name: string, content: map<string, Pem>, err: Option<Failure>, x: Enrolled)
      requires Enrolls(a, b, name, content, err, x)
      ensures Performed(a, x.created, x.submit) && Performed(x.created, b, x.approve)
      ensures forall e :: e in x.submit ==> !e.SetConditions?
      ensures if ApproveStep in x.done then |x.approve| == 1 && IsApproval(x.approve[0], name) else x.approve == []
      ensures x.done <= EnrollSteps() && (err.None? <==> x.done == EnrollSteps())
    {
      hide Clean, Replay, Mine, Deleted, Present, Recreated, Kept;
      assert x.submit == Mine(x.created)[|Mine(a)|..];
    }

    lemma ConcludePerforms(a: Log, b: Log, name: string, before: map<string, Pem>, after: map<string, Pem>,
                           given: Inputs, err: Option<Failure>, y: Concluded)
      requires Concludes(a, b, name, before, after, given, err, y)
      ensures Performed(a, y.fetched, y.fetch) && Performed(y.fetched, b, y.delete)
      ensures (forall e :: e in y.fetch ==> e.SetAnnotations?) && forall e :: e in y.delete ==> e.Delete?
    {
      hide Clean, Replay, Mine, Polled, Format, Bump, Kept;
      assert y.fetch == Mine(y.fetched)[|Mine(a)|..];
    }

    /** A completed fetch has its certificate, and who signed it is found in the log. */
    lemma FindSigner(a: Log, b: Log, c: Log, name: string, content: map<string, Pem>, after: map<string, Pem>,
                     given: Inputs, err: Option<Failure>, x: Enrolled, y: Concluded)
      returns (signed: nat)
      requires Enrolls(a, b, name, content, None, x) && Concludes(b, c, name, content, after, given, err, y)
      ensures FetchedBy(content, after, y.done, LastCertificate(y.polls))
      ensures FetchStep in y.done ==>
        fetcher != null
        && ObtainsOwn(a, c, name, content, LastCertificate(y.polls),
                      if x.created == [] then 0 else |x.created| - 1, signed, y.ReadAt())
    {
      hide Clean, Replay, Mine, Polled, Format, Bump, Kept, Performed, WasRead, Born;
      signed := 0;
      ExchangePerforms(a, b, c, name, content, after, given, None, err, x, y);
      SubmittedOnce(a, b, name, content, x);
      FetchBrings(b, c, name, content, after, given, err, y);
      if FetchStep in y.done {
        var seen := y.polls[|y.polls| - 1].c;
        PerformedGrows(x.created, b, x.approve);
        PerformedTogether(x.created, b, y.fetched, x.approve, y.fetch);
        signed := FetchObtains(a, x.created, y.fetched, c, x.submit, x.approve + y.fetch, y.delete, name, content,
                               y.ReadAt(), seen);
      }
    }

    lemma PerformedGrows(a: Log, b: Log, effects: Log)
      requires Performed(a, b, effects)
      ensures a <= b
    {
    }

    lemma SubmittedOnce(a: Log, b: Log, name: string, content: map<string, Pem>, x: Enrolled)
      requires Enrolls(a, b, name, content, None, x)
      ensures submitter != null ==>
        |x.created| > |a| && conf.csrPath in content && Born(x.created, name, content[conf.csrPath])
    {
      hide Clean, Replay, Mine, Born;
    }

    lemma FetchBrings(a: Log, b: Log, name: string, before: map<string, Pem>, after: map<string, Pem>, given: Inputs,
                      err: Option<Failure>, y: Concluded)
      requires Concludes(a, b, name, before, after, given, err, y)
      ensures FetchedBy(before, after, y.done, LastCertificate(y.polls))
      ensures FetchStep in y.done ==>
        fetcher != null && y.polls != [] && y.polls[|y.polls| - 1].Seen?
        && var c := y.polls[|y.polls| - 1].c;
           |a| <= y.ReadAt() && WasRead(y.fetched, y.ReadAt(), name, c)
           && c.certificate == Some(LastCertificate(y.polls))
    {
      hide Clean, Replay, Mine, Polled, Format, Bump, WasRead;
    }

    lemma OwnPair(start: Log, log: Log, before: map<string, Pem>, after: map<string, Pem>, name: string, r: Report)
      requires FetchStep in r.done && FetchedBy(r.disk, after, r.done, LastCertificate(r.concluded.polls))
      requires ObtainsOwn(start, log, name, r.disk, LastCertificate(r.concluded.polls), r.Submitted(), r.signed,
                          r.concluded.ReadAt())
      requires generator != null && conf.csrPath != conf.keyPath ==>
        ContentOf(r.disk, conf.csrPath) == Some(r.request) && KeyIn(r.disk, conf.keyPath) == Some(r.key)
      requires generator != null ==> generator.Requests(r.key, r.request)
      ensures EndsWithOwnPair(start, log, after, name, r)
    {
      hide Clean, Replay, Undisturbed;
    }

    /** How a run ends, from its first step to its last. */
    ghost predicate Ends(start: Log, log: Log, name: string, before: map<string, Pem>, after: map<string, Pem>,
                         given: Inputs, err: Option<Failure>, r: Report)
      reads if generator == null then {} else {generator.conf}, if fetcher == null then {} else {fetcher}
    {
      CarriedOut(r.done, Configured(), err)
      && Performed(start, log, r.Effects()) && ApprovesTimes(r.Effects(), name, if ApproveStep in r.done then 1 else 0)
      && DiskAfter(before, after, given.newKey, r) && before.Keys <= after.Keys
      && (FetchStep in r.done ==>
            fetcher != null && EndsWithOwnPair(start, log, after, name, r) && fetcher.certificatePath in after)
      && (err.None? && fetcher != null ==> FetchStep in r.done)
      && Exchanges(start, log, name, after, given, err, r)
    }

    /** The requests to the server: none before everything is prepared, and no others than those of the four steps. */
    ghost predicate Exchanges(start: Log, log: Log, name: string, after: map<string, Pem>, given: Inputs,
                              err: Option<Failure>, r: Report)
      reads if fetcher == null then {} else {fetcher}
    {
      if !(PrepareSteps() <= r.done) then log == start && r.Effects() == [] && after == r.disk
      else if !(PrepareSteps() + EnrollSteps() <= r.done) then
        Enrolls(start, log, name, r.disk, err, r.enrolled)
        && r.concluded.fetch == r.concluded.delete == [] && after == r.disk
        && r.done == PrepareSteps() + r.enrolled.done
      else
        Enrolls(start, r.middle, name, r.disk, None, r.enrolled)
        && Concludes(r.middle, log, name, r.disk, after, given, err, r.concluded)
        && r.done == PrepareSteps() + r.enrolled.done + r.concluded.done
    }


    /** Only the steps that generate or query matter to what the disk and the hosts became. */
    lemma GeneratedIs(before: map<string, Pem>, after: map<string, Pem>, newKey: Option<nat>, a: seq<Step>,
                      b: seq<Step>, key: nat, request: Pem)
      requires GenerateStep in a <==> GenerateStep in b
      requires QueryStep in a <==> QueryStep in b
      requires GeneratedBy(before, after, newKey, a, key, request)
      ensures GeneratedBy(before, after, newKey, b, key, request) && before.Keys <= after.Keys
    {
    }

    lemma QueryIs(flags: seq<bool>, left: seq<bool>, before: seq<string>, hosts: seq<string>, given: Inputs,
                  a: seq<Step>, b: seq<Step>, err: Option<Failure>, call: Query.Call, sans: seq<string>)
      requires QueriedBy(flags, left, before, hosts, given, a, None, call, sans) && (QueryStep in a <==> QueryStep in b)
      ensures QueriedBy(flags, left, before, hosts, given, b, err, call, sans)
    {
    }

    lemma StoppedEarly(start: Log, name: string, before: map<string, Pem>, given: Inputs, err: Option<Failure>,
                       r: Report)
      requires CarriedOut(r.done, PrepareSteps(), err) && err.Some?
      requires GeneratedBy(before, r.disk, given.newKey, r.done, r.key, r.request)
      requires r.Effects() == [] && r.concluded.polls == []
      ensures Ends(start, start, name, before, r.disk, given, err, r)
    {
      hide Clean, Mine, Replay;
      Order(r.done, [], err);
      assert r.done + [] == r.done;
      GeneratedIs(before, r.disk, given.newKey, r.done, r.done, r.key, r.request);
      NothingPerformed(start);
      assert ApprovesTimes([], name, 0);
    }

    /** A run that ended between submission and approval, or in one of them. */
    lemma StoppedInside(start: Log, log: Log, name: string, before: map<string, Pem>, given: Inputs,
                        prepared: seq<Step>, err: Option<Failure>, r: Report)
      requires prepared == PrepareSteps() && err.Some? && r.done == prepared + r.enrolled.done
      requires GeneratedBy(before, r.disk, given.newKey, prepared, r.key, r.request)
      requires Enrolls(start, log, name, r.disk, err, r.enrolled)
      requires r.concluded == Concluded([], log, [], [], [])
      ensures Ends(start, log, name, before, r.disk, given, err, r)
      ensures QueryStep in r.done <==> QueryStep in prepared
    {
      hide Clean, Mine, Replay, GeneratedBy, ApprovesTimes, Performed, EndsWithOwnPair;
      var x := r.enrolled;
      EnrollPerforms(start, log, name, r.disk, err, x);
      EnrollsCarriedOut(start, log, name, r.disk, err, x);
      hide Enrolls;
      ExchangeOrder(x.done, [], err);
      assert x.done + [] == x.done;
      Order(prepared, x.done, err);
      GeneratedIs(before, r.disk, given.newKey, prepared, r.done, r.key, r.request);
      NothingPerformed(log);
      RunTogether(start, x.created, log, log, log, x.submit, x.approve, [], [], name);
      assert FetchedBy(r.disk, r.disk, r.done, LastCertificate([]));
    }

    lemma EnrollsCarriedOut(a: Log, b: Log, name: string, content: map<string, Pem>, err: Option<Failure>, x: Enrolled)
      requires Enrolls(a, b, name, content, err, x)
      ensures CarriedOut(x.done, EnrollSteps(), err) && (err.None? ==> x.done == EnrollSteps())
    {
    }

    lemma ConcludesCarriedOut(a: Log, b: Log, name: string, before: map<string, Pem>, after: map<string, Pem>,
                              given: Inputs, err: Option<Failure>, y: Concluded)
      requires Concludes(a, b, name, before, after, given, err, y)
      ensures CarriedOut(y.done, ConcludeSteps(), err)
    {
    }

    /** A run that got to the last two steps. */
    lemma RunEnds(start: Log, log: Log, name: string, before: map<string, Pem>, after: map<string, Pem>, given: Inputs,
                  prepared: seq<Step>, err: Option<Failure>, r: Report)
      requires prepared == PrepareSteps() && r.done == prepared + r.enrolled.done + r.concluded.done
      requires generator != null ==> generator.conf == conf
      requires GeneratedBy(before, r.disk, given.newKey, prepared, r.key, r.request)
      requires Enrolls(start, r.middle, name, r.disk, None, r.enrolled)
      requires Concludes(r.middle, log, name, r.disk, after, given, err, r.concluded)
      requires FetchedBy(r.disk, after, r.concluded.done, LastCertificate(r.concluded.polls))
      requires FetchStep in r.concluded.done ==>
        fetcher != null
        && ObtainsOwn(start, log, name, r.disk, LastCertificate(r.concluded.polls), r.Submitted(), r.signed,
                      r.concluded.ReadAt())
      ensures Ends(start, log, name, before, after, given, err, r)
      ensures QueryStep in r.done <==> QueryStep in prepared
    {
      hide CarriedOut, ApprovesTimes, Performed, DiskAfter, EndsWithOwnPair, Exchanges, Configured, Enrolls, Concludes;
      hide ObtainsOwn, GeneratedBy, FetchedBy, EnrollSteps, ConcludeSteps;
      RunOrder(start, log, name, after, given, prepared, err, r);
      RunRequests(start, log, name, after, given, err, r);
      RunDisk(start, log, name, before, after, given, prepared, r);
    }

    lemma StepsOfRun(prepared: seq<Step>, enrolled: seq<Step>, concluded: seq<Step>, err: Option<Failure>)
      requires prepared == PrepareSteps() && enrolled == EnrollSteps() && CarriedOut(concluded, ConcludeSteps(), err)
      ensures var done := prepared + enrolled + concluded;
              CarriedOut(done, Configured(), err)
              && PrepareSteps() <= done && PrepareSteps() + EnrollSteps() <= done
              && (GenerateStep in done <==> GenerateStep in prepared) && (QueryStep in done <==> QueryStep in prepared)
              && (ApproveStep in done <==> ApproveStep in enrolled) && (FetchStep in done <==> FetchStep in concluded)
              && (err.None? && fetcher != null ==> FetchStep in done)
    {
      ExchangeOrder(enrolled, concluded, err);
      assert prepared + enrolled + concluded == prepared + (enrolled + concluded);
      Order(prepared, enrolled + concluded, err);
    }

    /** Order of the steps of such a run. */
    lemma RunOrder(start: Log, log: Log, name: string, after: map<string, Pem>, given: Inputs, prepared: seq<Step>,
                   err: Option<Failure>, r: Report)
      requires prepared == PrepareSteps() && r.done == prepared + r.enrolled.done + r.concluded.done
      requires Enrolls(start, r.middle, name, r.disk, None, r.enrolled)
      requires Concludes(r.middle, log, name, r.disk, after, given, err, r.concluded)
      ensures CarriedOut(r.done, Configured(), err) && Exchanges(start, log, name, after, given, err, r)
      ensures (GenerateStep in r.done <==> GenerateStep in prepared) && (QueryStep in r.done <==> QueryStep in prepared)
      ensures (ApproveStep in r.done <==> ApproveStep in r.enrolled.done)
      ensures (FetchStep in r.done <==> FetchStep in r.concluded.done)
      ensures err.None? && fetcher != null ==> FetchStep in r.done
    {
      var x, y := r.enrolled, r.concluded;
      EnrollsCarriedOut(start, r.middle, name, r.disk, None, x);
      ConcludesCarriedOut(r.middle, log, name, r.disk, after, given, err, y);
      hide Enrolls, Concludes, CarriedOut, Configured, PrepareSteps, EnrollSteps, ConcludeSteps;
      StepsOfRun(prepared, x.done, y.done, err);
    }

    /** Its requests. */
    lemma RunRequests(start: Log, log: Log, name: string, after: map<string, Pem>, given: Inputs, err: Option<Failure>,
                      r: Report)
      requires Enrolls(start, r.middle, name, r.disk, None, r.enrolled)
      requires Concludes(r.middle, log, name, r.disk, after, given, err, r.concluded)
      ensures Performed(start, log, r.Effects())
      ensures ApprovesTimes(r.Effects(), name, if ApproveStep in r.enrolled.done then 1 else 0)
    {
      hide Clean, Mine, Replay, ApprovesTimes, Performed, Enrolls, Concludes;
      var x, y := r.enrolled, r.concluded;
      ExchangePerforms(start, r.middle, log, name, r.disk, after, given, None, err, x, y);
      RunTogether(start, x.created, r.middle, y.fetched, log, x.submit, x.approve, y.fetch, y.delete, name);
    }

    /** And its files. */
    lemma RunDisk(start: Log, log: Log, name: string, before: map<string, Pem>, after: map<string, Pem>, given: Inputs,
                  prepared: seq<Step>, r: Report)
      requires GenerateStep in r.done <==> GenerateStep in prepared
      requires QueryStep in r.done <==> QueryStep in prepared
      requires FetchStep in r.done <==> FetchStep in r.concluded.done
      requires generator != null ==> generator.conf == conf && GenerateStep in prepared
      requires GeneratedBy(before, r.disk, given.newKey, prepared, r.key, r.request)
      requires FetchedBy(r.disk, after, r.concluded.done, LastCertificate(r.concluded.polls))
      requires FetchStep in r.concluded.done ==>
        fetcher != null
        && ObtainsOwn(start, log, name, r.disk, LastCertificate(r.concluded.polls), r.Submitted(), r.signed,
                      r.concluded.ReadAt())
      ensures DiskAfter(before, after, given.newKey, r) && before.Keys <= after.Keys
      ensures FetchStep in r.done ==>
        fetcher != null && EndsWithOwnPair(start, log, after, name, r) && fetcher.certificatePath in after
    {
      hide Clean, Replay, ObtainsOwn, EndsWithOwnPair, GeneratedBy, FetchedBy, Generator.Requests;
      GeneratedIs(before, r.disk, given.newKey, prepared, r.done, r.key, r.request);
      FetchedIs(r.disk, after, r.concluded.done, r.done, LastCertificate(r.concluded.polls));
      if FetchStep in r.done {
        if generator != null {
          GeneratedIsThere(before, r.disk, given.newKey, r.done, r.key, r.request);
        }
        OwnPair(start, log, r.disk, after, name, r);
      }
    }

    lemma FetchedIs(before: map<string, Pem>, after: map<string, Pem>, a: seq<Step>, b: seq<Step>, certificate: Pem)
      requires FetchedBy(before, after, a, certificate) && (FetchStep in a <==> FetchStep in b)
      ensures FetchedBy(before, after, b, certificate) && before.Keys <= after.Keys
      ensures fetcher != null && FetchStep in a ==> fetcher.certificatePath in after
    {
    }

    /** Runs every configured step in order and stops at the first failure. */
    method Run(given: Inputs) returns (err: Option<Failure>, ghost report: Report)
      requires Valid()
      modifies this`approved, conf`hosts, api, files, Footprint()
      ensures Valid()
      ensures QueriedBy(old(Flags()), Flags(), old(conf.hosts), conf.hosts, given, report.done, err,
                        report.call, report.sans)
      ensures Ends(old(api.log), api.log, conf.name, old(files.content), files.content, given, err, report)
    {
      hide PrepareSteps, EnrollSteps, ConcludeSteps, ExchangeSteps, Configured, Clean, Mine, Replay;
      hide Enrolls, Concludes, GeneratedBy, QueriedBy, Ends, FetchedBy, ObtainsOwn;
      ghost var hosts, flags, start, before := conf.hosts, Flags(), api.log, files.content;
      approved := false;
      ghost var prepared, call, sans, key, request, x, y;
      err, prepared, call, sans, key, request := Prepare(given);
      ghost var disk := files.content;
      if err.Some? {
        report := Report(prepared, call, sans, key, request, disk, start, Enrolled([], start, [], []),
                         Concluded([], start, [], [], []), 0);
        StoppedEarly(start, conf.name, before, given, err, report);
        return;
      }
      err, x := Enroll();
      if err.Some? {
        report := Report(prepared + x.done, call, sans, key, request, disk, api.log, x,
                         Concluded([], api.log, [], [], []), 0);
        StoppedInside(start, api.log, conf.name, before, given, prepared, err, report);
        QueryIs(flags, Flags(), hosts, conf.hosts, given, prepared, report.done, err, call, sans);
        return;
      }
      ghost var middle := api.log;
      err, y := Conclude(given);
      ghost var signed := FindSigner(start, middle, api.log, conf.name, disk, files.content, given, err, x, y);
      report := Report(prepared + x.done + y.done, call, sans, key, request, disk, middle, x, y, signed);
      RunEnds(start, api.log, conf.name, before, files.content, given, prepared, err, report);
      QueryIs(flags, Flags(), hosts, conf.hosts, given, prepared, report.done, err, call, sans);
    }

    /**
     What a run does to the pair on disk. A completed fetch of an undisputed object brings a pair. Without one the
     certificate stays, and so does the key, unless a new one was generated.
     */
    lemma PairAfter(start: Log, log: Log, before: map<string, Pem>, after: map<string, Pem>, newKey: Option<nat>,
                    name: string, r: Report)
      requires fetcher != null && Distinct() && (generator != null ==> generator.conf == conf)
      requires DiskAfter(before, after, newKey, r)
      requires FetchStep in r.done ==> EndsWithOwnPair(start, log, after, name, r)
      ensures FetchStep in r.done && generator != null && submitter != null && Undisputed(start, log, name, r) ==>
        Paired(after)
      ensures FetchStep !in r.done ==>
        CertifiedKey(after, fetcher.certificatePath) == CertifiedKey(before, fetcher.certificatePath)
        && KeyIn(after, conf.keyPath) == if Rekeys(r) then newKey else KeyIn(before, conf.keyPath)
    {
      hide Undisputed, IssuedToUs, Generator.Requests, Generator.CanGenerate, Generator.Orphan;
    }

    /** The run generated a new key. */
    predicate Rekeys(r: Report) {
      generator != null && GenerateStep in r.done && !generator.conf.loadPrivateKey
    }

    /**
     If there was a pair before, there is one after the run, whether it succeeds or fails, with one exception:
     it generated a key other than that on disk and did not complete the fetch.
     */
    lemma SplitExactly(start: Log, log: Log, before: map<string, Pem>, after: map<string, Pem>,
                       newKey: Option<nat>, name: string, r: Report)
      requires fetcher != null && Distinct() && (generator != null ==> generator.conf == conf) && Paired(before)
      requires DiskAfter(before, after, newKey, r)
      requires FetchStep in r.done ==>
        EndsWithOwnPair(start, log, after, name, r)
        && generator != null && submitter != null && Undisputed(start, log, name, r)
      ensures Paired(after) <==>
              !(Rekeys(r) && FetchStep !in r.done && newKey != KeyIn(before, conf.keyPath))
    {
      hide DiskAfter, EndsWithOwnPair, Undisputed;
      PairAfter(start, log, before, after, newKey, name, r);
    }

    /**
     And it is forced to happen when keys may be overridden but certificates may not: every run that gets to the
     generation of a new key then fails and leaves that key beside the old certificate.
     */
    lemma KeyIsLeftBehind(before: map<string, Pem>, after: map<string, Pem>,
                          newKey: Option<nat>, r: Report, err: Option<Failure>)
      requires fetcher != null && generator != null && generator.conf == conf && Distinct() && Paired(before)
      requires conf.override && !conf.loadPrivateKey && conf.commonName != "" && !fetcher.override
      requires newKey.Some? && newKey != KeyIn(before, conf.keyPath)
      requires query == null || QueryStep in r.done
      requires CarriedOut(r.done, Configured(), err) && DiskAfter(before, after, newKey, r)
      ensures err.Some? && GenerateStep in r.done && FetchStep !in r.done
      ensures KeyIn(after, conf.keyPath) == newKey && !Paired(after)
    {
      hide Generator.Requests;
    }
  }
}
