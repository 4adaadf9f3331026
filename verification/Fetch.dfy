/** Waiting for the certificate, annotating the object and writing the file: pkg/operation/fetch/fetch.go. */
module Fetch {
  import opened Base
  import opened Decimal
  import opened Calendar
  import opened Objects
  import opened Cluster
  import opened Protocol
  import opened Disk
  import opened Submit

  /** What one turn of the polling loop sees; at tells how long the log was when the server answered. */
  datatype Poll = Signal | Timer | Absent(at: nat) | Seen(at: nat, c: Csr) {
    predicate Answered() {
      Absent? || Seen?
    }
  }

  /** The server did answer that way. */
  ghost predicate Observed(log: Log, name: string, p: Poll) {
    match p
    case Absent(at) => at <= |log| && name !in At(log, at).objects
    case Seen(at, c) => WasRead(log, at, name, c)
    case _ => true
  }

  /** What the select of turn i waits for: ticks and signals as scheduled, and then the timer. */
  ghost predicate Scheduled(schedule: seq<bool>, i: nat, p: Poll) {
    if i >= |schedule| then p.Timer?
    else if schedule[i] then p.Answered()
    else p.Signal?
  }

  /** A poll for every scheduled turn, each a true answer of the server after the log a, in the order of the log. */
  ghost predicate Polled(a: Log, b: Log, name: string, schedule: seq<bool>, polls: seq<Poll>) {
    |polls| <= |schedule| + 1
    && (forall i :: 0 <= i < |polls| ==> Scheduled(schedule, i, polls[i]) && Observed(b, name, polls[i]))
    && (forall i :: 0 <= i < |polls| && polls[i].Answered() ==> |a| <= polls[i].at)
    && (forall i, j :: 0 <= i < j < |polls| && polls[i].Answered() && polls[j].Answered() ==>
          polls[i].at <= polls[j].at)
  }

  lemma PolledNext(a: Log, b: Log, c: Log, name: string, schedule: seq<bool>, polls: seq<Poll>, p: Poll)
    requires Polled(a, b, name, schedule, polls) && a <= b <= c && |polls| <= |schedule|
    requires Scheduled(schedule, |polls|, p) && Observed(c, name, p) && (p.Answered() ==> |b| <= p.at)
    ensures Polled(a, c, name, schedule, polls + [p])
  {
    PolledStill(a, b, c, name, schedule, polls);
    forall i | 0 <= i < |polls| && polls[i].Answered() ensures polls[i].at <= |b| {
      assert Observed(b, name, polls[i]);
    }
  }

  lemma PolledStill(a: Log, b: Log, c: Log, name: string, schedule: seq<bool>, polls: seq<Poll>)
    requires Polled(a, b, name, schedule, polls) && a <= b <= c
    ensures Polled(a, c, name, schedule, polls)
  {
    forall i | 0 <= i < |polls| && polls[i].Answered() ensures Observed(c, name, polls[i]) {
      assert Observed(b, name, polls[i]);
      assert c[..polls[i].at] == b[..polls[i].at];
    }
  }

  datatype Verdict = Pending | Stopped | Expired | Missing | Issued(certificate: Pem) | Rejected

  /** A certificate wins over a denial. */
  function Judge(p: Poll): Verdict {
    match p
    case Signal => Stopped
    case Timer => Expired
    case Absent(_) => Missing
    case Seen(_, c) =>
      if c.certificate.Some? then Issued(c.certificate.value)
      else if c.HasCondition(Denied) then Rejected
      else Pending
  }

  /** The verdict on a whole wait: that of the first poll that is not pending. */
  function Outcome(polls: seq<Poll>): Verdict {
    if polls == [] then Pending
    else if Judge(polls[0]) != Pending then Judge(polls[0])
    else Outcome(polls[1..])
  }

  lemma {:induction false} OutcomeIsFirst(polls: seq<Poll>, k: nat)
    requires k < |polls| && Judge(polls[k]) != Pending && forall i :: 0 <= i < k ==> Judge(polls[i]) == Pending
    ensures Outcome(polls) == Judge(polls[k])
  {
    if k == 0 {
    } else {
      OutcomeIsFirst(polls[1..], k - 1);
    }
  }

  /** How the verdict shows to the caller; an issued certificate still has to be annotated and written. */
  ghost predicate Reports(v: Verdict, err: Option<Failure>) {
    match v
    case Pending => false
    case Stopped => err == Some(Interrupted)
    case Expired => err == Some(TimedOut)
    case Missing => err == Some(Api(NotFound))
    case Rejected => err == Some(Refused)
    case Issued(_) => err.None? || err.value.Api? || err.value.FileExists?
  }

  /** The certificate that the last poll saw. */
  ghost function LastCertificate(polls: seq<Poll>): Pem {
    if polls != [] && polls[|polls| - 1].Seen? && polls[|polls| - 1].c.certificate.Some?
    then polls[|polls| - 1].c.certificate.value else NotPem(0)
  }

  lemma QuietTogether(a: Log, b: Log, c: Log)
    requires Quiet(a, b) && Quiet(b, c)
    ensures Quiet(a, c) && Mine(c) == Mine(a)
  {
    assert forall i :: |a| <= i < |b| ==> c[i] == b[i];
    QuietIsNotMine(a, c);
  }

  class Fetcher {
    const api: ApiServer
    const files: Files
    const certificatePath: string
    const annotate: bool
    var override: bool

    constructor (api: ApiServer, files: Files, certificatePath: string, override: bool, annotate: bool)
      ensures this.api == api && this.files == files && this.certificatePath == certificatePath
      ensures this.override == override && this.annotate == annotate
    {
      this.api, this.files, this.certificatePath, this.override, this.annotate :=
        api, files, certificatePath, override, annotate;
    }

    /** The annotation map that updateAnnotations fills in, key by key. */
    static method CountFetch(current: Option<Annotations>, date: string) returns (annotations: Annotations)
      ensures annotations == Bump(current, date)
    {
      match current {
        case None =>
          annotations := map[FETCH_DATE := date, FETCH_COUNT := "1"];
        case Some(m) =>
          annotations := m[FETCH_DATE := date];
          KeysDiffer();
          var count: int := Atoi(Lookup(annotations, FETCH_COUNT)).value;
          annotations := annotations[FETCH_COUNT := Itoa(Wrap64(count + 1))];
      }
    }

    /** Records one more fetch, at the clock's time, on the object as it was read; fails if it changed meanwhile. */
    method UpdateAnnotations(name: string, c: Csr, now: Instant, ghost readAt: nat) returns (err: Option<Failure>)
      requires api.Valid() && WasRead(api.log, readAt, name, c) && c.certificate.Some? && InCalendar(now)
      modifies api
      ensures api.Valid() && old(api.log) <= api.log && (Clean(old(api.log)) ==> Clean(api.log))
      ensures annotate && err.None? ==>
        Mine(api.log) ==
        Mine(old(api.log)) + [SetAnnotations(Self, name, Some(Bump(c.annotations, Format(now))), Some(now))]
      ensures err.Some? ==> annotate && !Current(api.log, name, c.version)
      ensures err.Some? ==> err.value == Api(if name in api.store.objects then Conflict else NotFound)
      ensures !annotate || err.Some? ==> Quiet(old(api.log), api.log) && Mine(api.log) == Mine(old(api.log))
    {
      if !annotate {
        return None;
      }
      var date := Format(now);
      var annotations := CountFetch(c.annotations, date);
      ghost var log := api.log;
      ghost var e;
      var error;
      error, e := api.Update(name, c.(annotations := Some(annotations)), Some(now));
      if error.Some? {
        QuietIsNotMine(log, api.log);
        return Some(Api(error.value));
      }
      ServedIsMine(log, api.log, e);
      StillRead(log, Before(api.log), readAt, name, c);
      VersionFixesObject(Before(api.log), readAt, name, c);
      err := None;
    }

    /** What Fetch does once the certificate is there: annotate, then write the file. */
    method Deliver(name: string, c: Csr, now: Instant, ghost readAt: nat) returns (err: Option<Failure>)
      requires api.Valid() && WasRead(api.log, readAt, name, c) && c.certificate.Some? && InCalendar(now)
      modifies api, files
      ensures api.Valid() && old(api.log) <= api.log && (Clean(old(api.log)) ==> Clean(api.log))
      ensures Delivered(old(api.log), api.log, name, now, old(files.content), err, readAt, c)
      ensures files.content ==
        if err.None? then old(files.content)[certificatePath := c.certificate.value] else old(files.content)
    {
      hide Clean, Mine, Replay, Bump, Format;
      ghost var log := api.log;
      err := UpdateAnnotations(name, c, now, readAt);
      StillRead(log, api.log, readAt, name, c);
      if err.Some? {
        return;
      }
      var ok := files.WriteFile(c.certificate.value, certificatePath, override);
      err := if ok then None else Some(FileExists);
    }

    /** The fetch is recorded unless annotating failed or is off; a refused file write does not take it back. */
    ghost function Annotated(name: string, c: Csr, err: Option<Failure>, now: Instant): Log
      requires InCalendar(now)
    {
      if annotate && (err.None? || err.value.FileExists?)
      then [SetAnnotations(Self, name, Some(Bump(c.annotations, Format(now))), Some(now))] else []
    }

    /** A certificate was read at the given position: it is recorded and written, or one of these was refused. */
    ghost predicate Delivered(a: Log, b: Log, name: string, now: Instant, before: map<string, Pem>,
                              err: Option<Failure>, readAt: nat, c: Csr)
      requires InCalendar(now)
      reads this`override
    {
      WasRead(b, readAt, name, c) && c.certificate.Some? && Mine(b) == Mine(a) + Annotated(name, c, err, now)
      && match err
         case None => override || certificatePath !in before
         case Some(FileExists) => !override && certificatePath in before
         case Some(e) =>
           annotate && !Current(b, name, c.version)
           && e == Api(if name in Replay(b).objects then Conflict else NotFound)
    }

    /**
     How a wait ends: all polls but the last saw neither certificate nor denial, and the last one decides.
     A certificate is delivered, also if the object is denied by now; only a denial without certificate is refused.
     */
    ghost predicate Waits(a: Log, b: Log, name: string, schedule: seq<bool>, now: Instant,
                          before: map<string, Pem>, after: map<string, Pem>, err: Option<Failure>, polls: seq<Poll>)
      requires InCalendar(now)
      reads this`override
    {
      a <= b && (Clean(a) ==> Clean(b))
      && Polled(a, b, name, schedule, polls) && polls != []
      && (forall i :: 0 <= i < |polls| - 1 ==>
            polls[i].Seen? && polls[i].c.certificate.None? && !polls[i].c.HasCondition(Denied))
      && (match polls[|polls| - 1]
          case Seen(at, c) =>
            if c.certificate.Some? then |a| <= at && Delivered(a, b, name, now, before, err, at, c)
            else c.HasCondition(Denied) && err == Some(Refused) && Mine(b) == Mine(a)
          case Signal => err == Some(Interrupted) && Mine(b) == Mine(a)
          case Timer => err == Some(TimedOut) && Mine(b) == Mine(a)
          case Absent(_) => err == Some(Api(NotFound)) && Mine(b) == Mine(a))
      && after == match err
                  case None => before[certificatePath := LastCertificate(polls)]
                  case Some(_) => before
    }

    /** The loop that looks for a denial. */
    static method IsDenied(c: Csr) returns (denied: bool)
      ensures denied == c.HasCondition(Denied)
    {
      for i := 0 to |c.conditions|
        invariant forall j :: 0 <= j < i ==> c.conditions[j].kind != Denied
      {
        if c.conditions[i].kind == Denied {
          return true;
        }
      }
      denied := false;
    }

    /** Polls until a certificate, a denial, an error, a signal or the timer, whichever the schedule brings first. */
    method Fetch(name: string, schedule: seq<bool>, now: Instant) returns (err: Option<Failure>, ghost polls: seq<Poll>)
      requires api.Valid() && InCalendar(now)
      modifies api, files
      ensures api.Valid()
      ensures Waits(old(api.log), api.log, name, schedule, now, old(files.content), files.content, err, polls)
      ensures Reports(Outcome(polls), err)
    {
      hide Clean, Replay, Mine, Polled, Bump, Format;
      polls := [];
      NothingPolled(api.log, name, schedule);
      for turn := 0 to |schedule|
        invariant api.Valid() && Quiet(old(api.log), api.log) && Mine(api.log) == Mine(old(api.log))
        invariant Clean(old(api.log)) ==> Clean(api.log)
        invariant files.content == old(files.content)
        invariant |polls| == turn && Polled(old(api.log), api.log, name, schedule, polls)
        invariant forall i :: 0 <= i < |polls| ==>
                    polls[i].Seen? && polls[i].c.certificate.None? && !polls[i].c.HasCondition(Denied)
      {
        ghost var log, before := api.log, polls;
        if !schedule[turn] {
          polls := polls + [Signal];
          PolledNext(old(api.log), log, log, name, schedule, before, Signal);
          OutcomeIsFirst(polls, |polls| - 1);
          return Some(Interrupted), polls;
        }
        var r := api.Get(name);
        QuietTogether(old(api.log), log, api.log);
        ghost var readAt := |api.log|;
        assert api.log[..readAt] == api.log;
        polls := polls + [if r.Err? then Absent(readAt) else Seen(readAt, r.value)];
        PolledNext(old(api.log), log, api.log, name, schedule, before, polls[turn]);
        if r.Err? {
          OutcomeIsFirst(polls, |polls| - 1);
          return Some(Api(r.error)), polls;
        }
        var c := r.value;
        if c.certificate.Some? {
          OutcomeIsFirst(polls, |polls| - 1);
          log := api.log;
          err := Deliver(name, c, now, readAt);
          PolledStill(old(api.log), log, api.log, name, schedule, polls);
          return;
        }
        var denied := IsDenied(c);
        if denied {
          OutcomeIsFirst(polls, |polls| - 1);
          return Some(Refused), polls;
        }
      }
      PolledNext(old(api.log), api.log, api.log, name, schedule, polls, Timer);
      polls := polls + [Timer];
      OutcomeIsFirst(polls, |polls| - 1);
      err := Some(TimedOut);
    }
  }

  lemma NothingPolled(log: Log, name: string, schedule: seq<bool>)
    ensures Polled(log, log, name, schedule, [])
  {
  }
}
