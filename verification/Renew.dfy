/** The renewal daemon of pkg/renew/renew.go: one goroutine over signals, a one-slot token channel and a ticker. */
module Renew {
  import opened Base
  import opened Objects
  import opened Cluster
  import Disk
  import Generate
  import Operation

  /** newName makes every renewal use an object name of its own. */
  datatype Config = Config(threshold: Duration, hasCommand: bool, exitOnRenew: bool, newName: bool, basename: string)

  /** A certificate file written while an operation ran. */
  datatype Write = Write(at: Instant, certificate: Pem)

  /**
   What Operation.Run did: whether it returned nil, and the certificate it wrote, which it may have done even when it
   failed.
   */
  datatype Run = Run(ok: bool, write: Option<Write>)

  /** A turn of the loop: the case that select takes, with everything it meets. */
  datatype Event =
    | Signal
    | Token(commandOk: bool)
    | Tick(now: Instant, uuid: string, run: Run)

  /**
   What a turn is given: besides the case of select, the clock, the uuid and what the operation needs.
   writtenAt is the time at which the operation writes the certificate, if it does.
   */
  datatype Input =
    | Interrupt
    | Receive(commandOk: bool)
    | Check(now: Instant, uuid: string, writtenAt: Instant, given: Operation.Inputs)
  {
    /** The event is this input with what the operation did. */
    ghost predicate Gives(e: Event) {
      match this
      case Interrupt => e == Signal
      case Receive(commandOk) => e == Token(commandOk)
      case Check(now, uuid, writtenAt, _) =>
        e.Tick? && e.now == now && e.uuid == uuid && (e.run.write.Some? ==> e.run.write.value.at == writtenAt)
    }
  }

  datatype Status = Running | Stopped | Failed | Blocked

  /** drained counts tokens received, failures failed ticks, writes is the history of the certificate file. */
  datatype State = State(
    status: Status,
    name: string,
    queued: bool,
    drained: nat,
    commands: nat,
    renewals: nat,
    failures: nat,
    file: Option<Pem>,
    writes: seq<Write>)

  /** Time.Sub, which saturates at the bounds of a duration. */
  function Sub(a: Instant, b: Instant): Duration {
    if a - b > MAX64 then MAX64 else if a - b < MIN64 then MIN64 else a - b
  }

  /** shouldRenew on a parsed certificate: time left minus threshold, in wrap-around arithmetic, is not positive. */
  predicate Due(notAfter: Instant, now: Instant, threshold: Duration) {
    !(Wrap64(Sub(notAfter, now) as int - threshold as int) > 0)
  }

  /** The expiry that shouldRenew reads from the file: the first PEM block must be a certificate. */
  function Expiry(file: Option<Pem>): Option<Instant> {
    match file
    case None => None
    case Some(p) =>
      match p.Block()
      case Some(Certificate(_, notAfter)) => Some(notAfter)
      case _ => None
  }

  /** The first block of the file decides, whatever follows it. */
  lemma ExpiryOfFirstBlock(request: Pem, notAfter: Instant, p: Pem, id: nat)
    ensures Expiry(Some(Certificate(request, notAfter))) == Some(notAfter)
    ensures Expiry(Some(WithRest(p))) == Expiry(Some(p))
    ensures Expiry(None) == Expiry(Some(NotPem(id))) == Expiry(Some(PrivateKey(id))) == None
  {
  }

  /** uuid.NewUUID()[:13] */
  function ShortId(uuid: string): string {
    if |uuid| <= 13 then uuid else uuid[..13]
  }

  datatype Renewal = Renewal(state: State, renewed: bool, failed: bool)

  /** processRenew as a function of the state. */
  function Process(conf: Config, s: State, e: Event): Renewal
    requires e.Tick?
  {
    var expiry := Expiry(s.file);
    if expiry.None? then Renewal(s, false, true)
    else if !Due(expiry.value, e.now, conf.threshold) then Renewal(s, false, false)
    else
      var named := if conf.newName then s.(name := conf.basename + "-" + ShortId(e.uuid)) else s;
      var ran := match e.run.write
                 case None => named
                 case Some(w) => named.(file := Some(w.certificate), writes := named.writes + [w]);
      if e.run.ok then Renewal(ran.(renewals := ran.renewals + 1), true, false) else Renewal(ran, false, true)
  }

  /** One turn of the loop. A turn that select cannot take, because no token is there, does not happen. */
  function Step(conf: Config, s: State, e: Event): State {
    if s.status != Running then s
    else
      match e
      case Signal => s.(status := Stopped)
      case Token(commandOk) =>
        if !s.queued then s
        else
          var received :=
            s.(queued := false, drained := s.drained + 1, commands := s.commands + if conf.hasCommand then 1 else 0);
          if conf.hasCommand && !commandOk then received.(status := Failed)
          else if conf.exitOnRenew then received.(status := Stopped)
          else received
      case Tick(_, _, _) =>
        var r := Process(conf, s, e);
        if r.failed then r.state.(failures := r.state.failures + 1)
        else if !r.renewed then r.state
        else if r.state.queued then r.state.(status := Blocked)
        else r.state.(queued := true)
  }

  /** The first check, before the loop: a failure ends the daemon at once and counts nothing. */
  function Start(conf: Config, s: State, e: Event): State
    requires e.Tick?
  {
    var r := Process(conf, s, e);
    if r.failed then r.state.(status := Failed) else r.state.(queued := r.renewed)
  }

  function Initial(conf: Config, first: Write): State {
    State(Running, conf.basename, false, 0, 0, 0, 0, Some(first.certificate), [first])
  }

  function After(conf: Config, s: State, events: seq<Event>): State {
    if events == [] then s else Step(conf, After(conf, s, events[..|events| - 1]), events[|events| - 1])
  }

  /**
   A run of the operation: what it was given, how it ended and what it reports, the key that the certificate on disk was
   issued for, the server's log before and after, and the name of the object.
   */
  datatype Attempt = Attempt(given: Operation.Inputs, err: Option<Disk.Failure>, report: Operation.Report,
                             certified: Option<nat>, start: Log, log: Log, name: string)

  /** What the runs were given, and whether they succeeded. */
  ghost function Outcomes(runs: seq<Attempt>): seq<(Operation.Inputs, bool)> {
    if runs == [] then []
    else Outcomes(runs[..|runs| - 1]) + [(runs[|runs| - 1].given, runs[|runs| - 1].err.None?)]
  }

  /** All requests that the runs had accepted. */
  ghost function AllEffects(runs: seq<Attempt>): Log {
    if runs == [] then [] else AllEffects(runs[..|runs| - 1]) + runs[|runs| - 1].report.Effects()
  }

  /** The daemon made these runs and no others, and its only requests to the server are theirs. */
  ghost predicate Accounts(before: seq<Attempt>, after: seq<Attempt>, a: Log, b: Log,
                           runs: seq<(Operation.Inputs, bool)>) {
    before <= after && a <= b && (Clean(a) ==> Clean(b))
    && Outcomes(after[|before|..]) == runs && Mine(b) == Mine(a) + AllEffects(after[|before|..])
  }

  lemma {:induction false} RunsTogether(first: seq<Attempt>, second: seq<Attempt>)
    ensures Outcomes(first + second) == Outcomes(first) + Outcomes(second)
    ensures AllEffects(first + second) == AllEffects(first) + AllEffects(second)
  {
    if second == [] {
      assert first + second == first;
    } else {
      var rest := second[..|second| - 1];
      assert (first + second)[..|first + second| - 1] == first + rest;
      RunsTogether(first, rest);
    }
  }

  lemma AccountsTogether(x: seq<Attempt>, y: seq<Attempt>, z: seq<Attempt>, a: Log, b: Log, c: Log,
                         first: seq<(Operation.Inputs, bool)>, second: seq<(Operation.Inputs, bool)>)
    requires Accounts(x, y, a, b, first) && Accounts(y, z, b, c, second)
    ensures Accounts(x, z, a, c, first + second)
  {
    hide Clean, Mine, Outcomes, AllEffects;
    assert z[|x|..] == y[|x|..] + z[|y|..];
    RunsTogether(y[|x|..], z[|y|..]);
    var e, f := AllEffects(y[|x|..]), AllEffects(z[|y|..]);
    assert Mine(a) + e + f == Mine(a) + (e + f);
  }

  lemma NoRuns(x: seq<Attempt>, a: Log)
    ensures Accounts(x, x, a, a, [])
  {
    assert x[|x|..] == [];
  }

  lemma OneRun(x: seq<Attempt>, run: Attempt, a: Log, b: Log)
    requires a <= b && (Clean(a) ==> Clean(b)) && Mine(b) == Mine(a) + run.report.Effects()
    ensures Accounts(x, x + [run], a, b, [(run.given, run.err.None?)])
  {
    hide Clean, Mine;
    assert (x + [run])[|x|..] == [run] && [run][..0] == [];
    assert Outcomes([]) == [] && AllEffects([]) == [];
  }

  /** The daemon's own fields, and the operation that it runs. */
  class Renewer {
    const conf: Config
    const operation: Operation.Operation
    var queued: bool
    var renewals: nat
    var failures: nat
    ghost var drained: nat
    ghost var commands: nat
    ghost var writes: seq<Write>
    ghost var attempts: seq<Attempt>
    /** Whether the key and the certificate on disk were a pair when the daemon started. */
    ghost const paired: bool

    /** NewRenewer, after it has seen that the files are there: from now on the operation overrides what exists. */
    constructor (conf: Config, operation: Operation.Operation, first: Write)
      requires operation.Valid() && operation.fetcher != null && conf.basename == operation.conf.name
      requires operation.fetcher.certificatePath in operation.files.content
      requires operation.files.content[operation.fetcher.certificatePath] == first.certificate
      modifies operation.conf`override, operation.fetcher`override
      ensures Valid() && this.conf == conf && this.operation == operation
      ensures View(Running) == Initial(conf, first) && operation.conf.override && operation.fetcher.override
      ensures attempts == [] && Matched() && paired == operation.Paired(operation.files.content)
    {
      this.conf, this.operation, queued, renewals, failures := conf, operation, false, 0, 0;
      drained, commands, writes, attempts, paired := 0, 0, [first], [], operation.Paired(operation.files.content);
      new;
      operation.conf.override := true;
      operation.fetcher.override := true;
    }

    ghost predicate Valid()
      reads operation.api
    {
      operation.Valid() && operation.fetcher != null
    }

    ghost function Footprint(): set<object> {
      {operation, operation.conf, operation.api, operation.files} + operation.Footprint()
    }

    /** The certificate file. */
    function File(): Option<Pem>
      requires operation.fetcher != null
      reads operation.files
    {
      var path := operation.fetcher.certificatePath;
      if path in operation.files.content then Some(operation.files.content[path]) else None
    }

    ghost function View(status: Status): State
      requires operation.fetcher != null
      reads this, operation.conf, operation.files
    {
      State(status, operation.conf.name, queued, drained, commands, renewals, failures, File(), writes)
    }

    /** Nobody disputed what the run fetched, and its new key is not the one already certified. */
    ghost predicate Fair(a: Attempt) {
      (Operation.FetchStep in a.report.done ==> operation.Undisputed(a.start, a.log, a.name, a.report))
      && (a.certified.Some? ==> a.given.newKey != a.certified)
    }

    /** Since the last completed fetch, some run has generated a new key. */
    ghost predicate Split(runs: seq<Attempt>) {
      if runs == [] then false
      else
        var last := runs[|runs| - 1].report;
        Operation.FetchStep !in last.done && (operation.Rekeys(last) || Split(runs[..|runs| - 1]))
    }

    /** The daemon began with a pair, generates and submits, uses different files, and all its runs were fair. */
    ghost predicate Sane(runs: seq<Attempt>) {
      paired && operation.fetcher != null && operation.generator != null && operation.submitter != null
      && operation.Distinct() && forall a :: a in runs ==> Fair(a)
    }

    /** Then key and certificate on disk are a pair iff no new key was generated since the last completed fetch. */
    ghost predicate Matched()
      requires operation.fetcher != null
      reads this`attempts, operation.files
    {
      Sane(attempts) ==>
        Generate.CertifiedKey(operation.files.content, operation.fetcher.certificatePath).Some?
        && (operation.Paired(operation.files.content) <==> !Split(attempts))
    }

    lemma MatchedNext(before: map<string, Pem>, after: map<string, Pem>, runs: seq<Attempt>, a: Attempt)
      requires operation.fetcher != null && (operation.generator != null ==> operation.generator.conf == operation.conf)
      requires operation.DiskAfter(before, after, a.given.newKey, a.report)
      requires Operation.FetchStep in a.report.done ==>
        operation.EndsWithOwnPair(a.start, a.log, after, a.name, a.report)
      requires a.certified == Generate.CertifiedKey(before, operation.fetcher.certificatePath)
      requires Sane(runs) ==>
        a.certified.Some? && (operation.Paired(before) <==> !Split(runs))
      ensures Sane(runs + [a]) ==>
        Generate.CertifiedKey(after, operation.fetcher.certificatePath).Some?
        && (operation.Paired(after) <==> !Split(runs + [a]))
    {
      hide Operation.Operation.DiskAfter, Operation.Operation.EndsWithOwnPair, Operation.Operation.Undisputed;
      if Sane(runs + [a]) {
        assert a in runs + [a] && (runs + [a])[..|runs|] == runs;
        assert Sane(runs) by {
          assert forall x :: x in runs ==> x in runs + [a];
        }
        operation.PairAfter(a.start, a.log, before, after, a.given.newKey, a.name, a.report);
      }
    }

    method ShouldRenew(now: Instant) returns (r: Result<bool, ()>)
      requires operation.fetcher != null
      ensures r == match Expiry(File())
                   case None => Err(())
                   case Some(notAfter) => Ok(Due(notAfter, now, conf.threshold))
    {
      var file := File();
      if file.None? {
        return Err(());
      }
      match file.value.Block() {
        case Some(Certificate(_, notAfter)) =>
          var timeLeft := Sub(notAfter, now);
          var timeLeftThreshold := Wrap64(timeLeft as int - conf.threshold as int);
          if timeLeftThreshold > 0 {
            return Ok(false);
          }
          return Ok(true);
        case _ =>
          return Err(());
      }
    }

    /** The attempt is a run that has just ended, begun with the given log and files. */
    ghost predicate JustEnded(a: Attempt, given: Operation.Inputs, start: Log, content: map<string, Pem>)
      requires operation.fetcher != null
      reads operation.api, operation.conf, operation.files, operation.fetcher
      reads if operation.generator == null then {} else {operation.generator.conf}
    {
      a.given == given && a.start == start && a.log == operation.api.log && a.name == operation.conf.name
      && a.certified == Generate.CertifiedKey(content, operation.fetcher.certificatePath)
      && operation.Ends(start, a.log, a.name, content, operation.files.content, given, a.err, a.report)
    }

    /** The operation runs, and the attempt is recorded. */
    method RunOperation(given: Operation.Inputs) returns (err: Option<Disk.Failure>)
      requires Valid()
      modifies this`attempts, Footprint()
      ensures Valid() && operation.conf.name == old(operation.conf.name)
      ensures old(operation.conf.hosts) <= operation.conf.hosts
      ensures |attempts| == |old(attempts)| + 1 && attempts[|old(attempts)|].err == err
      ensures JustEnded(attempts[|old(attempts)|], given, old(operation.api.log), old(operation.files.content))
      ensures Accounts(old(attempts), attempts, old(operation.api.log), operation.api.log, [(given, err.None?)])
      ensures old(File()).Some? || err.None? ==> File().Some?
      ensures old(Matched()) ==> Matched()
    {
      hide Clean, Replay, Mine, Operation.ApprovesTimes, Sane, Split, Accounts, Operation.CarriedOut;
      hide Operation.Operation.EndsWithOwnPair, Operation.Operation.Configured, Operation.Operation.DiskAfter;
      hide Operation.Operation.Exchanges;
      ghost var content, log, runs, report := operation.files.content, operation.api.log, attempts, *;
      err, report := operation.Run(given);
      ghost var a := Attempt(given, err, report, Generate.CertifiedKey(content, operation.fetcher.certificatePath), log,
                             operation.api.log, operation.conf.name);
      attempts := runs + [a];
      OneRun(runs, a, log, operation.api.log);
      if old(Matched()) {
        MatchedNext(content, operation.files.content, runs, a);
      }
    }

    /** The certificate on disk can be read and is due. */
    ghost predicate DueNow(now: Instant)
      requires operation.fetcher != null
      reads operation.files
    {
      Expiry(File()).Some? && Due(Expiry(File()).value, now, conf.threshold)
    }

    /**
     A check: nothing happens unless a certificate can be read and is due; then the operation runs, once.
     */
    method ProcessRenew(now: Instant, uuid: string, writtenAt: Instant, given: Operation.Inputs)
      returns (r: Result<bool, ()>, ghost e: Event)
      requires Valid()
      modifies this, Footprint()
      ensures Valid() && queued == old(queued) && Check(now, uuid, writtenAt, given).Gives(e)
      ensures var p := Process(conf, old(View(Running)), e);
              View(Running) == p.state && (r.Err? <==> p.failed) && (r.Ok? ==> r.value == p.renewed)
      ensures Accounts(old(attempts), attempts, old(operation.api.log), operation.api.log,
                       if old(DueNow(now)) then [(given, e.run.ok)] else [])
      ensures if old(DueNow(now))
              then |attempts| == |old(attempts)| + 1 && (r.Ok? <==> attempts[|old(attempts)|].err.None?)
                   && JustEnded(attempts[|old(attempts)|], given, old(operation.api.log), old(operation.files.content))
              else operation.api.log == old(operation.api.log) && View(Running) == old(View(Running))
                   && operation.files.content == old(operation.files.content)
                   && r == if Expiry(old(File())).None? then Err(()) else Ok(false)
      ensures old(Matched()) ==> Matched()
    {
      hide Clean, Due, Expiry, ShortId, Matched, JustEnded, Accounts;
      e := Tick(now, uuid, Run(false, None));
      NoRuns(attempts, operation.api.log);
      var need := ShouldRenew(now);
      if need.Err? {
        r := Err(());
      } else if !need.value {
        r := Ok(false);
      } else {
        r, e := RenewNow(now, uuid, writtenAt, given);
      }
    }

    /** What a check does when the certificate is due. */
    method RenewNow(now: Instant, uuid: string, writtenAt: Instant, given: Operation.Inputs)
      returns (r: Result<bool, ()>, ghost e: Event)
      requires Valid() && DueNow(now)
      modifies this`attempts, this`writes, this`renewals, Footprint()
      ensures Valid() && Check(now, uuid, writtenAt, given).Gives(e)
      ensures var p := Process(conf, old(View(Running)), e);
              View(Running) == p.state && (r.Err? <==> p.failed) && (r.Ok? ==> r.value == p.renewed)
      ensures operation.conf.name ==
        if conf.newName then conf.basename + "-" + ShortId(uuid) else old(operation.conf.name)
      ensures Accounts(old(attempts), attempts, old(operation.api.log), operation.api.log, [(given, e.run.ok)])
      ensures |attempts| == |old(attempts)| + 1 && (r.Ok? <==> attempts[|old(attempts)|].err.None?)
      ensures JustEnded(attempts[|old(attempts)|], given, old(operation.api.log), old(operation.files.content))
      ensures old(Matched()) ==> Matched()
    {
      hide Clean, Due, Expiry, ShortId, Matched, JustEnded, Accounts, Process;
      if conf.newName {
        operation.conf.name := conf.basename + "-" + ShortId(uuid);
      }
      ghost var before := File();
      var err;
      err := RunOperation(given);
      ghost var written := err.None? || File() != before;
      e := Tick(now, uuid, Run(err.None?, if written then Some(Write(writtenAt, File().value)) else None));
      if written {
        writes := writes + [Write(writtenAt, File().value)];
      }
      if err.None? {
        renewals := renewals + 1;
      }
      r := if err.None? then Ok(true) else Err(());
      ProcessDue(conf, old(View(Running)), e);
    }

    /** What the loop does in the case that select took. */
    method Turn(input: Input) returns (status: Status, ghost e: Event)
      requires Valid()
      modifies this, Footprint()
      ensures Valid() && input.Gives(e)
      ensures View(status) == Step(conf, old(View(Running)), e)
      ensures Accounts(old(attempts), attempts, old(operation.api.log), operation.api.log,
                       Attempted(conf, old(View(Running)), input, e))
      ensures if input.Check? && old(DueNow(input.now))
              then |attempts| == |old(attempts)| + 1
                   && JustEnded(attempts[|old(attempts)|], input.given, old(operation.api.log),
                                old(operation.files.content))
              else operation.api.log == old(operation.api.log)
                   && operation.files.content == old(operation.files.content)
      ensures old(Matched()) ==> Matched()
    {
      hide Due, Expiry, Clean, Matched, JustEnded, Accounts;
      NoRuns(attempts, operation.api.log);
      match input {
        case Interrupt =>
          e := Signal;
          status := Stopped;
        case Receive(commandOk) =>
          e := Token(commandOk);
          if !queued {
            status := Running;
            return;
          }
          queued := false;
          drained := drained + 1;
          if conf.hasCommand {
            commands := commands + 1;
            if !commandOk {
              status := Failed;
              return;
            }
          }
          status := if conf.exitOnRenew then Stopped else Running;
        case Check(now, uuid, writtenAt, given) =>
          var renewed;
          renewed, e := ProcessRenew(now, uuid, writtenAt, given);
          status := Running;
          if renewed.Err? {
            failures := failures + 1;
            return;
          }
          if renewed.value {
            if queued {
              status := Blocked;
              return;
            }
            queued := true;
          }
      }
    }

    /**
     The first check and then the loop, over any finite number of turns; the status tells how it stands after them.
     If the first check cannot read a certificate, or has to renew it and fails, that is the end.
     */
    method Renew(first: Input, inputs: seq<Input>)
      returns (status: Status, ghost e: Event, ghost events: seq<Event>, ghost begun: State)
      requires Valid() && first.Check? && !queued
      modifies this, Footprint()
      ensures Valid() && first.Gives(e) && Answer(inputs, events)
      ensures begun == Start(conf, old(View(Running)), e) && Begins(conf, old(View(Running)), e, begun)
      ensures View(status) == After(conf, begun, events) && (begun.status != Running ==> View(status) == begun)
      ensures Expiry(old(File())).None? ==>
        operation.api.log == old(operation.api.log) && operation.files.content == old(operation.files.content)
      ensures Accounts(old(attempts), attempts, old(operation.api.log), operation.api.log,
                       (if old(DueNow(first.now)) then [(first.given, e.run.ok)] else [])
                       + Ran(conf, begun, inputs, events))
      ensures begun.status != Running ==> Ran(conf, begun, inputs, events) == []
      ensures old(Matched()) ==> Matched()
    {
      hide Accounts, Clean, Matched, JustEnded, After, Ran, Due, Expiry, Begins;
      var renewed;
      renewed, e := ProcessRenew(first.now, first.uuid, first.writtenAt, first.given);
      StartBegins(conf, old(View(Running)), e);
      ghost var runs, log := attempts, operation.api.log;
      ghost var one := if old(DueNow(first.now)) then [(first.given, e.run.ok)] else [];
      if renewed.Err? {
        status := Failed;
        begun := View(Failed);
        events := seq(|inputs|, i requires 0 <= i < |inputs| => Idle(inputs[i]));
        AfterEnd(conf, begun, events);
        NoneRan(conf, begun, inputs, events);
        assert one + [] == one;
        return;
      }
      queued := renewed.value;
      begun := View(Running);
      status, events := Loop(inputs);
      AccountsTogether(old(attempts), runs, attempts, old(operation.api.log), log, operation.api.log, one,
                       Ran(conf, begun, inputs, events));
    }

    /** The loop. */
    method Loop(inputs: seq<Input>) returns (status: Status, ghost events: seq<Event>)
      requires Valid()
      modifies this, Footprint()
      ensures Valid() && Answer(inputs, events) && View(status) == After(conf, old(View(Running)), events)
      ensures Accounts(old(attempts), attempts, old(operation.api.log), operation.api.log,
                       Ran(conf, old(View(Running)), inputs, events))
      ensures old(Matched()) ==> Matched()
    {
      hide Step, Process, Clean, Matched, Accounts, JustEnded;
      ghost var start := View(Running);
      events := seq(|inputs|, i requires 0 <= i < |inputs| => Idle(inputs[i]));
      status := Running;
      NoRuns(attempts, operation.api.log);
      for i := 0 to |inputs|
        invariant Valid() && Answer(inputs, events) && (old(Matched()) ==> Matched())
        invariant status == Running && View(status) == After(conf, start, events[..i])
        invariant Accounts(old(attempts), attempts, old(operation.api.log), operation.api.log,
                           Ran(conf, start, inputs[..i], events[..i]))
      {
        ghost var event;
        ghost var before, state, runs, log := events, View(Running), attempts, operation.api.log;
        status, event := Turn(inputs[i]);
        events := before[i := event];
        assert events[..i] == before[..i] && events[..i + 1][..i] == events[..i];
        RanNext(conf, start, inputs, events, i);
        AccountsTogether(old(attempts), runs, attempts, old(operation.api.log), log, operation.api.log,
                         Ran(conf, start, inputs[..i], events[..i]), Attempted(conf, state, inputs[i], event));
        if status != Running {
          AfterEarly(conf, start, events, i);
          RanEarly(conf, start, inputs, events, i);
          return;
        }
      }
      assert events[..|events|] == events && inputs[..|inputs|] == inputs;
    }
  }

  /** What a turn runs: the operation, if the running daemon checks a certificate that is due. */
  ghost function Attempted(conf: Config, s: State, input: Input, e: Event): seq<(Operation.Inputs, bool)> {
    if s.status == Running && input.Check? && IsDue(conf, s, e) then [(input.given, e.run.ok)] else []
  }

  /** What the daemon runs over a sequence of turns. */
  ghost function Ran(conf: Config, s: State, inputs: seq<Input>, events: seq<Event>): seq<(Operation.Inputs, bool)> {
    var n := |inputs| - 1;
    if inputs == [] || |events| != |inputs| then []
    else Ran(conf, s, inputs[..n], events[..n]) + Attempted(conf, After(conf, s, events[..n]), inputs[n], events[n])
  }

  lemma RanNext(conf: Config, s: State, inputs: seq<Input>, events: seq<Event>, i: nat)
    requires i < |inputs| == |events|
    ensures Ran(conf, s, inputs[..i + 1], events[..i + 1]) ==
            Ran(conf, s, inputs[..i], events[..i]) + Attempted(conf, After(conf, s, events[..i]), inputs[i], events[i])
  {
    assert inputs[..i + 1][..i] == inputs[..i] && events[..i + 1][..i] == events[..i];
  }

  lemma {:induction false} NoneRan(conf: Config, s: State, inputs: seq<Input>, events: seq<Event>)
    requires s.status != Running && |inputs| == |events|
    ensures Ran(conf, s, inputs, events) == []
  {
    if inputs == [] {
    } else {
      var n := |inputs| - 1;
      AfterEnd(conf, s, events[..n]);
      NoneRan(conf, s, inputs[..n], events[..n]);
    }
  }

  lemma NothingAttempted(conf: Config, s: State, input: Input, e: Event)
    requires s.status != Running
    ensures Attempted(conf, s, input, e) == []
  {
  }

  /** After its end the daemon runs nothing. */
  lemma {:induction false} RanEarly(conf: Config, s: State, inputs: seq<Input>, events: seq<Event>, i: nat)
    requires i < |events| == |inputs| && Step(conf, After(conf, s, events[..i]), events[i]).status != Running
    ensures Ran(conf, s, inputs, events) == Ran(conf, s, inputs[..i + 1], events[..i + 1])
    decreases |events|
  {
    hide Step, Attempted;
    var n := |events| - 1;
    if i == n {
      assert inputs[..i + 1] == inputs && events[..i + 1] == events;
    } else {
      assert events[..n][..i] == events[..i] && events[..n][..i + 1] == events[..i + 1];
      assert inputs[..n][..i + 1] == inputs[..i + 1];
      RanEarly(conf, s, inputs[..n], events[..n], i);
      AfterEarly(conf, s, events[..n], i);
      NothingAttempted(conf, After(conf, s, events[..n]), inputs[n], events[n]);
    }
  }

  /** The check finds a certificate that is due. */
  predicate IsDue(conf: Config, s: State, e: Event) {
    e.Tick? && Expiry(s.file).Some? && Due(Expiry(s.file).value, e.now, conf.threshold)
  }

  /** The check renews. */
  predicate Renews(conf: Config, s: State, e: Event) {
    IsDue(conf, s, e) && e.run.ok
  }

  /** The check fails: there is no certificate to read, or it is due and the operation fails. */
  predicate Fails(conf: Config, s: State, e: Event) {
    e.Tick? && (Expiry(s.file).None? || (IsDue(conf, s, e) && !e.run.ok))
  }

  /**
   How the daemon begins: without a certificate to read it ends at once, with nothing changed but its status. So it does
   when the certificate is due and the operation fails, with no token and nothing counted. After a renewal it goes on
   with a token queued, and otherwise as it was.
   */
  ghost predicate Begins(conf: Config, s: State, e: Event, first: State) {
    if Expiry(s.file).None? then first == s.(status := Failed)
    else if !IsDue(conf, s, e) then first == s
    else
      first.status == (if e.run.ok then Running else Failed) && first.queued == e.run.ok
      && first.renewals == s.renewals + (if e.run.ok then 1 else 0)
      && first.failures == s.failures && first.drained == s.drained && first.commands == s.commands
  }

  lemma StartBegins(conf: Config, s: State, e: Event)
    requires e.Tick? && s.status == Running && !s.queued
    ensures Begins(conf, s, e, Start(conf, s, e))
  {
    StartExactly(conf, s, e);
    hide Start, Due, Expiry;
  }

  /** The first check: it fails at once, or leaves a token if it renewed, or leaves everything as it was. */
  lemma StartExactly(conf: Config, s: State, e: Event)
    requires e.Tick? && s.status == Running && !s.queued
    ensures var start := Start(conf, s, e);
            (start.status == Failed <==> Fails(conf, s, e)) && (start.status == Running <==> !Fails(conf, s, e))
            && (start.queued <==> Renews(conf, s, e))
            && start.renewals == s.renewals + (if Renews(conf, s, e) then 1 else 0)
            && start.failures == s.failures && start.drained == s.drained && start.commands == s.commands
            && (Expiry(s.file).None? ==> start == s.(status := Failed))
            && (Expiry(s.file).Some? && !IsDue(conf, s, e) ==> start == s)
  {
  }

  /** A due check, field by field. */
  lemma ProcessDue(conf: Config, s: State, e: Event)
    requires e.Tick? && Expiry(s.file).Some? && Due(Expiry(s.file).value, e.now, conf.threshold)
    ensures var p, run := Process(conf, s, e), e.run;
            p.renewed == run.ok && p.failed == !run.ok
            && p.state == State(s.status, if conf.newName then conf.basename + "-" + ShortId(e.uuid) else s.name,
                                s.queued, s.drained, s.commands,
                                if run.ok then s.renewals + 1 else s.renewals, s.failures,
                                if run.write.Some? then Some(run.write.value.certificate) else s.file,
                                if run.write.Some? then s.writes + [run.write.value] else s.writes)
  {
  }

  /** Every event is its input with what the operation did. */
  ghost predicate Answer(inputs: seq<Input>, events: seq<Event>) {
    |events| == |inputs| && forall i :: 0 <= i < |inputs| ==> inputs[i].Gives(events[i])
  }

  /** The event of an input that the daemon does not live to see. */
  function Idle(input: Input): (e: Event)
    ensures input.Gives(e)
  {
    match input
    case Interrupt => Signal
    case Receive(commandOk) => Token(commandOk)
    case Check(now, uuid, _, _) => Tick(now, uuid, Run(false, None))
  }

  lemma {:induction false} AfterEnd(conf: Config, s: State, events: seq<Event>)
    requires s.status != Running
    ensures After(conf, s, events) == s
  {
    if events == [] {
    } else {
      AfterEnd(conf, s, events[..|events| - 1]);
    }
  }

  /** Once the daemon is no longer running, nothing changes any more. */
  lemma {:induction false} AfterEarly(conf: Config, s: State, events: seq<Event>, i: nat)
    requires i < |events| && Step(conf, After(conf, s, events[..i]), events[i]).status != Running
    ensures After(conf, s, events) == Step(conf, After(conf, s, events[..i]), events[i])
    decreases |events|
  {
    if i == |events| - 1 {
    } else {
      assert events[..|events| - 1][..i] == events[..i];
      AfterEarly(conf, s, events[..|events| - 1], i);
    }
  }

  // ---- What the arithmetic of shouldRenew decides ----

  /** Due means time left at most the threshold, exactly when neither the subtraction nor its result leaves 64 bits. */
  lemma DueExactly(notAfter: Instant, now: Instant, threshold: Duration)
    ensures (Due(notAfter, now, threshold) <==> notAfter - now <= threshold) <==>
            MIN64 <= Sub(notAfter, now) as int - threshold as int <= MAX64
            && !(threshold == MAX64 && notAfter - now > MAX64)
  {
  }

  /** While more time is left than the threshold, a check does nothing: no operation runs and nothing is counted. */
  lemma NeverEarly(conf: Config, s: State, e: Event)
    requires s.status == Running && e.Tick? && 0 <= conf.threshold < MAX64
    requires Expiry(s.file).Some? && Expiry(s.file).value - e.now > conf.threshold
    ensures Step(conf, s, e) == s
  {
    hide Expiry;
    assert !Due(Expiry(s.file).value, e.now, conf.threshold);
  }

  // ---- Conservation of renewals, tokens and commands ----

  /** How many turns were ticks that failed while the daemon was running. */
  function FailedTicks(conf: Config, s: State, events: seq<Event>): nat {
    if events == [] then 0
    else
      var before, e := After(conf, s, events[..|events| - 1]), events[|events| - 1];
      FailedTicks(conf, s, events[..|events| - 1])
      + if before.status == Running && Fails(conf, before, e) then 1 else 0
  }

  /** How many were ticks that renewed. */
  function RenewedTicks(conf: Config, s: State, events: seq<Event>): nat {
    if events == [] then 0
    else
      var before, e := After(conf, s, events[..|events| - 1]), events[|events| - 1];
      RenewedTicks(conf, s, events[..|events| - 1])
      + if before.status == Running && Renews(conf, before, e) then 1 else 0
  }

  /**
   At every moment each successful renewal is a token that was drained, is queued, or is the one that blocks;
   the command ran once per drained token; failures are the failed ticks, and none of them ended the loop.
   */
  ghost predicate Conserved(conf: Config, s: State) {
    s.renewals == s.drained + (if s.queued then 1 else 0) + (if s.status == Blocked then 1 else 0)
    && s.commands == (if conf.hasCommand then s.drained else 0)
    && (s.status == Blocked ==> s.queued)
  }

  lemma StepConserves(conf: Config, s: State, e: Event)
    requires Conserved(conf, s)
    ensures Conserved(conf, Step(conf, s, e))
    ensures Step(conf, s, e).failures ==
            s.failures + if s.status == Running && Fails(conf, s, e) then 1 else 0
    ensures Step(conf, s, e).renewals ==
            s.renewals + if s.status == Running && Renews(conf, s, e) then 1 else 0
  {
    hide Due, Expiry;
  }

  lemma {:induction false} RenewalsAreConserved(conf: Config, first: Write, e: Event, events: seq<Event>)
    requires e.Tick?
    ensures var start := Start(conf, Initial(conf, first), e);
            Conserved(conf, After(conf, start, events))
            && After(conf, start, events).failures == FailedTicks(conf, start, events)
            && After(conf, start, events).renewals ==
               (if Renews(conf, Initial(conf, first), e) then 1 else 0) + RenewedTicks(conf, start, events)
  {
    hide Due, Expiry, Step;
    if events == [] {
    } else {
      var before := events[..|events| - 1];
      RenewalsAreConserved(conf, first, e, before);
      hide Process;
      StepConserves(conf, After(conf, Start(conf, Initial(conf, first), e), before), events[|events| - 1]);
    }
  }

  /** A name is the base name, or with new names the base name, a dash and 13 characters. */
  ghost predicate Named(conf: Config, name: string) {
    name == conf.basename
    || (conf.newName && |name| == |conf.basename| + 14 && conf.basename + "-" <= name)
  }

  lemma StepNames(conf: Config, s: State, e: Event)
    requires Named(conf, s.name) && (e.Tick? ==> |e.uuid| >= 13)
    ensures Named(conf, Step(conf, s, e).name)
  {
    hide Due, Expiry;
  }

  lemma {:induction false} NamesDoNotGrow(conf: Config, first: Write, e: Event, events: seq<Event>)
    requires e.Tick? && |e.uuid| >= 13 && forall i :: 0 <= i < |events| && events[i].Tick? ==> |events[i].uuid| >= 13
    ensures Named(conf, After(conf, Start(conf, Initial(conf, first), e), events).name)
  {
    hide Due, Expiry, Step;
    if events == [] {
    } else {
      var before, last := events[..|events| - 1], events[|events| - 1];
      NamesDoNotGrow(conf, first, e, before);
      hide Process, Named;
      assert last.Tick? ==> |last.uuid| >= 13;
      StepNames(conf, After(conf, Start(conf, Initial(conf, first), e), before), last);
    }
  }

  /** Different first 13 characters of the uuid give different names, and equal ones equal names. */
  lemma NamesDiffer(conf: Config, u: string, v: string)
    requires |u| >= 13 && |v| >= 13
    ensures conf.basename + "-" + ShortId(u) == conf.basename + "-" + ShortId(v) <==> u[..13] == v[..13]
  {
    var prefix := conf.basename + "-";
    assert (prefix + ShortId(u))[|prefix|..] == ShortId(u) && (prefix + ShortId(v))[|prefix|..] == ShortId(v);
  }

  // ---- When the daemon blocks on its own channel ----

  /** A renewal succeeds while the token of the previous one is still queued. */
  predicate Overruns(conf: Config, s: State, e: Event) {
    s.status == Running && s.queued && Renews(conf, s, e)
  }

  predicate OverrunsAt(conf: Config, s: State, events: seq<Event>, i: nat) {
    i < |events| && Overruns(conf, After(conf, s, events[..i]), events[i])
  }

  /** The certificate is due again although its token was not drained yet. */
  predicate DueWhileQueued(conf: Config, s: State, e: Event) {
    s.queued && IsDue(conf, s, e)
  }

  lemma BlocksInStep(conf: Config, s: State, e: Event)
    ensures Step(conf, s, e).status == Blocked <==> s.status == Blocked || Overruns(conf, s, e)
  {
    hide Due, Expiry;
  }

  /** The last turn adds at most itself to the turns that overrun. */
  lemma SameOverruns(conf: Config, s: State, events: seq<Event>)
    requires events != []
    ensures var n := |events| - 1;
            (forall i: nat | i < n :: OverrunsAt(conf, s, events, i) == OverrunsAt(conf, s, events[..n], i))
            && (forall i: nat | OverrunsAt(conf, s, events, i) :: i <= n)
            && (forall i: nat | OverrunsAt(conf, s, events[..n], i) :: i < n)
            && OverrunsAt(conf, s, events, n) == Overruns(conf, After(conf, s, events[..n]), events[n])
  {
    hide Overruns, After;
    var n := |events| - 1;
    forall i: nat | i < n ensures OverrunsAt(conf, s, events, i) == OverrunsAt(conf, s, events[..n], i) {
      assert events[..n][..i] == events[..i];
    }
  }

  /** The daemon blocks for ever exactly when some renewal overruns the token of the previous one. */
  lemma {:induction false} BlocksExactly(conf: Config, s: State, events: seq<Event>)
    requires s.status != Blocked
    ensures After(conf, s, events).status == Blocked <==> exists i: nat :: OverrunsAt(conf, s, events, i)
  {
    if events == [] {
    } else {
      var before, n := events[..|events| - 1], |events| - 1;
      BlocksExactly(conf, s, before);
      BlocksInStep(conf, After(conf, s, before), events[n]);
      hide Step, Overruns;
      SameOverruns(conf, s, events);
      hide After, OverrunsAt;
    }
  }

  /** The turn ends the loop: a signal, a token whose command fails or after which the daemon exits, or an overrun. */
  predicate Ends(conf: Config, s: State, e: Event) {
    s.status == Running &&
    match e
    case Signal => true
    case Token(commandOk) => s.queued && ((conf.hasCommand && !commandOk) || conf.exitOnRenew)
    case Tick(_, _, _) => Overruns(conf, s, e)
  }

  predicate EndsAt(conf: Config, s: State, events: seq<Event>, i: nat) {
    i < |events| && Ends(conf, After(conf, s, events[..i]), events[i])
  }

  lemma EndsInStep(conf: Config, s: State, e: Event)
    ensures Step(conf, s, e).status != Running <==> s.status != Running || Ends(conf, s, e)
  {
    hide Due, Expiry;
  }

  /** The last turn adds at most itself to the turns that end the loop. */
  lemma SameEnds(conf: Config, s: State, events: seq<Event>)
    requires events != []
    ensures var n := |events| - 1;
            (forall i: nat | i < n :: EndsAt(conf, s, events, i) == EndsAt(conf, s, events[..n], i))
            && (forall i: nat | EndsAt(conf, s, events, i) :: i <= n)
            && (forall i: nat | EndsAt(conf, s, events[..n], i) :: i < n)
            && EndsAt(conf, s, events, n) == Ends(conf, After(conf, s, events[..n]), events[n])
  {
    hide Ends, After;
    var n := |events| - 1;
    forall i: nat | i < n ensures EndsAt(conf, s, events, i) == EndsAt(conf, s, events[..n], i) {
      assert events[..n][..i] == events[..i];
    }
  }

  /** As what the daemon ends at such a turn. */
  function Ending(conf: Config, e: Event): Status {
    match e
    case Signal => Stopped
    case Token(commandOk) => if conf.hasCommand && !commandOk then Failed else Stopped
    case Tick(_, _, _) => Blocked
  }

  lemma EndsAs(conf: Config, s: State, events: seq<Event>, i: nat)
    requires EndsAt(conf, s, events, i)
    ensures After(conf, s, events).status == Ending(conf, events[i])
  {
    var before := After(conf, s, events[..i]);
    assert Step(conf, before, events[i]).status == Ending(conf, events[i]);
    hide Step, Ends;
    AfterEarly(conf, s, events, i);
  }

  /** Nothing else ends the loop; in particular no failed check does. */
  lemma {:induction false} EndsExactly(conf: Config, s: State, events: seq<Event>)
    requires s.status == Running
    ensures After(conf, s, events).status != Running <==> exists i: nat :: EndsAt(conf, s, events, i)
  {
    if events == [] {
    } else {
      var before, n := events[..|events| - 1], |events| - 1;
      EndsExactly(conf, s, before);
      EndsInStep(conf, After(conf, s, before), events[n]);
      hide Step, Ends;
      SameEnds(conf, s, events);
      hide After, EndsAt;
    }
  }

  /**
   With every threshold it does happen: certificates due at once are renewed twice before the first token is drained.
   */
  lemma DaemonBlocks(conf: Config) returns (first: Write, e: Event, events: seq<Event>)
    ensures e.Tick? && After(conf, Start(conf, Initial(conf, first), e), events).status == Blocked
    ensures OverrunsAt(conf, Start(conf, Initial(conf, first), e), events, 0)
  {
    first := Write(0, Certificate(NotPem(0), conf.threshold));
    e := Tick(0, "", Run(true, Some(Write(1, first.certificate))));
    events := [Tick(2, "", Run(true, Some(Write(3, first.certificate))))];
    var start := Start(conf, Initial(conf, first), e);
    assert events[..0] == [];
    assert After(conf, start, []) == start;
    assert Due(conf.threshold, 0, conf.threshold) && Due(conf.threshold, 2, conf.threshold);
  }

  /**
   If no certificate is due again while its token is queued, the daemon never blocks and every send finds the channel
   empty.
   */
  lemma NeverBlocks(conf: Config, s: State, events: seq<Event>)
    requires s.status != Blocked
    requires forall i :: 0 <= i < |events| ==> !DueWhileQueued(conf, After(conf, s, events[..i]), events[i])
    ensures After(conf, s, events).status != Blocked
    ensures forall i: nat :: !OverrunsAt(conf, s, events, i)
  {
    forall i: nat | i < |events| ensures !OverrunsAt(conf, s, events, i) {
      assert !DueWhileQueued(conf, After(conf, s, events[..i]), events[i]);
    }
    BlocksExactly(conf, s, events);
  }

  // ---- Timed safety of the certificate on disk ----

  /** The write that the file shows at time t. */
  function InForce(writes: seq<Write>, t: Instant): Write
    requires writes != []
  {
    if |writes| == 1 || writes[|writes| - 1].at <= t then writes[|writes| - 1] else InForce(writes[..|writes| - 1], t)
  }

  /** At time t the file holds a certificate that has not expired. */
  ghost predicate ValidAt(writes: seq<Write>, t: Instant) {
    writes != [] &&
    match Expiry(Some(InForce(writes, t).certificate))
    case None => false
    case Some(notAfter) => t <= notAfter
  }

  /** Time of the last check that the running daemon started. */
  function LastCheck(conf: Config, s: State, first: Instant, events: seq<Event>): Instant {
    if events == [] then first
    else
      var before, e := events[..|events| - 1], events[|events| - 1];
      if e.Tick? && After(conf, s, before).status == Running then e.now else LastCheck(conf, s, first, before)
  }

  /**
   A due renewal at this check succeeds within the delay, with a certificate that lives for another period and delay.
   */
  ghost predicate RenewsInTime(conf: Config, period: Duration, delay: Duration, s: State, e: Event)
    requires e.Tick?
  {
    Expiry(s.file).Some? && Due(Expiry(s.file).value, e.now, conf.threshold) ==>
      e.run.ok && e.run.write.Some?
      && var w := e.run.write.value;
         e.now <= w.at <= e.now + delay && Expiry(Some(w.certificate)).Some?
         && Expiry(Some(w.certificate)).value >= w.at + period + delay
  }

  /**
   If this turn is a check, it starts at most a period after the last and after the last write, and renews in time.
   */
  ghost predicate OnTime(conf: Config, period: Duration, delay: Duration, s: State, check: Instant, e: Event) {
    e.Tick? && s.status == Running ==>
      check <= e.now <= check + period
      && (s.writes != [] ==> s.writes[|s.writes| - 1].at <= e.now)
      && RenewsInTime(conf, period, delay, s, e)
  }

  ghost predicate Timely(conf: Config, period: Duration, delay: Duration, s: State, first: Instant,
                         events: seq<Event>) {
    events == [] ||
    var before, e := events[..|events| - 1], events[|events| - 1];
    Timely(conf, period, delay, s, first, before)
    && OnTime(conf, period, delay, After(conf, s, before), LastCheck(conf, s, first, before), e)
  }

  /**
   What holds after a check that started at the given time: the file was valid and will be for a period and a delay.
   */
  ghost predicate Covered(period: Duration, delay: Duration, s: State, since: Instant, check: Instant) {
    s.writes != [] && s.file == Some(s.writes[|s.writes| - 1].certificate)
    && s.writes[|s.writes| - 1].at <= check + delay
    && Expiry(s.file).Some? && Expiry(s.file).value >= check + period + delay - 1
    && forall t :: since <= t < check + period + delay ==> ValidAt(s.writes, t)
  }

  /**
   What makes every run safe: no time passes between checks, the threshold covers period and delay,
   or the arithmetic calls every certificate due that has the delay left.
   */
  predicate Sufficient(threshold: Duration, period: Duration, delay: Duration) {
    period == 0 || threshold + 2 >= period as int + delay as int || threshold == MAX64
    || delay - 1 - threshold as int > MAX64
  }

  /** With the delay left and not due, a certificate lasts for a period and a delay. */
  lemma NotDueIsFar(notAfter: Instant, now: Instant, threshold: Duration, period: Duration, delay: Duration)
    requires period >= 0 && delay >= 0 && Sufficient(threshold, period, delay)
    requires notAfter - now >= delay - 1 && !Due(notAfter, now, threshold)
    ensures notAfter - now >= period + delay - 1
  {
  }

  /** One check: from time left of about the delay to a file that is good for a period and a delay. */
  lemma CheckCovers(conf: Config, period: Duration, delay: Duration, s: State, since: Instant, e: Event)
    requires period >= 0 && delay >= 0 && Sufficient(conf.threshold, period, delay)
    requires e.Tick? && RenewsInTime(conf, period, delay, s, e)
    requires s.writes != [] && s.file == Some(s.writes[|s.writes| - 1].certificate)
    requires s.writes[|s.writes| - 1].at <= e.now
    requires Expiry(s.file).Some? && Expiry(s.file).value >= e.now + delay - 1 && since <= e.now
    requires forall t :: since <= t < e.now ==> ValidAt(s.writes, t)
    ensures Covered(period, delay, Process(conf, s, e).state, since, e.now)
  {
    hide Due, Sufficient;
    var notAfter := Expiry(s.file).value;
    var s' := Process(conf, s, e).state;
    var cut := |s.writes|;
    forall t | e.now <= t <= notAfter ensures ValidAt(s.writes, t) {
      assert InForce(s.writes, t) == s.writes[cut - 1];
    }
    if Due(notAfter, e.now, conf.threshold) {
      var w := e.run.write.value;
      assert s'.writes[..cut] == s.writes;
      forall t | since <= t < e.now + period + delay ensures ValidAt(s'.writes, t) {
        assert s'.writes == s.writes + [w];
        if t >= w.at {
          assert InForce(s'.writes, t) == w;
          assert Expiry(Some(w.certificate)).value >= w.at + period + delay > t;
        } else {
          assert InForce(s'.writes, t) == InForce(s.writes, t);
          assert t < e.now || t <= notAfter;
          assert ValidAt(s.writes, t);
        }
      }
    } else {
      NotDueIsFar(notAfter, e.now, conf.threshold, period, delay);
    }
  }

  lemma StepCovers(conf: Config, period: Duration, delay: Duration, s: State, since: Instant, check: Instant, e: Event)
    requires period >= 0 && delay >= 0 && Sufficient(conf.threshold, period, delay)
    requires Covered(period, delay, s, since, check) && since <= check && OnTime(conf, period, delay, s, check, e)
    ensures Covered(period, delay, Step(conf, s, e), since, if e.Tick? && s.status == Running then e.now else check)
  {
    hide Due, Expiry, RenewsInTime, ValidAt, Sufficient;
    if e.Tick? && s.status == Running {
      CheckCovers(conf, period, delay, s, since, e);
      hide Process;
    }
  }

  /**
   A run that keeps its promises: it starts with a certificate that has the delay left,
   checks start at most a period apart, and a due renewal succeeds within the delay.
   */
  ghost predicate Promised(conf: Config, period: Duration, delay: Duration, first: Write, e: Event,
                           events: seq<Event>) {
    e.Tick? && first.at <= e.now
    && Expiry(Some(first.certificate)).Some? && Expiry(Some(first.certificate)).value >= e.now + delay - 1
    && RenewsInTime(conf, period, delay, Initial(conf, first), e)
    && Timely(conf, period, delay, Start(conf, Initial(conf, first), e), e.now, events)
  }

  /**
   If the configuration suffices, the file is never expired from the first check until a period and a delay after the
   last.
   */
  lemma {:induction false} NeverExpired(conf: Config, period: Duration, delay: Duration, first: Write, e: Event,
                                        events: seq<Event>)
    requires period >= 0 && delay >= 0 && Sufficient(conf.threshold, period, delay)
    requires Promised(conf, period, delay, first, e, events)
    ensures var start := Start(conf, Initial(conf, first), e);
            Covered(period, delay, After(conf, start, events), e.now, LastCheck(conf, start, e.now, events))
            && e.now <= LastCheck(conf, start, e.now, events)
  {
    hide Due, Expiry, RenewsInTime, ValidAt, Sufficient;
    var start := Start(conf, Initial(conf, first), e);
    if events == [] {
      CheckCovers(conf, period, delay, Initial(conf, first), e.now, e);
      hide Process;
    } else {
      hide Process;
      var before, last := events[..|events| - 1], events[|events| - 1];
      NeverExpired(conf, period, delay, first, e, before);
      hide Step, Covered, OnTime;
      StepCovers(conf, period, delay, After(conf, start, before), e.now, LastCheck(conf, start, e.now, before), last);
    }
  }

  /** The file shows a valid certificate from the first check until a period and a delay after the last. */
  ghost predicate StaysValid(conf: Config, period: Duration, delay: Duration, first: Write, e: Event,
                             events: seq<Event>)
    requires e.Tick?
  {
    var start := Start(conf, Initial(conf, first), e);
    forall t :: e.now <= t < LastCheck(conf, start, e.now, events) + period + delay ==>
      ValidAt(After(conf, start, events).writes, t)
  }

  /** Every run that keeps its promises is safe. */
  ghost predicate Safe(conf: Config, period: Duration, delay: Duration) {
    forall first, e: Event, events :: e.Tick? && Promised(conf, period, delay, first, e, events) ==>
      StaysValid(conf, period, delay, first, e, events)
  }

  /** The configuration is safe exactly when it suffices. */
  lemma SafeExactly(conf: Config, period: Duration, delay: Duration)
    requires period >= 0 && delay >= 0
    ensures Safe(conf, period, delay) <==> Sufficient(conf.threshold, period, delay)
  {
    hide Promised, Start, After, LastCheck, ValidAt, Sufficient, Initial, Expiry;
    if Sufficient(conf.threshold, period, delay) {
      forall first, e: Event, events | e.Tick? && Promised(conf, period, delay, first, e, events)
        ensures StaysValid(conf, period, delay, first, e, events)
      {
        NeverExpired(conf, period, delay, first, e, events);
      }
    } else {
      var first, e, events := InsufficientExpires(conf, period, delay);
      assert !Safe(conf, period, delay);
    }
  }

  /** Any other configuration has a run that keeps its promises and whose file is expired for an instant. */
  lemma InsufficientExpires(conf: Config, period: Duration, delay: Duration)
    returns (first: Write, e: Event, events: seq<Event>)
    requires period >= 0 && delay >= 0 && !Sufficient(conf.threshold, period, delay)
    ensures e.Tick? && Promised(conf, period, delay, first, e, events)
    ensures !StaysValid(conf, period, delay, first, e, events)
  {
    if delay > conf.threshold + 2 {
      first, e, events := SlowRenewalExpires(conf, period, delay);
    } else {
      first, e, events := LateCheckExpires(conf, period, delay);
    }
  }

  /** If renewing takes longer than the threshold, the file expires before the next check although it was not due. */
  lemma SlowRenewalExpires(conf: Config, period: Duration, delay: Duration)
    returns (first: Write, e: Event, events: seq<Event>)
    requires period >= 1 && delay >= 0 && delay - 1 - conf.threshold as int <= MAX64
    requires delay > conf.threshold + 2
    ensures e.Tick? && Promised(conf, period, delay, first, e, events)
    ensures !StaysValid(conf, period, delay, first, e, events)
  {
    first := Write(0, Certificate(NotPem(0), delay as int - 1));
    e := Tick(0, "", Run(false, None));
    events := [];
    var start := Start(conf, Initial(conf, first), e);
    assert !Due(delay as int - 1, 0, conf.threshold);
    assert start.writes == [first] && InForce([first], delay) == first;
    assert !ValidAt(After(conf, start, events).writes, delay);
    assert LastCheck(conf, start, e.now, events) == 0;
  }

  /** Otherwise the next check comes in time to see it due, but its renewal comes too late. */
  lemma LateCheckExpires(conf: Config, period: Duration, delay: Duration)
    returns (first: Write, e: Event, events: seq<Event>)
    requires period >= 0 && 0 <= delay <= conf.threshold + 2 && conf.threshold < MAX64
    requires conf.threshold + 2 < period as int + delay as int
    ensures e.Tick? && Promised(conf, period, delay, first, e, events)
    ensures !StaysValid(conf, period, delay, first, e, events)
  {
    first := Write(0, Certificate(NotPem(0), conf.threshold + 1));
    e := Tick(0, "", Run(false, None));
    var w := Write(period + delay, Certificate(NotPem(0), 2 * (period as int) + 2 * (delay as int)));
    var second := Tick(period, "", Run(true, Some(w)));
    events := [second];
    var t := conf.threshold + 2;
    var start := Start(conf, Initial(conf, first), e);
    assert events[..0] == [];
    assert !Due(conf.threshold + 1, 0, conf.threshold) && Due(conf.threshold + 1, period, conf.threshold);
    hide Due;
    assert After(conf, start, []) == start && start.writes == [first] && start.status == Running;
    assert LastCheck(conf, start, 0, []) == 0 && Timely(conf, period, delay, start, 0, []);
    assert RenewsInTime(conf, period, delay, start, second);
    assert Timely(conf, period, delay, start, 0, events);
    assert LastCheck(conf, start, 0, events) == period;
    assert After(conf, start, events) == Step(conf, start, second);
    assert After(conf, start, events).writes == [first, w];
    hide Timely, Process, Step;
    assert [first, w][..1] == [first];
    assert InForce([first, w], t) == first;
    assert !ValidAt([first, w], t);
  }
}
