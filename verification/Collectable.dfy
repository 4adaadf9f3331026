/** The three predicates of pkg/operation/purge/purge.go that decide what the garbage collector deletes. */
module Collectable {
  import opened Base
  import opened Decimal
  import opened Calendar
  import opened Objects
  import opened Cluster
  import opened Protocol

  /** now.Add(-gracePeriod): negation wraps around at the minimum. */
  function GraceLimit(now: Instant, grace: Duration): Instant {
    now + Wrap64(-(grace as int))
  }

  /** The grace that the code really grants: the minimum duration negates to itself and counts as 2^63 ns. */
  function EffectiveGrace(grace: Duration): int {
    if grace == MIN64 then -MIN64 else grace
  }

  lemma GraceIsEffective(now: Instant, grace: Duration)
    ensures GraceLimit(now, grace) == now - EffectiveGrace(grace)
    ensures forall g: Duration :: grace <= g && grace != MIN64 ==> EffectiveGrace(grace) <= EffectiveGrace(g)
  {
  }

  predicate IsCertificateExpired(c: Csr, grace: Duration, now: Instant) {
    match c.certificate
    case None => false
    case Some(data) =>
      if data.HasRest() || !data.Certificate? then false
      else if now < data.notAfter then false
      else if GraceLimit(now, grace) < data.notAfter then false
      else true
  }

  predicate IsConditionDenied(c: Csr, grace: Duration, now: Instant) {
    if c.conditions == [] then false
    else if c.conditions[0].kind != Denied then false
    else if c.conditions[0].lastUpdate > GraceLimit(now, grace) then false
    else true
  }

  predicate IsAnnotationFetched(c: Csr, grace: Duration, now: Instant) {
    if c.annotations.None? then false
    else
      var m := c.annotations.value;
      var count := Atoi(Lookup(m, FETCH_COUNT));
      if !count.ok || count.value == 0 then false
      else if Lookup(m, FETCH_DATE) == "" then false
      else
        match Parse(m[FETCH_DATE])
        case None => false
        case Some(last) => if last > GraceLimit(now, grace) then false else true
  }

  /** A predicate of the garbage collector; the clock it reads is an argument. */
  type Rule = (Csr, Duration, Instant) -> bool

  /** Collectable at some time, the object as it is stays collectable. */
  ghost predicate Persistent(rule: Rule, grace: Duration) {
    forall c, now, later :: now <= later && rule(c, grace, now) ==> rule(c, grace, later)
  }

  /** Collectable with a grace period, collectable with any smaller one that does not wrap around. */
  ghost predicate Antitone(rule: Rule) {
    forall c, now, grace: Duration, less: Duration :: MIN64 < less <= grace && rule(c, grace, now) ==>
      rule(c, less, now)
  }

  lemma RulesAreMonotone(grace: Duration)
    ensures Persistent(IsCertificateExpired, grace) && Antitone(IsCertificateExpired)
    ensures Persistent(IsConditionDenied, grace) && Antitone(IsConditionDenied)
    ensures Persistent(IsAnnotationFetched, grace) && Antitone(IsAnnotationFetched)
  {
    forall now: Instant, g: Duration ensures GraceLimit(now, g) == now - EffectiveGrace(g) {
      GraceIsEffective(now, g);
    }
  }

  /** From position k on, nobody replaced the object and nobody fetched it; everything else may have happened to it. */
  ghost predicate Steady(log: Log, k: nat, name: string) {
    Undisturbed(log, k, name, Anyone)
    && forall i :: k <= i < |log| && log[i].SetAnnotations? && log[i].name == name ==> log[i].fetchedAt.None?
  }

  /** At position k of a reachable log the rule matched the object, which nobody replaced or fetched since. */
  ghost predicate Ripe(log: Log, k: nat, name: string, rule: Rule, grace: Duration, now: Instant) {
    Clean(log) && k <= |log| && name in At(log, k).objects && Steady(log, k, name)
    && rule(At(log, k).objects[name], grace, now)
  }

  ghost predicate Matched(log: Log, name: string, rule: Rule, grace: Duration, now: Instant) {
    name in Replay(log).objects && rule(Replay(log).objects[name], grace, now)
  }

  /** Once collectable, collectable ever after, however the object evolves meanwhile. */
  ghost predicate Lasting(rule: Rule, grace: Duration) {
    forall log, k: nat, name, now, later: Instant :: now <= later && Ripe(log, k, name, rule, grace, now) ==>
      Matched(log, name, rule, grace, later)
  }

  /** A write that neither replaces nor fetches the object. */
  ghost predicate Harmless(s: Store, e: Event, name: string) {
    Accepted(s, e) && Disciplined(s, e) && name in s.objects && !e.Replaces(name)
    && (e.SetAnnotations? && e.name == name ==> e.fetchedAt.None?)
  }

  /** Harmless writes take no match away. */
  ghost predicate Surviving(rule: Rule, grace: Duration) {
    forall s, e, name, now :: Harmless(s, e, name) && rule(s.objects[name], grace, now) ==>
      name in Apply(s, e).objects && rule(Apply(s, e).objects[name], grace, now)
  }

  lemma ExpirySurvives(grace: Duration)
    ensures Surviving(IsCertificateExpired, grace)
  {
  }

  lemma DenialSurvives(grace: Duration)
    ensures Surviving(IsConditionDenied, grace)
  {
  }

  lemma FetchSurvives(grace: Duration)
    ensures Surviving(IsAnnotationFetched, grace)
  {
    assert Atoi("") == Parsed(0, false);
  }

  /** A surviving rule stays matched along every reachable log on which the object is neither replaced nor fetched. */
  lemma {:induction false} Outlasts(log: Log, k: nat, name: string, rule: Rule, grace: Duration, now: Instant)
    requires Surviving(rule, grace) && Ripe(log, k, name, rule, grace, now)
    ensures Matched(log, name, rule, grace, now)
  {
    if k == |log| {
      assert log[..k] == log;
    } else {
      var before, e := Before(log), log[|log| - 1];
      assert before[..k] == log[..k];
      SomeoneDidIt(e);
      Outlasts(before, k, name, rule, grace, now);
      assert Harmless(Replay(before), e, name);
    }
  }

  lemma LastingIf(rule: Rule, grace: Duration)
    requires Surviving(rule, grace) && Persistent(rule, grace)
    ensures Lasting(rule, grace)
  {
    hide Surviving, Ripe;
    forall log, k: nat, name, now, later: Instant | now <= later && Ripe(log, k, name, rule, grace, now)
      ensures Matched(log, name, rule, grace, later)
    {
      Outlasts(log, k, name, rule, grace, now);
    }
  }

  lemma RulesAreLasting(grace: Duration)
    ensures Lasting(IsCertificateExpired, grace)
    ensures Lasting(IsConditionDenied, grace)
    ensures Lasting(IsAnnotationFetched, grace)
  {
    hide Surviving, Persistent, Antitone, Lasting;
    RulesAreMonotone(grace);
    ExpirySurvives(grace);
    DenialSurvives(grace);
    FetchSurvives(grace);
    LastingIf(IsCertificateExpired, grace);
    LastingIf(IsConditionDenied, grace);
    LastingIf(IsAnnotationFetched, grace);
  }

  /** Expiry is counted from NotAfter, and only for a lone certificate block. */
  lemma ExpiredExactly(c: Csr, grace: Duration, now: Instant)
    ensures IsCertificateExpired(c, grace, now) <==>
            c.certificate.Some? && c.certificate.value.Certificate?
            && c.certificate.value.notAfter + Max(0, EffectiveGrace(grace)) <= now
  {
    GraceIsEffective(now, grace);
  }

  /** Denial counts from the time of the first condition, and from no other. */
  lemma DeniedExactly(c: Csr, grace: Duration, now: Instant)
    ensures IsConditionDenied(c, grace, now) <==>
            c.conditions != [] && c.conditions[0].kind == Denied
            && c.conditions[0].lastUpdate + EffectiveGrace(grace) <= now
  {
    GraceIsEffective(now, grace);
  }

  /**
   On any object, also one annotated by hand: the count is a number other than 0, and the date parses and is long ago.
   */
  lemma FetchedByAnnotations(c: Csr, grace: Duration, now: Instant)
    ensures IsAnnotationFetched(c, grace, now) <==>
            var m := c.annotations.GetOr(map[]);
            Atoi(Lookup(m, FETCH_COUNT)).ok && Atoi(Lookup(m, FETCH_COUNT)).value != 0
            && Parse(Lookup(m, FETCH_DATE)).Some?
            && Parse(Lookup(m, FETCH_DATE)).value + EffectiveGrace(grace) <= now
  {
    GraceIsEffective(now, grace);
    assert Atoi("") == Parsed(0, false);
    assert Parse("") == None;
  }

  /**
   The wrap-around is real: the least grace period of all protects an object that every other negative one gives up.
   */
  lemma LeastGraceProtects(now: Instant)
    ensures var c := Csr(0, 0, NotPem(0), [Condition(Denied, now)], None, None);
            IsConditionDenied(c, -1, now) && !IsConditionDenied(c, MIN64, now)
  {
  }

  /**
   An issued object expires in the end, unless its signer put more than one certificate on it: a chain is kept for
   ever.
   */
  lemma ExpiresUnlessChain(log: Log, name: string, grace: Duration)
    requires Clean(log) && name in Replay(log).objects && Replay(log).objects[name].certificate.Some?
    ensures (exists now :: IsCertificateExpired(Replay(log).objects[name], grace, now)) <==>
            !Replay(log).objects[name].certificate.value.HasRest()
  {
    ReachableIsSound(log, name);
    var c := Replay(log).objects[name];
    var p := c.certificate.value;
    if !p.HasRest() {
      assert p.Certificate?;
      var now := p.notAfter + Max(0, EffectiveGrace(grace));
      ExpiredExactly(c, grace, now);
      assert IsCertificateExpired(c, grace, now);
    }
  }

  lemma ChainIssues(leaf: Pem, request: Pem)
    requires leaf.Issues(request)
    ensures WithRest(leaf).Issues(request)
  {
  }

  /** Such chains are reachable for every request and leaf: the object is issued, fetched once, and never expires. */
  lemma ChainIsKept(name: string, request: Pem, leaf: Pem, grace: Duration) returns (log: Log)
    requires leaf.Issues(request)
    ensures Clean(log) && name in Replay(log).objects
    ensures Replay(log).objects[name].request == request
    ensures Replay(log).objects[name].certificate == Some(WithRest(leaf))
    ensures Recorded(Replay(log).objects[name].annotations, 1, Format(0))
    ensures forall now :: !IsCertificateExpired(Replay(log).objects[name], grace, now)
  {
    hide Clean, Replay, Format, Bump, IsCertificateExpired, Pem.Issues;
    assert WithRest(leaf).Issues(request) by { ChainIssues(leaf, request); }
    log := IssuedAndFetched(name, request, WithRest(leaf));
    BumpFirst(None, Format(0));
    ExpiresUnlessChain(log, name, grace);
  }

  /** In every reachable store, a denied object is neither expired nor fetched. */
  lemma DeniedExcludesOthers(log: Log, name: string, grace: Duration, t1: Instant, t2: Instant)
    requires Clean(log) && name in Replay(log).objects
    requires IsConditionDenied(Replay(log).objects[name], grace, t1)
    ensures !IsCertificateExpired(Replay(log).objects[name], grace, t2)
    ensures !IsAnnotationFetched(Replay(log).objects[name], grace, t2)
  {
    ReachableIsSound(log, name);
    assert Atoi("") == Parsed(0, false);
  }

  /** A reachable object counts as fetched from the grace period after its last fetch on, and not before. */
  lemma FetchedExactly(log: Log, name: string, grace: Duration, now: Instant)
    requires Clean(log) && name in Replay(log).objects
    requires Fetches(log, Replay(log).objects[name].uid) <= MAX64
    ensures var c := Replay(log).objects[name];
            IsAnnotationFetched(c, grace, now) <==>
            Fetches(log, c.uid) > 0 && TruncateToSecond(LastFetch(log, c.uid).GetOr(0)) + EffectiveGrace(grace) <= now
  {
    var c := Replay(log).objects[name];
    var n, last := Fetches(log, c.uid), LastFetch(log, c.uid);
    CountIsExact(log, name);
    GraceIsEffective(now, grace);
    if n == 0 {
      assert Atoi("") == Parsed(0, false);
    } else {
      AtoiItoa(n);
      ParseFormat(last.value);
      KeysDiffer();
    }
  }
}
