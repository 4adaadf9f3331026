/** The objects that the CSR protocol moves around, and the fetch annotations they carry. */
module Objects {
  import opened Base
  import opened Decimal

  /** An IP address, known only by its identity. */
  type IP = nat

  /**
   The bytes of a file or of an API field, seen through pem.Decode.
   WithRest is a PEM block followed by further bytes, for example a certificate chain.
   NotPem holds no PEM block at all.
   */
  datatype Pem =
    | PrivateKey(key: nat)
    | CertRequest(key: nat, commonName: string, dnsNames: seq<string>, ipAddresses: seq<IP>)
    | Certificate(request: Pem, notAfter: Instant)
    | WithRest(first: Pem)
    | NotPem(id: nat)
  {
    /** First result of pem.Decode: the first block, if any. */
    function Block(): Option<Pem> {
      match this
      case NotPem(_) => None
      case WithRest(p) => p.Block()
      case _ => Some(this)
    }

    /** Whether pem.Decode leaves bytes over; bytes without a block are all left over. */
    predicate HasRest() {
      WithRest? || NotPem?
    }

    /** The first block is a certificate for the given request; a chain may follow it. */
    predicate Issues(request: Pem) {
      match Block()
      case Some(Certificate(r, _)) => r == request
      case _ => false
    }
  }

  datatype ConditionType = Approved | Denied | OtherType(name: string)

  datatype Condition = Condition(kind: ConditionType, lastUpdate: Instant)

  type Annotations = map<string, string>

  /** uid names one incarnation of the object, version is its resourceVersion. */
  datatype Csr = Csr(
    uid: nat,
    version: nat,
    request: Pem,
    conditions: seq<Condition>,
    certificate: Option<Pem>,
    annotations: Option<Annotations>)
  {
    predicate HasCondition(kind: ConditionType) {
      exists i :: 0 <= i < |conditions| && conditions[i].kind == kind
    }
  }

  const FETCH_DATE: string := "alpha.kube-csr/lastFetchTime"
  const FETCH_COUNT: string := "alpha.kube-csr/fetchCount"

  /** A Go map read: the empty string stands for a missing key. */
  function Lookup(a: Annotations, key: string): string {
    if key in a then a[key] else ""
  }

  /** The annotations after one more fetch at the given date. */
  function Bump(a: Option<Annotations>, date: string): Annotations {
    match a
    case None => map[FETCH_DATE := date, FETCH_COUNT := "1"]
    case Some(m) => m[FETCH_DATE := date][FETCH_COUNT := Itoa(Wrap64(Atoi(Lookup(m, FETCH_COUNT)).value + 1))]
  }

  /** No fetch was ever recorded: both fetch keys are absent. */
  predicate Unfetched(a: Option<Annotations>) {
    a.Some? ==> FETCH_DATE !in a.value && FETCH_COUNT !in a.value
  }

  /** The annotations say: fetched count times, the last time at the given date. */
  predicate Recorded(a: Option<Annotations>, count: nat, date: string) {
    a.Some? && FETCH_DATE in a.value && FETCH_COUNT in a.value
    && a.value[FETCH_DATE] == date && a.value[FETCH_COUNT] == Itoa(count)
  }

  lemma KeysDiffer()
    ensures FETCH_DATE != FETCH_COUNT
  {
    assert FETCH_DATE[15] == 'l' && FETCH_COUNT[15] == 'f';
  }

  /** Counting starts from nil annotations as well as from annotations without the keys. */
  lemma BumpFirst(a: Option<Annotations>, date: string)
    requires Unfetched(a)
    ensures Recorded(Some(Bump(a, date)), 1, date)
  {
    KeysDiffer();
    assert Itoa(1) == "1";
    if a.Some? {
      assert Lookup(a.value, FETCH_COUNT) == "";
      assert Atoi("") == Parsed(0, false);
      assert Wrap64(0 + 1) == 1;
    }
  }

  /** One more fetch counts one more and moves the date, below the bound of int. */
  lemma BumpNext(a: Option<Annotations>, count: nat, last: string, date: string)
    requires Recorded(a, count, last) && count < MAX64
    ensures Recorded(Some(Bump(a, date)), count + 1, date)
  {
    KeysDiffer();
    AtoiItoa(count);
    assert Wrap64(count + 1) == count + 1;
  }
}
