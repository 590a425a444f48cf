/**
 * The thread provisioning command: the schema its payload must pass before the handler runs,
 * the diagnostic record the handler logs, and the credentials it forwards to a pairing.
 */
module ThreadSchema {
  import opened Const
  import opened Outcomes

  /** The payload of one thread provisioning call, after cv.string / cv.positive_int coercion. */
  datatype ProvisionRequest = ProvisionRequest(
    hkid: string,
    networkName: string,
    channel: int,
    panId: string,
    extendedPanId: string,
    networkKey: string,
    unknownFlag: int)

  /** A field value as the schema sees it. */
  datatype Value = Text(s: string) | Number(n: int)

  /** One validator of a `vol.All` chain: `vol.Length` or `vol.Range`, each bound optional. */
  datatype Validator =
    | Length(minLen: Option<nat>, maxLen: Option<nat>)
    | Range(lo: Option<int>, hi: Option<int>)

  /** cv.positive_int accepts every integer from zero upwards. */
  const POSITIVE_INT: Validator := Range(Some(0), None)

  /** The validators the schema chains after the coercion of each key. */
  function Schema(a: Attr): seq<Validator>
  {
    match a
    case Hkid => []
    case ThreadNetworkName => [Length(None, Some(16))]
    case ThreadChannel => [POSITIVE_INT, Range(Some(11), Some(26))]
    case ThreadPanId => [Length(Some(1), Some(4))]
    case ThreadExtendedPanId => [Length(Some(1), Some(16))]
    case ThreadNetworkKey => [Length(Some(1), Some(32))]
    case ThreadUnknownFlag => [POSITIVE_INT, Range(Some(0), Some(255))]
  }

  function Field(req: ProvisionRequest, a: Attr): Value
  {
    match a
    case Hkid => Text(req.hkid)
    case ThreadNetworkName => Text(req.networkName)
    case ThreadChannel => Number(req.channel)
    case ThreadPanId => Text(req.panId)
    case ThreadExtendedPanId => Text(req.extendedPanId)
    case ThreadNetworkKey => Text(req.networkKey)
    case ThreadUnknownFlag => Number(req.unknownFlag)
  }

  predicate Passes(v: Value, c: Validator)
  {
    match c
    case Length(minLen, maxLen) =>
      v.Text? && (minLen.None? || minLen.value <= |v.s|) && (maxLen.None? || |v.s| <= maxLen.value)
    case Range(lo, hi) =>
      v.Number? && (lo.None? || lo.value <= v.n) && (hi.None? || v.n <= hi.value)
  }

  /** A key is valid when its value passes every validator of its chain. */
  predicate FieldValid(req: ProvisionRequest, a: Attr)
  {
    forall i :: 0 <= i < |Schema(a)| ==> Passes(Field(req, a), Schema(a)[i])
  }

  /** Each chain of validators, stated as the closed-form range it enforces. */
  lemma {:induction false} FieldValidClosedForm(req: ProvisionRequest, a: Attr)
    ensures FieldValid(req, a) <==>
      match a
      case Hkid => true
      case ThreadNetworkName => |req.networkName| <= 16
      case ThreadChannel => 11 <= req.channel <= 26
      case ThreadPanId => 1 <= |req.panId| <= 4
      case ThreadExtendedPanId => 1 <= |req.extendedPanId| <= 16
      case ThreadNetworkKey => 1 <= |req.networkKey| <= 32
      case ThreadUnknownFlag => 0 <= req.unknownFlag <= 255
  {
    var chain := Schema(a);
    if |chain| > 0 {
      assert Passes(Field(req, a), chain[0]) ==> (FieldValid(req, a) <==> forall i :: 0 < i < |chain| ==> Passes(Field(req, a), chain[i]));
    }
    if |chain| > 1 {
      assert FieldValid(req, a) ==> Passes(Field(req, a), chain[1]);
    }
  }

  /**
   * The keys the schema reports as invalid (voluptuous collects every failing key): never the
   * hkid, and each thread field exactly when it lies outside its range.
   */
  function Violations(req: ProvisionRequest): (bad: set<Attr>)
    ensures bad <= ALL_ATTRS
    ensures forall a :: a in bad <==> !FieldValid(req, a)
    ensures Hkid !in bad
    ensures ThreadNetworkName in bad <==> |req.networkName| > 16
    ensures ThreadChannel in bad <==> !(11 <= req.channel <= 26)
    ensures ThreadPanId in bad <==> !(1 <= |req.panId| <= 4)
    ensures ThreadExtendedPanId in bad <==> !(1 <= |req.extendedPanId| <= 16)
    ensures ThreadNetworkKey in bad <==> !(1 <= |req.networkKey| <= 32)
    ensures ThreadUnknownFlag in bad <==> !(0 <= req.unknownFlag <= 255)
  {
    FieldValidClosedForm(req, Hkid);
    FieldValidClosedForm(req, ThreadNetworkName);
    FieldValidClosedForm(req, ThreadChannel);
    FieldValidClosedForm(req, ThreadPanId);
    FieldValidClosedForm(req, ThreadExtendedPanId);
    FieldValidClosedForm(req, ThreadNetworkKey);
    FieldValidClosedForm(req, ThreadUnknownFlag);
    set a | a in ALL_ATTRS && !FieldValid(req, a)
  }

  predicate Accepted(req: ProvisionRequest)
  {
    Violations(req) == {}
  }

  /** The schema accepts a payload exactly when its six thread fields lie in their documented ranges. */
  lemma {:induction false} AcceptedIff(req: ProvisionRequest)
    ensures Accepted(req) <==>
      && |req.networkName| <= 16
      && 11 <= req.channel <= 26
      && 1 <= |req.panId| <= 4
      && 1 <= |req.extendedPanId| <= 16
      && 1 <= |req.networkKey| <= 32
      && 0 <= req.unknownFlag <= 255
  {
    if !Accepted(req) {
      var a :| a in Violations(req);
    }
  }

  /** A network name of 16 characters passes and one of 17 is refused, whatever the other fields. */
  lemma NetworkNameBoundary(req: ProvisionRequest)
    ensures |req.networkName| == 17 ==> ThreadNetworkName in Violations(req)
    ensures |req.networkName| == 16 ==> ThreadNetworkName !in Violations(req)
  {
    assert Schema(ThreadNetworkName)[0] == Length(None, Some(16));
  }

  /** The text the handler logs before dispatching, one (key, shown value) pair per field. */
  const REDACTED := "REDACTED"

  function LogRecord(req: ProvisionRequest): seq<(Attr, Value)>
  {
    [ (Hkid, Text(req.hkid)),
      (ThreadNetworkName, Text(req.networkName)),
      (ThreadChannel, Number(req.channel)),
      (ThreadPanId, Text(req.panId)),
      (ThreadExtendedPanId, Text(req.extendedPanId)),
      (ThreadNetworkKey, Text(REDACTED)),
      (ThreadUnknownFlag, Number(req.unknownFlag)) ]
  }

  /**
   * The logged record names every key once, shows every field except the network key as given,
   * shows the key only as REDACTED, and does not depend on the key at all.
   */
  lemma LogRecordRedactsKey(req: ProvisionRequest, otherKey: string)
    ensures LogRecord(req.(networkKey := otherKey)) == LogRecord(req)
    ensures forall a :: a in ALL_ATTRS <==> exists i :: 0 <= i < |LogRecord(req)| && LogRecord(req)[i].0 == a
    ensures forall i :: 0 <= i < |LogRecord(req)| ==>
      LogRecord(req)[i].1 == (if LogRecord(req)[i].0 == ThreadNetworkKey then Text(REDACTED) else Field(req, LogRecord(req)[i].0))
  {
    var rec := LogRecord(req);
    forall a | a in ALL_ATTRS
      ensures exists i :: 0 <= i < |rec| && rec[i].0 == a
    {
      match a
      case Hkid => assert rec[0].0 == a;
      case ThreadNetworkName => assert rec[1].0 == a;
      case ThreadChannel => assert rec[2].0 == a;
      case ThreadPanId => assert rec[3].0 == a;
      case ThreadExtendedPanId => assert rec[4].0 == a;
      case ThreadNetworkKey => assert rec[5].0 == a;
      case ThreadUnknownFlag => assert rec[6].0 == a;
    }
  }

  /** The six arguments the handler passes to pairing.thread_provision, in order. */
  datatype ThreadCredentials = ThreadCredentials(
    networkName: string,
    channel: int,
    panId: string,
    extendedPanId: string,
    networkKey: string,
    unknownFlag: int)

  function Credentials(req: ProvisionRequest): ThreadCredentials
  {
    ThreadCredentials(req.networkName, req.channel, req.panId, req.extendedPanId, req.networkKey, req.unknownFlag)
  }
}
