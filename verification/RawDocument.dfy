/**
 The raw topology document of topology/raw.go: what YAML decoding yields and
 encoding takes.  Pointer fields are options; a nil list element is None, or a Nil
 constructor where the element type is recursive.
 */
module RawDocument {
  import opened Wrappers
  import opened Topology

  datatype RawFaultLink = RawFaultLink(kind: string, delta: Option<real>, value: Option<real>)

  datatype RawMetricSource = RawMetricSource(accumulator: string, minus: string)

  datatype RawMetric = RawMetric(
    name: string, typ: string, unit: string, baseline: Option<real>, condition: string,
    attributes: Payload, whenFault: Option<RawFaultLink>, source: Option<RawMetricSource>)

  datatype RawStateUpdate = RawStateUpdate(
    key: string, delta: Option<real>, condition: string, whenFault: Option<RawFaultLink>)

  datatype RawLogEvent = RawLogEvent(
    name: string, severity: string, condition: string, body: string, attributes: Payload)

  datatype RawStack = RawStack(frames: seq<string>, weight: real)

  datatype RawProfile = RawProfile(
    enabled: bool, sampleRate: Option<int>, baseline: seq<Option<RawStack>>, incident: seq<Option<RawStack>>,
    whenFault: Option<string>)

  datatype RawLatency = RawLatency(distribution: string, p50: Option<int>, p95: Option<int>)

  datatype RawCallTarget = RawCallTarget(service: string, operation: string)

  datatype RawCallNode = NilRawCall | RawCallNode(
    to: Option<RawCallTarget>,
    parallel: seq<RawCallNode>,
    protocol: string,
    latency: Option<RawLatency>,
    errorRate: Option<real>,
    timeout: Option<int>,
    retries: Option<int>,
    retryBackoff: string,
    retryBaseDelay: Option<int>,
    onFailure: Option<RawRecoveryPolicy>)

  datatype RawRecoveryPolicy = RawRecoveryPolicy(
    fallback: seq<RawCallNode>, onExhausted: string, defaultResponse: Payload)

  datatype RawOperation = NilRawOperation | RawOperation(
    name: string,
    calls: seq<RawCallNode>,
    logEvents: seq<Option<RawLogEvent>>,
    metrics: seq<Option<RawMetric>>,
    stateUpdates: seq<Option<RawStateUpdate>>,
    profile: Option<RawProfile>)

  datatype RawService = RawService(
    ns: string, kind: string, replicas: Option<int>, language: string, framework: string, version: string,
    metrics: seq<Option<RawMetric>>, operations: seq<RawOperation>)

  datatype RawStep = NilRawStep | RawStep(service: string, operation: string, parallel: seq<RawStep>)

  datatype RawJourney = RawJourney(steps: seq<RawStep>, weight: Option<real>)

  datatype RawSeverity = RawSeverity(
    probability: Option<real>, multiplier: Option<real>, add: Option<int>, value: Option<real>)

  datatype RawSchedulePoint = RawSchedulePoint(at: Option<int>, intensity: Option<real>)

  datatype RawFault = RawFault(
    target: string, kind: string, severity: Option<RawSeverity>, schedule: seq<Option<RawSchedulePoint>>)

  datatype RawSchema = RawSchema(
    ns: string,
    services: map<string, Option<RawService>>,
    journeys: map<string, Option<RawJourney>>,
    faults: seq<Option<RawFault>>)

  const EMPTY_CALL := RawCallNode(None, [], "", None, None, None, None, "", None, None)
  const EMPTY_OPERATION := RawOperation("", [], [], [], [], None)
  const EMPTY_SERVICE := RawService("", "", None, "", "", "", [], [])
  const EMPTY_JOURNEY := RawJourney([], None)

  /** The non-nil elements, in order. */
  function Somes<T>(xs: seq<Option<T>>): seq<T> {
    if xs == [] then [] else Somes(xs[..|xs| - 1]) + (if xs[|xs| - 1].Some? then [xs[|xs| - 1].value] else [])
  }

  function Present<T>(xs: seq<T>): (ys: seq<Option<T>>)
    ensures |ys| == |xs| && forall i | 0 <= i < |xs| :: ys[i] == Some(xs[i])
  {
    seq(|xs|, i requires 0 <= i < |xs| => Some(xs[i]))
  }

  function Map<A, B>(f: A -> B, xs: seq<A>): (ys: seq<B>)
    ensures |ys| == |xs| && forall i | 0 <= i < |xs| :: ys[i] == f(xs[i])
  {
    seq(|xs|, i requires 0 <= i < |xs| => f(xs[i]))
  }

  lemma {:induction false} SomesPresent<T>(xs: seq<T>)
    ensures Somes(Present(xs)) == xs
    decreases xs
  {
    if xs != [] {
      var n := |xs| - 1;
      assert Present(xs)[..n] == Present(xs[..n]);
      SomesPresent(xs[..n]);
      assert xs == xs[..n] + [xs[n]];
    }
  }

  /** Printing a list and reading it back keeps what printing and reading one element keeps. */
  lemma ListRoundTrip<A, R>(xs: seq<A>, print1: A -> R, read: R -> A, kept: A -> A)
    requires forall i | 0 <= i < |xs| :: read(print1(xs[i])) == kept(xs[i])
    ensures Map(read, Somes(Present(Map(print1, xs)))) == Map(kept, xs)
  {
    SomesPresent(Map(print1, xs));
  }
}
