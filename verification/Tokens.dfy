/** The enumeration tokens: the String methods of topology/enums.go and the enum parsers of topology/parse.go. */
module Tokens {
  import opened Strings
  import opened Topology

  function PrintServiceKind(k: ServiceKind): string {
    match k
    case Application => "application"
    case Database => "database"
    case ExternalAPI => "external_api"
    case Cache => "cache"
    case Queue => "queue"
    case InvalidServiceKind => "unknown"
  }

  function ParseServiceKind(s: string): ServiceKind {
    var token := Fold(s);
    if token == "application" then Application
    else if token == "database" then Database
    else if token == "external_api" then ExternalAPI
    else if token == "cache" then Cache
    else if token == "queue" then Queue
    else InvalidServiceKind
  }

  function PrintProtocol(p: Protocol): string {
    match p
    case HTTP => "http"
    case GRPC => "grpc"
    case Messaging => "messaging"
    case InvalidProtocol => "unknown"
  }

  function ParseProtocol(s: string): Protocol {
    var token := Fold(s);
    if token == "http" then HTTP
    else if token == "grpc" then GRPC
    else if token == "messaging" then Messaging
    else InvalidProtocol
  }

  function PrintExhausted(a: ExhaustedAction): string {
    match a
    case Propagate => "propagate"
    case ReturnDefault => "return_default"
    case SucceedSilently => "succeed_silently"
    case InvalidExhausted => "unknown"
  }

  function ParseExhausted(s: string): ExhaustedAction {
    var token := Fold(s);
    if token == "" || token == "propagate" then Propagate
    else if token == "return_default" then ReturnDefault
    else if token == "succeed_silently" then SucceedSilently
    else InvalidExhausted
  }

  function PrintFaultKind(k: FaultKind): string {
    match k
    case LatencyInflation => "latency_inflation"
    case ErrorRateOverride => "error_rate_override"
    case Disconnect => "disconnect"
    case Crash => "crash"
    case InvalidFaultKind => "unknown"
  }

  function ParseFaultKind(s: string): FaultKind {
    var token := Fold(s);
    if token == "latency_inflation" then LatencyInflation
    else if token == "error_rate_override" then ErrorRateOverride
    else if token == "disconnect" then Disconnect
    else if token == "crash" then Crash
    else InvalidFaultKind
  }

  function PrintBackoff(p: BackoffPolicy): string {
    match p
    case Exponential => "exponential"
    case Linear => "linear"
    case Constant => "constant"
    case InvalidBackoff => "unknown"
  }

  function ParseBackoff(s: string): BackoffPolicy {
    var token := Fold(s);
    if token == "" || token == "exponential" then Exponential
    else if token == "linear" then Linear
    else if token == "constant" then Constant
    else InvalidBackoff
  }

  function PrintMetricType(t: MetricType): string {
    match t
    case Counter => "counter"
    case Gauge => "gauge"
    case Histogram => "histogram"
    case ObservableGauge => "observable_gauge"
    case ObservableCounter => "observable_counter"
    case InvalidMetricType => "unknown"
  }

  function ParseMetricType(s: string): MetricType {
    var token := Fold(s);
    if token == "counter" then Counter
    else if token == "gauge" then Gauge
    else if token == "histogram" then Histogram
    else if token == "observable_gauge" then ObservableGauge
    else if token == "observable_counter" then ObservableCounter
    else InvalidMetricType
  }

  function PrintCondition(c: LogCondition): string {
    match c
    case Always => "always"
    case OnSuccess => "on_success"
    case OnError => "on_error"
    case InvalidCondition => "unknown"
  }

  function ParseCondition(s: string): LogCondition {
    var token := Fold(s);
    if token == "" || token == "always" then Always
    else if token == "on_success" then OnSuccess
    else if token == "on_error" then OnError
    else InvalidCondition
  }

  function PrintSeverity(s: LogSeverity): string {
    match s
    case Trace => "trace"
    case Debug => "debug"
    case Info => "info"
    case Warn => "warn"
    case Error => "error"
    case Fatal => "fatal"
    case InvalidSeverity => "unknown"
  }

  function ParseSeverity(s: string): LogSeverity {
    var token := Fold(s);
    if token == "" || token == "info" then Info
    else if token == "trace" then Trace
    else if token == "debug" then Debug
    else if token == "warn" || token == "warning" then Warn
    else if token == "error" then Error
    else if token == "fatal" then Fatal
    else InvalidSeverity
  }

  // Every value, the invalid one included, is read back from its token.

  lemma ServiceKindRoundTrip(k: ServiceKind)
    ensures ParseServiceKind(PrintServiceKind(k)) == k
  {
    hide Fold;
    TokenFolds(PrintServiceKind(k));
  }

  lemma ProtocolRoundTrip(p: Protocol)
    ensures ParseProtocol(PrintProtocol(p)) == p
  {
    hide Fold;
    TokenFolds(PrintProtocol(p));
  }

  lemma ExhaustedRoundTrip(a: ExhaustedAction)
    ensures ParseExhausted(PrintExhausted(a)) == a
  {
    hide Fold;
    TokenFolds(PrintExhausted(a));
  }

  lemma FaultKindRoundTrip(k: FaultKind)
    ensures ParseFaultKind(PrintFaultKind(k)) == k
  {
    hide Fold;
    TokenFolds(PrintFaultKind(k));
  }

  lemma BackoffRoundTrip(b: BackoffPolicy)
    ensures ParseBackoff(PrintBackoff(b)) == b
  {
    hide Fold;
    TokenFolds(PrintBackoff(b));
  }

  lemma MetricTypeRoundTrip(t: MetricType)
    ensures ParseMetricType(PrintMetricType(t)) == t
  {
    hide Fold;
    TokenFolds(PrintMetricType(t));
  }

  lemma ConditionRoundTrip(c: LogCondition)
    ensures ParseCondition(PrintCondition(c)) == c
  {
    hide Fold;
    TokenFolds(PrintCondition(c));
  }

  lemma SeverityRoundTrip(s: LogSeverity)
    ensures ParseSeverity(PrintSeverity(s)) == s
  {
    hide Fold;
    TokenFolds(PrintSeverity(s));
  }

  /** Where a default is elided, the empty string reads as that default. */
  lemma DefaultTokens()
    ensures ParseExhausted("") == Propagate && ParseBackoff("") == Exponential
    ensures ParseCondition("") == Always && ParseSeverity("") == Info
  {
    TokenFolds("");
  }

  // ----- Every accepted spelling

  /** s is one of the tokens, in any letter case and between any blanks. */
  ghost predicate Reads(s: string, tokens: set<string>) {
    Fold(s) in tokens
  }

  lemma CallTokens(s: string)
    ensures ParseProtocol(s) == HTTP <==> Reads(s, {"http"})
    ensures ParseProtocol(s) == GRPC <==> Reads(s, {"grpc"})
    ensures ParseProtocol(s) == Messaging <==> Reads(s, {"messaging"})
    ensures ParseBackoff(s) == Exponential <==> Reads(s, {"", "exponential"})
    ensures ParseBackoff(s) == Linear <==> Reads(s, {"linear"})
    ensures ParseBackoff(s) == Constant <==> Reads(s, {"constant"})
    ensures ParseExhausted(s) == Propagate <==> Reads(s, {"", "propagate"})
    ensures ParseExhausted(s) == ReturnDefault <==> Reads(s, {"return_default"})
    ensures ParseExhausted(s) == SucceedSilently <==> Reads(s, {"succeed_silently"})
  {
    hide Fold;
  }

  lemma KindTokens(s: string)
    ensures ParseServiceKind(s) == Application <==> Reads(s, {"application"})
    ensures ParseServiceKind(s) == Database <==> Reads(s, {"database"})
    ensures ParseServiceKind(s) == ExternalAPI <==> Reads(s, {"external_api"})
    ensures ParseServiceKind(s) == Cache <==> Reads(s, {"cache"})
    ensures ParseServiceKind(s) == Queue <==> Reads(s, {"queue"})
    ensures ParseFaultKind(s) == LatencyInflation <==> Reads(s, {"latency_inflation"})
    ensures ParseFaultKind(s) == ErrorRateOverride <==> Reads(s, {"error_rate_override"})
    ensures ParseFaultKind(s) == Disconnect <==> Reads(s, {"disconnect"})
    ensures ParseFaultKind(s) == Crash <==> Reads(s, {"crash"})
  {
    hide Fold;
  }

  lemma TelemetryTokens(s: string)
    ensures ParseMetricType(s) == Counter <==> Reads(s, {"counter"})
    ensures ParseMetricType(s) == Gauge <==> Reads(s, {"gauge"})
    ensures ParseMetricType(s) == Histogram <==> Reads(s, {"histogram"})
    ensures ParseMetricType(s) == ObservableGauge <==> Reads(s, {"observable_gauge"})
    ensures ParseMetricType(s) == ObservableCounter <==> Reads(s, {"observable_counter"})
    ensures ParseCondition(s) == Always <==> Reads(s, {"", "always"})
    ensures ParseCondition(s) == OnSuccess <==> Reads(s, {"on_success"})
    ensures ParseCondition(s) == OnError <==> Reads(s, {"on_error"})
    ensures ParseSeverity(s) == Info <==> Reads(s, {"", "info"})
    ensures ParseSeverity(s) == Trace <==> Reads(s, {"trace"})
    ensures ParseSeverity(s) == Debug <==> Reads(s, {"debug"})
    ensures ParseSeverity(s) == Warn <==> Reads(s, {"warn", "warning"})
    ensures ParseSeverity(s) == Error <==> Reads(s, {"error"})
    ensures ParseSeverity(s) == Fatal <==> Reads(s, {"fatal"})
  {
    hide Fold;
  }

  /** Values outside the enumerations print as unknown, which nothing reads back as a value. */
  lemma UnknownPrints()
    ensures PrintServiceKind(InvalidServiceKind) == PrintProtocol(InvalidProtocol) == PrintExhausted(InvalidExhausted) == "unknown"
    ensures PrintFaultKind(InvalidFaultKind) == PrintBackoff(InvalidBackoff) == PrintMetricType(InvalidMetricType) == "unknown"
    ensures PrintCondition(InvalidCondition) == PrintSeverity(InvalidSeverity) == "unknown"
  {
  }
}
