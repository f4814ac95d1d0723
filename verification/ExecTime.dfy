/** Where spans lie in time, and how retries and timeouts account for it. */
module ExecTime {
  import opened Wrappers
  import opened Topology
  import opened Plan
  import opened ExecModel
  import opened Interp
  import opened ExecCascade

  // ----- Retry delays in closed form

  /** The unit of all delays: what the edge sets, or 100ms. */
  function BaseDelay(edge: Edge): int
    requires edge.Edge?
  {
    if edge.retryBaseDelay != 0 then edge.retryBaseDelay else 100_000_000
  }

  /** The delay before attempt k (counted from 0) that the retry law intends. */
  function ExactDelay(edge: Edge, k: nat): int {
    if edge.NilEdge? || k == 0 then 0
    else
      match edge.retryBackoff
      case Constant => BaseDelay(edge)
      case Linear => k * BaseDelay(edge)
      case _ => Pow2(k - 1) * BaseDelay(edge)
  }

  /** All the delays before attempt k together. */
  function TotalBackoff(edge: Edge, k: nat): int {
    if edge.NilEdge? then 0
    else
      match edge.retryBackoff
      case Constant => BaseDelay(edge) * k
      case Linear => BaseDelay(edge) * (k * (k + 1) / 2)
      case _ => BaseDelay(edge) * (Pow2(k) - 1)
  }

  /** The closed form is the sum of the delays. */
  lemma BackoffAdds(edge: Edge, k: nat)
    requires k > 0
    ensures TotalBackoff(edge, k) == TotalBackoff(edge, k - 1) + ExactDelay(edge, k)
    ensures TotalBackoff(edge, 0) == 0
  {
    if edge.Edge? {
      var b := BaseDelay(edge);
      match edge.retryBackoff {
        case Constant =>
          assert b * k == b * (k - 1) + b;
        case Linear =>
          assert k * (k + 1) == (k - 1) * k + 2 * k;
          assert k * (k + 1) / 2 == (k - 1) * k / 2 + k;
          assert b * ((k - 1) * k / 2 + k) == b * ((k - 1) * k / 2) + k * b;
        case _ =>
          assert Pow2(k) == 2 * Pow2(k - 1);
          assert b * (2 * Pow2(k - 1) - 1) == b * (Pow2(k - 1) - 1) + Pow2(k - 1) * b;
      }
    }
  }

  lemma {:induction false} Pow2Grows(a: nat, b: nat)
    requires a <= b
    ensures 1 <= Pow2(a) <= Pow2(b)
    ensures Pow2(a) >= a + 1
    decreases b
  {
    if a < b {
      Pow2Grows(a, b - 1);
    } else if a > 0 {
      Pow2Grows(a - 1, a - 1);
    }
  }

  lemma Pow2Of63()
    ensures Pow2(62) == 0x4000_0000_0000_0000 && Pow2(63) == 0x8000_0000_0000_0000
  {
    assert Pow2(8) == 256;
    Pow2Sum(8, 8);
    Pow2Sum(16, 16);
    Pow2Sum(32, 16);
    Pow2Sum(48, 8);
    assert Pow2(6) == 64;
    Pow2Sum(56, 6);
    assert Pow2(63) == 2 * Pow2(62);
  }

  lemma {:induction false} Pow2Sum(a: nat, b: nat)
    ensures Pow2(a + b) == Pow2(a) * Pow2(b)
  {
    if a > 0 {
      Pow2Sum(a - 1, b);
      assert Pow2(a + b) == 2 * Pow2(a - 1 + b);
      assert 2 * (Pow2(a - 1) * Pow2(b)) == (2 * Pow2(a - 1)) * Pow2(b);
    }
  }

  const MAX_INT64: int := 0x7fff_ffff_ffff_ffff

  /** The retry delay is the intended one exactly when that fits in an int64. */
  lemma DelayExactIffFits(edge: Edge, k: nat)
    requires edge.Edge? && 0 <= edge.retryBaseDelay <= MAX_INT64
    ensures RetryBackoffDelay(edge, k) == ExactDelay(edge, k) <==> ExactDelay(edge, k) <= MAX_INT64
  {
    hide Pow2, Shl64;
    if k > 0 && !edge.retryBackoff.Constant? && !edge.retryBackoff.Linear? { ShiftExactOrLarge(k - 1, BaseDelay(edge)); }
  }

  /** The shifted factor is the power of two, or the product is beyond an int64 anyway. */
  lemma ShiftExactOrLarge(n: nat, b: int)
    requires b >= 1
    ensures n < 63 ==> Shl64(n) == Pow2(n)
    ensures n >= 63 ==> Pow2(n) * b > MAX_INT64
  {
    Pow2Of63();
    if n >= 63 {
      Pow2Grows(63, n);
      MulGrows(1, b, Pow2(n));
    } else {
      Pow2Grows(n, 62);
    }
  }

  // Every delay, fitting or not, is the intended one as far as 64 bits can hold it.

  const WORD: int := 0x1_0000_0000_0000_0000

  lemma WrapDrops(x: int, q: int)
    ensures Wrap64(x + q * WORD) == Wrap64(x)
    ensures -0x8000_0000_0000_0000 <= Wrap64(x) <= MAX_INT64
    ensures -0x8000_0000_0000_0000 <= x <= MAX_INT64 ==> Wrap64(x) == x
  {
    assert (x + 0x8000_0000_0000_0000 + q * WORD) % WORD == (x + 0x8000_0000_0000_0000) % WORD by {
      ModDrops(x + 0x8000_0000_0000_0000, q);
    }
  }

  lemma ModDrops(y: int, q: int)
    ensures (y + q * WORD) % WORD == y % WORD
  {
    var r, d := y % WORD, y / WORD;
    assert y == d * WORD + r;
    assert y + q * WORD == (d + q) * WORD + r;
    UniqueRemainder(y + q * WORD, d + q, r);
  }

  lemma UniqueRemainder(y: int, d: int, r: int)
    requires y == d * WORD + r && 0 <= r < WORD
    ensures y % WORD == r
  {
  }

  /** Shifting keeps the power of two but for whole words. */
  lemma ShiftDrops(n: nat) returns (q: int)
    ensures Shl64(n) == Pow2(n) + q * WORD
  {
    Pow2Of63();
    if n >= 64 {
      Pow2Sum(64, n - 64);
      Pow2Sum(63, 1);
      assert Pow2(1) == 2 && Pow2(64) == WORD;
      q := 0 - Pow2(n - 64);
    } else if n == 63 {
      q := -1;
    } else {
      Pow2Grows(n, 62);
      q := 0;
    }
  }

  /** The delay is the intended one wrapped into an int64, whatever the retry count. */
  lemma DelayWraps(edge: Edge, k: nat)
    requires edge.Edge? && 0 <= edge.retryBaseDelay <= MAX_INT64
    ensures RetryBackoffDelay(edge, k) == Wrap64(ExactDelay(edge, k))
    ensures exists q :: RetryBackoffDelay(edge, k) == ExactDelay(edge, k) + q * WORD
  {
    var b := BaseDelay(edge);
    hide Pow2, Shl64, Wrap64;
    WrapDrops(ExactDelay(edge, k), 0);
    WrapDrops(0, 0);
    if k > 0 && !edge.retryBackoff.Constant? && !edge.retryBackoff.Linear? {
      var q := ShiftDrops(k - 1);
      assert (Pow2(k - 1) + q * WORD) * b == Pow2(k - 1) * b + (q * b) * WORD;
      WrapDrops(Pow2(k - 1) * b, q * b);
    }
    WrapsTo(ExactDelay(edge, k));
  }

  lemma WrapsTo(x: int)
    ensures exists q :: Wrap64(x) == x + q * WORD
  {
    var y := x + 0x8000_0000_0000_0000;
    assert y == (y / WORD) * WORD + y % WORD;
    assert Wrap64(x) == x + (-(y / WORD)) * WORD;
  }

  /** A 38th retry at the default delay is past int64, and the wrapped delay runs backwards. */
  lemma OverflowingRetry(edge: Edge)
    requires edge.Edge? && edge.retryBackoff.Exponential? && edge.retryBaseDelay == 0
    ensures ExactDelay(edge, 38) == 13_743_895_347_200_000_000 > MAX_INT64
    ensures RetryBackoffDelay(edge, 38) == -4_702_848_726_509_551_616
  {
    assert Pow2(8) == 256 && Pow2(5) == 32;
    Pow2Sum(8, 8);
    Pow2Sum(16, 16);
    Pow2Sum(32, 5);
    assert Pow2(37) == 137_438_953_472;
  }

  /** Every delay the edge can ask for fits; a caller can check it from the retry settings alone. */
  predicate DelaysFit(edge: Edge) {
    edge.Edge? && edge.retries > 0 ==>
      && 0 <= edge.retryBaseDelay <= MAX_INT64
      && ExactDelay(edge, edge.retries) <= MAX_INT64
  }

  lemma MulGrows(j: int, k: int, b: int)
    requires 0 <= j <= k && 0 <= b
    ensures 0 <= j * b <= k * b
  {
  }

  lemma DelaysGrow(edge: Edge, j: nat, k: nat)
    requires edge.Edge? && edge.retryBaseDelay >= 0 && j <= k
    ensures 0 <= ExactDelay(edge, j) <= ExactDelay(edge, k)
  {
    if j > 0 { Pow2Grows(j - 1, k - 1); }
    if k > 0 {
      Pow2Grows(k - 1, k - 1);
      var b := BaseDelay(edge);
      MulGrows(j, k, b);
      MulGrows(if j > 0 then Pow2(j - 1) else 0, Pow2(k - 1), b);
    }
  }

  lemma FittingDelays(edge: Edge, k: nat)
    requires DelaysFit(edge) && k < Attempts(edge)
    ensures RetryBackoffDelay(edge, k) == ExactDelay(edge, k) >= 0
    ensures k == 0 ==> ExactDelay(edge, k) == 0
  {
    if k > 0 {
      hide RetryBackoffDelay, ExactDelay;
      DelaysGrow(edge, k, edge.retries);
      DelayExactIffFits(edge, k);
    }
  }

  // ----- Retry accounting

  function LatencySum(attempts: seq<Attempt>): int {
    if attempts == [] then 0 else attempts[0].latency + LatencySum(attempts[1..])
  }

  /** Attempt i of the list, which is attempt k + i of the sequence, starts after all that came before. */
  ghost predicate Accounted(edge: Edge, attempts: seq<Attempt>, origin: int, k: nat) {
    forall i | 0 <= i < |attempts| ::
      attempts[i].start == origin + LatencySum(attempts[..i]) + TotalBackoff(edge, k + i)
  }

  /** The backoff already spent when attempt k is about to wait. */
  function BackoffBefore(edge: Edge, k: nat): int {
    if k == 0 then 0 else TotalBackoff(edge, k - 1)
  }

  lemma BackoffStep(edge: Edge, k: nat)
    requires DelaysFit(edge) && k < Attempts(edge)
    ensures BackoffBefore(edge, k) + RetryBackoffDelay(edge, k) == TotalBackoff(edge, k)
  {
    hide RetryBackoffDelay, TotalBackoff;
    FittingDelays(edge, k);
    BackoffAdds(edge, if k > 0 then k else 1);
  }

  /** done is the latency of the attempts before the k-th. */
  lemma {:induction false} AttemptsAccounted(env: Env, node: Node, start: int, k: nat, done: int, total: int, st: State)
    requires k < Attempts(node.edge) && DelaysFit(node.edge)
    requires total == done + BackoffBefore(node.edge, k)
    ensures
      var t := RunAttempts(env, node, start, k, total, st);
      && 1 <= |t.attempts| <= Attempts(node.edge) - k
      && Accounted(node.edge, t.attempts, start + done, k)
      && t.total == done + LatencySum(t.attempts) + TotalBackoff(node.edge, k + |t.attempts| - 1)
    decreases Attempts(node.edge) - k
  {
    hide RunSingle, TotalBackoff, RetryBackoffDelay, DelaysFit, Accounted;
    var edge := node.edge;
    BackoffStep(edge, k);
    var begun := total + RetryBackoffDelay(edge, k);
    var r := RunSingle(env, node, start + begun, st);
    var now := begun + r.outcome.latency;
    var head := Attempt(start + begun, r.outcome.latency);
    if r.outcome.success || r.outcome.errorType.ContextCanceled? || k + 1 == Attempts(edge) {
      AccountedOne(edge, head, start + done, k);
    } else {
      AttemptsAccounted(env, node, start, k + 1, done + r.outcome.latency, now, r.st);
      var rest := RunAttempts(env, node, start, k + 1, now, r.st);
      AccountedCons(edge, head, rest.attempts, start + done, k);
    }
  }

  lemma AccountedOne(edge: Edge, head: Attempt, origin: int, k: nat)
    requires head.start == origin + TotalBackoff(edge, k)
    ensures Accounted(edge, [head], origin, k)
    ensures LatencySum([head]) == head.latency
  {
    assert [head][..0] == [];
  }

  lemma AccountedCons(edge: Edge, head: Attempt, rest: seq<Attempt>, origin: int, k: nat)
    requires head.start == origin + TotalBackoff(edge, k)
    requires Accounted(edge, rest, origin + head.latency, k + 1)
    ensures Accounted(edge, [head] + rest, origin, k)
    ensures LatencySum([head] + rest) == head.latency + LatencySum(rest)
  {
    var all := [head] + rest;
    assert all[1..] == rest;
    forall i | 0 <= i < |all|
      ensures all[i].start == origin + LatencySum(all[..i]) + TotalBackoff(edge, k + i)
    {
      if i > 0 {
        assert all[..i][1..] == rest[..i - 1];
        assert rest[i - 1].start == origin + head.latency + LatencySum(rest[..i - 1]) + TotalBackoff(edge, k + 1 + (i - 1));
      } else {
        assert all[..0] == [];
      }
    }
  }

  /** From the first attempt on: earlier latencies plus the closed-form backoff. */
  lemma RetryAccounting(env: Env, node: Node, start: int, st: State)
    requires DelaysFit(node.edge)
    ensures
      var t := RunAttempts(env, node, start, 0, 0, st);
      && 1 <= |t.attempts| <= Attempts(node.edge)
      && (forall i | 0 <= i < |t.attempts| ::
            t.attempts[i].start == start + LatencySum(t.attempts[..i]) + TotalBackoff(node.edge, i))
      && t.total == LatencySum(t.attempts) + TotalBackoff(node.edge, |t.attempts| - 1)
  {
    hide RunAttempts;
    AttemptsAccounted(env, node, start, 0, 0, 0, st);
    var t := RunAttempts(env, node, start, 0, 0, st);
    assert Accounted(node.edge, t.attempts, start, 0);
  }

  /** Without recovery, a failed sequence on a timed edge ends within the timeout and says so if it overran. */
  lemma TimeoutCaps(env: Env, node: Node, start: int, st: State)
    requires node.edge.Edge? && node.edge.timeout > 0 && node.edge.onFailure.None?
    requires !RunSequence(env, node, start, st).outcome.success
    ensures
      var t := RunAttempts(env, node, start, 0, 0, st);
      var o := RunSequence(env, node, start, st).outcome;
      && o.latency == (if t.total > node.edge.timeout then node.edge.timeout else t.total)
      && (t.total > node.edge.timeout ==>
            if node.edge.protocol.GRPC? then o.errorType == GrpcDeadlineExceeded && o.statusCode == 4
            else o.errorType == Timeout && o.statusCode == 504)
      && (t.total <= node.edge.timeout ==> o.errorType == t.outcome.errorType && o.statusCode == t.outcome.statusCode)
  {
    hide RunAttempts, RunKids;
  }

  // ----- Time containment

  /** Settings no attempt can go wrong with: a nonnegative latency and delays that fit. */
  predicate Steady(e: Edge) {
    DelaysFit(e) && (e.Edge? ==> e.latency.p50 >= 0)
  }

  /** A timeout is harmless on a call to a leaf that is not retried; fallbacks are such calls at every depth. */
  predicate EdgeCalm(e: Edge, leaf: bool)
    decreases e, 1
  {
    Steady(e) && FallbacksCalm(e) && (e.Edge? && e.timeout > 0 ==> leaf && e.retries <= 0)
  }

  predicate FallbacksCalm(e: Edge)
    decreases e, 0
  {
    e.Edge? && e.onFailure.Some? ==>
      forall i | 0 <= i < |e.onFailure.value.fallback| :: EdgeCalm(e.onFailure.value.fallback[i], true)
  }

  predicate Calm(n: Node)
    decreases n
  {
    && EdgeCalm(n.edge, n.children == [])
    && (forall i | 0 <= i < |n.parallel| :: Calm(n.parallel[i]))
    && (forall i | 0 <= i < |n.children| :: Calm(n.children[i]))
  }

  /** Everything below the node is calm; its own timeout and retries are free. */
  predicate CalmBelow(n: Node) {
    Steady(n.edge) && FallbacksCalm(n.edge) && forall i | 0 <= i < |n.children| :: Calm(n.children[i])
  }

  /** Operation spans lie in [lo, hi] and their operation kids inside them; producer spans may stick out. */
  ghost predicate Within(spans: seq<Span>, lo: int, hi: int)
    decreases spans
  {
    forall i | 0 <= i < |spans| ::
      spans[i].info.role.OperationSpan? ==>
        lo <= spans[i].start <= spans[i].end <= hi && Within(spans[i].kids, spans[i].start, spans[i].end)
  }

  lemma WithinJoin(a: seq<Span>, b: seq<Span>, lo: int, mid: int, mid': int, hi: int)
    requires Within(a, lo, mid) && Within(b, mid', hi)
    requires lo <= mid' && mid <= hi
    ensures Within(a + b, lo, hi)
  {
    forall i | 0 <= i < |a + b|
      ensures (a + b)[i] == if i < |a| then a[i] else b[i - |a|]
    {
    }
  }

  lemma WithinNone(at: int)
    ensures Within([], at, at)
  {
  }

  lemma WithinWiden(a: seq<Span>, lo: int, hi: int, lo': int, hi': int)
    requires Within(a, lo, hi) && lo' <= lo && hi <= hi'
    ensures Within(a, lo', hi')
  {
  }

  lemma FloorNonNegative(x: real)
    requires x >= 0.0
    ensures x.Floor >= 0
  {
  }

  lemma InflationNonNegative(spec: FaultSpec, intensity: real)
    ensures SampleInflation(spec, intensity) >= 0
  {
    var add := if spec.severity.add < 0 then 0 else spec.severity.add;
    var level := if intensity < 0.0 then 0.0 else intensity;
    if spec.severity.multiplier <= 1.0 {
      assert add as real * level >= 0.0;
      FloorNonNegative(add as real * level);
    } else {
      var extra := (spec.severity.multiplier - 1.0) * DEFAULT_ENTRY_LATENCY as real;
      FloorNonNegative(extra);
      var base := add + extra.Floor;
      assert base as real * level >= 0.0;
      FloorNonNegative(base as real * level);
    }
  }

  lemma {:induction false} NodeFaultsInflate(env: Env, specs: seq<FaultSpec>, ff: Folded, st: State)
    ensures FoldNodeFaults(env, specs, ff, st).0.inflate >= ff.inflate
    decreases specs
  {
    if specs != [] {
      InflationNonNegative(specs[0], FaultIntensityFor(env, specs[0], st).0);
      var (ff1, st1) := NodeFault(env, specs[0], ff, st);
      NodeFaultsInflate(env, specs[1..], ff1, st1);
    }
  }

  lemma {:induction false} EdgeFaultsInflate(env: Env, specs: seq<FaultSpec>, ff: Folded, st: State)
    ensures FoldEdgeFaults(env, specs, ff, st).0.inflate >= ff.inflate
    decreases specs
  {
    if specs != [] {
      InflationNonNegative(specs[0], FaultIntensityFor(env, specs[0], st).0);
      var (ff1, st1) := EdgeFault(env, specs[0], ff, st);
      EdgeFaultsInflate(env, specs[1..], ff1, st1);
    }
  }

  lemma {:induction false} OperationFaultsInflate(env: Env, node: Node, specs: seq<FaultSpec>, ff: Folded, st: State)
    ensures FoldOperationFaults(env, node, specs, ff, st).0.inflate >= ff.inflate
    decreases specs
  {
    if specs != [] {
      InflationNonNegative(specs[0], FaultIntensityFor(env, specs[0], st).0);
      var (ff1, st1) := OperationFault(env, node, specs[0], ff, st);
      OperationFaultsInflate(env, node, specs[1..], ff1, st1);
    }
  }

  lemma FoldedInflation(env: Env, node: Node, st: State)
    ensures FoldFaults(env, node, st).0.inflate >= 0
  {
    hide FoldNodeFaults, FoldEdgeFaults, FoldOperationFaults;
    var (ff1, st1) := FoldNodeFaults(env, SpecsOfNode(env, node), NO_FAULT, st);
    NodeFaultsInflate(env, SpecsOfNode(env, node), NO_FAULT, st);
    var native := NativeErrorRate(env, node, ff1);
    var (ff2, st2) := FoldEdgeFaults(env, SpecsOfEdge(env, node), native, st1);
    EdgeFaultsInflate(env, SpecsOfEdge(env, node), native, st1);
    OperationFaultsInflate(env, node, SpecsOfOperation(env, node), ff2, st2);
  }

  lemma SampledLatency(env: Env, edge: Edge, st: State)
    requires Sane(env) && (edge.Edge? ==> edge.latency.p50 >= 0)
    ensures SampleEdgeLatency(env, edge, st).0 >= 0
  {
    if edge.Edge? && edge.latency.distribution == "uniform" && edge.latency.p95 > edge.latency.p50 {
      var u := env.float(st.cursor);
      assert u * (edge.latency.p95 - edge.latency.p50) as real >= 0.0;
      FloorNonNegative(u * (edge.latency.p95 - edge.latency.p50) as real);
    }
  }

  /** A run's latency is nonnegative and covers its spans. */
  ghost predicate Covers(r: Run, start: int) {
    r.outcome.latency >= 0 && Within(r.spans, start, start + r.outcome.latency)
  }

  lemma {:induction false} NodeContained(env: Env, node: Node, parent: Option<Outcome>, start: int, st: State)
    requires Sane(env) && Calm(node)
    ensures Covers(RunNode(env, node, parent, start, st), start)
    decreases NodeSize(node), 4
  {
    if |node.parallel| > 0 {
      BranchesContained(env, node.parallel, parent, start, st);
      hide RunBranches;
      var b := RunBranches(env, node.parallel, parent, start, st);
      AggregateIsSlowest(SUCCESS, b.outcomes);
    } else if node.service.None? {
      StepsContained(env, node.children, parent, start, 0, SUCCESS, st);
    } else if parent.None? || parent.value.success {
      SequenceContained(env, node, start, st);
    } else {
      NodeCascades(env, node, parent.value, start, st);
      RepeatsWithin(RunNode(env, node, parent, start, st).spans, start, parent.value);
    }
  }

  function Slowest(outcomes: seq<Outcome>): (hi: int)
    ensures hi >= 0
  {
    if outcomes == [] then 0
    else
      var rest := Slowest(outcomes[1..]);
      if outcomes[0].latency > rest then outcomes[0].latency else rest
  }

  lemma {:induction false} AggregateIsSlowest(agg: Outcome, outcomes: seq<Outcome>)
    requires agg.latency >= 0
    ensures AggregateFrom(agg, outcomes).latency
         == (if agg.latency > Slowest(outcomes) then agg.latency else Slowest(outcomes))
    decreases outcomes
  {
    if outcomes != [] {
      AggregateIsSlowest(AggregateOne(agg, outcomes[0]), outcomes[1..]);
    }
  }

  lemma {:induction false} BranchesContained(env: Env, ns: seq<Node>, parent: Option<Outcome>, start: int, st: State)
    requires Sane(env) && forall i | 0 <= i < |ns| :: Calm(ns[i])
    ensures var b := RunBranches(env, ns, parent, start, st); Within(b.spans, start, start + Slowest(b.outcomes))
    decreases NodesSize(ns), 5
  {
    hide RunNode, Calm, Within;
    WithinNone(start);
    if ns != [] {
      NodeContained(env, ns[0], parent, start, st);
      var r := RunNode(env, ns[0], parent, start, st);
      BranchesContained(env, ns[1..], parent, start, r.st);
      var rest := RunBranches(env, ns[1..], parent, start, r.st);
      var all := [r.outcome] + rest.outcomes;
      assert all[1..] == rest.outcomes;
      WithinWiden(rest.spans, start, start + Slowest(rest.outcomes), start, start + Slowest(all));
      WithinJoin(r.spans, rest.spans, start, start + r.outcome.latency, start, start + Slowest(all));
    }
  }

  lemma {:induction false} StepsContained(env: Env, ns: seq<Node>, parent: Option<Outcome>, start: int, total: int,
                                          last: Outcome, st: State)
    requires Sane(env) && forall i | 0 <= i < |ns| :: Calm(ns[i])
    ensures var r := RunSteps(env, ns, parent, start, total, last, st);
            r.outcome.latency >= total && Within(r.spans, start + total, start + r.outcome.latency)
    decreases NodesSize(ns), 5
  {
    hide RunNode, Calm, Within;
    WithinNone(start + total);
    if ns != [] {
      NodeContained(env, ns[0], parent, start + total, st);
      var r := RunNode(env, ns[0], parent, start + total, st);
      var parent' := if r.outcome.success then parent else Some(r.outcome);
      var total' := total + r.outcome.latency;
      StepsContained(env, ns[1..], parent', start, total', r.outcome, r.st);
      var rest := RunSteps(env, ns[1..], parent', start, total', r.outcome, r.st);
      WithinJoin(r.spans, rest.spans, start + total, start + total', start + total', start + rest.outcome.latency);
    }
  }

  lemma {:induction false} KidsContained(env: Env, ns: seq<Node>, parent: Outcome, start: int, total: int, st: State)
    requires Sane(env) && forall i | 0 <= i < |ns| :: Calm(ns[i])
    ensures var k := RunKids(env, ns, parent, start, total, st);
            k.total >= total && Within(k.spans, start + total, start + k.total)
    decreases NodesSize(ns), 5
  {
    hide RunNode, Calm, Within;
    WithinNone(start + total);
    if ns != [] {
      NodeContained(env, ns[0], Some(parent), start + total, st);
      var r := RunNode(env, ns[0], Some(parent), start + total, st);
      var total' := total + r.outcome.latency;
      if r.outcome.success || !parent.success {
        KidsContained(env, ns[1..], parent, start, total', r.st);
        var rest := RunKids(env, ns[1..], parent, start, total', r.st);
        WithinJoin(r.spans, rest.spans, start + total, start + total', start + total', start + rest.total);
      }
    }
  }

  lemma OpeningLatency(env: Env, node: Node, st: State)
    requires Sane(env) && Steady(node.edge)
    ensures var opening := OpenAttempt(env, node, st).0;
            (opening.Stopped? ==> opening.outcome.latency >= 0) && (opening.Live? ==> opening.latency >= 0)
  {
    hide FoldFaults, SampleEdgeLatency, DelaysFit;
    var (ff, st1) := FoldFaults(env, node, st);
    var (instance, st2) := RandIntN(env, Replicas(env, node), st1);
    FoldedInflation(env, node, st);
    SampledLatency(env, node.edge, st2);
  }

  lemma {:induction false} SingleContained(env: Env, node: Node, start: int, st: State)
    requires Sane(env) && CalmBelow(node)
    ensures Covers(RunSingle(env, node, start, st), start)
    decreases NodeSize(node), 1
  {
    hide OpenAttempt, RunKids, ProducerSpans, Within;
    OpeningLatency(env, node, st);
    var (opening, instance, st1) := OpenAttempt(env, node, st);
    var sent := ProducerSpans(env, node.edge, start);
    ProducersWithin(env, node.edge, start);
    WithinNone(start);
    match opening {
      case Stopped(o) =>
        FinishedContained(node, instance, sent, start, o, st1, []);
      case Live(forced, errorType, latency) =>
        KidsContained(env, node.children, SUCCESS, start, latency, st1);
        var kids := RunKids(env, node.children, SUCCESS, start, latency, st1);
        WithinWiden(kids.spans, start + latency, start + kids.total, start, start + kids.total);
        FinishedContained(node, instance, sent, start, AttemptOutcome(forced, errorType, kids.total), kids.st, kids.spans);
    }
  }

  lemma FinishedContained(node: Node, instance: int, sent: seq<Span>, start: int, o: Outcome, st: State, kids: seq<Span>)
    requires o.latency >= 0 && Within(sent, start, start)
    requires Within(kids, start, start + o.latency) || kids == []
    ensures Covers(Finished(node, instance, sent, start, o, st, kids), start)
  {
    var own := OperationSpanOf(node, instance, start, start + o.latency, o, kids);
    assert Within([own], start, start + o.latency);
    WithinJoin(sent, [own], start, start, start, start + o.latency);
  }

  lemma ProducersWithin(env: Env, edge: Edge, start: int)
    ensures Within(ProducerSpans(env, edge, start), start, start)
  {
  }

  lemma {:induction false} AttemptsContained(env: Env, node: Node, start: int, k: nat, total: int, st: State)
    requires Sane(env) && CalmBelow(node) && k < Attempts(node.edge)
    ensures var t := RunAttempts(env, node, start, k, total, st);
            t.total >= total && Within(t.spans, start + total, start + t.total)
    decreases NodeSize(node), 2, Attempts(node.edge) - k
  {
    hide RunSingle, RetryBackoffDelay, Within, DelaysFit, Calm, FallbacksCalm;
    FittingDelays(node.edge, k);
    var begun := total + RetryBackoffDelay(node.edge, k);
    SingleContained(env, node, start + begun, st);
    var r := RunSingle(env, node, start + begun, st);
    var now := begun + r.outcome.latency;
    if r.outcome.success || r.outcome.errorType.ContextCanceled? || k + 1 == Attempts(node.edge) {
      WithinWiden(r.spans, start + begun, start + now, start + total, start + now);
    } else {
      AttemptsContained(env, node, start, k + 1, now, r.st);
      var rest := RunAttempts(env, node, start, k + 1, now, r.st);
      WithinWiden(r.spans, start + begun, start + now, start + total, start + now);
      WithinJoin(r.spans, rest.spans, start + total, start + now, start + now, start + rest.total);
    }
  }

  lemma SingleEnds(env: Env, node: Node, start: int, st: State)
    ensures var r := RunSingle(env, node, start, st);
      r.spans != [] && r.spans[|r.spans| - 1].info.role.OperationSpan? && r.spans[|r.spans| - 1].end == start + r.outcome.latency
  {
    hide OpenAttempt, RunKids, ProducerSpans;
  }

  /** The last attempt's own span closes the attempts, at the uncapped total. */
  lemma {:induction false} LastAttemptEnds(env: Env, node: Node, start: int, k: nat, total: int, st: State)
    requires k < Attempts(node.edge)
    ensures var t := RunAttempts(env, node, start, k, total, st);
      && t.spans != []
      && t.spans[|t.spans| - 1].info.role.OperationSpan? && t.spans[|t.spans| - 1].end == start + t.total
    decreases Attempts(node.edge) - k
  {
    hide RetryBackoffDelay, RunSingle;
    SingleEnds(env, node, start + total + RetryBackoffDelay(node.edge, k), st);
    var begun := total + RetryBackoffDelay(node.edge, k);
    var r := RunSingle(env, node, start + begun, st);
    if !(r.outcome.success || r.outcome.errorType.ContextCanceled? || k + 1 == Attempts(node.edge)) {
      LastAttemptEnds(env, node, start, k + 1, begun + r.outcome.latency, r.st);
    }
  }

  lemma ClosedLatency(edge: Edge, o: Outcome, total: int)
    requires total >= 0
    ensures 0 <= CloseFailure(edge, o, total).latency == CapLatencyToTimeout(edge, total)
  {
  }

  /** What follows the attempts of a failed sequence lies between the capped failure and the reported end. */
  lemma {:induction false} RecoveryContained(env: Env, node: Node, start: int, st: State)
    requires Sane(env) && CalmBelow(node)
    requires !RunAttempts(env, node, start, 0, 0, st).outcome.success
    ensures
      var t, r := RunAttempts(env, node, start, 0, 0, st), RunSequence(env, node, start, st);
      var cap := CapLatencyToTimeout(node.edge, t.total);
      && 0 <= cap <= r.outcome.latency && t.spans <= r.spans
      && Within(r.spans[|t.spans|..], start + cap, start + r.outcome.latency)
    decreases NodeSize(node), 3, 0
  {
    hide RunAttempts, RunFallbacks, RunKids, Within, Steady, Calm, CloseFailure, CapLatencyToTimeout, AllRepeat, Quietly;
    AttemptsContained(env, node, start, 0, 0, st);
    var t := RunAttempts(env, node, start, 0, 0, st);
    var failure := CloseFailure(node.edge, t.outcome, t.total);
    ClosedLatency(node.edge, t.outcome, t.total);
    var cap := failure.latency;
    var recovered := Run(failure, t.st, []);
    WithinNone(start + cap);
    if node.edge.Edge? && node.edge.onFailure.Some? {
      var policy := node.edge.onFailure.value;
      FallbacksContained(env, policy.fallback, policy.onExhausted, failure.(primaryFailed := true), start, t.st);
      recovered := RunFallbacks(env, policy.fallback, policy.onExhausted, failure.(primaryFailed := true), start, t.st);
    }
    var o := recovered.outcome;
    var tail := recovered.spans;
    if ShouldCascadeChildren(o) {
      KidsCascade(env, node.children, o, start + o.latency, 0, recovered.st);
      var kids := RunKids(env, node.children, o, start + o.latency, 0, recovered.st);
      RepeatsWithin(kids.spans, start + o.latency, o);
      WithinJoin(recovered.spans, kids.spans, start + cap, start + o.latency, start + o.latency, start + o.latency);
      tail := recovered.spans + kids.spans;
      assert t.spans + recovered.spans + kids.spans == t.spans + tail;
    }
    assert RunSequence(env, node, start, st).spans == t.spans + tail;
    assert (t.spans + tail)[|t.spans|..] == tail;
  }

  /**
   Whatever timeout and retries the edge has: the reported interval contains the run exactly when the
   attempts succeeded or did not take longer than what is reported.
   */
  lemma {:induction false} CoversIff(env: Env, node: Node, start: int, st: State)
    requires Sane(env) && CalmBelow(node)
    ensures
      var t, r := RunAttempts(env, node, start, 0, 0, st), RunSequence(env, node, start, st);
      Covers(r, start) <==> t.outcome.success || t.total <= r.outcome.latency
    decreases NodeSize(node), 3, 1
  {
    hide RunAttempts, RunSequence, Within, CalmBelow;
    AttemptsContained(env, node, start, 0, 0, st);
    var t, r := RunAttempts(env, node, start, 0, 0, st), RunSequence(env, node, start, st);
    if t.outcome.success {
      SuccessfulSequence(env, node, start, st);
    } else {
      RecoveryContained(env, node, start, st);
      var cap := CapLatencyToTimeout(node.edge, t.total);
      var tail := r.spans[|t.spans|..];
      assert r.spans == t.spans + tail;
      var end := start + r.outcome.latency;
      if t.total <= r.outcome.latency {
        WithinWiden(t.spans, start, start + t.total, start, end);
        WithinWiden(tail, start + cap, end, start, end);
        WithinBoth(t.spans, tail, start, end);
      } else {
        LastAttemptEnds(env, node, start, 0, 0, st);
        EndsTooLate(r.spans, |t.spans| - 1, start, end);
      }
    }
  }

  lemma SuccessfulSequence(env: Env, node: Node, start: int, st: State)
    requires RunAttempts(env, node, start, 0, 0, st).outcome.success
    ensures var t, r := RunAttempts(env, node, start, 0, 0, st), RunSequence(env, node, start, st);
            r.outcome.latency == t.total && r.spans == t.spans
  {
    hide RunAttempts;
  }

  lemma WithinBoth(a: seq<Span>, b: seq<Span>, lo: int, hi: int)
    requires Within(a, lo, hi) && Within(b, lo, hi)
    ensures Within(a + b, lo, hi)
  {
    forall i | 0 <= i < |a + b|
      ensures (a + b)[i] == if i < |a| then a[i] else b[i - |a|]
    {
    }
  }

  lemma EndsTooLate(spans: seq<Span>, i: nat, lo: int, hi: int)
    requires i < |spans| && spans[i].info.role.OperationSpan? && spans[i].end > hi
    ensures !Within(spans, lo, hi)
  {
  }

  /** At the guard of the cap: without recovery, a run escapes its interval exactly when it fails past its timeout. */
  lemma ContainedIffWithinTimeout(env: Env, node: Node, start: int, st: State)
    requires Sane(env) && CalmBelow(node)
    requires node.edge.Edge? && node.edge.onFailure.None? && node.edge.timeout > 0
    ensures
      var t := RunAttempts(env, node, start, 0, 0, st);
      Covers(RunSequence(env, node, start, st), start) <==> t.outcome.success || t.total <= node.edge.timeout
  {
    hide RunAttempts, Covers, CalmBelow, RunSequence;
    CoversIff(env, node, start, st);
    if !RunAttempts(env, node, start, 0, 0, st).outcome.success { ReportedCap(env, node, start, st); }
  }

  lemma ReportedCap(env: Env, node: Node, start: int, st: State)
    requires node.edge.Edge? && node.edge.onFailure.None?
    requires !RunAttempts(env, node, start, 0, 0, st).outcome.success
    ensures RunSequence(env, node, start, st).outcome.latency
         == CapLatencyToTimeout(node.edge, RunAttempts(env, node, start, 0, 0, st).total)
  {
    hide RunAttempts, RunKids;
  }

  /** A single attempt at a leaf fails within its timeout. */
  lemma LeafWithinTimeout(env: Env, node: Node, start: int, st: State)
    requires node.edge.Edge? && node.edge.timeout > 0 && node.edge.retries <= 0 && node.children == []
    ensures var t := RunAttempts(env, node, start, 0, 0, st); t.outcome.success || t.total <= node.edge.timeout
  {
    hide FoldFaults, SampleEdgeLatency;
    var (opening, instance, st1) := OpenAttempt(env, node, st);
    assert opening.Stopped? ==> opening.outcome.latency <= node.edge.timeout;
    assert opening.Live? ==> opening.latency <= node.edge.timeout;
    var r := RunSingle(env, node, start, st);
    assert opening.Live? ==> RunKids(env, node.children, SUCCESS, start, opening.latency, st1).total == opening.latency;
    assert RetryBackoffDelay(node.edge, 0) == 0;
  }

  lemma {:induction false} SequenceContained(env: Env, node: Node, start: int, st: State)
    requires Sane(env) && Calm(node)
    ensures Covers(RunSequence(env, node, start, st), start)
    decreases NodeSize(node), 3, 2
  {
    hide RunAttempts, RunSequence, Covers;
    CoversIff(env, node, start, st);
    var t := RunAttempts(env, node, start, 0, 0, st);
    if !t.outcome.success {
      RecoveryContained(env, node, start, st);
      if node.edge.Edge? && node.edge.timeout > 0 { LeafWithinTimeout(env, node, start, st); }
    }
  }

  lemma RepeatsWithin(spans: seq<Span>, at: int, p: Outcome)
    requires AllRepeat(spans, at, p)
    ensures Within(spans, at, at)
  {
    forall i | 0 <= i < |spans|
      ensures Repeats(spans[i], at, p)
    {
    }
  }

  lemma {:induction false} FallbackContained(env: Env, fb: Edge, start: int, st: State)
    requires Sane(env) && EdgeCalm(fb, true)
    ensures Covers(RunFallback(env, fb, start, st), start)
    decreases 2 + EdgeSize(fb), 0
  {
    hide RunNode;
    if Dialable(env, fb) {
      NodeContained(env, FallbackNode(env, fb), None, start, st);
    }
  }

  lemma {:induction false} FallbacksContained(env: Env, fallbacks: seq<Edge>, action: ExhaustedAction, out: Outcome,
                                              start: int, st: State)
    requires Sane(env) && forall i | 0 <= i < |fallbacks| :: EdgeCalm(fallbacks[i], true)
    ensures var r := RunFallbacks(env, fallbacks, action, out, start, st);
            r.outcome.latency >= out.latency && Within(r.spans, start + out.latency, start + r.outcome.latency)
    decreases EdgesSize(fallbacks), 6
  {
    hide RunFallback, EdgeCalm, Within;
    WithinNone(start + out.latency);
    if fallbacks != [] {
      var at := start + out.latency;
      FallbackContained(env, fallbacks[0], at, st);
      var fb := RunFallback(env, fallbacks[0], at, st);
      if !fb.outcome.success {
        var next := AfterFailed(out, fb.outcome, fallbacks[0]);
        FallbacksContained(env, fallbacks[1..], action, next, start, fb.st);
        var rest := RunFallbacks(env, fallbacks[1..], action, next, start, fb.st);
        WithinJoin(fb.spans, rest.spans, at, at + fb.outcome.latency, at + fb.outcome.latency, start + rest.outcome.latency);
      }
    }
  }

  // ----- Why containment needs edges without timeouts

  /** A leaf call that always fails at once, is retried once after a constant delay, and times out before that. */
  predicate RetriesPastTimeout(env: Env, n: Node) {
    && env.overlay == EMPTY_OVERLAY
    && n.service.Some? && n.parallel == [] && n.children == []
    && n.edge.Edge? && n.edge.protocol.HTTP? && n.edge.latency == LatencyDist("constant", 0, 0)
    && n.edge.errorRate == 1.0 && n.edge.onFailure.None?
    && n.edge.retries == 1 && n.edge.retryBackoff.Constant?
    && 0 < n.edge.timeout < n.edge.retryBaseDelay
  }

  lemma EscapingAttempt(env: Env, n: Node, start: int, st: State)
    requires Sane(env) && RetriesPastTimeout(env, n) && !env.canceled(st.polls)
    ensures var r := RunSingle(env, n, start, st);
      && !r.outcome.success && r.outcome.latency == 0 && r.outcome.errorType == FaultErrorOf(env, n)
      && |r.spans| == 1 && r.spans[0].start == start && r.spans[0].info.role.OperationSpan?
      && r.st.polls == st.polls + 1
  {
    var (ff, st1) := FoldFaults(env, n, st);
    assert ff == NativeErrorRate(env, n, NO_FAULT) && st1 == st;
  }

  function FaultErrorOf(env: Env, n: Node): ErrorType {
    DefaultFaultErrorType(env.schema, n)
  }

  /** The cap reports less time than the retries took, so a retry span lies outside the reported interval. */
  lemma TimeoutLetsSpansEscape(env: Env, n: Node, start: int, st: State)
    requires Sane(env) && RetriesPastTimeout(env, n)
    requires !env.canceled(st.polls) && !env.canceled(st.polls + 1)
    ensures var r := RunNode(env, n, None, start, st);
      && r.outcome.latency == n.edge.timeout
      && |r.spans| == 2 && r.spans[1].start == start + n.edge.retryBaseDelay
      && !Within(r.spans, start, start + r.outcome.latency)
  {
    hide RunSingle;
    var d := n.edge.retryBaseDelay;
    EscapingAttempt(env, n, start, st);
    var r1 := RunSingle(env, n, start, st);
    EscapingAttempt(env, n, start + d, r1.st);
    var r2 := RunSingle(env, n, start + d, r1.st);
    assert RunAttempts(env, n, start, 1, 0, r1.st).spans == r2.spans;
    var t := RunAttempts(env, n, start, 0, 0, st);
    assert t.spans == r1.spans + r2.spans && t.total == d;
    var failure := CloseFailure(n.edge, t.outcome, t.total);
    var kids := RunKids(env, n.children, failure, start + failure.latency, 0, t.st);
    assert kids.spans == [] && (t.spans + []) + [] == t.spans;
    var r := RunSequence(env, n, start, st);
    assert r.spans == t.spans && r.spans[1] == r2.spans[0];
  }
}
