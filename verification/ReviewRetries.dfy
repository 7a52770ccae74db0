/** Counting Review retries from the recorded metrics, and the two policies that read the count. */
module ReviewRetries {
  import opened Wrappers

  datatype Phase = DraftPhase | SpecPhase | TestPhase | ImplPhase

  datatype Metric = Metric(phase: Phase, counter: string, taskId: Option<string>, reset: bool, delta: Option<int>)

  /** Metrics of another phase, counter or of a Task are passed over. */
  predicate Relevant(m: Metric, phase: Phase) {
    m.phase == phase && m.counter == "reviewRetry" && m.taskId.None?
  }

  function Delta(m: Metric): int {
    if m.delta.Some? then m.delta.value else 1
  }

  predicate IsReset(m: Metric, phase: Phase) {
    Relevant(m, phase) && m.reset
  }

  /** The position behind the last reset of the phase, 0 when there is none. */
  function BehindLastReset(metrics: seq<Metric>, phase: Phase): (n: nat)
    ensures n <= |metrics|
    ensures n > 0 ==> IsReset(metrics[n - 1], phase)
    ensures forall i | n <= i < |metrics| :: !IsReset(metrics[i], phase)
  {
    if metrics == [] then 0
    else if IsReset(metrics[|metrics| - 1], phase) then |metrics|
    else BehindLastReset(metrics[..|metrics| - 1], phase)
  }

  /** The deltas of the phase added up, resets apart. */
  function SumOfDeltas(metrics: seq<Metric>, phase: Phase): int {
    if metrics == [] then 0
    else
      var last := metrics[|metrics| - 1];
      SumOfDeltas(metrics[..|metrics| - 1], phase) + if Relevant(last, phase) then Delta(last) else 0
  }

  /** What has been counted since the last reset. */
  function Attempts(metrics: seq<Metric>, phase: Phase): int {
    SumOfDeltas(metrics[BehindLastReset(metrics, phase)..], phase)
  }

  lemma AttemptsStep(metrics: seq<Metric>, m: Metric, phase: Phase)
    ensures Attempts(metrics + [m], phase)
         == if IsReset(m, phase) then 0 else Attempts(metrics, phase) + if Relevant(m, phase) then Delta(m) else 0
  {
    var all := metrics + [m];
    assert all[..|metrics|] == metrics;
    if IsReset(m, phase) {
      assert all[|all|..] == [];
    } else {
      var n := BehindLastReset(metrics, phase);
      var tail := all[n..];
      assert tail == metrics[n..] + [m];
      assert tail[..|tail| - 1] == metrics[n..];
    }
  }

  /**
   One more metric: a review retry of the phase counts its delta, one where none is recorded; a reset of it
   starts over; metrics of a Task, of another counter or of another phase change nothing.
  */
  lemma OneMoreMetric(metrics: seq<Metric>, m: Metric, phase: Phase)
    ensures var before, after := Attempts(metrics, phase), Attempts(metrics + [m], phase);
            if m.phase != phase || m.counter != "reviewRetry" || m.taskId.Some? then after == before
            else if m.reset then after == 0
            else if m.delta.Some? then after == before + m.delta.value
            else after == before + 1
  {
    AttemptsStep(metrics, m, phase);
  }

  /** Counts exactly the deltas behind the last reset of the phase. */
  method CountReviewAttempts(metrics: seq<Metric>, phase: Phase) returns (count: int)
    ensures count == Attempts(metrics, phase)
  {
    count := 0;
    assert metrics[..0] == [];
    for i := 0 to |metrics|
      invariant count == Attempts(metrics[..i], phase)
    {
      var entry := metrics[i];
      AttemptsStep(metrics[..i], entry, phase);
      assert metrics[..i + 1] == metrics[..i] + [entry];
      if Relevant(entry, phase) {
        count := if entry.reset then 0 else count + Delta(entry);
      }
    }
    assert metrics[..|metrics|] == metrics;
  }

  // ---------------------------------------------------------------- the two policies

  datatype Verdict = PassVerdict | Advisory | Rejected
  datatype Disposition = NoDisposition | ExternalBlocked | RetryReview | DeferReview | BlockedReview

  /** A flow-scoped Review result with the facts both policies read. */
  datatype Review = Review(phase: Phase, verdict: Verdict, toolingOutcome: bool, deferralAvailable: bool, nonblocking: bool, maxAttempts: int)

  /** Selects the recovery after the result and its metric are recorded. */
  function ResolveReviewTransition(r: Review, metrics: seq<Metric>): Result<Disposition> {
    if r.phase == DraftPhase || r.phase == SpecPhase || r.phase == TestPhase || r.nonblocking then Success(NoDisposition)
    else if r.toolingOutcome then Success(ExternalBlocked)
    else if r.verdict != Rejected then Success(NoDisposition)
    else
      var attempts := Attempts(metrics, r.phase);
      if attempts < 0 then Failure("review transition facts have no usable attempt count")
      else if attempts < r.maxAttempts then Success(RetryReview)
      else if r.deferralAvailable then Success(DeferReview)
      else Success(BlockedReview)
  }

  /** Before the metric is recorded: would this rejection be the last one allowed? */
  predicate ReachesExhaustion(r: Review, metrics: seq<Metric>) {
    r.verdict == Rejected && Attempts(metrics, r.phase) + 1 >= r.maxAttempts
  }

  function RetryMetric(phase: Phase): Metric {
    Metric(phase, "reviewRetry", None, false, None)
  }

  /** Rejections the resolver has a retry policy for. */
  predicate Handled(r: Review) {
    r.phase == ImplPhase && !r.nonblocking && !r.toolingOutcome
  }

  /**
   The projection made before recording agrees with the resolver after recording on every rejection the
   resolver handles. Where it handles none, in other phases, under the nonblocking policy and for tooling
   outcomes, it never selects a retry, whatever was projected.
  */
  lemma ProjectionAgreesWithResolver(r: Review, metrics: seq<Metric>)
    requires r.verdict == Rejected && Attempts(metrics, r.phase) >= 0
    ensures var after := ResolveReviewTransition(r, metrics + [RetryMetric(r.phase)]);
            && after.Success?
            && (if Handled(r) then ReachesExhaustion(r, metrics) <==> after.value != RetryReview else after.value != RetryReview)
  {
    AttemptsStep(metrics, RetryMetric(r.phase), r.phase);
  }

  /** What the resolver selects, by verdict and outcome, for a Review it handles. */
  lemma DispositionByOutcome(r: Review, metrics: seq<Metric>)
    requires Attempts(metrics, r.phase) >= 0
    ensures var selected := ResolveReviewTransition(r, metrics);
            && selected.Success?
            && (r.phase == ImplPhase && !r.nonblocking ==>
                  && (selected.value == ExternalBlocked <==> r.toolingOutcome)
                  && (selected.value == NoDisposition <==> !r.toolingOutcome && r.verdict != Rejected)
                  && (selected.value == RetryReview <==> !r.toolingOutcome && r.verdict == Rejected && Attempts(metrics, r.phase) < r.maxAttempts)
                  && (selected.value == DeferReview <==>
                        !r.toolingOutcome && r.verdict == Rejected && Attempts(metrics, r.phase) >= r.maxAttempts && r.deferralAvailable)
                  && (selected.value == BlockedReview <==>
                        !r.toolingOutcome && r.verdict == Rejected && Attempts(metrics, r.phase) >= r.maxAttempts && !r.deferralAvailable))
            && (r.phase != ImplPhase || r.nonblocking ==> selected.value == NoDisposition)
  {
  }

  /** The metrics after `k` more rejections of a phase were recorded. */
  function AfterRejections(metrics: seq<Metric>, phase: Phase, k: nat): seq<Metric> {
    if k == 0 then metrics else AfterRejections(metrics, phase, k - 1) + [RetryMetric(phase)]
  }

  lemma {:induction false} RejectionsCount(metrics: seq<Metric>, phase: Phase, k: nat)
    ensures Attempts(AfterRejections(metrics, phase, k), phase) == Attempts(metrics, phase) + k
  {
    if k > 0 {
      RejectionsCount(metrics, phase, k - 1);
      AttemptsStep(AfterRejections(metrics, phase, k - 1), RetryMetric(phase), phase);
    }
  }

  /**
   From a reset on, a rejected Review is retried until the limit is reached: the `k`-th rejection in a row
   is retried if and only if `k` is below the limit, and otherwise deferred where that is available, or blocked.
  */
  lemma RejectionsAreRetriedUpToTheLimit(r: Review, metrics: seq<Metric>, k: nat)
    requires Handled(r) && r.verdict == Rejected && Attempts(metrics, r.phase) == 0 && k > 0
    ensures ResolveReviewTransition(r, AfterRejections(metrics, r.phase, k))
         == Success(if k < r.maxAttempts then RetryReview else if r.deferralAvailable then DeferReview else BlockedReview)
  {
    RejectionsCount(metrics, r.phase, k);
    DispositionByOutcome(r, AfterRejections(metrics, r.phase, k));
  }
}
