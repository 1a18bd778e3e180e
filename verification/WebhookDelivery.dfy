/**
  Retry of pull-request webhook deliveries. One delivery row is updated by intake, by the handler of
  its queue job, by failed executions and by a sweep; jobs may come again at any time.
*/
module WebhookDelivery {
  import opened Bytes

  const SECOND: int := 1_000
  const RETRY_MAX_DELAY_MS: int := 5 * 60 * 1_000
  const WEEK_MS: int := 7 * 24 * 60 * 60 * 1_000
  const STALE_QUEUE_MS: int := 2 * 60 * 1_000

  datatype Status = Reserved | Queued | Processed | Ignored | PermanentFailure

  /** The row, the audit rows of its permanent failure, and the latest reading of the database clock. */
  datatype Delivery = Delivery(
    clock: int, status: Status, queuedAt: Option<int>, nextRetryAt: Option<int>, retries: nat, failureAudits: nat)

  /** classifyControlFailure: whether an error may be retried, and the wait the other side asked for. */
  datatype Failure = Failure(retryable: bool, retryAfterMs: Option<int>)

  function Pow2(n: nat): (p: nat)
    ensures p >= 1
  {
    if n == 0 then 1 else 2 * Pow2(n - 1)
  }

  function DelayMs(nextAttempt: nat, failure: Failure): int {
    var exponential := Min(2_000 * Pow2(Min(Max(nextAttempt - 1, 0), 16)), RETRY_MAX_DELAY_MS);
    Max(1_000, match failure.retryAfterMs
               case Some(asked) => Min(asked, WEEK_MS)
               case None => Min(exponential, RETRY_MAX_DELAY_MS))
  }

  /** Backoff never shrinks from one attempt to the next, and every delay is between a second and a week. */
  lemma DelayIsBackoff(attempt: nat, failure: Failure)
    ensures SECOND <= DelayMs(attempt, failure) <= WEEK_MS
    ensures failure.retryAfterMs.None? ==>
              2 * SECOND <= DelayMs(attempt, failure) <= DelayMs(attempt + 1, failure) <= RETRY_MAX_DELAY_MS
    ensures failure.retryAfterMs.Some? && SECOND <= failure.retryAfterMs.value <= WEEK_MS ==>
              DelayMs(attempt, failure) == failure.retryAfterMs.value
  {
  }

  // ---------------------------------------------------------------------------------------------
  // The transactions
  // ---------------------------------------------------------------------------------------------

  predicate Deferred(d: Delivery, now: int) { d.nextRetryAt.Some? && d.nextRetryAt.value > now }

  /** shouldExecuteGithubPullRequestDelivery */
  predicate ShouldExecute(d: Delivery, now: int) { d.status == Queued && !Deferred(d, now) }

  /** The sweep's condition, which intake uses as well to take a queued delivery again. */
  predicate IsDue(d: Delivery, now: int) {
    && d.status == Queued
    && match d.nextRetryAt
       case Some(at) => at <= now
       case None => d.queuedAt.Some? && d.queuedAt.value < now - STALE_QUEUE_MS
  }

  datatype Step =
    | Ingest(accepted: bool, now: int)
    | Sweep(picked: bool, now: int)
    | Fail(failure: Failure, now: int)
    | Process(now: int)

  function At(d: Delivery, now: int): Delivery { d.(clock := now) }

  function Enqueued(d: Delivery, now: int): Delivery {
    At(d, now).(status := Queued, queuedAt := Some(now), nextRetryAt := None)
  }

  function Ended(d: Delivery, status: Status, now: int): Delivery {
    At(d, now).(status := status, queuedAt := None, nextRetryAt := None)
  }

  /** scheduleGithubPullRequestRetry, on a queued row */
  function Rescheduled(d: Delivery, failure: Failure, now: int): Delivery {
    At(d, now).(retries := d.retries + 1, nextRetryAt := Some(now + DelayMs(d.retries + 1, failure)),
                queuedAt := Some(now))
  }

  /** completeGithubPullRequestPermanentFailure: the audit row is written once, whatever the status. */
  function FailedForGood(d: Delivery, now: int): Delivery {
    var ended := if d.status == Queued then Ended(d, PermanentFailure, now) else At(d, now);
    ended.(failureAudits := if d.failureAudits == 0 then 1 else d.failureAudits)
  }

  /** handleGithubPullRequestFailure */
  function Failed(d: Delivery, failure: Failure, now: int): Delivery {
    if failure.retryable && d.status == Queued then Rescheduled(d, failure, now)
    else if failure.retryable && d.status == Processed then At(d, now)
    else FailedForGood(d, now)
  }

  function Next(d: Delivery, s: Step): Delivery {
    match s
    case Ingest(accepted, now) =>
      if d.status != Reserved && !IsDue(d, now) then At(d, now)
      else if accepted then Enqueued(d, now)
      else Ended(d, Ignored, now)
    case Sweep(picked, now) => if picked && IsDue(d, now) then Enqueued(d, now) else At(d, now)
    case Fail(failure, now) => Failed(d, failure, now)
    case Process(now) => if d.status == Reserved || d.status == Queued then Ended(d, Processed, now) else At(d, now)
  }

  // ---------------------------------------------------------------------------------------------
  // What every step keeps
  // ---------------------------------------------------------------------------------------------

  /** When a queued delivery comes up again: its retry time, else two minutes after it was queued. */
  function DueTime(d: Delivery): int
    requires d.queuedAt.Some?
  {
    match d.nextRetryAt
    case Some(at) => at
    case None => d.queuedAt.value + STALE_QUEUE_MS
  }

  predicate Inv(d: Delivery) {
    && (d.status == Queued <==> d.queuedAt.Some?)
    && (d.nextRetryAt.Some? ==> d.status == Queued)
    && (d.status == Queued ==> d.queuedAt.value <= d.clock && DueTime(d) <= d.clock + WEEK_MS)
    && d.failureAudits <= 1
    && (d.status == PermanentFailure ==> d.failureAudits == 1)
  }

  predicate IsFinal(s: Status) { s == Processed || s == PermanentFailure || s == Ignored }

  function Start(clock: int): Delivery { Delivery(clock, Reserved, None, None, 0, 0) }

  function TimeOf(s: Step): int { s.now }

  lemma StepKeepsInv(d: Delivery, s: Step)
    requires Inv(d) && d.clock <= TimeOf(s)
    ensures Inv(Next(d, s)) && Next(d, s).clock == TimeOf(s)
    ensures IsFinal(d.status) ==> Next(d, s).status == d.status
    ensures d.retries <= Next(d, s).retries <= d.retries + 1
    ensures Next(d, s).retries == d.retries + 1 <==> s.Fail? && s.failure.retryable && d.status == Queued
  {
    if s.Fail? {
      DelayIsBackoff(d.retries + 1, s.failure);
    }
  }

  // What each step does to the row, column by column

  /** Queued, and past its retry time, or else queued more than two minutes ago. */
  predicate ComesUp(d: Delivery, now: int) {
    && d.status == Queued
    && if d.nextRetryAt.Some? then d.nextRetryAt.value <= now
       else d.queuedAt.Some? && now - d.queuedAt.value > 120_000
  }

  predicate Retries(d: Delivery, s: Step) { s.Fail? && s.failure.retryable && d.status == Queued }

  predicate TakesAgain(d: Delivery, s: Step) {
    match s
    case Ingest(accepted, now) => accepted && (d.status == Reserved || ComesUp(d, now))
    case Sweep(picked, now) => picked && ComesUp(d, now)
    case _ => false
  }

  /** A failure that ends a delivery: it cannot be retried, or comes to one that is no longer queued or processed. */
  predicate EndsInFailure(d: Delivery, s: Step) {
    s.Fail? && !(s.failure.retryable && (d.status == Queued || d.status == Processed))
  }

  function StatusAfter(d: Delivery, s: Step): Status {
    if TakesAgain(d, s) then Queued
    else
      match s
      case Ingest(_, now) => if d.status == Reserved || ComesUp(d, now) then Ignored else d.status
      case Sweep(_, _) => d.status
      case Fail(failure, _) => if d.status == Queued && !failure.retryable then PermanentFailure else d.status
      case Process(_) => if d.status == Reserved || d.status == Queued then Processed else d.status
  }

  predicate StepExactly(d: Delivery, s: Step, e: Delivery) {
    && e.clock == s.now
    && e.status == StatusAfter(d, s)
    && e.retries == d.retries + (if Retries(d, s) then 1 else 0)
    && e.failureAudits == (if EndsInFailure(d, s) then 1 else d.failureAudits)
    && e.queuedAt == (if TakesAgain(d, s) || Retries(d, s) then Some(s.now)
                      else if e.status == Queued then d.queuedAt else None)
    && e.nextRetryAt == (if Retries(d, s) then Some(s.now + DelayMs(d.retries + 1, s.failure))
                         else if TakesAgain(d, s) || e.status != Queued then None else d.nextRetryAt)
  }

  lemma StepDoesExactly(d: Delivery, s: Step)
    requires Inv(d)
    ensures StepExactly(d, s, Next(d, s))
  {
    if s.Fail? && !s.failure.retryable {
      assert d.failureAudits == 0 || d.failureAudits == 1;
    }
  }

  /** Without a hint the delays are 2, 4, 8, ... 256 seconds and then five minutes; a hint is kept up to a week. */
  lemma DelayInNumbers(attempt: nat, failure: Failure)
    requires attempt >= 1
    ensures DelayMs(attempt, failure) == match failure.retryAfterMs
            case Some(asked) => if asked < 1_000 then 1_000 else if asked > 604_800_000 then 604_800_000 else asked
            case None =>
              if attempt == 1 then 2_000 else if attempt <= 8 then 2 * DelayMs(attempt - 1, failure) else 300_000
  {
    assert Pow2(7) == 128 && Pow2(8) == 256;
    if attempt >= 9 {
      PowGrows(8, Min(attempt - 1, 16));
    }
  }

  lemma {:induction false} PowGrows(m: nat, n: nat)
    requires m <= n
    ensures Pow2(m) <= Pow2(n)
  {
    if m < n {
      PowGrows(m, n - 1);
    }
  }

  predicate Timely(d: Delivery, steps: seq<Step>)
    decreases |steps|
  {
    steps == [] || (d.clock <= TimeOf(steps[0]) && Timely(Next(d, steps[0]), steps[1..]))
  }

  function Run(d: Delivery, steps: seq<Step>): Delivery
    decreases |steps|
  {
    if steps == [] then d else Run(Next(d, steps[0]), steps[1..])
  }

  /**
    In every run: a queued delivery has a due time within a week, a finished one stays as it is, and
    the retry count never falls.
  */
  lemma {:induction false} RunKeepsInv(d: Delivery, steps: seq<Step>)
    requires Inv(d) && Timely(d, steps)
    ensures Inv(Run(d, steps)) && d.retries <= Run(d, steps).retries
    ensures IsFinal(d.status) ==> Run(d, steps).status == d.status && Run(d, steps).retries == d.retries
    decreases |steps|
  {
    if steps != [] {
      StepKeepsInv(d, steps[0]);
      RunKeepsInv(Next(d, steps[0]), steps[1..]);
    }
  }

  /** In every run from reservation: at most one audit row, one on a permanent failure, and due within a week. */
  lemma EveryDeliveryIsSound(clock: int, steps: seq<Step>)
    requires Timely(Start(clock), steps)
    ensures var d := Run(Start(clock), steps);
            && d.failureAudits <= 1 && (d.status == PermanentFailure ==> d.failureAudits == 1)
            && (d.status == Queued ==> forall now :: now > d.clock + WEEK_MS ==> IsDue(d, now))
  {
    RunKeepsInv(Start(clock), steps);
  }

  /** In some state of the run a queued delivery is met by a failure that cannot be retried. */
  ghost predicate EverFailsForGood(d: Delivery, steps: seq<Step>)
    decreases |steps|
  {
    && steps != []
    && ((d.status == Queued && steps[0].Fail? && !steps[0].failure.retryable)
        || EverFailsForGood(Next(d, steps[0]), steps[1..]))
  }

  lemma {:induction false} FailureDecides(d: Delivery, steps: seq<Step>)
    requires Inv(d) && Timely(d, steps)
    ensures Run(d, steps).status == PermanentFailure <==>
            d.status == PermanentFailure || EverFailsForGood(d, steps)
    decreases |steps|
  {
    if steps != [] {
      StepKeepsInv(d, steps[0]);
      StepDoesExactly(d, steps[0]);
      FailureDecides(Next(d, steps[0]), steps[1..]);
      if IsFinal(Next(d, steps[0]).status) {
        FinishedNeverFails(Next(d, steps[0]), steps[1..]);
      }
    }
  }

  lemma {:induction false} FinishedNeverFails(d: Delivery, steps: seq<Step>)
    requires Inv(d) && Timely(d, steps) && IsFinal(d.status)
    ensures !EverFailsForGood(d, steps)
    decreases |steps|
  {
    if steps != [] {
      StepKeepsInv(d, steps[0]);
      FinishedNeverFails(Next(d, steps[0]), steps[1..]);
    }
  }

  /** From reservation on, a delivery has failed for good exactly if a failure without a retry met it while queued. */
  lemma PermanentFailureExactly(clock: int, steps: seq<Step>)
    requires Timely(Start(clock), steps)
    ensures Run(Start(clock), steps).status == PermanentFailure <==> EverFailsForGood(Start(clock), steps)
  {
    FailureDecides(Start(clock), steps);
  }

  /** After its due time a queued delivery is taken by every sweep that picks it, and may then run at once. */
  lemma DueIsSwept(d: Delivery, now: int)
    requires Inv(d) && d.status == Queued && d.clock <= now && DueTime(d) < now
    ensures IsDue(d, now) && ShouldExecute(Next(d, Sweep(true, now)), now)
  {
  }

  /** The only step that lets a deferred delivery run early is a retryable failure with a shorter delay. */
  lemma DeferralShortensExactly(d: Delivery, s: Step, until: int)
    requires Inv(d) && d.clock <= TimeOf(s) < until && d.nextRetryAt == Some(until)
    ensures (exists now :: now < until && ShouldExecute(Next(d, s), now)) <==>
            s.Fail? && s.failure.retryable && TimeOf(s) + DelayMs(d.retries + 1, s.failure) < until
  {
    if s.Fail? && s.failure.retryable {
      var at := TimeOf(s) + DelayMs(d.retries + 1, s.failure);
      assert at < until ==> ShouldExecute(Next(d, s), at);
    }
  }

  /** At some time before `until`, and before the next step is taken, the delivery may run in some state of the run. */
  ghost predicate EverExecutable(d: Delivery, steps: seq<Step>, until: int)
    decreases |steps|
  {
    || (exists now :: d.clock <= now < until && (steps != [] ==> now <= TimeOf(steps[0])) && ShouldExecute(d, now))
    || (steps != [] && EverExecutable(Next(d, steps[0]), steps[1..], until))
  }

  predicate Shortens(d: Delivery, s: Step, until: int) {
    s.Fail? && s.failure.retryable && d.status == Queued && TimeOf(s) + DelayMs(d.retries + 1, s.failure) < until
  }

  /** No failure and no execution comes before the instant `at`, at which a deferral ends. */
  predicate Lasts(steps: seq<Step>, at: int)
    decreases |steps|
  {
    steps != [] ==> at <= TimeOf(steps[0]) || (!steps[0].Fail? && !steps[0].Process? && Lasts(steps[1..], at))
  }

  /** Some retryable failure of the queued delivery sets a deferral that ends before `until` and lasts to its end. */
  predicate EverShortened(d: Delivery, steps: seq<Step>, until: int)
    decreases |steps|
  {
    && steps != []
    && var next := Next(d, steps[0]);
       || (Shortens(d, steps[0], until) && Lasts(steps[1..], next.nextRetryAt.value))
       || EverShortened(next, steps[1..], until)
  }

  lemma {:induction false} FinishedStaysQuiet(d: Delivery, steps: seq<Step>, until: int)
    requires Inv(d) && Timely(d, steps) && (IsFinal(d.status) || until <= d.clock)
    ensures !EverExecutable(d, steps, until) && !EverShortened(d, steps, until)
    decreases |steps|
  {
    if steps != [] {
      StepKeepsInv(d, steps[0]);
      if steps[0].Fail? {
        DelayIsBackoff(d.retries + 1, steps[0].failure);
      }
      FinishedStaysQuiet(Next(d, steps[0]), steps[1..], until);
    }
  }

  /** When the deferral ends before the next step is taken, nothing after that step matters. */
  lemma EndsFirst(d: Delivery, steps: seq<Step>, until: int)
    requires Inv(d) && Timely(d, steps) && d.nextRetryAt.Some? && d.clock <= d.nextRetryAt.value
    requires steps != [] ==> d.nextRetryAt.value <= TimeOf(steps[0])
    ensures EverExecutable(d, steps, until) <==> d.nextRetryAt.value < until || EverShortened(d, steps, until)
  {
    var at := d.nextRetryAt.value;
    if at < until {
      assert ShouldExecute(d, at);
    } else if steps != [] {
      StepKeepsInv(d, steps[0]);
      if steps[0].Fail? {
        DelayIsBackoff(d.retries + 1, steps[0].failure);
      }
      FinishedStaysQuiet(Next(d, steps[0]), steps[1..], until);
    }
  }

  /** One step under a deferral that has not ended: it keeps it, replaces it, or ends the delivery. */
  lemma StepUnderDeferral(d: Delivery, s: Step)
    requires Inv(d) && d.clock <= TimeOf(s) && d.nextRetryAt.Some? && TimeOf(s) < d.nextRetryAt.value
    ensures var next := Next(d, s);
            if s.Fail? && s.failure.retryable then
              && next.nextRetryAt == Some(TimeOf(s) + DelayMs(d.retries + 1, s.failure))
              && next.clock < next.nextRetryAt.value
            else if s.Fail? || s.Process? then IsFinal(next.status)
            else next == At(d, TimeOf(s))
  {
    if s.Fail? {
      DelayIsBackoff(d.retries + 1, s.failure);
    }
  }

  /**
    Over every run, whatever intake, sweeps, executions and redelivered jobs do: a deferred delivery
    may run before `until` if and only if its deferral, or one that a retryable failure sets
    meanwhile, ends before `until` and is not replaced or ended first.
  */
  lemma {:induction false} DeferralDecides(d: Delivery, steps: seq<Step>, until: int)
    requires Inv(d) && Timely(d, steps) && d.nextRetryAt.Some? && d.clock <= d.nextRetryAt.value
    ensures EverExecutable(d, steps, until) <==>
            (d.nextRetryAt.value < until && Lasts(steps, d.nextRetryAt.value)) || EverShortened(d, steps, until)
    decreases |steps|
  {
    if steps == [] || d.nextRetryAt.value <= TimeOf(steps[0]) {
      EndsFirst(d, steps, until);
    } else {
      var next := Next(d, steps[0]);
      StepKeepsInv(d, steps[0]);
      StepUnderDeferral(d, steps[0]);
      if IsFinal(next.status) {
        FinishedStaysQuiet(next, steps[1..], until);
      } else {
        DeferralDecides(next, steps[1..], until);
      }
    }
  }

  /** So a deferral is kept over a run unless a shorter one set meanwhile lasts to its end. */
  lemma DeferralHolds(d: Delivery, steps: seq<Step>, until: int)
    requires Inv(d) && Timely(d, steps) && d.nextRetryAt.Some? && until <= d.nextRetryAt.value
    ensures EverExecutable(d, steps, until) <==> EverShortened(d, steps, until)
  {
    if d.clock <= d.nextRetryAt.value {
      DeferralDecides(d, steps, until);
    } else {
      FinishedStaysQuiet(d, steps, until);
    }
  }

  /** A second execution that fails later without a hint replaces a long deferral by its short one. */
  lemma DeferralCanBeShortened()
    ensures var failures := [Fail(Failure(true, Some(WEEK_MS)), 0), Fail(Failure(true, None), 0)];
            var d := Run(Next(Start(0), Ingest(true, 0)), failures);
            d.nextRetryAt == Some(4_000) && ShouldExecute(d, 4_000)
  {
    var queued := Next(Start(0), Ingest(true, 0));
    var first, second := Fail(Failure(true, Some(WEEK_MS)), 0), Fail(Failure(true, None), 0);
    var once := Next(queued, first);
    var twice := Next(once, second);
    assert Pow2(1) == 2 && DelayMs(2, Failure(true, None)) == 4_000;
    assert Run(once, [second]) == twice;
    assert Run(queued, [first, second]) == twice;
  }

  // ---------------------------------------------------------------------------------------------
  // The transactions, statement by statement
  // ---------------------------------------------------------------------------------------------

  class DeliveryRow {
    var d: Delivery

    method Resweep(picked: bool, now: int) returns (published: bool)
      requires Inv(d) && d.clock <= now
      modifies this
      ensures Inv(d) && d == Next(old(d), Sweep(picked, now))
      ensures published <==> picked && IsDue(old(d), now)
    {
      StepKeepsInv(d, Sweep(picked, now));
      published := picked && IsDue(d, now);
      d := d.(clock := now);
      if published {
        d := d.(queuedAt := Some(now), nextRetryAt := None);
      }
    }

    /** scheduleGithubPullRequestRetry: whether the failure was dealt with by a retry, or needs none. */
    method ScheduleRetry(failure: Failure, now: int) returns (handled: bool)
      requires Inv(d) && d.clock <= now
      modifies this
      ensures handled <==> failure.retryable && (old(d).status == Queued || old(d).status == Processed)
      ensures d == if failure.retryable && old(d).status == Queued then Rescheduled(old(d), failure, now)
                   else At(old(d), now)
    {
      d := d.(clock := now);
      if !failure.retryable {
        return false;
      }
      if d.status != Queued {
        return d.status == Processed;
      }
      var nextAttempt := d.retries + 1;
      d := d.(retries := nextAttempt, nextRetryAt := Some(now + DelayMs(nextAttempt, failure)), queuedAt := Some(now));
      handled := true;
    }

    method CompletePermanentFailure(now: int)
      requires d.clock == now
      modifies this
      ensures d == FailedForGood(old(d), now)
    {
      if d.status == Queued {
        d := d.(status := PermanentFailure, queuedAt := None, nextRetryAt := None);
      }
      if d.failureAudits == 0 {
        d := d.(failureAudits := 1);
      }
    }

    method HandleFailure(failure: Failure, now: int)
      requires Inv(d) && d.clock <= now
      modifies this
      ensures Inv(d) && d == Next(old(d), Fail(failure, now))
    {
      StepKeepsInv(d, Fail(failure, now));
      var handled := ScheduleRetry(failure, now);
      if !handled {
        CompletePermanentFailure(now);
      }
    }
  }
}
