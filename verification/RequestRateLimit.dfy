/**
  The sliding-window limiter for web requests. The event table is pruned a bounded number of rows
  at a time and queried with LIMIT; `history` is the ghost record of every admission ever made, and
  each decision is proved to be the one the whole history would give.
*/
module RequestRateLimit {
  import opened Bytes
  import opened OrderedRows

  datatype Action =
    | ClosedBetaSignup | HandoffCreate | HandoffExchange | UploadStart | UploadPartUrl | UploadPartComplete
    | UploadFinalize | ReviewQueue | ReviewDetail | ReviewContext | EvidenceCapability | EvidenceStream
    | ReviewDecision

  datatype Policy = Policy(maximumEvents: nat, globalMaximumEvents: nat, windowSeconds: nat) {
    function RetentionSeconds(): nat { windowSeconds + 5 * 60 }
  }

  function Quota(action: Action): (p: Policy)
    ensures 0 < p.maximumEvents <= p.globalMaximumEvents && 0 < p.windowSeconds <= 600
  {
    match action
    case ClosedBetaSignup => Policy(5, 1_000, 10 * 60)
    case HandoffCreate => Policy(6, 1_000, 5 * 60)
    case HandoffExchange => Policy(20, 2_000, 5 * 60)
    case UploadStart => Policy(8, 1_000, 10 * 60)
    case UploadPartUrl => Policy(128, 20_000, 10 * 60)
    case UploadPartComplete => Policy(128, 20_000, 10 * 60)
    case UploadFinalize => Policy(12, 2_000, 10 * 60)
    case ReviewQueue => Policy(60, 10_000, 5 * 60)
    case ReviewDetail => Policy(60, 10_000, 5 * 60)
    case ReviewContext => Policy(30, 5_000, 5 * 60)
    case EvidenceCapability => Policy(20, 3_000, 5 * 60)
    case EvidenceStream => Policy(30, 3_000, 5 * 60)
    case ReviewDecision => Policy(10, 1_000, 10 * 60)
  }

  const CLEANUP_BATCH_SIZE: nat := 500
  /** Database clock readings are in microseconds. */
  const SECOND: nat := 1_000_000
  /** How far behind an earlier cleanup a clock reading may be: the margin between retention and window. */
  const CLOCK_SLACK: nat := 5 * 60 * SECOND

  datatype Event = Event(id: nat, action: Action, subject: string, occurredAt: int, expiresAt: int)

  datatype Outcome = Admitted | RateLimited(retryAfterSeconds: int) | Unavailable

  function WindowLength(action: Action): nat { Quota(action).windowSeconds * SECOND }

  function NewEvent(id: nat, action: Action, subject: string, now: int): Event {
    Event(id, action, subject, now, now + Quota(action).RetentionSeconds() * SECOND)
  }

  function RecentGlobal(events: set<Event>, action: Action, now: int): set<Event> {
    set e | e in events && e.action == action && e.occurredAt > now - WindowLength(action)
  }

  function RecentSubject(events: set<Event>, action: Action, subject: string, now: int): set<Event> {
    set e | e in events && e.action == action && e.subject == subject && e.occurredAt > now - WindowLength(action)
  }

  // ---------------------------------------------------------------------------------------------
  // The decision, on the whole history
  // ---------------------------------------------------------------------------------------------

  ghost predicate Admits(history: set<Event>, action: Action, subject: string, now: int) {
    && |RecentSubject(history, action, subject, now)| < Quota(action).maximumEvents
    && |RecentGlobal(history, action, now)| < Quota(action).globalMaximumEvents
  }

  function ByOccurrence(): Event -> Key { (e: Event) => (e.occurredAt, e.id as int) }

  function ByExpiry(): Event -> Key { (e: Event) => (e.expiresAt, e.id as int) }

  ghost function Oldest(events: set<Event>): (t: int)
    requires events != {}
    ensures exists e :: e in events && e.occurredAt == t
    ensures forall e | e in events :: t <= e.occurredAt
  {
    LeastExists(events, ByOccurrence());
    var e :| IsLeast(events, ByOccurrence(), e);
    assert forall q | q in events :: AtMost(ByOccurrence()(e), ByOccurrence()(q));
    e.occurredAt
  }

  /** When one quota has room again if nothing else is admitted. */
  ghost function FreeAt(recent: set<Event>, maximum: nat, window: nat, now: int): int {
    if |recent| >= maximum && recent != {} then Oldest(recent) + window else now
  }

  ghost function BothFreeAt(history: set<Event>, action: Action, subject: string, now: int): int {
    var quota := Quota(action);
    Max(FreeAt(RecentSubject(history, action, subject, now), quota.maximumEvents, WindowLength(action), now),
        FreeAt(RecentGlobal(history, action, now), quota.globalMaximumEvents, WindowLength(action), now))
  }

  function CeilSeconds(duration: int): (s: int)
    ensures (s - 1) * SECOND < duration <= s * SECOND
  {
    (duration + (SECOND - 1)) / SECOND
  }

  /** GREATEST(1, LEAST(window, CEIL(wait))) */
  function Clamped(windowSeconds: nat, wait: int): (s: int)
    requires 0 < windowSeconds
    ensures 1 <= s <= windowSeconds
    ensures 0 < wait <= windowSeconds * SECOND ==> s == CeilSeconds(wait)
    ensures (wait <= 0 ==> s == 1) && (windowSeconds * SECOND <= wait ==> s == windowSeconds)
  {
    Max(1, Min(windowSeconds, CeilSeconds(wait)))
  }

  /** The hint the query computes, clamp included. */
  ghost function RetryAfter(history: set<Event>, action: Action, subject: string, now: int): int {
    Clamped(Quota(action).windowSeconds, BothFreeAt(history, action, subject, now) - now)
  }

  // ---------------------------------------------------------------------------------------------
  // Quotas
  // ---------------------------------------------------------------------------------------------

  function InWindow(history: set<Event>, action: Action, start: int): set<Event> {
    set e | e in history && e.action == action && start < e.occurredAt <= start + WindowLength(action)
  }

  function InSubjectWindow(history: set<Event>, action: Action, subject: string, start: int): set<Event> {
    set e | e in history && e.action == action && e.subject == subject
            && start < e.occurredAt <= start + WindowLength(action)
  }

  /** Every window of the policy's length, wherever it starts, holds at most the quota. */
  ghost predicate QuotasHold(history: set<Event>) {
    && (forall action, start :: |InWindow(history, action, start)| <= Quota(action).globalMaximumEvents)
    && (forall action, subject, start ::
          |InSubjectWindow(history, action, subject, start)| <= Quota(action).maximumEvents)
  }

  /** An admitted request keeps every quota, in every window, even if the clock ran backwards before it. */
  lemma AdmissionKeepsQuotas(history: set<Event>, id: nat, action: Action, subject: string, now: int)
    requires QuotasHold(history) && Admits(history, action, subject, now)
    ensures QuotasHold(history + {NewEvent(id, action, subject, now)})
  {
    var e := NewEvent(id, action, subject, now);
    var after := history + {e};
    forall a, start
      ensures |InWindow(after, a, start)| <= Quota(a).globalMaximumEvents
    {
      var was, grown := InWindow(history, a, start), InWindow(after, a, start);
      if e in grown {
        assert grown == was + {e};
        SubsetIsNoLarger(was, RecentGlobal(history, action, now));
      } else {
        assert grown == was;
      }
    }
    forall a, s, start
      ensures |InSubjectWindow(after, a, s, start)| <= Quota(a).maximumEvents
    {
      var was, grown := InSubjectWindow(history, a, s, start), InSubjectWindow(after, a, s, start);
      if e in grown {
        assert grown == was + {e};
        SubsetIsNoLarger(was, RecentSubject(history, action, subject, now));
      } else {
        assert grown == was;
      }
    }
  }

  // ---------------------------------------------------------------------------------------------
  // The policies in numbers, in seconds and microseconds
  // ---------------------------------------------------------------------------------------------

  function After(history: set<Event>, action: Action, instant: int): set<Event> {
    set e | e in history && e.action == action && e.occurredAt > instant
  }

  function Of(events: set<Event>, subject: string): set<Event> { set e | e in events && e.subject == subject }

  function UpTo(events: set<Event>, instant: int): set<Event> { set e | e in events && e.occurredAt <= instant }

  /**
    What a policy of so many requests of one subject and so many of all in so many seconds means: a
    request is admitted exactly below both counts, and once the quotas hold no span of that length,
    wherever it starts, holds more.
  */
  ghost predicate Limits(history: set<Event>, action: Action, subject: string, now: int, p: Policy) {
    DecidesBy(history, action, subject, now, p) && (QuotasHold(history) ==> Bounds(history, action, subject, now, p))
  }

  ghost predicate DecidesBy(history: set<Event>, action: Action, subject: string, now: int, p: Policy) {
    var since := After(history, action, now - p.windowSeconds * 1_000_000);
    Admits(history, action, subject, now) <==>
    |Of(since, subject)| < p.maximumEvents && |since| < p.globalMaximumEvents
  }

  ghost predicate Bounds(history: set<Event>, action: Action, subject: string, start: int, p: Policy) {
    var span := UpTo(After(history, action, start), start + p.windowSeconds * 1_000_000);
    |Of(span, subject)| <= p.maximumEvents && |span| <= p.globalMaximumEvents
  }

  lemma QuotaDecides(history: set<Event>, action: Action, subject: string, now: int)
    ensures DecidesBy(history, action, subject, now, Quota(action))
  {
    var since := After(history, action, now - Quota(action).windowSeconds * 1_000_000);
    assert RecentGlobal(history, action, now) == since;
    assert RecentSubject(history, action, subject, now) == Of(since, subject);
  }

  lemma QuotaBounds(history: set<Event>, action: Action, subject: string, start: int)
    requires QuotasHold(history)
    ensures Bounds(history, action, subject, start, Quota(action))
  {
    var span := UpTo(After(history, action, start), start + Quota(action).windowSeconds * 1_000_000);
    assert InWindow(history, action, start) == span;
    assert InSubjectWindow(history, action, subject, start) == Of(span, subject);
  }

  /** The policy table, and that it is what the limiter keeps to. */
  lemma PoliciesInNumbers(history: set<Event>, action: Action, subject: string, now: int)
    ensures Limits(history, action, subject, now, Quota(action))
    ensures Quota(ClosedBetaSignup) == Policy(5, 1_000, 600)
    ensures Quota(HandoffCreate) == Policy(6, 1_000, 300) && Quota(HandoffExchange) == Policy(20, 2_000, 300)
    ensures Quota(UploadStart) == Policy(8, 1_000, 600) && Quota(UploadFinalize) == Policy(12, 2_000, 600)
    ensures Quota(UploadPartUrl) == Policy(128, 20_000, 600) == Quota(UploadPartComplete)
    ensures Quota(ReviewQueue) == Policy(60, 10_000, 300) == Quota(ReviewDetail)
    ensures Quota(ReviewContext) == Policy(30, 5_000, 300) && Quota(ReviewDecision) == Policy(10, 1_000, 600)
    ensures Quota(EvidenceCapability) == Policy(20, 3_000, 300) && Quota(EvidenceStream) == Policy(30, 3_000, 300)
  {
    QuotaDecides(history, action, subject, now);
    if QuotasHold(history) {
      QuotaBounds(history, action, subject, now);
    }
  }

  /** An admission's row names the request, and outlives its window by five minutes. */
  lemma RowOutlivesWindow(id: nat, action: Action, subject: string, now: int)
    ensures NewEvent(id, action, subject, now) ==
            Event(id, action, subject, now, now + (Quota(action).windowSeconds + 300) * 1_000_000)
  {
  }

  // ---------------------------------------------------------------------------------------------
  // Pruning
  // ---------------------------------------------------------------------------------------------

  /** Every admission is still in the table or had expired by the latest cleanup. */
  ghost predicate Pruned(table: set<Event>, history: set<Event>, swept: int) {
    && table <= history
    && (forall e | e in history :: e == NewEvent(e.id, e.action, e.subject, e.occurredAt))
    && (forall e | e in history - table :: e.expiresAt <= swept)
  }

  lemma PrunedFurther(table: set<Event>, batch: set<Event>, history: set<Event>, swept: int, later: int)
    requires Pruned(table, history, swept) && batch <= table && swept <= later
    requires forall e | e in batch :: e.expiresAt <= later
    ensures Pruned(table - batch, history, later)
  {
  }

  /** A pruned table has the same recent rows as the whole history, on a clock up to five minutes behind. */
  lemma PrunedTableDecidesAlike(
    table: set<Event>, history: set<Event>, swept: int, action: Action, subject: string, now: int)
    requires Pruned(table, history, swept) && swept <= now + 300_000_000
    ensures RecentGlobal(table, action, now) == RecentGlobal(history, action, now)
    ensures RecentSubject(table, action, subject, now) == RecentSubject(history, action, subject, now)
  {
  }

  // ---------------------------------------------------------------------------------------------
  // The retry hint
  // ---------------------------------------------------------------------------------------------

  lemma RecentIsWithinQuota(history: set<Event>, action: Action, subject: string, now: int)
    requires QuotasHold(history) && forall e | e in history :: e.occurredAt <= now
    ensures |RecentGlobal(history, action, now)| <= Quota(action).globalMaximumEvents
    ensures |RecentSubject(history, action, subject, now)| <= Quota(action).maximumEvents
  {
    var start := now - WindowLength(action);
    assert RecentGlobal(history, action, now) == InWindow(history, action, start);
    assert RecentSubject(history, action, subject, now) == InSubjectWindow(history, action, subject, start);
  }

  /** With a clock that has not run backwards, the computed wait is 1..window: the clamp changes nothing. */
  lemma RetryHintNeedsNoClamp(history: set<Event>, action: Action, subject: string, now: int)
    requires !Admits(history, action, subject, now)
    requires forall e | e in history :: e.occurredAt <= now
    ensures var wait := CeilSeconds(BothFreeAt(history, action, subject, now) - now);
            1 <= wait <= Quota(action).windowSeconds && RetryAfter(history, action, subject, now) == wait
  {
    var quota, free := Quota(action), BothFreeAt(history, action, subject, now);
    assert now < free <= now + WindowLength(action);
    var wait := CeilSeconds(free - now);
    assert 0 < free - now <= quota.windowSeconds * SECOND;
    assert wait * SECOND > 0 && (wait - 1) * SECOND < quota.windowSeconds * SECOND;
  }

  lemma RoomAgain(recent: set<Event>, later: set<Event>, maximum: nat, cutoff: int)
    requires later <= recent && |recent| <= maximum && 0 < maximum
    requires forall e | e in later :: e.occurredAt > cutoff
    requires |recent| == maximum ==> recent != {} && Oldest(recent) <= cutoff
    ensures |later| < maximum
  {
    if |recent| == maximum {
      var e :| e in recent && e.occurredAt == Oldest(recent);
      assert e !in later;
    }
    SubsetIsNoLarger(later, recent);
  }

  /**
    Waiting as long as the hint says, with no other admission of that action, guarantees admission,
    also when both quotas were full. Other actions may be admitted meanwhile.
  */
  lemma WaitingAdmits(
    history: set<Event>, action: Action, subject: string, now: int, laterHistory: set<Event>, later: int)
    requires QuotasHold(history) && !Admits(history, action, subject, now)
    requires forall e | e in history :: e.occurredAt <= now
    requires history <= laterHistory && forall e | e in laterHistory - history :: e.action != action
    requires later >= now + RetryAfter(history, action, subject, now) * SECOND
    ensures Admits(laterHistory, action, subject, later)
  {
    RecentIsWithinQuota(history, action, subject, now);
    RetryHintNeedsNoClamp(history, action, subject, now);
    var quota, cutoff := Quota(action), later - WindowLength(action);
    assert later >= BothFreeAt(history, action, subject, now);
    RoomAgain(RecentSubject(history, action, subject, now), RecentSubject(laterHistory, action, subject, later),
              quota.maximumEvents, cutoff);
    RoomAgain(RecentGlobal(history, action, now), RecentGlobal(laterHistory, action, later),
              quota.globalMaximumEvents, cutoff);
  }

  /** The hint is the least whole number of seconds: a second less and the request is still refused. */
  lemma HintIsLeast(history: set<Event>, action: Action, subject: string, now: int, later: int)
    requires !Admits(history, action, subject, now)
    requires forall e | e in history :: e.occurredAt <= now
    requires now <= later <= now + (RetryAfter(history, action, subject, now) - 1) * SECOND
    ensures !Admits(history, action, subject, later)
  {
    RetryHintNeedsNoClamp(history, action, subject, now);
    var free := BothFreeAt(history, action, subject, now);
    assert later < free;
    var s, g := RecentSubject(history, action, subject, now), RecentGlobal(history, action, now);
    var quota := Quota(action);
    if |s| >= quota.maximumEvents && free == Oldest(s) + WindowLength(action) {
      SubsetIsNoLarger(s, RecentSubject(history, action, subject, later));
    } else {
      assert |g| >= quota.globalMaximumEvents && free == Oldest(g) + WindowLength(action);
      SubsetIsNoLarger(g, RecentGlobal(history, action, later));
    }
  }

  /** webRequestRateLimitResponse: the Retry-After header, with its own fallback. */
  function ResponseRetryAfter(retryAfterSeconds: int): int {
    if 1 <= retryAfterSeconds <= 3_600 then retryAfterSeconds else 60
  }

  /** The header always carries the limiter's own hint. */
  lemma ResponseCarriesHint(history: set<Event>, action: Action, subject: string, now: int)
    ensures ResponseRetryAfter(RetryAfter(history, action, subject, now)) ==
            RetryAfter(history, action, subject, now)
  {
  }

  function ExpiredEvents(events: set<Event>, clock: int): set<Event> { set e | e in events && e.expiresAt <= clock }

  /** One cleanup: a batch of expired rows at most, a full one if any remain, and those that expired first. */
  ghost predicate Cleaned(before: set<Event>, after: set<Event>, clock: int) {
    && after <= before && |before - after| <= 500
    && (forall e | e in before - after :: e.expiresAt <= clock)
    && ((exists e :: e in after && e.expiresAt <= clock) ==> |before - after| == 500)
    && forall e, kept | e in before - after && kept in after :: e.expiresAt <= kept.expiresAt
  }

  lemma BatchExpiredFirst(events: set<Event>, clock: int, batch: set<Event>)
    requires IsFirst(ExpiredEvents(events, clock), ByExpiry(), CLEANUP_BATCH_SIZE, batch)
    ensures Cleaned(events, events - batch, clock)
    ensures batch <= events && forall e | e in batch :: e.expiresAt <= clock
  {
    SubsetIsNoLarger(batch, ExpiredEvents(events, clock));
    assert events - (events - batch) == batch;
    forall e, kept | e in batch && kept in events - batch
      ensures e.expiresAt <= kept.expiresAt
    {
      if kept in ExpiredEvents(events, clock) {
        assert AtMost(ByExpiry()(e), ByExpiry()(kept));
      }
    }
  }

  // ---------------------------------------------------------------------------------------------
  // The limiter
  // ---------------------------------------------------------------------------------------------

  class Limiter {
    var events: set<Event>
    var nextId: nat
    ghost var history: set<Event>
    ghost var swept: int

    ghost predicate Valid()
      reads this
    {
      && Pruned(events, history, swept)
      && QuotasHold(history)
      && forall e | e in history :: e.id < nextId
    }

    constructor (ghost start: int)
      ensures Valid() && events == {} && history == {} && swept == start
    {
      events, nextId, history, swept := {}, 0, {}, start;
      new;
      assert forall action, t :: InWindow({}, action, t) == {};
      assert forall action, subject, t :: InSubjectWindow({}, action, subject, t) == {};
    }

    /** Deletes at most one batch of expired rows, those that expired first. */
    method Cleanup(clock: int)
      requires Valid()
      modifies this`events, this`swept
      ensures Valid() && swept == Max(old(swept), clock)
      ensures Cleaned(old(events), events, clock)
    {
      var batch := ExpiredBatch(events, clock);
      PrunedFurther(events, batch, history, swept, Max(swept, clock));
      events := events - batch;
      swept := Max(swept, clock);
    }

    method Insert(action: Action, subject: string, now: int)
      requires Valid() && Admits(history, action, subject, now)
      modifies this`events, this`history, this`nextId
      ensures Valid()
      ensures var event := NewEvent(old(nextId), action, subject, now);
              events == old(events) + {event} && history == old(history) + {event}
    {
      AdmissionKeepsQuotas(history, nextId, action, subject, now);
      var event := NewEvent(nextId, action, subject, now);
      events := events + {event};
      history := history + {event};
      nextId := nextId + 1;
    }

    /**
      reserveWebRequestRateLimit: cleanup at one clock reading, then decide at another. Neither
      reading, nor this one against earlier cleanups, is more than CLOCK_SLACK behind.
    */
    method Reserve(action: Action, subject: string, cleanupClock: int, now: int) returns (outcome: Outcome)
      requires Valid()
      requires Max(swept, cleanupClock) <= now + CLOCK_SLACK
      modifies this
      ensures Valid() && swept == Max(old(swept), cleanupClock)
      ensures Admits(old(history), action, subject, now) ==>
                && outcome == Admitted
                && history == old(history) + {NewEvent(old(nextId), action, subject, now)}
      ensures !Admits(old(history), action, subject, now) ==>
                && outcome == RateLimited(RetryAfter(old(history), action, subject, now))
                && history == old(history)
      ensures |old(events) - events| <= CLEANUP_BATCH_SIZE
      ensures forall e | e in old(events) - events :: e.expiresAt <= cleanupClock
    {
      Cleanup(cleanupClock);
      outcome := Decide(events, history, swept, action, subject, now);
      if outcome.Admitted? {
        ghost var kept := events;
        Insert(action, subject, now);
        SubsetIsNoLarger(old(events) - events, old(events) - kept);
      }
    }
  }

  /** DELETE ... WHERE id IN (SELECT ... ORDER BY expires_at, id LIMIT): the rows it picks. */
  method ExpiredBatch(events: set<Event>, clock: int) returns (batch: set<Event>)
    ensures Cleaned(events, events - batch, clock)
    ensures batch <= events && forall e | e in batch :: e.expiresAt <= clock
  {
    batch := First(ExpiredEvents(events, clock), ByExpiry(), CLEANUP_BATCH_SIZE);
    BatchExpiredFirst(events, clock, batch);
  }

  /** The decision query: two LIMITed subqueries over the pruned table, and the hint if either is full. */
  method Decide(
      table: set<Event>, ghost history: set<Event>, ghost swept: int, action: Action, subject: string, now: int)
    returns (outcome: Outcome)
    requires Pruned(table, history, swept) && swept <= now + CLOCK_SLACK
    ensures outcome == if Admits(history, action, subject, now) then Admitted
                       else RateLimited(RetryAfter(history, action, subject, now))
  {
    var recentSubject, recentGlobal := RecentSubject(table, action, subject, now), RecentGlobal(table, action, now);
    PrunedTableDecidesAlike(table, history, swept, action, subject, now);
    AnswerIsDecision(history, action, subject, now);
    outcome := Answer(recentSubject, recentGlobal, Quota(action), WindowLength(action), now);
  }

  ghost function AnswerFor(
    recentSubject: set<Event>, recentGlobal: set<Event>, quota: Policy, window: nat, now: int): Outcome
    requires 0 < quota.windowSeconds
  {
    if |recentSubject| < quota.maximumEvents && |recentGlobal| < quota.globalMaximumEvents then Admitted
    else
      var subjectFree := FreeAt(recentSubject, quota.maximumEvents, window, now);
      var globalFree := FreeAt(recentGlobal, quota.globalMaximumEvents, window, now);
      RateLimited(Clamped(quota.windowSeconds, Max(subjectFree, globalFree) - now))
  }

  lemma AnswerIsDecision(history: set<Event>, action: Action, subject: string, now: int)
    ensures AnswerFor(RecentSubject(history, action, subject, now), RecentGlobal(history, action, now),
                      Quota(action), WindowLength(action), now) ==
            if Admits(history, action, subject, now) then Admitted
            else RateLimited(RetryAfter(history, action, subject, now))
  {
  }

  /** The counts against one policy, and the clamped hint if either is full. */
  method Answer(recentSubject: set<Event>, recentGlobal: set<Event>, quota: Policy, window: nat, now: int)
    returns (outcome: Outcome)
    requires 0 < quota.maximumEvents && 0 < quota.globalMaximumEvents && 0 < quota.windowSeconds
    ensures outcome == AnswerFor(recentSubject, recentGlobal, quota, window, now)
  {
    var subjectFull, subjectFree := QuotaRoom(recentSubject, quota.maximumEvents, window, now);
    var globalFull, globalFree := QuotaRoom(recentGlobal, quota.globalMaximumEvents, window, now);
    if !subjectFull && !globalFull {
      return Admitted;
    }
    var retryAfter := Clamped(quota.windowSeconds, Max(subjectFree, globalFree) - now);
    if retryAfter < 1 || retryAfter > quota.windowSeconds {
      return Unavailable;
    }
    outcome := RateLimited(retryAfter);
  }

  /** One LIMITed subquery: its count against the quota, and when its oldest row leaves the window. */
  method QuotaRoom(recent: set<Event>, maximum: nat, window: nat, now: int) returns (full: bool, freeAt: int)
    requires 0 < maximum
    ensures full <==> |recent| >= maximum
    ensures freeAt == FreeAt(recent, maximum, window, now)
  {
    var picked := First(recent, ByOccurrence(), maximum);
    full, freeAt := |picked| >= maximum, now;
    if full {
      var e := Least(picked, ByOccurrence());
      freeAt := e.occurredAt + window;
      FirstHoldsLeast(recent, ByOccurrence(), maximum, picked, e);
      ghost var o :| o in recent && o.occurredAt == Oldest(recent);
      assert AtMost(ByOccurrence()(e), ByOccurrence()(o));
    }
  }
}
