/**
  The limiter for OAuth starts: like the request limiter, but the window is closed at both ends,
  the clock is the caller's in whole milliseconds, and the hint looks at only one of the two oldest
  starts. The hint is therefore weaker, and exactly how much weaker is proved here.
*/
module OAuthStartRateLimit {
  import opened OrderedRows

  const WINDOW_MS: nat := 5 * 60_000
  const CLIENT_MAX_STARTS: nat := 4
  const GLOBAL_MAX_STARTS: nat := 600
  const RETENTION_MS: nat := 10 * 60_000
  const CLEANUP_BATCH_SIZE: nat := 500

  datatype Start = Start(id: nat, client: string, occurredAt: int, expiresAt: int)

  datatype Outcome = Admitted | RateLimited(retryAfterSeconds: int) | Unavailable

  function NewStart(id: nat, client: string, now: int): Start { Start(id, client, now, now + RETENTION_MS) }

  function RecentGlobal(starts: set<Start>, now: int): set<Start> {
    set s | s in starts && s.occurredAt >= now - WINDOW_MS
  }

  function RecentClient(starts: set<Start>, client: string, now: int): set<Start> {
    set s | s in starts && s.client == client && s.occurredAt >= now - WINDOW_MS
  }

  function ByOccurrence(): Start -> Key { (s: Start) => (s.occurredAt, s.id as int) }

  function ByExpiry(): Start -> Key { (s: Start) => (s.expiresAt, s.id as int) }

  ghost predicate Admits(history: set<Start>, client: string, now: int) {
    |RecentClient(history, client, now)| < CLIENT_MAX_STARTS && |RecentGlobal(history, now)| < GLOBAL_MAX_STARTS
  }

  ghost function Oldest(starts: set<Start>): (t: int)
    requires starts != {}
    ensures exists s :: s in starts && s.occurredAt == t
    ensures forall s | s in starts :: t <= s.occurredAt
  {
    LeastExists(starts, ByOccurrence());
    var s :| IsLeast(starts, ByOccurrence(), s);
    assert forall q | q in starts :: AtMost(ByOccurrence()(s), ByOccurrence()(q));
    s.occurredAt
  }

  /** The one start the hint is computed from. */
  ghost function Decisive(history: set<Start>, client: string, now: int): int
    requires !Admits(history, client, now)
  {
    if |RecentClient(history, client, now)| >= CLIENT_MAX_STARTS then Oldest(RecentClient(history, client, now))
    else Oldest(RecentGlobal(history, now))
  }

  function CeilSeconds(ms: int): (s: int)
    ensures (s - 1) * 1_000 < ms <= s * 1_000
  {
    (ms + 999) / 1_000
  }

  function Clamped(wait: int): (s: int)
    ensures 1 <= s <= 300
    ensures 0 < wait <= WINDOW_MS ==> s == CeilSeconds(wait)
    ensures (wait <= 0 ==> s == 1) && (300_000 <= wait ==> s == 300)
  {
    var s := CeilSeconds(wait);
    if s > 300 then 300 else if s < 1 then 1 else s
  }

  ghost function RetryAfter(history: set<Start>, client: string, now: int): int
    requires !Admits(history, client, now)
  {
    Clamped(Decisive(history, client, now) + WINDOW_MS - now)
  }

  // ---------------------------------------------------------------------------------------------
  // Quotas and pruning
  // ---------------------------------------------------------------------------------------------

  function InWindow(history: set<Start>, start: int): set<Start> {
    set s | s in history && start <= s.occurredAt <= start + WINDOW_MS
  }

  function InClientWindow(history: set<Start>, client: string, start: int): set<Start> {
    set s | s in history && s.client == client && start <= s.occurredAt <= start + WINDOW_MS
  }

  ghost predicate QuotasHold(history: set<Start>) {
    && (forall start :: |InWindow(history, start)| <= GLOBAL_MAX_STARTS)
    && (forall client, start :: |InClientWindow(history, client, start)| <= CLIENT_MAX_STARTS)
  }

  /** An admitted start keeps both quotas in every closed window, whatever the clock did before. */
  lemma AdmissionKeepsQuotas(history: set<Start>, id: nat, client: string, now: int)
    requires QuotasHold(history) && Admits(history, client, now)
    ensures QuotasHold(history + {NewStart(id, client, now)})
  {
    var s := NewStart(id, client, now);
    var after := history + {s};
    forall start
      ensures |InWindow(after, start)| <= GLOBAL_MAX_STARTS
    {
      var was, grown := InWindow(history, start), InWindow(after, start);
      if s in grown {
        assert grown == was + {s};
        SubsetIsNoLarger(was, RecentGlobal(history, now));
      } else {
        assert grown == was;
      }
    }
    forall c, start
      ensures |InClientWindow(after, c, start)| <= CLIENT_MAX_STARTS
    {
      var was, grown := InClientWindow(history, c, start), InClientWindow(after, c, start);
      if s in grown {
        assert grown == was + {s};
        SubsetIsNoLarger(was, RecentClient(history, client, now));
      } else {
        assert grown == was;
      }
    }
  }

  function Since(history: set<Start>, instant: int): set<Start> {
    set s | s in history && s.occurredAt >= instant
  }

  function UpTo(starts: set<Start>, instant: int): set<Start> { set s | s in starts && s.occurredAt <= instant }

  function Of(starts: set<Start>, client: string): set<Start> { set s | s in starts && s.client == client }

  /**
    The limits in numbers: four starts of a client and six hundred of all in five minutes, both ends
    counted, decide the admission and bound every such span; a row is kept for ten minutes.
  */
  lemma LimitsInNumbers(history: set<Start>, id: nat, client: string, now: int)
    ensures var since := Since(history, now - 300_000);
            Admits(history, client, now) <==> |Of(since, client)| < 4 && |since| < 600
    ensures var span := UpTo(Since(history, now), now + 300_000);
            QuotasHold(history) ==> |Of(span, client)| <= 4 && |span| <= 600
    ensures NewStart(id, client, now) == Start(id, client, now, now + 600_000)
  {
    var since, span := Since(history, now - 300_000), UpTo(Since(history, now), now + 300_000);
    assert RecentGlobal(history, now) == since && RecentClient(history, client, now) == Of(since, client);
    assert InWindow(history, now) == span && InClientWindow(history, client, now) == Of(span, client);
  }

  ghost predicate Pruned(table: set<Start>, history: set<Start>, swept: int) {
    && table <= history
    && (forall s | s in history :: s == NewStart(s.id, s.client, s.occurredAt))
    && (forall s | s in history - table :: s.expiresAt <= swept)
  }

  lemma PrunedFurther(table: set<Start>, batch: set<Start>, history: set<Start>, swept: int, later: int)
    requires Pruned(table, history, swept) && batch <= table && swept <= later
    requires forall e | e in batch :: e.expiresAt <= later
    ensures Pruned(table - batch, history, later)
  {
  }

  /** The closed window leaves a margin one millisecond shorter than retention minus window. */
  lemma PrunedTableDecidesAlike(table: set<Start>, history: set<Start>, swept: int, client: string, now: int)
    requires Pruned(table, history, swept) && swept < now + 300_000
    ensures RecentGlobal(table, now) == RecentGlobal(history, now)
    ensures RecentClient(table, client, now) == RecentClient(history, client, now)
  {
  }

  // ---------------------------------------------------------------------------------------------
  // The hint
  // ---------------------------------------------------------------------------------------------

  /**
    The hint is enough exactly when it is not cut to the boundary: the start it looks at leaves the
    window at this instant, or not a whole number of seconds from now.
  */
  ghost predicate HintSuffices(history: set<Start>, client: string, now: int)
    requires !Admits(history, client, now)
  {
    var wait := Decisive(history, client, now) + WINDOW_MS - now;
    wait == 0 || wait % 1_000 != 0
  }

  lemma RoomAgain(recent: set<Start>, later: set<Start>, maximum: nat, cutoff: int)
    requires |recent| <= maximum && 0 < maximum
    requires later == set s | s in recent && s.occurredAt >= cutoff
    ensures |later| < maximum <==> (|recent| == maximum ==> Oldest(recent) < cutoff)
  {
    SubsetIsNoLarger(later, recent);
    if |recent| == maximum {
      var s :| s in recent && s.occurredAt == Oldest(recent);
      if Oldest(recent) < cutoff {
        assert s !in later;
      } else {
        assert later == recent;
      }
    }
  }

  /** With no further start, a later request is admitted exactly when each full quota's oldest start has left. */
  lemma AdmittedLater(history: set<Start>, client: string, now: int, later: int)
    requires QuotasHold(history) && now <= later
    requires forall s | s in history :: s.occurredAt <= now
    ensures var c, g := RecentClient(history, client, now), RecentGlobal(history, now);
            && |c| <= CLIENT_MAX_STARTS && |g| <= GLOBAL_MAX_STARTS
            && (Admits(history, client, later) <==>
                && (|c| == CLIENT_MAX_STARTS ==> Oldest(c) + WINDOW_MS < later)
                && (|g| == GLOBAL_MAX_STARTS ==> Oldest(g) + WINDOW_MS < later))
  {
    var c, g := RecentClient(history, client, now), RecentGlobal(history, now);
    assert c == InClientWindow(history, client, now - WINDOW_MS) && g == InWindow(history, now - WINDOW_MS);
    assert RecentClient(history, client, later) == set s | s in c && s.occurredAt >= later - WINDOW_MS;
    assert RecentGlobal(history, later) == set s | s in g && s.occurredAt >= later - WINDOW_MS;
    RoomAgain(c, RecentClient(history, client, later), CLIENT_MAX_STARTS, later - WINDOW_MS);
    RoomAgain(g, RecentGlobal(history, later), GLOBAL_MAX_STARTS, later - WINDOW_MS);
  }

  /** A full client's oldest start is no older than the oldest of all, so its hint covers both quotas. */
  lemma DecisiveIsLast(history: set<Start>, client: string, now: int)
    requires !Admits(history, client, now)
    ensures var c, g, t := RecentClient(history, client, now), RecentGlobal(history, now),
                           Decisive(history, client, now);
            && (|c| >= CLIENT_MAX_STARTS ==> Oldest(c) == t)
            && (|g| >= GLOBAL_MAX_STARTS ==> Oldest(g) <= t)
            && (|c| >= CLIENT_MAX_STARTS || |g| >= GLOBAL_MAX_STARTS)
  {
    var c, g := RecentClient(history, client, now), RecentGlobal(history, now);
    if |c| >= CLIENT_MAX_STARTS {
      assert c != {} && c <= g;
    }
  }

  /**
    With no other start anywhere, a request made when the hint runs out is admitted if and only if
    the hint suffices. In particular the other quota never spoils it.
  */
  lemma WaitingAdmitsExactly(history: set<Start>, client: string, now: int)
    requires QuotasHold(history) && !Admits(history, client, now)
    requires forall s | s in history :: s.occurredAt <= now
    ensures Admits(history, client, now + RetryAfter(history, client, now) * 1_000) <==>
            HintSuffices(history, client, now)
  {
    AdmittedLater(history, client, now, now + RetryAfter(history, client, now) * 1_000);
    DecisiveIsLast(history, client, now);
    DecisiveIsRecent(history, client, now);
    WaitIsStrict(Decisive(history, client, now) + WINDOW_MS - now);
  }

  lemma DecisiveIsRecent(history: set<Start>, client: string, now: int)
    requires !Admits(history, client, now)
    requires forall s | s in history :: s.occurredAt <= now
    ensures now - WINDOW_MS <= Decisive(history, client, now) <= now
  {
  }

  lemma WaitIsStrict(wait: int)
    requires 0 <= wait <= WINDOW_MS
    ensures wait < Clamped(wait) * 1_000 <==> wait == 0 || wait % 1_000 != 0
  {
  }

  /** The hint never undershoots by more than the boundary: a millisecond past both oldest starts always works. */
  lemma WaitingPastBothAdmits(history: set<Start>, client: string, now: int, later: int)
    requires QuotasHold(history) && !Admits(history, client, now) && now <= later
    requires forall s | s in history :: s.occurredAt <= now
    requires RecentClient(history, client, now) != {} ==> Oldest(RecentClient(history, client, now)) + WINDOW_MS < later
    requires RecentGlobal(history, now) != {} ==> Oldest(RecentGlobal(history, now)) + WINDOW_MS < later
    ensures Admits(history, client, later)
  {
    AdmittedLater(history, client, now, later);
  }

  function FourStarts(client: string): set<Start> {
    {NewStart(0, client, 0), NewStart(1, client, 0), NewStart(2, client, 0), NewStart(3, client, 0)}
  }

  /** Four starts at time 0 and a fifth try a second later: the hint is 299 s, and obeying it is refused. */
  lemma HintCanFail(client: string)
    ensures QuotasHold(FourStarts(client))
    ensures !Admits(FourStarts(client), client, 1_000) && RetryAfter(FourStarts(client), client, 1_000) == 299
    ensures !Admits(FourStarts(client), client, 1_000 + 299 * 1_000)
  {
    var history := FourStarts(client);
    assert |history| == 4;
    forall start
      ensures |InWindow(history, start)| <= GLOBAL_MAX_STARTS
    {
      SubsetIsNoLarger(InWindow(history, start), history);
    }
    forall c, start
      ensures |InClientWindow(history, c, start)| <= CLIENT_MAX_STARTS
    {
      SubsetIsNoLarger(InClientWindow(history, c, start), history);
    }
    assert RecentClient(history, client, 1_000) == history;
    assert RecentClient(history, client, 300_000) == history;
  }

  function ExpiredStarts(starts: set<Start>, now: int): set<Start> { set s | s in starts && s.expiresAt <= now }

  /** One cleanup: a batch of expired starts at most, a full one if any remain, and those that expired first. */
  ghost predicate Cleaned(before: set<Start>, after: set<Start>, now: int) {
    && after <= before && |before - after| <= 500
    && (forall s | s in before - after :: s.expiresAt <= now)
    && ((exists s :: s in after && s.expiresAt <= now) ==> |before - after| == 500)
    && forall s, kept | s in before - after && kept in after :: s.expiresAt <= kept.expiresAt
  }

  lemma BatchExpiredFirst(starts: set<Start>, now: int, batch: set<Start>)
    requires IsFirst(ExpiredStarts(starts, now), ByExpiry(), CLEANUP_BATCH_SIZE, batch)
    ensures Cleaned(starts, starts - batch, now)
    ensures batch <= starts && forall s | s in batch :: s.expiresAt <= now
  {
    SubsetIsNoLarger(batch, ExpiredStarts(starts, now));
    assert starts - (starts - batch) == batch;
    forall s, kept | s in batch && kept in starts - batch
      ensures s.expiresAt <= kept.expiresAt
    {
      if kept in ExpiredStarts(starts, now) {
        assert AtMost(ByExpiry()(s), ByExpiry()(kept));
      }
    }
  }

  // ---------------------------------------------------------------------------------------------
  // The limiter
  // ---------------------------------------------------------------------------------------------

  class Limiter {
    var starts: set<Start>
    var nextId: nat
    ghost var history: set<Start>
    ghost var swept: int

    ghost predicate Valid()
      reads this
    {
      && Pruned(starts, history, swept)
      && QuotasHold(history)
      && forall s | s in history :: s.id < nextId
    }

    constructor (ghost start: int)
      ensures Valid() && starts == {} && history == {} && swept == start
    {
      starts, nextId, history, swept := {}, 0, {}, start;
      new;
      assert forall t :: InWindow({}, t) == {};
      assert forall client, t :: InClientWindow({}, client, t) == {};
    }

    /** Deletes at most one batch of expired starts, those that expired first. */
    method Cleanup(now: int)
      requires Valid()
      modifies this`starts, this`swept
      ensures Valid() && swept == (if old(swept) < now then now else old(swept))
      ensures Cleaned(old(starts), starts, now)
    {
      var batch := ExpiredBatch(starts, now);
      PrunedFurther(starts, batch, history, swept, if swept < now then now else swept);
      starts := starts - batch;
      swept := if swept < now then now else swept;
    }

    method Insert(client: string, now: int)
      requires Valid() && Admits(history, client, now)
      modifies this`starts, this`history, this`nextId
      ensures Valid()
      ensures var start := NewStart(old(nextId), client, now);
              starts == old(starts) + {start} && history == old(history) + {start}
    {
      AdmissionKeepsQuotas(history, nextId, client, now);
      var start := NewStart(nextId, client, now);
      starts := starts + {start};
      history := history + {start};
      nextId := nextId + 1;
    }

    /** consumeOAuthStartRateLimit, on a caller's clock less than five minutes behind any earlier one. */
    method Consume(client: string, now: int) returns (outcome: Outcome)
      requires Valid() && swept < now + (RETENTION_MS - WINDOW_MS)
      modifies this
      ensures Valid()
      ensures Admits(old(history), client, now) ==>
                outcome == Admitted && history == old(history) + {NewStart(old(nextId), client, now)}
      ensures !Admits(old(history), client, now) ==>
                outcome == RateLimited(RetryAfter(old(history), client, now)) && history == old(history)
      ensures |old(starts) - starts| <= CLEANUP_BATCH_SIZE
      ensures forall s | s in old(starts) - starts :: s.expiresAt <= now
    {
      Cleanup(now);
      outcome := Decide(starts, history, swept, client, now);
      if outcome.Admitted? {
        ghost var kept := starts;
        Insert(client, now);
        SubsetIsNoLarger(old(starts) - starts, old(starts) - kept);
      }
    }
  }

  /** DELETE ... WHERE id IN (SELECT ... ORDER BY expires_at, id LIMIT): the rows it picks. */
  method ExpiredBatch(starts: set<Start>, now: int) returns (batch: set<Start>)
    ensures Cleaned(starts, starts - batch, now)
    ensures batch <= starts && forall s | s in batch :: s.expiresAt <= now
  {
    batch := First(ExpiredStarts(starts, now), ByExpiry(), CLEANUP_BATCH_SIZE);
    BatchExpiredFirst(starts, now, batch);
  }

  method Decide(table: set<Start>, ghost history: set<Start>, ghost swept: int, client: string, now: int)
    returns (outcome: Outcome)
    requires Pruned(table, history, swept) && swept < now + (RETENTION_MS - WINDOW_MS)
    ensures outcome == if Admits(history, client, now) then Admitted
                       else RateLimited(RetryAfter(history, client, now))
  {
    PrunedTableDecidesAlike(table, history, swept, client, now);
    var clientCount, clientOldest := CountAndOldest(RecentClient(table, client, now), CLIENT_MAX_STARTS);
    var globalCount, globalOldest := CountAndOldest(RecentGlobal(table, now), GLOBAL_MAX_STARTS);
    if clientCount < CLIENT_MAX_STARTS && globalCount < GLOBAL_MAX_STARTS {
      return Admitted;
    }
    var oldest := if clientCount >= CLIENT_MAX_STARTS then clientOldest else globalOldest;
    outcome := RateLimited(Clamped(oldest + WINDOW_MS - now));
  }

  /** count(*) and min(occurred_at) of the oldest `limit` starts. */
  method CountAndOldest(recent: set<Start>, limit: nat) returns (count: nat, oldest: int)
    requires 0 < limit
    ensures count == if |recent| < limit then |recent| else limit
    ensures recent != {} ==> oldest == Oldest(recent)
  {
    var picked := First(recent, ByOccurrence(), limit);
    count, oldest := |picked|, 0;
    if picked != {} {
      var s := Least(picked, ByOccurrence());
      oldest := s.occurredAt;
      FirstHoldsLeast(recent, ByOccurrence(), limit, picked, s);
      ghost var o :| o in recent && o.occurredAt == Oldest(recent);
      assert AtMost(ByOccurrence()(s), ByOccurrence()(o));
    }
  }
}
