/**
  The attempt lifecycle: every writer that can settle an attempt, as database transactions over one
  attempt and the rows that belong to it. Abort and expiry are two-phase: a reservation commits, the
  multipart upload is aborted outside the database, and a second transaction settles the attempt.
  A crash or a redelivery between the phases is any other order of the same transactions.
*/
module AttemptLifecycle {
  import opened Bytes

  type Id = nat

  datatype Status =
    | Preparing | Ready | Active | Uploading | Processing | ReviewRequired
    | Passed | RetryRequired | TechnicalRetry | Expired | Invalidated

  predicate Settled(s: Status) {
    s == Passed || s == RetryRequired || s == TechnicalRetry || s == Expired || s == Invalidated
  }

  /** TECHNICALLY_ABORTABLE and EXPIRABLE_STATUSES */
  predicate Abortable(s: Status) { s == Preparing || s == Ready || s == Active || s == Uploading }

  /** The status changes the database trigger on attempts lets through. */
  predicate Allowed(from: Status, to: Status) {
    match from
    case Preparing => to == Ready || to == TechnicalRetry || to == Expired || to == Invalidated
    case Ready => to == Active || to == TechnicalRetry || to == Expired || to == Invalidated
    case Active => to == Uploading || to == TechnicalRetry || to == Expired || to == Invalidated
    case Uploading => to == Processing || to == TechnicalRetry || to == Expired || to == Invalidated
    case Processing => to == ReviewRequired || to == TechnicalRetry || to == Expired || to == Invalidated
    case ReviewRequired =>
      to == Passed || to == RetryRequired || to == TechnicalRetry || to == Expired || to == Invalidated
    case _ => false
  }

  datatype UploadState = UploadActive | Aborting | PendingFinalization | Completed | Failed | Deleted

  /** Idempotency keys, told apart by the operation that makes them. */
  datatype Key =
    | StartKey(k: Id) | UploadKey | FinalizeKey(k: Id) | AbortKey(k: Id) | StaleKey(k: Id) | ExpiryKey
    | MediaKey | PipelineKey(k: Id) | ReviewKey(k: Id)

  datatype Transition = Transition(key: Key, from: Status, to: Status, actor: Id)

  datatype Conclusion = Success | ActionRequired
  datatype Check =
    | TechnicalRetryCheck | ExpiredCheck | ReviewCheck | ProofReadyCheck | DecisionCheck(conclusion: Conclusion)
  datatype Intent = Intent(key: Key, check: Check)

  predicate Settles(c: Check) { !c.ReviewCheck? && !c.ProofReadyCheck? }

  datatype Action = Approve | Reject | ManualRetry
  datatype Verdict = Pass | Retry
  datatype ReasonCode = MaintainerApproved | MaintainerRejected | ManualRetryReason
  datatype Plan = Plan(verdict: Verdict, target: Status, reason: ReasonCode, conclusion: Conclusion)

  /** planReviewDecision */
  function PlanReviewDecision(action: Action): (p: Plan)
    ensures Settled(p.target)
  {
    match action
    case Approve => Plan(Pass, Passed, MaintainerApproved, Success)
    case Reject => Plan(Retry, RetryRequired, MaintainerRejected, ActionRequired)
    case ManualRetry => Plan(Retry, TechnicalRetry, ManualRetryReason, ActionRequired)
  }

  datatype Decision = Decision(
    maintainer: Id, verdict: Verdict, reason: ReasonCode, explanation: Option<string>, head: Id)

  /**
    The wrapping materials of an attempt, one from each handoff exchange. An exchange reads the
    attempt without locking it and inserts its material later in the same transaction: `exchanging`
    holds the identifiers of exchanges that have passed their check and not yet ended.
  */
  datatype Materials = Materials(live: set<Id>, destroyed: set<Id>, exchanging: set<Id>)

  predicate Apart(m: Materials) {
    m.live * m.destroyed == {} && m.live * m.exchanging == {} && m.destroyed * m.exchanging == {}
  }

  /** Sets destroyed_at on these of the live materials. */
  function Destroy(m: Materials, ids: set<Id>): Materials {
    m.(live := m.live - ids, destroyed := m.destroyed + m.live * ids)
  }

  /**
    An attempt with its upload session, its wrapping materials and the rows that reference it; `own`
    is the material the upload was made with.
  */
  datatype Attempt = Attempt(
    author: Id, revision: Id, head: Id, status: Status, expiresAt: int,
    upload: Option<UploadState>, own: Option<Id>, materials: Materials,
    transitions: seq<Transition>, intents: seq<Intent>, decisions: seq<Decision>)

  datatype Outcome =
    | Conflict | Stale | Replayed | AlreadyProgressed | Proceed | SettledAs(status: Status) | CleanedUp | Advanced
    | Existing | Created | Done

  // ---------------------------------------------------------------------------------------------
  // The transactions, on one attempt
  // ---------------------------------------------------------------------------------------------

  predicate HasKey(rows: seq<Transition>, key: Key) { exists i :: 0 <= i < |rows| && rows[i].key == key }

  /** INSERT ... ON CONFLICT (attempt_id, idempotency_key) DO NOTHING */
  function InsertOnce(rows: seq<Transition>, row: Transition): seq<Transition> {
    if HasKey(rows, row.key) then rows else rows + [row]
  }

  /** destroyIncompleteEvidence */
  function DestroyEvidence(r: Attempt): Attempt {
    r.(upload := if r.upload.Some? then Some(Failed) else None, materials := Destroy(r.materials, r.materials.live))
  }

  function Settle(r: Attempt, key: Key, to: Status, actor: Id, check: Check): Attempt {
    r.(status := to, transitions := InsertOnce(r.transitions, Transition(key, r.status, to, actor)),
       intents := r.intents + [Intent(key, check)])
  }

  /** Both reservations: an active upload becomes aborting. */
  function Reserve(r: Attempt): Attempt {
    if r.upload == Some(UploadActive) then r.(upload := Some(Aborting)) else r
  }

  predicate UploadReservable(r: Attempt) {
    r.upload == None || r.upload == Some(UploadActive) || r.upload == Some(Aborting)
  }

  function RowOf(rows: seq<Transition>, key: Key): (row: Transition)
    requires HasKey(rows, key)
    ensures row in rows && row.key == key
  {
    if rows[0].key == key then rows[0] else RowOf(rows[1..], key)
  }

  /** reserveTechnicalAbort */
  function ReserveAbort(r: Attempt, current: bool, authorized: bool, head: Id, k: Id): (Attempt, Outcome) {
    if !authorized || r.head != head then (r, Conflict)
    else if HasKey(r.transitions, AbortKey(k)) then
      if RowOf(r.transitions, AbortKey(k)).to != TechnicalRetry || r.status != TechnicalRetry then (r, Conflict)
      else (r, Replayed)
    else if r.status == TechnicalRetry then (r, Replayed)
    else if r.status == Processing || r.status == ReviewRequired || r.status == Passed then (r, AlreadyProgressed)
    else if !current || !Abortable(r.status) then (r, Conflict)
    else if !UploadReservable(r) then (r, Conflict)
    else (Reserve(r), Proceed)
  }

  /** The second transaction of abortAttemptForTechnicalRetry. */
  function CommitAbort(r: Attempt, current: bool, authorized: bool, head: Id, k: Id): (Attempt, Outcome) {
    if !authorized then (r, Conflict)
    else if r.status == TechnicalRetry then (r, Replayed)
    else if !current || r.head != head then
      var stale := if Abortable(r.status)
                   then r.(status := Invalidated,
                           transitions := InsertOnce(r.transitions, Transition(StaleKey(k), r.status, Invalidated, 0)))
                   else r;
      (DestroyEvidence(stale), SettledAs(Invalidated))
    else if !Abortable(r.status) then (r, Conflict)
    else
      (DestroyEvidence(Settle(r, AbortKey(k), TechnicalRetry, r.author, TechnicalRetryCheck)),
       SettledAs(TechnicalRetry))
  }

  /** reserveExpiry */
  function ReserveExpiry(r: Attempt, current: bool, head: Id, now: int): (Attempt, Outcome) {
    if r.head != head then (r, Stale)
    else if r.status == Expired then (r, Replayed)
    else if r.status == Invalidated || !current then (Reserve(r), Proceed)
    else if !Abortable(r.status) || r.expiresAt > now then (r, Stale)
    else if !UploadReservable(r) then (r, Stale)
    else (Reserve(r), Proceed)
  }

  /** The second transaction of expireAttempt. */
  function CommitExpiry(r: Attempt, current: bool, head: Id, now: int): (Attempt, Outcome) {
    if r.head != head then (r, Stale)
    else if r.status == Expired then (r, Replayed)
    else if r.status == Invalidated || !current then (DestroyEvidence(r), CleanedUp)
    else if !Abortable(r.status) || r.expiresAt > now then (r, Stale)
    else (DestroyEvidence(Settle(r, ExpiryKey, Expired, 0, ExpiredCheck)), SettledAs(Expired))
  }

  /** The upload's own material, of which the media job knows. */
  function Own(r: Attempt): set<Id> { if r.own.Some? then {r.own.value} else {} }

  /**
    recordMediaFinalizationFailure: settles only a processing attempt; fails the upload and destroys
    the upload's own material in any case. Without an upload there is no such job.
  */
  function FailMedia(r: Attempt): (Attempt, Outcome) {
    if r.upload.None? then (r, Stale)
    else
      var settled := if r.status == Processing then Settle(r, MediaKey, TechnicalRetry, 0, TechnicalRetryCheck) else r;
      (settled.(upload := Some(Failed), materials := Destroy(r.materials, Own(r))),
       if r.status == Processing then SettledAs(TechnicalRetry) else CleanedUp)
  }

  /** transitionToReviewRequired; `eligible` is the current, open, active and evidence check. */
  function RequireReview(r: Attempt, eligible: bool, evidence: bool, head: Id, k: Id): (Attempt, Outcome) {
    if !eligible || r.head != head || (r.status != Processing && r.status != ReviewRequired) then (r, Stale)
    else if r.status == ReviewRequired then (r, Replayed)
    else if !evidence then (r, Stale)
    else if HasKey(r.transitions, PipelineKey(k)) then (r, Replayed)
    else (Settle(r, PipelineKey(k), ReviewRequired, 0, ReviewCheck), Advanced)
  }

  /** transitionToTechnicalRetry */
  function RequireRetry(r: Attempt, eligible: bool, head: Id, k: Id): (Attempt, Outcome) {
    if !eligible || r.head != head || (r.status != Processing && r.status != TechnicalRetry) then (r, Stale)
    else if r.status == TechnicalRetry then (r, Replayed)
    else if HasKey(r.transitions, PipelineKey(k)) then (r, Replayed)
    else (Settle(r, PipelineKey(k), TechnicalRetry, 0, TechnicalRetryCheck), SettledAs(TechnicalRetry))
  }

  /** decideReview, once the maintainer is authorized. */
  function DecideReview(
    r: Attempt, current: bool, head: Id, k: Id, actor: Id, action: Action, explanation: Option<string>)
    : (Attempt, Outcome)
  {
    var plan := PlanReviewDecision(action);
    if !current || r.head != head then (r, Conflict)
    else if HasKey(r.transitions, ReviewKey(k)) then
      var row := RowOf(r.transitions, ReviewKey(k));
      if row.to != plan.target || row.actor != actor || r.status != plan.target || r.decisions == []
         || r.decisions[0] != Decision(r.decisions[0].maintainer, plan.verdict, plan.reason, explanation, r.head)
      then (r, Conflict) else (r, Replayed)
    else if r.status != ReviewRequired || r.decisions != [] then (r, Conflict)
    else (Decide(r, k, actor, plan, explanation), SettledAs(plan.target))
  }

  /** The transaction decideReview commits on a review_required attempt without a decision. */
  function Decide(r: Attempt, k: Id, actor: Id, plan: Plan, explanation: Option<string>): Attempt {
    Settle(r, ReviewKey(k), plan.target, actor, DecisionCheck(plan.conclusion)).(
      decisions := r.decisions + [Decision(actor, plan.verdict, plan.reason, explanation, r.head)])
  }

  /**
    Moves made elsewhere: handoff exchanges, the author's progress, revision invalidation, retention.
    An exchange ends by inserting its material, whatever happened to the attempt meanwhile, or by
    rolling back. An upload names a material read before the attempt was locked.
  */
  datatype Event =
    | BecomeReady | BeginExchange(m: Id, now: int) | InsertMaterial(m: Id) | DropExchange(m: Id)
    | Start(k: Id) | StartUpload(m: Id) | FinalizeUpload(k: Id) | ValidateRecording
    | InvalidateRevision | DeleteEvidence

  /** A push or a close invalidates without a transition row. */
  function Invalidate(r: Attempt): Attempt { if Settled(r.status) then r else r.(status := Invalidated) }

  predicate Known(m: Materials, id: Id) { id in m.live + m.destroyed + m.exchanging }

  /** The insert at the end of an exchange. */
  function Inserted(m: Materials, id: Id): Materials {
    if id in m.exchanging then m.(live := m.live + {id}, exchanging := m.exchanging - {id}) else m
  }

  function Occur(r: Attempt, e: Event): Attempt {
    match e
    case BecomeReady => if r.status == Preparing then r.(status := Ready) else r
    case BeginExchange(m, now) =>
      if r.status != Ready || r.expiresAt <= now || Known(r.materials, m) then r
      else r.(materials := r.materials.(exchanging := r.materials.exchanging + {m}))
    case InsertMaterial(m) => r.(materials := Inserted(r.materials, m))
    case DropExchange(m) => r.(materials := r.materials.(exchanging := r.materials.exchanging - {m}))
    case Start(k) =>
      if r.status != Ready then r
      else
        r.(status := Active,
           transitions := InsertOnce(r.transitions, Transition(StartKey(k), Ready, Active, r.author)))
    case StartUpload(m) =>
      if r.status != Active || r.upload.Some? || HasKey(r.transitions, UploadKey) then r
      else if m !in r.materials.live + r.materials.destroyed then r
      else r.(status := Uploading, upload := Some(UploadActive), own := Some(m),
              transitions := r.transitions + [Transition(UploadKey, Active, Uploading, r.author)])
    case FinalizeUpload(k) =>
      if r.status != Uploading || r.upload != Some(UploadActive) then r
      else r.(status := Processing, upload := Some(PendingFinalization),
              transitions := InsertOnce(r.transitions, Transition(FinalizeKey(k), Uploading, Processing, r.author)))
    case ValidateRecording => if r.upload == Some(PendingFinalization) then r.(upload := Some(Completed)) else r
    case InvalidateRevision => Invalidate(r)
    case DeleteEvidence =>
      r.(upload := if r.upload.Some? then Some(Deleted) else None, materials := Destroy(r.materials, r.materials.live))
  }

  // ---------------------------------------------------------------------------------------------
  // What every transaction keeps
  // ---------------------------------------------------------------------------------------------

  function Settlements(rows: seq<Transition>): nat {
    if rows == [] then 0 else Settlements(rows[..|rows| - 1]) + if Settled(rows[|rows| - 1].to) then 1 else 0
  }

  function SettlingChecks(intents: seq<Intent>): nat {
    if intents == [] then 0
    else SettlingChecks(intents[..|intents| - 1]) + if Settles(intents[|intents| - 1].check) then 1 else 0
  }

  /** From which status to which an operation's key can lead. */
  predicate KeyFits(row: Transition) {
    match row.key
    case StartKey(_) => row.from == Ready && row.to == Active
    case UploadKey => row.from == Active && row.to == Uploading
    case FinalizeKey(_) => row.from == Uploading && row.to == Processing
    case AbortKey(_) => Abortable(row.from) && row.to == TechnicalRetry
    case StaleKey(_) => Abortable(row.from) && row.to == Invalidated
    case ExpiryKey => Abortable(row.from) && row.to == Expired
    case MediaKey => row.from == Processing && row.to == TechnicalRetry
    case PipelineKey(_) => row.from == Processing && (row.to == ReviewRequired || row.to == TechnicalRetry)
    case ReviewKey(_) =>
      row.from == ReviewRequired && (row.to == Passed || row.to == RetryRequired || row.to == TechnicalRetry)
  }

  /** Who acts under a key: the author, the maintainer of the decision, or the service, which is 0. */
  predicate ActorFits(r: Attempt, row: Transition) {
    match row.key
    case StartKey(_) => row.actor == r.author
    case UploadKey => row.actor == r.author
    case FinalizeKey(_) => row.actor == r.author
    case AbortKey(_) => row.actor == r.author
    case ReviewKey(_) => r.decisions != [] && row.actor == r.decisions[0].maintainer
    case _ => row.actor == 0
  }

  /** The check that goes with an operation, and the status it speaks of. */
  predicate IntentFits(r: Attempt, intent: Intent) {
    match intent.check
    case TechnicalRetryCheck =>
      && r.status == TechnicalRetry && r.decisions == []
      && (intent.key.AbortKey? || intent.key.MediaKey? || intent.key.PipelineKey?)
    case ExpiredCheck => r.status == Expired && intent.key == ExpiryKey
    case ReviewCheck => (r.status == ReviewRequired || Settled(r.status)) && intent.key.PipelineKey?
    case ProofReadyCheck => intent.key.StartKey?
    case DecisionCheck(conclusion) =>
      && r.decisions != [] && intent.key.ReviewKey?
      && conclusion == if r.status == Passed then Success else ActionRequired
  }

  predicate IntentsFit(r: Attempt, intents: seq<Intent>) {
    forall i :: 0 <= i < |intents| ==> IntentFits(r, intents[i])
  }

  /** The keys of the operations that fail the upload they settle. */
  predicate Destroys(key: Key) { key.AbortKey? || key.StaleKey? || key.ExpiryKey? || key.MediaKey? }

  /** How far along a status is; every settled one is at the end. */
  function Progress(s: Status): nat {
    match s
    case Preparing => 0
    case Ready => 1
    case Active => 2
    case Uploading => 3
    case Processing => 4
    case ReviewRequired => 5
    case _ => 6
  }

  predicate RowFits(r: Attempt, row: Transition) {
    && KeyFits(row)
    && (Settled(row.to) ==> row.to == r.status)
    && Progress(row.to) <= Progress(r.status)
    && (Destroys(row.key) ==> UploadGone(r))
    && ActorFits(r, row)
  }

  predicate UploadGone(r: Attempt) { r.upload == None || r.upload == Some(Failed) || r.upload == Some(Deleted) }

  predicate EvidenceGone(r: Attempt) { UploadGone(r) && r.materials.live == {} }

  /** Exactly one settlement row and one settling check, unless a push or close invalidated the attempt. */
  predicate SettledOnce(r: Attempt) {
    var rows, checks := Settlements(r.transitions), SettlingChecks(r.intents);
    if !Settled(r.status) then rows == 0 && checks == 0
    else if r.status == Invalidated then rows <= 1 && checks == 0
    else rows == 1 && checks == 1
  }

  predicate UploadFits(r: Attempt) {
    && (r.upload.Some? <==> r.own.Some?)
    && (r.status == Preparing || r.status == Ready || r.status == Active ==> r.upload == None)
    && (r.status == Uploading ==>
          r.upload.Some? && r.upload.value != PendingFinalization && r.upload.value != Completed)
  }

  /** The decision, the status, the transition and the check all follow the plan of one action. */
  predicate DecisionFits(r: Attempt) {
    && |r.decisions| <= 1
    && (r.decisions != [] ==>
          exists action :: FollowsPlan(r, PlanReviewDecision(action)))
  }

  predicate FollowsPlan(r: Attempt, plan: Plan) {
    && r.decisions != [] && r.status == plan.target
    && r.decisions[0].verdict == plan.verdict && r.decisions[0].reason == plan.reason && r.decisions[0].head == r.head
    && (forall i :: 0 <= i < |r.intents| && Settles(r.intents[i].check) ==>
          r.intents[i].check == DecisionCheck(plan.conclusion))
  }

  predicate Sound(r: Attempt) {
    && SettledOnce(r) && UploadFits(r) && DecisionFits(r) && Apart(r.materials)
    && RowsFit(r, r.transitions) && IntentsFit(r, r.intents)
  }

  predicate RowsFit(r: Attempt, rows: seq<Transition>) {
    forall i :: 0 <= i < |rows| ==> RowFits(r, rows[i])
  }

  /** No material is forgotten, and a destroyed one stays destroyed. */
  predicate MaterialsKept(m: Materials, n: Materials) {
    m.destroyed <= n.destroyed && m.live <= n.live + n.destroyed
  }

  /** What a transaction may do to an attempt: a guarded move, rows only appended, soundness kept. */
  predicate Moves(r: Attempt, s: Attempt) {
    && s.author == r.author && s.revision == r.revision && s.head == r.head && s.expiresAt == r.expiresAt
    && (s.status == r.status || Allowed(r.status, s.status))
    && r.transitions <= s.transitions && r.intents <= s.intents && r.decisions <= s.decisions
    && MaterialsKept(r.materials, s.materials)
    && (Sound(r) ==> Sound(s))
  }

  lemma SettlementsSnoc(rows: seq<Transition>, row: Transition)
    ensures Settlements(rows + [row]) == Settlements(rows) + if Settled(row.to) then 1 else 0
  {
  }

  lemma SettlingChecksSnoc(intents: seq<Intent>, intent: Intent)
    ensures SettlingChecks(intents + [intent]) == SettlingChecks(intents) + if Settles(intent.check) then 1 else 0
  {
  }

  lemma {:induction false} NoSettlingCheck(intents: seq<Intent>)
    requires SettlingChecks(intents) == 0
    ensures forall i :: 0 <= i < |intents| ==> !Settles(intents[i].check)
  {
    if intents != [] {
      NoSettlingCheck(intents[..|intents| - 1]);
    }
  }

  lemma KeyedRowFits(r: Attempt, key: Key)
    requires Sound(r) && HasKey(r.transitions, key)
    ensures exists row: Transition :: row.key == key && RowFits(r, row)
  {
  }

  /** A live attempt's rows all come from operations that do not settle. */
  lemma LiveHasNoSettlingKey(r: Attempt, key: Key)
    requires Sound(r) && !Settled(r.status)
    requires key.AbortKey? || key.StaleKey? || key.ExpiryKey? || key.MediaKey? || key.ReviewKey?
    ensures !HasKey(r.transitions, key)
  {
  }

  /** Before review, no pipeline row either. */
  lemma UnreviewedHasNoPipelineKey(r: Attempt, key: Key)
    requires Sound(r) && !Settled(r.status) && r.status != ReviewRequired && key.PipelineKey?
    ensures !HasKey(r.transitions, key)
  {
  }

  lemma {:induction false} SettlementRowCounts(rows: seq<Transition>, i: nat)
    requires i < |rows| && Settled(rows[i].to)
    ensures Settlements(rows) > 0
  {
    if i < |rows| - 1 {
      SettlementRowCounts(rows[..|rows| - 1], i);
    }
  }

  /** Counting one settlement means that no two rows settle. */
  lemma {:induction false} TwoSettlementRowsCount(rows: seq<Transition>, i: nat, j: nat)
    requires i < j < |rows| && Settled(rows[i].to) && Settled(rows[j].to)
    ensures Settlements(rows) >= 2
  {
    if j < |rows| - 1 {
      TwoSettlementRowsCount(rows[..|rows| - 1], i, j);
    } else {
      SettlementRowCounts(rows[..|rows| - 1], i);
    }
  }

  /** What is left to show when no row, or one, was added. */
  lemma StaysSound(r: Attempt, s: Attempt)
    requires Sound(r) && SettledOnce(s) && UploadFits(s) && DecisionFits(s)
    requires s.transitions == r.transitions && s.intents == r.intents && s.author == r.author
    requires !Settled(r.status) || s.status == r.status
    requires Progress(r.status) <= Progress(s.status)
    requires UploadGone(r) ==> UploadGone(s) || !Settled(r.status)
    requires Apart(s.materials)
    requires r.decisions == s.decisions || !Settled(r.status)
    ensures Sound(s)
  {
  }

  lemma AppendIsSound(r: Attempt, s: Attempt, row: Transition)
    requires Sound(r) && !Settled(r.status) && SettledOnce(s) && UploadFits(s) && DecisionFits(s)
    requires s.transitions == r.transitions + [row] && RowFits(s, row) && Apart(s.materials)
    requires s.author == r.author && IntentsFit(s, s.intents)
    requires Progress(r.status) <= Progress(s.status)
    ensures Sound(s)
  {
  }

  lemma CountsOneMore(r: Attempt, s: Attempt, row: Transition, intent: Intent)
    requires SettledOnce(r) && !Settled(r.status) && s.status == row.to && row.to != Invalidated
    requires s.transitions == r.transitions + [row] && s.intents == r.intents + [intent]
    requires Settled(row.to) <==> Settles(intent.check)
    ensures SettledOnce(s)
  {
    SettlementsSnoc(r.transitions, row);
    SettlingChecksSnoc(r.intents, intent);
  }

  /** One row and the check that goes with it, added to a live attempt. */
  lemma SettleRowIsSound(r: Attempt, s: Attempt, row: Transition, intent: Intent)
    requires Sound(r) && !Settled(r.status) && UploadFits(s) && DecisionFits(s) && Apart(s.materials)
    requires s.author == r.author && s.status == row.to && row.to != Invalidated
    requires s.transitions == r.transitions + [row] && s.intents == r.intents + [intent]
    requires Settled(row.to) <==> Settles(intent.check)
    requires RowFits(s, row) && IntentFits(s, intent) && Progress(r.status) <= Progress(s.status)
    ensures Sound(s)
  {
    CountsOneMore(r, s, row, intent);
    LiveIntentsFit(r, s, r.intents);
    AppendIsSound(r, s, row);
  }

  /** Settling a live attempt under a fresh key adds its one row and its one check. */
  lemma SettleIsSound(r: Attempt, key: Key, to: Status, actor: Id, check: Check, s: Attempt)
    requires Sound(r) && !Settled(r.status) && !HasKey(r.transitions, key)
    requires KeyFits(Transition(key, r.status, to, actor)) && !key.ReviewKey?
    requires ActorFits(r, Transition(key, r.status, to, actor))
    requires Settled(to) && to != Invalidated && Settles(check) && IntentFits(s, Intent(key, check))
    requires s == Settle(r, key, to, actor, check).(upload := s.upload, materials := s.materials)
    requires (s.upload.Some? <==> r.upload.Some?) && Apart(s.materials) && (Destroys(key) ==> UploadGone(s))
    ensures Sound(s)
  {
    SettleRowIsSound(r, s, Transition(key, r.status, to, actor), Intent(key, check));
  }

  /** The checks of a live attempt fit whatever it moves to. */
  lemma LiveIntentsFit(r: Attempt, s: Attempt, intents: seq<Intent>)
    requires IntentsFit(r, intents) && !Settled(r.status) && SettlingChecks(intents) == 0
    requires Progress(r.status) <= Progress(s.status)
    ensures IntentsFit(s, intents)
  {
    NoSettlingCheck(intents);
  }

  // ---------------------------------------------------------------------------------------------
  // Each transaction
  // ---------------------------------------------------------------------------------------------

  lemma ReserveMoves(r: Attempt)
    ensures Moves(r, Reserve(r))
  {
  }

  lemma ReserveAbortMoves(r: Attempt, current: bool, authorized: bool, head: Id, k: Id)
    ensures Moves(r, ReserveAbort(r, current, authorized, head, k).0)
  {
    ReserveMoves(r);
  }

  lemma ReserveExpiryMoves(r: Attempt, current: bool, head: Id, now: int)
    ensures Moves(r, ReserveExpiry(r, current, head, now).0)
  {
    ReserveMoves(r);
  }

  lemma DestroyIsSound(r: Attempt)
    requires Sound(r)
    ensures Sound(DestroyEvidence(r))
  {
  }

  lemma StaleIsSound(r: Attempt, k: Id)
    requires Sound(r) && Abortable(r.status)
    ensures var row := Transition(StaleKey(k), r.status, Invalidated, 0);
            Sound(DestroyEvidence(r.(status := Invalidated, transitions := InsertOnce(r.transitions, row))))
  {
    LiveHasNoSettlingKey(r, StaleKey(k));
    var row := Transition(StaleKey(k), r.status, Invalidated, 0);
    var s := DestroyEvidence(r.(status := Invalidated, transitions := r.transitions + [row]));
    SettlementsSnoc(r.transitions, row);
    AppendIsSound(r, s, row);
  }

  lemma CommitAbortMoves(r: Attempt, current: bool, authorized: bool, head: Id, k: Id)
    ensures Moves(r, CommitAbort(r, current, authorized, head, k).0)
  {
    if Sound(r) {
      if Abortable(r.status) {
        LiveHasNoSettlingKey(r, AbortKey(k));
        LiveHasNoSettlingKey(r, StaleKey(k));
        StaleIsSound(r, k);
        var s := DestroyEvidence(Settle(r, AbortKey(k), TechnicalRetry, r.author, TechnicalRetryCheck));
        SettleIsSound(r, AbortKey(k), TechnicalRetry, r.author, TechnicalRetryCheck, s);
      } else {
        DestroyIsSound(r);
      }
    }
  }

  /** A live attempt belongs to the current revision, so expiry never destroys under a live attempt. */
  lemma CommitExpiryMoves(r: Attempt, current: bool, head: Id, now: int)
    requires current || Settled(r.status)
    ensures Moves(r, CommitExpiry(r, current, head, now).0)
  {
    if Sound(r) {
      if Abortable(r.status) {
        LiveHasNoSettlingKey(r, ExpiryKey);
        var s := DestroyEvidence(Settle(r, ExpiryKey, Expired, 0, ExpiredCheck));
        SettleIsSound(r, ExpiryKey, Expired, 0, ExpiredCheck, s);
      } else {
        DestroyIsSound(r);
      }
    }
  }

  lemma FailMediaMoves(r: Attempt)
    ensures Moves(r, FailMedia(r).0)
  {
    if Sound(r) {
      var s := FailMedia(r).0;
      if r.status == Processing && r.upload.Some? {
        LiveHasNoSettlingKey(r, MediaKey);
        SettleIsSound(r, MediaKey, TechnicalRetry, 0, TechnicalRetryCheck, s);
      } else {
        StaysSound(r, s);
      }
    }
  }

  lemma RequireRetryMoves(r: Attempt, eligible: bool, head: Id, k: Id)
    ensures Moves(r, RequireRetry(r, eligible, head, k).0)
  {
    if Sound(r) && r.status == Processing {
      UnreviewedHasNoPipelineKey(r, PipelineKey(k));
      var s := Settle(r, PipelineKey(k), TechnicalRetry, 0, TechnicalRetryCheck);
      SettleIsSound(r, PipelineKey(k), TechnicalRetry, 0, TechnicalRetryCheck, s);
    }
  }

  lemma RequireReviewMoves(r: Attempt, eligible: bool, evidence: bool, head: Id, k: Id)
    ensures Moves(r, RequireReview(r, eligible, evidence, head, k).0)
  {
    if Sound(r) && r.status == Processing {
      UnreviewedHasNoPipelineKey(r, PipelineKey(k));
      LiveHasNoDecision(r);
      SettleRowIsSound(r, Settle(r, PipelineKey(k), ReviewRequired, 0, ReviewCheck),
                       Transition(PipelineKey(k), Processing, ReviewRequired, 0), Intent(PipelineKey(k), ReviewCheck));
    }
  }

  lemma DecideIsSound(r: Attempt, k: Id, actor: Id, action: Action, explanation: Option<string>)
    requires Sound(r) && r.status == ReviewRequired
    ensures Sound(Decide(r, k, actor, PlanReviewDecision(action), explanation))
    ensures FollowsPlan(Decide(r, k, actor, PlanReviewDecision(action), explanation), PlanReviewDecision(action))
  {
    var plan := PlanReviewDecision(action);
    var s := Decide(r, k, actor, plan, explanation);
    LiveHasNoSettlingKey(r, ReviewKey(k));
    LiveHasNoDecision(r);
    NoSettlingCheck(r.intents);
    assert FollowsPlan(s, plan);
    SettleRowIsSound(r, s, Transition(ReviewKey(k), ReviewRequired, plan.target, actor),
                     Intent(ReviewKey(k), DecisionCheck(plan.conclusion)));
  }

  lemma DecideReviewMoves(
    r: Attempt, current: bool, head: Id, k: Id, actor: Id, action: Action, explanation: Option<string>)
    ensures Moves(r, DecideReview(r, current, head, k, actor, action, explanation).0)
  {
    if Sound(r) && r.status == ReviewRequired {
      DecideIsSound(r, k, actor, action, explanation);
    }
  }

  /** A row that settles nothing, added by the author's own step. */
  lemma StepRowIsSound(r: Attempt, s: Attempt, row: Transition)
    requires Sound(r) && Abortable(r.status) && !Settled(row.to) && Progress(r.status) <= Progress(row.to)
    requires s == r.(status := row.to, upload := s.upload, own := s.own, transitions := r.transitions + [row])
    requires UploadFits(s) && KeyFits(row) && ActorFits(s, row) && !Destroys(row.key)
    ensures Sound(s)
  {
    SettlementsSnoc(r.transitions, row);
    LiveHasNoDecision(r);
    LiveIntentsFit(r, s, r.intents);
    AppendIsSound(r, s, row);
  }

  /** The author's own steps add a row that settles nothing. */
  lemma ProgressIsSound(
    r: Attempt, key: Key, to: Status, upload: Option<UploadState>, own: Option<Id>, s: Attempt)
    requires Sound(r) && Abortable(r.status) && Allowed(r.status, to) && !Settled(to)
    requires key.StartKey? || key.UploadKey? || key.FinalizeKey?
    requires KeyFits(Transition(key, r.status, to, r.author))
    requires s == r.(status := to, upload := upload, own := own,
                     transitions := InsertOnce(r.transitions, Transition(key, r.status, to, r.author)))
    requires UploadFits(s)
    ensures Sound(s)
  {
    var row := Transition(key, r.status, to, r.author);
    if HasKey(r.transitions, key) {
      LiveHasNoDecision(r);
      StaysSound(r, s);
    } else {
      StepRowIsSound(r, s, row);
    }
  }

  lemma LiveHasNoDecision(r: Attempt)
    requires Sound(r) && !Settled(r.status)
    ensures r.decisions == []
  {
  }

  lemma QuietEventIsSound(r: Attempt, e: Event)
    requires Sound(r) && (e.BecomeReady? || e.ValidateRecording?)
    ensures Sound(Occur(r, e))
  {
    StaysSound(r, Occur(r, e));
  }

  lemma ExchangeIsSound(r: Attempt, e: Event)
    requires Sound(r) && (e.BeginExchange? || e.InsertMaterial? || e.DropExchange?)
    ensures Sound(Occur(r, e))
  {
    StaysSound(r, Occur(r, e));
  }

  lemma DeletionIsSound(r: Attempt)
    requires Sound(r)
    ensures Sound(Occur(r, DeleteEvidence))
  {
  }

  lemma InvalidationIsSound(r: Attempt)
    requires Sound(r)
    ensures Sound(Invalidate(r))
  {
  }

  lemma OccurIsSound(r: Attempt, e: Event)
    requires Sound(r)
    ensures Sound(Occur(r, e))
  {
    var s := Occur(r, e);
    if s != r {
      match e
      case Start(k) => ProgressIsSound(r, StartKey(k), Active, r.upload, r.own, s);
      case StartUpload(m) => ProgressIsSound(r, UploadKey, Uploading, Some(UploadActive), Some(m), s);
      case FinalizeUpload(k) => ProgressIsSound(r, FinalizeKey(k), Processing, Some(PendingFinalization), r.own, s);
      case DeleteEvidence => DeletionIsSound(r);
      case InvalidateRevision => InvalidationIsSound(r);
      case BeginExchange(_, _) => ExchangeIsSound(r, e);
      case InsertMaterial(_) => ExchangeIsSound(r, e);
      case DropExchange(_) => ExchangeIsSound(r, e);
      case _ => QuietEventIsSound(r, e);
    }
  }

  lemma OccurMoves(r: Attempt, e: Event)
    ensures Moves(r, Occur(r, e))
  {
    if Sound(r) {
      OccurIsSound(r, e);
    }
  }

  // ---------------------------------------------------------------------------------------------
  // The whole database
  // ---------------------------------------------------------------------------------------------

  /** The attempts, and the revisions that are current. */
  datatype Db = Db(current: set<Id>, attempts: map<Id, Attempt>)

  datatype Call =
    | ReserveAbortCall(a: Id, authorized: bool, head: Id, k: Id)
    | CommitAbortCall(a: Id, authorized: bool, head: Id, k: Id)
    | ReserveExpiryCall(a: Id, head: Id, now: int)
    | CommitExpiryCall(a: Id, head: Id, now: int)
    | FailMediaCall(a: Id)
    | RequireReviewCall(a: Id, open: bool, evidence: bool, head: Id, k: Id)
    | RequireRetryCall(a: Id, open: bool, head: Id, k: Id)
    | DecideReviewCall(a: Id, head: Id, k: Id, actor: Id, action: Action, explanation: Option<string>)
    | ReplaceCall(a: Id, authorized: bool, head: Id, id: Id, now: int)
    | PrepareCall(id: Id, author: Id, revision: Id, head: Id, expiresAt: int)
    | OccurCall(a: Id, e: Event)
    | PushCall(revision: Id, next: Id)
    | CloseCall(revision: Id)

  predicate Live(db: Db, a: Id) { a in db.attempts && !Settled(db.attempts[a].status) }

  predicate LiveFor(db: Db, revision: Id, author: Id) {
    exists a ::
      a in db.attempts && Live(db, a) && db.attempts[a].revision == revision && db.attempts[a].author == author
  }

  function NewAttempt(author: Id, revision: Id, head: Id, status: Status, expiresAt: int): Attempt {
    Attempt(author, revision, head, status, expiresAt, None, None, Materials({}, {}, {}), [], [], [])
  }

  function InvalidateAll(attempts: map<Id, Attempt>, revision: Id): map<Id, Attempt> {
    map a | a in attempts ::
      if attempts[a].revision == revision then Invalidate(attempts[a]) else attempts[a]
  }

  /** RETRYABLE */
  predicate Retryable(s: Status) { s == TechnicalRetry || s == RetryRequired || s == Expired }

  const REPLACEMENT_LIFETIME: int := 8 * 60 * 60_000

  /** createReplacementAttempt; `id` is the identifier derived from source, key and head. */
  function Replace(db: Db, a: Id, authorized: bool, head: Id, id: Id, now: int): (Db, Outcome) {
    if a !in db.attempts || !authorized then (db, Conflict)
    else
      var source := db.attempts[a];
      if source.revision !in db.current || source.head != head || !Retryable(source.status) then (db, Conflict)
      else if LiveFor(db, source.revision, source.author) then (db, Existing)
      else if id in db.attempts then
        if db.attempts[id].status != Ready || db.attempts[id].head != source.head then (db, Conflict)
        else (db, Existing)
      else
        var created := NewAttempt(source.author, source.revision, source.head, Ready, now + REPLACEMENT_LIFETIME);
        (db.(attempts := db.attempts[id := created.(intents := [Intent(StartKey(id), ProofReadyCheck)])]), Created)
  }

  /** The transaction a call runs on its one attempt. */
  function StepOf(call: Call, r: Attempt, current: bool): (Attempt, Outcome) {
    match call
    case ReserveAbortCall(_, authorized, head, k) => ReserveAbort(r, current, authorized, head, k)
    case CommitAbortCall(_, authorized, head, k) => CommitAbort(r, current, authorized, head, k)
    case ReserveExpiryCall(_, head, now) => ReserveExpiry(r, current, head, now)
    case CommitExpiryCall(_, head, now) => CommitExpiry(r, current, head, now)
    case FailMediaCall(_) => FailMedia(r)
    case RequireReviewCall(_, open, evidence, head, k) => RequireReview(r, current && open, evidence, head, k)
    case RequireRetryCall(_, open, head, k) => RequireRetry(r, current && open, head, k)
    case DecideReviewCall(_, head, k, actor, action, explanation) =>
      DecideReview(r, current, head, k, actor, action, explanation)
    case OccurCall(_, e) => (Occur(r, e), Done)
    case _ => (r, Done)
  }

  /** The answer when the attempt does not exist. */
  function Missing(call: Call): Outcome {
    if call.ReserveExpiryCall? || call.CommitExpiryCall? || call.RequireReviewCall? || call.RequireRetryCall? then Stale
    else Conflict
  }

  predicate TouchesOne(call: Call) { !call.ReplaceCall? && !call.PrepareCall? && !call.PushCall? && !call.CloseCall? }

  function StepAt(db: Db, call: Call): (Attempt, Outcome)
    requires TouchesOne(call) && call.a in db.attempts
  {
    StepOf(call, db.attempts[call.a], db.attempts[call.a].revision in db.current)
  }

  function Apply(db: Db, call: Call): (Db, Outcome) {
    match call
    case ReplaceCall(a, authorized, head, id, now) => Replace(db, a, authorized, head, id, now)
    case PrepareCall(id, author, revision, head, expiresAt) =>
      if id in db.attempts || revision !in db.current || LiveFor(db, revision, author) then (db, Conflict)
      else (db.(attempts := db.attempts[id := NewAttempt(author, revision, head, Preparing, expiresAt)]), Created)
    case PushCall(revision, next) =>
      (Db(db.current - {revision} + {next}, InvalidateAll(db.attempts, revision)), Done)
    case CloseCall(revision) => (db.(attempts := InvalidateAll(db.attempts, revision)), Done)
    case _ =>
      if call.a !in db.attempts then (db, Missing(call))
      else
        var (s, outcome) := StepAt(db, call);
        (db.(attempts := db.attempts[call.a := s]), outcome)
  }

  predicate Rivals(r: Attempt, s: Attempt) { r.revision == s.revision && r.author == s.author }

  ghost predicate OneLivePerAuthor(db: Db) {
    forall a, b | Live(db, a) && Live(db, b) :: Rivals(db.attempts[a], db.attempts[b]) ==> a == b
  }

  ghost predicate Inv(db: Db) {
    && (forall a :: a in db.attempts ==> Sound(db.attempts[a]))
    && (forall a :: Live(db, a) ==> db.attempts[a].revision in db.current)
    && OneLivePerAuthor(db)
  }

  lemma StepMoves(call: Call, r: Attempt, current: bool)
    requires TouchesOne(call) && (current || Settled(r.status))
    ensures Moves(r, StepOf(call, r, current).0)
  {
    match call
    case ReserveAbortCall(_, authorized, head, k) => ReserveAbortMoves(r, current, authorized, head, k);
    case CommitAbortCall(_, authorized, head, k) => CommitAbortMoves(r, current, authorized, head, k);
    case ReserveExpiryCall(_, head, now) => ReserveExpiryMoves(r, current, head, now);
    case CommitExpiryCall(_, head, now) => CommitExpiryMoves(r, current, head, now);
    case FailMediaCall(_) => FailMediaMoves(r);
    case RequireReviewCall(_, open, evidence, head, k) => RequireReviewMoves(r, current && open, evidence, head, k);
    case RequireRetryCall(_, open, head, k) => RequireRetryMoves(r, current && open, head, k);
    case DecideReviewCall(_, head, k, actor, action, explanation) =>
      DecideReviewMoves(r, current, head, k, actor, action, explanation);
    case OccurCall(_, e) => OccurMoves(r, e);
  }

  lemma LiveMove(r: Attempt, s: Attempt)
    requires Moves(r, s)
    ensures Rivals(r, s) && (!Settled(s.status) ==> !Settled(r.status)) && (Sound(r) ==> Sound(s))
  {
  }

  lemma LiveAfterMove(db: Db, a: Id, s: Attempt, b: Id)
    requires a in db.attempts && Moves(db.attempts[a], s) && Live(db.(attempts := db.attempts[a := s]), b)
    ensures Live(db, b) && Rivals(db.attempts[b], db.attempts[a := s][b])
  {
  }

  lemma MoveKeepsOneLive(db: Db, a: Id, s: Attempt)
    requires OneLivePerAuthor(db) && a in db.attempts && Moves(db.attempts[a], s)
    ensures OneLivePerAuthor(db.(attempts := db.attempts[a := s]))
  {
    var after := db.(attempts := db.attempts[a := s]);
    forall b, c | Live(after, b) && Live(after, c) && Rivals(after.attempts[b], after.attempts[c])
      ensures b == c
    {
      LiveAfterMove(db, a, s, b);
      LiveAfterMove(db, a, s, c);
      assert Rivals(db.attempts[b], db.attempts[c]);
    }
  }

  /** Replacing one attempt by where it moved keeps the whole database sound. */
  lemma MoveKeepsInv(db: Db, a: Id, s: Attempt)
    requires Inv(db) && a in db.attempts && Moves(db.attempts[a], s)
    ensures Inv(db.(attempts := db.attempts[a := s]))
  {
    var after := db.(attempts := db.attempts[a := s]);
    MoveKeepsOneLive(db, a, s);
    forall b | Live(after, b)
      ensures after.attempts[b].revision in after.current
    {
      LiveAfterMove(db, a, s, b);
    }
    forall b | b in after.attempts
      ensures Sound(after.attempts[b])
    {
      if b == a {
        LiveMove(db.attempts[a], s);
      }
    }
  }

  lemma NewAttemptIsSound(author: Id, revision: Id, head: Id, status: Status, expiresAt: int, intents: seq<Intent>)
    requires status == Preparing || status == Ready
    requires intents == [] || exists k: Id :: intents == [Intent(StartKey(k), ProofReadyCheck)]
    ensures Sound(NewAttempt(author, revision, head, status, expiresAt).(intents := intents))
  {
  }

  lemma InsertKeepsInv(db: Db, id: Id, created: Attempt)
    requires Inv(db) && id !in db.attempts && Sound(created)
    requires created.revision in db.current && !LiveFor(db, created.revision, created.author)
    ensures Inv(db.(attempts := db.attempts[id := created]))
  {
  }

  lemma InvalidatedAttempt(db: Db, revision: Id, a: Id)
    requires Inv(db) && a in db.attempts
    ensures var s := InvalidateAll(db.attempts, revision)[a];
            && Sound(s) && Rivals(s, db.attempts[a])
            && (!Settled(s.status) ==> Live(db, a) && s.revision != revision)
  {
    InvalidationIsSound(db.attempts[a]);
  }

  lemma InvalidateKeepsInv(db: Db, revision: Id, current: set<Id>)
    requires Inv(db) && db.current - {revision} <= current
    ensures Inv(Db(current, InvalidateAll(db.attempts, revision)))
  {
    forall a | a in db.attempts
      ensures var s := InvalidateAll(db.attempts, revision)[a];
              && Sound(s) && Rivals(s, db.attempts[a])
              && (!Settled(s.status) ==> Live(db, a) && s.revision != revision)
    {
      InvalidatedAttempt(db, revision, a);
    }
  }

  lemma StepAtMoves(db: Db, call: Call)
    requires Inv(db) && TouchesOne(call) && call.a in db.attempts
    ensures Moves(db.attempts[call.a], StepAt(db, call).0)
  {
    var r := db.attempts[call.a];
    assert Settled(r.status) || Live(db, call.a);
    StepMoves(call, r, r.revision in db.current);
  }

  lemma ReplaceKeepsInv(db: Db, a: Id, authorized: bool, head: Id, id: Id, now: int)
    requires Inv(db)
    ensures Inv(Replace(db, a, authorized, head, id, now).0)
  {
    if Replace(db, a, authorized, head, id, now).1 == Created {
      var source := db.attempts[a];
      var ready := [Intent(StartKey(id), ProofReadyCheck)];
      NewAttemptIsSound(source.author, source.revision, source.head, Ready, now + REPLACEMENT_LIFETIME, ready);
      var created := NewAttempt(source.author, source.revision, source.head, Ready, now + REPLACEMENT_LIFETIME);
      InsertKeepsInv(db, id, created.(intents := ready));
    }
  }

  /** Every transaction keeps every attempt sound and at most one live attempt per revision and author. */
  lemma ApplyKeepsInv(db: Db, call: Call)
    requires Inv(db)
    ensures Inv(Apply(db, call).0)
  {
    if TouchesOne(call) {
      if call.a in db.attempts {
        StepAtMoves(db, call);
        MoveKeepsInv(db, call.a, StepAt(db, call).0);
      }
    } else {
      match call
      case ReplaceCall(a, authorized, head, id, now) => ReplaceKeepsInv(db, a, authorized, head, id, now);
      case PrepareCall(id, author, revision, head, expiresAt) =>
        var created := NewAttempt(author, revision, head, Preparing, expiresAt);
        assert created == created.(intents := []);
        NewAttemptIsSound(author, revision, head, Preparing, expiresAt, []);
        if Apply(db, call).1 == Created {
          InsertKeepsInv(db, id, created);
        }
      case PushCall(revision, next) => InvalidateKeepsInv(db, revision, db.current - {revision} + {next});
      case CloseCall(revision) => InvalidateKeepsInv(db, revision, db.current);
    }
  }

  // ---------------------------------------------------------------------------------------------
  // Runs
  // ---------------------------------------------------------------------------------------------

  /** How an attempt may look later: settled for good, rows only added. */
  predicate Later(r: Attempt, s: Attempt) {
    && s.author == r.author && s.revision == r.revision && s.head == r.head
    && r.transitions <= s.transitions && r.intents <= s.intents && r.decisions <= s.decisions
    && (Settled(r.status) ==> s.status == r.status) && MaterialsKept(r.materials, s.materials)
  }

  function Run(db: Db, calls: seq<Call>): Db
    decreases |calls|
  {
    if calls == [] then db else Run(Apply(db, calls[0]).0, calls[1..])
  }

  lemma MovedIsLater(r: Attempt, s: Attempt)
    requires Moves(r, s)
    ensures Later(r, s)
  {
  }

  lemma InvalidatedMoves(r: Attempt)
    ensures Moves(r, r) && Moves(r, Invalidate(r))
  {
  }

  lemma CallEffect(db: Db, call: Call, a: Id)
    requires a in db.attempts
    ensures a in Apply(db, call).0.attempts
    ensures var r, s := db.attempts[a], Apply(db, call).0.attempts[a];
            s == r || s == Invalidate(r) || (TouchesOne(call) && call.a == a && s == StepAt(db, call).0)
  {
  }

  /** The moves of every transaction are moves the database trigger allows, so the trigger never fires. */
  lemma EveryCallMoves(db: Db, call: Call, a: Id)
    requires Inv(db) && a in db.attempts
    ensures a in Apply(db, call).0.attempts && Moves(db.attempts[a], Apply(db, call).0.attempts[a])
  {
    CallEffect(db, call, a);
    InvalidatedMoves(db.attempts[a]);
    if TouchesOne(call) {
      if call.a == a {
        StepAtMoves(db, call);
      }
    }
  }

  /**
    Over every run, whatever the order, repetition or loss of the transactions: the database stays
    sound, settled statuses are final, and no transition, check or decision is ever taken back.
  */
  lemma {:induction false} RunKeepsInv(db: Db, calls: seq<Call>)
    requires Inv(db)
    ensures Inv(Run(db, calls))
    ensures forall a :: a in db.attempts ==>
              a in Run(db, calls).attempts && Later(db.attempts[a], Run(db, calls).attempts[a])
    decreases |calls|
  {
    if calls != [] {
      var next := Apply(db, calls[0]).0;
      ApplyKeepsInv(db, calls[0]);
      RunKeepsInv(next, calls[1..]);
      forall a | a in db.attempts
        ensures a in Run(db, calls).attempts && Later(db.attempts[a], Run(db, calls).attempts[a])
      {
        EveryCallMoves(db, calls[0], a);
        MovedIsLater(db.attempts[a], next.attempts[a]);
      }
    }
  }

  /** Every database the service can ever reach, from no attempts at all. */
  lemma EveryDatabaseIsSound(calls: seq<Call>)
    ensures var db := Run(Db({}, map[]), calls);
            && Inv(db)
            && (forall a :: a in db.attempts ==> SettledOnce(db.attempts[a]) && |db.attempts[a].decisions| <= 1)
  {
    RunKeepsInv(Db({}, map[]), calls);
  }

  // ---------------------------------------------------------------------------------------------
  // What each call does, column by column
  // ---------------------------------------------------------------------------------------------

  /** Where a call takes an attempt; `current` says whether its revision is. */
  function StatusAfter(call: Call, r: Attempt, current: bool): Status {
    match call
    case CommitAbortCall(_, authorized, head, _) =>
      if !authorized || Progress(r.status) > 3 then r.status
      else if current && head == r.head then TechnicalRetry
      else Invalidated
    case CommitExpiryCall(_, head, now) =>
      if current && head == r.head && Progress(r.status) <= 3 && r.expiresAt <= now then Expired else r.status
    case FailMediaCall(_) => if r.status == Processing && r.upload.Some? then TechnicalRetry else r.status
    case RequireReviewCall(_, open, evidence, head, _) =>
      if r.status == Processing && current && open && evidence && head == r.head then ReviewRequired else r.status
    case RequireRetryCall(_, open, head, _) =>
      if r.status == Processing && current && open && head == r.head then TechnicalRetry else r.status
    case DecideReviewCall(_, head, _, _, action, _) =>
      if r.status != ReviewRequired || !current || head != r.head then r.status
      else (match action
            case Approve => Passed
            case Reject => RetryRequired
            case ManualRetry => TechnicalRetry)
    case OccurCall(_, e) =>
      (match e
       case BecomeReady => if r.status == Preparing then Ready else r.status
       case Start(_) => if r.status == Ready then Active else r.status
       case StartUpload(m) =>
         if r.status == Active && (m in r.materials.live || m in r.materials.destroyed) then Uploading else r.status
       case FinalizeUpload(_) =>
         if r.status == Uploading && r.upload == Some(UploadActive) then Processing else r.status
       case InvalidateRevision => if Progress(r.status) < 6 then Invalidated else r.status
       case _ => r.status)
    case _ => r.status
  }

  /** The row, the check and the decision a call leaves when it changes the status. */
  function RowFor(call: Call, r: Attempt, to: Status): seq<Transition> {
    match call
    case CommitAbortCall(_, _, _, k) =>
      if to == TechnicalRetry then [Transition(AbortKey(k), r.status, to, r.author)]
      else [Transition(StaleKey(k), r.status, to, 0)]
    case CommitExpiryCall(_, _, _) => [Transition(ExpiryKey, r.status, to, 0)]
    case FailMediaCall(_) => [Transition(MediaKey, r.status, to, 0)]
    case RequireReviewCall(_, _, _, _, k) => [Transition(PipelineKey(k), r.status, to, 0)]
    case RequireRetryCall(_, _, _, k) => [Transition(PipelineKey(k), r.status, to, 0)]
    case DecideReviewCall(_, _, k, actor, _, _) => [Transition(ReviewKey(k), r.status, to, actor)]
    case OccurCall(_, Start(k)) => [Transition(StartKey(k), r.status, to, r.author)]
    case OccurCall(_, StartUpload(_)) => [Transition(UploadKey, r.status, to, r.author)]
    case OccurCall(_, FinalizeUpload(k)) => [Transition(FinalizeKey(k), r.status, to, r.author)]
    case _ => []
  }

  function CheckFor(call: Call, to: Status): seq<Intent> {
    match call
    case CommitAbortCall(_, _, _, k) =>
      if to == TechnicalRetry then [Intent(AbortKey(k), TechnicalRetryCheck)] else []
    case CommitExpiryCall(_, _, _) => [Intent(ExpiryKey, ExpiredCheck)]
    case FailMediaCall(_) => [Intent(MediaKey, TechnicalRetryCheck)]
    case RequireReviewCall(_, _, _, _, k) => [Intent(PipelineKey(k), ReviewCheck)]
    case RequireRetryCall(_, _, _, k) => [Intent(PipelineKey(k), TechnicalRetryCheck)]
    case DecideReviewCall(_, _, k, _, action, _) =>
      [Intent(ReviewKey(k), DecisionCheck(if action == Approve then Success else ActionRequired))]
    case _ => []
  }

  function DecisionFor(call: Call, r: Attempt): seq<Decision> {
    match call
    case DecideReviewCall(_, _, _, actor, Approve, explanation) =>
      [Decision(actor, Pass, MaintainerApproved, explanation, r.head)]
    case DecideReviewCall(_, _, _, actor, Reject, explanation) =>
      [Decision(actor, Retry, MaintainerRejected, explanation, r.head)]
    case DecideReviewCall(_, _, _, actor, ManualRetry, explanation) =>
      [Decision(actor, Retry, ManualRetryReason, explanation, r.head)]
    case _ => []
  }

  /** Abort and expiry destroy what there is of an upload when they settle, and when they come too late. */
  predicate Clears(call: Call, r: Attempt, current: bool) {
    match call
    case CommitAbortCall(_, authorized, head, _) =>
      authorized && r.status != TechnicalRetry && (!current || head != r.head || Progress(r.status) <= 3)
    case CommitExpiryCall(_, head, now) =>
      && head == r.head && r.status != Expired
      && (r.status == Invalidated || !current || (Progress(r.status) <= 3 && r.expiresAt <= now))
    case _ => false
  }

  /** A reservation lets its flow proceed. */
  predicate Reserved(call: Call, r: Attempt, current: bool) {
    match call
    case ReserveAbortCall(_, authorized, head, _) =>
      authorized && current && head == r.head && Progress(r.status) <= 3 && Reservable(r.upload)
    case ReserveExpiryCall(_, head, now) =>
      && head == r.head && r.status != Expired
      && (r.status == Invalidated || !current
          || (Progress(r.status) <= 3 && r.expiresAt <= now && Reservable(r.upload)))
    case _ => false
  }

  predicate Reservable(upload: Option<UploadState>) {
    match upload
    case None => true
    case Some(state) => state == UploadActive || state == Aborting
  }

  function UploadAfter(call: Call, r: Attempt, current: bool): Option<UploadState> {
    if Reserved(call, r, current) then if r.upload == Some(UploadActive) then Some(Aborting) else r.upload
    else if Clears(call, r, current) || call.FailMediaCall? then if r.upload.Some? then Some(Failed) else None
    else
      match call
      case OccurCall(_, StartUpload(_)) =>
        if StatusAfter(call, r, current) != r.status then Some(UploadActive) else r.upload
      case OccurCall(_, FinalizeUpload(_)) =>
        if StatusAfter(call, r, current) != r.status then Some(PendingFinalization) else r.upload
      case OccurCall(_, ValidateRecording) =>
        if r.upload == Some(PendingFinalization) then Some(Completed) else r.upload
      case OccurCall(_, DeleteEvidence) => if r.upload.Some? then Some(Deleted) else None
      case _ => r.upload
  }

  function LiveAfter(call: Call, r: Attempt, current: bool): set<Id> {
    if Clears(call, r, current) then {}
    else
      match call
      case FailMediaCall(_) => if r.own.Some? then r.materials.live - {r.own.value} else r.materials.live
      case OccurCall(_, InsertMaterial(m)) =>
        if m in r.materials.exchanging then r.materials.live + {m} else r.materials.live
      case OccurCall(_, DeleteEvidence) => {}
      case _ => r.materials.live
  }

  function ExchangingAfter(call: Call, r: Attempt): set<Id> {
    match call
    case OccurCall(_, BeginExchange(m, now)) =>
      if r.status == Ready && now < r.expiresAt
         && m !in r.materials.live && m !in r.materials.destroyed && m !in r.materials.exchanging
      then r.materials.exchanging + {m} else r.materials.exchanging
    case OccurCall(_, InsertMaterial(m)) => r.materials.exchanging - {m}
    case OccurCall(_, DropExchange(m)) => r.materials.exchanging - {m}
    case _ => r.materials.exchanging
  }

  /** How the phases of both flows, the media failure and the pipeline answer. */
  function AnswerTo(call: Call, r: Attempt, current: bool): Outcome {
    match call
    case ReserveAbortCall(_, authorized, head, _) =>
      if !authorized || head != r.head then Conflict
      else if r.status == TechnicalRetry then Replayed
      else if r.status == Processing || r.status == ReviewRequired || r.status == Passed then AlreadyProgressed
      else if Reserved(call, r, current) then Proceed
      else Conflict
    case CommitAbortCall(_, authorized, head, _) =>
      if !authorized then Conflict
      else if r.status == TechnicalRetry then Replayed
      else if !current || head != r.head then SettledAs(Invalidated)
      else if Progress(r.status) <= 3 then SettledAs(TechnicalRetry)
      else Conflict
    case ReserveExpiryCall(_, head, _) =>
      if head == r.head && r.status == Expired then Replayed else if Reserved(call, r, current) then Proceed else Stale
    case CommitExpiryCall(_, head, _) =>
      if head == r.head && r.status == Expired then Replayed
      else if !Clears(call, r, current) then Stale
      else if r.status == Invalidated || !current then CleanedUp
      else SettledAs(Expired)
    case FailMediaCall(_) =>
      if r.upload.None? then Stale else if r.status == Processing then SettledAs(TechnicalRetry) else CleanedUp
    case RequireReviewCall(_, open, _, head, _) =>
      if StatusAfter(call, r, current) != r.status then Advanced
      else if r.status == ReviewRequired && current && open && head == r.head then Replayed
      else Stale
    case RequireRetryCall(_, open, head, _) =>
      if StatusAfter(call, r, current) != r.status then SettledAs(TechnicalRetry)
      else if r.status == TechnicalRetry && current && open && head == r.head then Replayed
      else Stale
    case _ => Done
  }

  lemma UnstartedHasNoKey(r: Attempt, key: Key)
    requires Sound(r)
    requires match key
             case StartKey(_) => Progress(r.status) <= 1
             case UploadKey => Progress(r.status) <= 2
             case FinalizeKey(_) => Progress(r.status) <= 3
             case _ => false
    ensures !HasKey(r.transitions, key)
  {
  }

  lemma FreshKeys(call: Call, r: Attempt, current: bool)
    requires Sound(r) && StatusAfter(call, r, current) != r.status
    ensures forall i :: 0 <= i < |RowFor(call, r, StatusAfter(call, r, current))| ==>
              !HasKey(r.transitions, RowFor(call, r, StatusAfter(call, r, current))[i].key)
  {
    match call
    case CommitAbortCall(_, _, _, k) => LiveHasNoSettlingKey(r, AbortKey(k)); LiveHasNoSettlingKey(r, StaleKey(k));
    case CommitExpiryCall(_, _, _) => LiveHasNoSettlingKey(r, ExpiryKey);
    case FailMediaCall(_) => LiveHasNoSettlingKey(r, MediaKey);
    case RequireReviewCall(_, _, _, _, k) => UnreviewedHasNoPipelineKey(r, PipelineKey(k));
    case RequireRetryCall(_, _, _, k) => UnreviewedHasNoPipelineKey(r, PipelineKey(k));
    case DecideReviewCall(_, _, k, _, _, _) => LiveHasNoSettlingKey(r, ReviewKey(k));
    case OccurCall(_, Start(k)) => UnstartedHasNoKey(r, StartKey(k));
    case OccurCall(_, StartUpload(_)) => UnstartedHasNoKey(r, UploadKey);
    case OccurCall(_, FinalizeUpload(k)) => UnstartedHasNoKey(r, FinalizeKey(k));
    case _ =>
  }

  /** On a sound attempt no key a call looks for is in its way, and there is an upload exactly with its material. */
  ghost predicate KeysClear(call: Call, r: Attempt, current: bool) {
    && (StatusAfter(call, r, current) != r.status ==>
          forall row :: row in RowFor(call, r, StatusAfter(call, r, current)) ==> !HasKey(r.transitions, row.key))
    && (call.RequireReviewCall? || call.RequireRetryCall? ==>
          r.status == Processing ==> !HasKey(r.transitions, PipelineKey(call.k)))
    && (call.DecideReviewCall? && r.status == ReviewRequired ==>
          !HasKey(r.transitions, ReviewKey(call.k)) && r.decisions == [])
    && (call.ReserveAbortCall? && HasKey(r.transitions, AbortKey(call.k)) ==>
          r.status == TechnicalRetry && RowOf(r.transitions, AbortKey(call.k)).to == TechnicalRetry)
    && (r.status == Active ==> !HasKey(r.transitions, UploadKey) && r.upload == None)
    && (r.upload.Some? <==> r.own.Some?)
  }

  lemma KeysAreClear(call: Call, r: Attempt, current: bool)
    requires Sound(r)
    ensures KeysClear(call, r, current)
  {
    if StatusAfter(call, r, current) != r.status {
      FreshKeys(call, r, current);
    }
    if call.ReserveAbortCall? && HasKey(r.transitions, AbortKey(call.k)) {
      assert RowFits(r, RowOf(r.transitions, AbortKey(call.k)));
    }
    if r.status == Processing && (call.RequireReviewCall? || call.RequireRetryCall?) {
      UnreviewedHasNoPipelineKey(r, PipelineKey(call.k));
    }
    if r.status == ReviewRequired && call.DecideReviewCall? {
      LiveHasNoSettlingKey(r, ReviewKey(call.k));
      LiveHasNoDecision(r);
    }
    if r.status == Active {
      UnstartedHasNoKey(r, UploadKey);
    }
  }

  /** The trigger's table: one step forward, a decision from review, or an end that any live status can meet. */
  lemma AllowedMovesForward(from: Status, to: Status)
    ensures Allowed(from, to) <==>
            || (Progress(to) == Progress(from) + 1 && Progress(to) <= 5)
            || (Progress(from) < 6 && (to == TechnicalRetry || to == Expired || to == Invalidated))
            || (from == ReviewRequired && (to == Passed || to == RetryRequired))
  {
  }

  predicate IsPhase(call: Call) {
    call.ReserveAbortCall? || call.CommitAbortCall? || call.ReserveExpiryCall? || call.CommitExpiryCall?
  }

  predicate IsWrite(call: Call) {
    call.FailMediaCall? || call.RequireReviewCall? || call.RequireRetryCall? || call.DecideReviewCall?
  }

  ghost predicate StatusMatches(call: Call, r: Attempt, current: bool) {
    StepOf(call, r, current).0.status == StatusAfter(call, r, current)
  }

  ghost predicate UploadMatches(call: Call, r: Attempt, current: bool) {
    var s := StepOf(call, r, current).0;
    && s.upload == UploadAfter(call, r, current)
    && s.own == (if s.upload.Some? && r.upload.None? && call.OccurCall? && call.e.StartUpload? then Some(call.e.m)
                 else r.own)
  }

  ghost predicate MaterialsMatch(call: Call, r: Attempt, current: bool) {
    var s := StepOf(call, r, current).0;
    && s.materials.live == LiveAfter(call, r, current)
    && s.materials.destroyed == r.materials.destroyed + (r.materials.live - s.materials.live)
    && s.materials.exchanging == ExchangingAfter(call, r)
  }

  ghost predicate RowsMatch(call: Call, r: Attempt, current: bool) {
    var s, to := StepOf(call, r, current).0, StatusAfter(call, r, current);
    if to == r.status then
      s.transitions == r.transitions && s.intents == r.intents && s.decisions == r.decisions
    else
      && s.transitions == r.transitions + RowFor(call, r, to)
      && s.intents == r.intents + CheckFor(call, to) && s.decisions == r.decisions + DecisionFor(call, r)
  }

  lemma PhaseStatus(call: Call, r: Attempt, current: bool)
    requires KeysClear(call, r, current) && IsPhase(call) && (current || Settled(r.status))
    ensures StatusMatches(call, r, current)
  {
  }

  lemma PhaseUpload(call: Call, r: Attempt, current: bool)
    requires KeysClear(call, r, current) && IsPhase(call) && (current || Settled(r.status))
    ensures UploadMatches(call, r, current)
  {
  }

  lemma PhaseMaterials(call: Call, r: Attempt, current: bool)
    requires KeysClear(call, r, current) && IsPhase(call) && (current || Settled(r.status))
    ensures MaterialsMatch(call, r, current)
  {
  }

  lemma PhaseRows(call: Call, r: Attempt, current: bool)
    requires KeysClear(call, r, current) && IsPhase(call) && (current || Settled(r.status))
    ensures RowsMatch(call, r, current)
  {
  }

  lemma WriteStatus(call: Call, r: Attempt, current: bool)
    requires KeysClear(call, r, current) && IsWrite(call) && (current || Settled(r.status))
    ensures StatusMatches(call, r, current)
  {
  }

  lemma WriteUpload(call: Call, r: Attempt, current: bool)
    requires KeysClear(call, r, current) && IsWrite(call) && (current || Settled(r.status))
    ensures UploadMatches(call, r, current)
  {
  }

  lemma WriteMaterials(call: Call, r: Attempt, current: bool)
    requires KeysClear(call, r, current) && IsWrite(call) && (current || Settled(r.status))
    ensures MaterialsMatch(call, r, current)
  {
  }

  lemma WriteRows(call: Call, r: Attempt, current: bool)
    requires KeysClear(call, r, current) && IsWrite(call) && (current || Settled(r.status))
    ensures RowsMatch(call, r, current)
  {
  }

  lemma EventStatus(call: Call, r: Attempt, current: bool)
    requires KeysClear(call, r, current) && call.OccurCall? && (current || Settled(r.status))
    ensures StatusMatches(call, r, current)
  {
  }

  lemma EventUpload(call: Call, r: Attempt, current: bool)
    requires KeysClear(call, r, current) && call.OccurCall? && (current || Settled(r.status))
    ensures UploadMatches(call, r, current)
  {
  }

  lemma EventMaterials(call: Call, r: Attempt, current: bool)
    requires KeysClear(call, r, current) && call.OccurCall? && (current || Settled(r.status))
    ensures MaterialsMatch(call, r, current)
  {
  }

  lemma EventRows(call: Call, r: Attempt, current: bool)
    requires KeysClear(call, r, current) && call.OccurCall? && (current || Settled(r.status))
    ensures RowsMatch(call, r, current)
  {
  }

  /**
    Column by column, what every transaction on a sound attempt does: who may move it, from where, to
    where and under which guards; what becomes of the upload and the materials; and the one
    transition, check and decision that go with each change of status.
  */
  lemma CallExactly(call: Call, r: Attempt, current: bool)
    requires Sound(r) && TouchesOne(call) && (current || Settled(r.status))
    ensures StatusMatches(call, r, current) && RowsMatch(call, r, current)
    ensures UploadMatches(call, r, current) && MaterialsMatch(call, r, current)
  {
    KeysAreClear(call, r, current);
    if IsPhase(call) {
      PhaseStatus(call, r, current);
      PhaseUpload(call, r, current);
      PhaseMaterials(call, r, current);
      PhaseRows(call, r, current);
    } else if IsWrite(call) {
      WriteStatus(call, r, current);
      WriteUpload(call, r, current);
      WriteMaterials(call, r, current);
      WriteRows(call, r, current);
    } else {
      EventStatus(call, r, current);
      EventUpload(call, r, current);
      EventMaterials(call, r, current);
      EventRows(call, r, current);
    }
  }

  /** What any call does to any attempt: its own step, an invalidation by a push or a close, or nothing. */
  lemma CallTouchesOnly(db: Db, call: Call, a: Id)
    requires a in db.attempts
    ensures var r, after := db.attempts[a], Apply(db, call).0;
            && a in after.attempts
            && after.attempts[a] ==
               if TouchesOne(call) then if call.a == a then StepOf(call, r, r.revision in db.current).0 else r
               else if (call.PushCall? || call.CloseCall?) && call.revision == r.revision && Progress(r.status) < 6
               then r.(status := Invalidated)
               else r
  {
    CallEffect(db, call, a);
  }

  predicate NoneLive(db: Db, revision: Id, author: Id) {
    forall b | b in db.attempts && db.attempts[b].revision == revision && db.attempts[b].author == author ::
      Progress(db.attempts[b].status) == 6
  }

  lemma LiveOrNone(db: Db, revision: Id, author: Id)
    ensures LiveFor(db, revision, author) <==> !NoneLive(db, revision, author)
  {
    if b :| b in db.attempts && db.attempts[b].revision == revision && db.attempts[b].author == author
            && Progress(db.attempts[b].status) != 6 {
      assert Live(db, b);
    }
  }

  /** Which revisions are current, which attempts there are, and which a preparation creates. */
  lemma CallCreatesOnly(db: Db, call: Call)
    ensures var (after, outcome) := Apply(db, call);
            && after.current == (if call.PushCall? then db.current - {call.revision} + {call.next} else db.current)
            && after.attempts.Keys == db.attempts.Keys + (if outcome == Created then {call.id} else {})
            && (outcome == Created ==> (call.PrepareCall? || call.ReplaceCall?) && call.id !in db.attempts)
            && (call.PrepareCall? ==>
                  && (outcome == Created <==>
                        && call.id !in db.attempts && call.revision in db.current
                        && NoneLive(db, call.revision, call.author))
                  && (outcome == Created ==>
                        after.attempts[call.id] ==
                        Attempt(call.author, call.revision, call.head, Preparing, call.expiresAt, None, None,
                                Materials({}, {}, {}), [], [], [])))
  {
    if call.PrepareCall? {
      LiveOrNone(db, call.revision, call.author);
    } else if TouchesOne(call) && call.a in db.attempts {
      assert db.attempts[call.a := StepAt(db, call).0].Keys == db.attempts.Keys;
    } else if call.ReplaceCall? && Apply(db, call).1 == Created {
      assert Apply(db, call).0.attempts.Keys == db.attempts.Keys + {call.id};
    }
  }

  /** The answers. */
  lemma AnswersExactly(call: Call, r: Attempt, current: bool)
    requires Sound(r) && TouchesOne(call) && (current || Settled(r.status)) && !call.DecideReviewCall?
    ensures StepOf(call, r, current).1 == AnswerTo(call, r, current)
  {
    KeysAreClear(call, r, current);
    AnswersWhenClear(call, r, current);
  }

  lemma AnswersWhenClear(call: Call, r: Attempt, current: bool)
    requires KeysClear(call, r, current) && TouchesOne(call) && (current || Settled(r.status))
    requires !call.DecideReviewCall?
    ensures StepOf(call, r, current).1 == AnswerTo(call, r, current)
  {
  }

  // ---------------------------------------------------------------------------------------------
  // What a settlement leaves of the wrapping materials
  // ---------------------------------------------------------------------------------------------

  /** The call ends a handoff exchange of attempt `a` that had passed its check, by inserting its material. */
  predicate Inserts(db: Db, call: Call, a: Id) {
    && call.OccurCall? && call.a == a && call.e.InsertMaterial?
    && a in db.attempts && call.e.m in db.attempts[a].materials.exchanging
  }

  predicate EverInserts(db: Db, calls: seq<Call>, a: Id)
    decreases |calls|
  {
    calls != [] && (Inserts(db, calls[0], a) || EverInserts(Apply(db, calls[0]).0, calls[1..], a))
  }

  predicate HasLive(db: Db, a: Id) { a in db.attempts && db.attempts[a].materials.live != {} }

  /** In some state of the run, the first one included, attempt `a` has a live wrapping material. */
  predicate EverLive(db: Db, calls: seq<Call>, a: Id)
    decreases |calls|
  {
    HasLive(db, a) || (calls != [] && EverLive(Apply(db, calls[0]).0, calls[1..], a))
  }

  /** On a settled attempt no exchange begins, and only the end of one that had begun adds a material. */
  lemma SettledStepMaterials(call: Call, r: Attempt, current: bool)
    requires Settled(r.status) && TouchesOne(call)
    ensures var m, n := r.materials, StepOf(call, r, current).0.materials;
            && n.exchanging <= m.exchanging
            && (m.live == {} ==>
                  (n.live != {} <==> call.OccurCall? && call.e.InsertMaterial? && call.e.m in m.exchanging))
  {
  }

  lemma SettledCallMaterials(db: Db, call: Call, a: Id)
    requires Inv(db) && a in db.attempts && Settled(db.attempts[a].status)
    ensures a in Apply(db, call).0.attempts && Settled(Apply(db, call).0.attempts[a].status)
    ensures Apply(db, call).0.attempts[a].materials.exchanging <= db.attempts[a].materials.exchanging
    ensures !HasLive(db, a) ==> (HasLive(Apply(db, call).0, a) <==> Inserts(db, call, a))
  {
    EveryCallMoves(db, call, a);
    CallTouchesOnly(db, call, a);
    if TouchesOne(call) && call.a == a {
      SettledStepMaterials(call, db.attempts[a], db.attempts[a].revision in db.current);
    }
  }

  /**
    Over every run from a settled attempt: it ever has a live material if and only if one was left by
    its settlement, or an exchange that had passed its check before inserts one.
  */
  lemma {:induction false} SettledMaterials(db: Db, calls: seq<Call>, a: Id)
    requires Inv(db) && a in db.attempts && Settled(db.attempts[a].status)
    ensures EverLive(db, calls, a) <==> HasLive(db, a) || EverInserts(db, calls, a)
    decreases |calls|
  {
    if calls != [] {
      SettledCallMaterials(db, calls[0], a);
      ApplyKeepsInv(db, calls[0]);
      SettledMaterials(Apply(db, calls[0]).0, calls[1..], a);
    }
  }

  lemma {:induction false} NothingToInsert(db: Db, calls: seq<Call>, a: Id)
    requires Inv(db) && a in db.attempts && Settled(db.attempts[a].status)
    requires db.attempts[a].materials.exchanging == {}
    ensures !EverInserts(db, calls, a)
    decreases |calls|
  {
    if calls != [] {
      SettledCallMaterials(db, calls[0], a);
      ApplyKeepsInv(db, calls[0]);
      NothingToInsert(Apply(db, calls[0]).0, calls[1..], a);
    }
  }

  /** No run ever gives a settled attempt a live material exactly when none is live nor on its way. */
  lemma CleanForGood(db: Db, a: Id)
    requires Inv(db) && a in db.attempts && Settled(db.attempts[a].status)
    ensures (forall calls :: !EverLive(db, calls, a)) <==>
            db.attempts[a].materials.live == {} && db.attempts[a].materials.exchanging == {}
  {
    var m := db.attempts[a].materials;
    if m.live == {} && m.exchanging == {} {
      forall calls
        ensures !EverLive(db, calls, a)
      {
        SettledMaterials(db, calls, a);
        NothingToInsert(db, calls, a);
      }
    } else if m.live != {} {
      var calls := [CloseCall(0)];
      SettledMaterials(db, calls, a);
      assert EverLive(db, calls, a);
    } else {
      var id :| id in m.exchanging;
      var calls := [OccurCall(a, InsertMaterial(id))];
      SettledMaterials(db, calls, a);
      assert Inserts(db, calls[0], a) && EverInserts(db, calls, a);
    }
  }

  predicate DestroysAtEnd(call: Call) { call.CommitAbortCall? || call.CommitExpiryCall? || call.FailMediaCall? }

  /** Which materials a settling transaction destroys. */
  function Destroyed(call: Call, r: Attempt): set<Id> { if call.FailMediaCall? then Own(r) else r.materials.live }

  lemma SettlementDestroys(call: Call, r: Attempt, current: bool)
    requires DestroysAtEnd(call) && StepOf(call, r, current).1.SettledAs?
    ensures StepOf(call, r, current).0.materials == Destroy(r.materials, Destroyed(call, r))
  {
  }

  /**
    What abort, expiry and media failure do to the materials when they settle an attempt, and that
    none is live at any later point of any run exactly when no exchange is on its way at the
    settlement and, for the media failure, every material but the upload's own was destroyed before.
  */
  lemma SettlementLeavesNone(db: Db, call: Call)
    requires Inv(db) && DestroysAtEnd(call) && Apply(db, call).1.SettledAs?
    requires call.a in db.attempts && Settled(Apply(db, call).0.attempts[call.a].status)
    ensures var r, after := db.attempts[call.a], Apply(db, call).0;
            && after.attempts[call.a].materials == Destroy(r.materials, Destroyed(call, r))
            && ((forall calls :: !EverLive(after, calls, call.a)) <==>
                  r.materials.exchanging == {} && (call.FailMediaCall? ==> r.materials.live <= Own(r)))
  {
    ApplyKeepsInv(db, call);
    var r := db.attempts[call.a];
    SettlementDestroys(call, r, r.revision in db.current);
    CleanForGood(Apply(db, call).0, call.a);
    assert r.materials.live - r.materials.live == {};
  }

  /** A database the service can reach from no attempts at all. */
  ghost predicate Reachable(db: Db) { exists calls :: Run(Db({}, map[]), calls) == db }

  lemma {:induction false} RunSnoc(db: Db, calls: seq<Call>, last: Call)
    ensures Run(db, calls + [last]) == Apply(Run(db, calls), last).0
    decreases |calls|
  {
    if calls == [] {
      assert Run(Apply(db, last).0, []) == Apply(db, last).0;
    } else {
      assert (calls + [last])[1..] == calls[1..] + [last];
      RunSnoc(Apply(db, calls[0]).0, calls[1..], last);
    }
  }

  lemma ReachableNext(db: Db, call: Call)
    requires Reachable(db)
    ensures Reachable(Apply(db, call).0)
  {
    var calls :| Run(Db({}, map[]), calls) == db;
    RunSnoc(Db({}, map[]), calls, call);
  }

  /** The one attempt of the examples below, of a current revision. */
  function OneAttempt(r: Attempt): Db { Db({1}, map[0 := r]) }

  lemma OneAttemptNext(r: Attempt, call: Call)
    requires Reachable(OneAttempt(r)) && r.revision == 1 && TouchesOne(call) && call.a == 0
    ensures Reachable(OneAttempt(StepOf(call, r, true).0))
  {
    ReachableNext(OneAttempt(r), call);
    var s := StepOf(call, r, true).0;
    assert map[0 := r][0 := s] == map[0 := s];
  }

  lemma OneAttemptOccurs(r: Attempt, e: Event)
    requires Reachable(OneAttempt(r)) && r.revision == 1
    ensures Reachable(OneAttempt(Occur(r, e))) && Occur(r, e).revision == 1
  {
    OneAttemptNext(r, OccurCall(0, e));
  }

  lemma OneAttemptPrepared()
    ensures Reachable(OneAttempt(NewAttempt(0, 1, 0, Preparing, 1)))
  {
    var empty := Db({}, map[]);
    assert Run(empty, []) == empty;
    ReachableNext(empty, PushCall(0, 1));
    assert Apply(empty, PushCall(0, 1)).0 == Db({1}, map[]);
    ReachableNext(Db({1}, map[]), PrepareCall(0, 0, 1, 0, 1));
    assert Apply(Db({1}, map[]), PrepareCall(0, 0, 1, 0, 1)).0 == OneAttempt(NewAttempt(0, 1, 0, Preparing, 1));
  }

  function Ready1(): Attempt { NewAttempt(0, 1, 0, Ready, 1) }

  lemma OneAttemptReady()
    ensures Reachable(OneAttempt(Ready1()))
  {
    OneAttemptPrepared();
    OneAttemptOccurs(NewAttempt(0, 1, 0, Preparing, 1), BecomeReady);
  }

  function Begun(r: Attempt, m: Id): Attempt { Occur(r, BeginExchange(m, 0)) }

  function Exchanged(r: Attempt, m: Id): Attempt { Occur(Begun(r, m), InsertMaterial(m)) }

  /** Two exchanges one after the other, each complete. */
  function TwoExchanged(): Attempt { Exchanged(Exchanged(Ready1(), 1), 2) }

  lemma TwoExchangesReachable()
    ensures Reachable(OneAttempt(TwoExchanged())) && TwoExchanged().revision == 1
  {
    OneAttemptReady();
    OneAttemptOccurs(Ready1(), BeginExchange(1, 0));
    OneAttemptOccurs(Begun(Ready1(), 1), InsertMaterial(1));
    OneAttemptOccurs(Exchanged(Ready1(), 1), BeginExchange(2, 0));
    OneAttemptOccurs(Begun(Exchanged(Ready1(), 1), 2), InsertMaterial(2));
  }

  lemma ExchangedMaterials(r: Attempt, m: Id)
    requires r.status == Ready && r.expiresAt == 1 && !Known(r.materials, m)
    ensures Exchanged(r, m) == r.(materials := r.materials.(live := r.materials.live + {m}))
  {
    assert r.materials.exchanging + {m} - {m} == r.materials.exchanging;
  }

  lemma TwoExchangedMaterials()
    ensures TwoExchanged() == Ready1().(materials := Materials({1, 2}, {}, {}))
  {
    ExchangedMaterials(Ready1(), 1);
    ExchangedMaterials(Exchanged(Ready1(), 1), 2);
    assert {} + {1} + {2} == {1, 2};
  }

  function Recorded(r: Attempt, m: Id): Attempt {
    Occur(Occur(Occur(r, Start(0)), StartUpload(m)), FinalizeUpload(0))
  }

  lemma RecordedReachable(r: Attempt, m: Id)
    requires Reachable(OneAttempt(r)) && r.revision == 1
    ensures Reachable(OneAttempt(Recorded(r, m))) && Recorded(r, m).revision == 1
  {
    OneAttemptOccurs(r, Start(0));
    OneAttemptOccurs(Occur(r, Start(0)), StartUpload(m));
    OneAttemptOccurs(Occur(Occur(r, Start(0)), StartUpload(m)), FinalizeUpload(0));
  }

  lemma RecordedIsProcessing(r: Attempt, m: Id)
    requires r.status == Ready && r.upload.None? && r.transitions == [] && m in r.materials.live
    ensures var p := Recorded(r, m);
            && p.status == Processing && p.upload.Some? && p.own == Some(m) && p.materials == r.materials
            && !HasKey(p.transitions, MediaKey)
  {
    var active := Occur(r, Start(0));
    assert active.transitions == [Transition(StartKey(0), Ready, Active, r.author)];
    var uploading := Occur(active, StartUpload(m));
    assert uploading.transitions == active.transitions + [Transition(UploadKey, Active, Uploading, r.author)];
  }

  lemma OtherMaterialStays(r: Attempt)
    requires r.status == Processing && r.upload.Some? && r.own == Some(1) && r.materials.live == {1, 2}
    requires !HasKey(r.transitions, MediaKey)
    ensures var s := FailMedia(r).0;
            s.status == TechnicalRetry && HasKey(s.transitions, MediaKey) && s.materials.live == {2}
  {
    RowOfLast(r.transitions, Transition(MediaKey, Processing, TechnicalRetry, 0));
    assert {1, 2} - {1} == {2};
  }

  /** Two handoff exchanges, then a recording whose check fails: the other material stays live. */
  lemma MediaFailureLeavesOtherMaterial()
    ensures exists r :: Reachable(OneAttempt(r)) && r.status == TechnicalRetry
                        && HasKey(r.transitions, MediaKey) && r.materials.live == {2}
  {
    TwoExchangesReachable();
    RecordedReachable(TwoExchanged(), 1);
    TwoExchangedMaterials();
    RecordedIsProcessing(TwoExchanged(), 1);
    var r := Recorded(TwoExchanged(), 1);
    OneAttemptNext(r, FailMediaCall(0));
    OtherMaterialStays(r);
    assert Reachable(OneAttempt(FailMedia(r).0));
  }

  /** Aborted, or expired, between the two steps of an exchange; then the exchange inserts. */
  function LateInserted(settled: Attempt): Attempt { Occur(settled, InsertMaterial(1)) }

  lemma BegunMaterials()
    ensures Begun(Ready1(), 1) == Ready1().(materials := Materials({}, {}, {1}))
  {
    assert {} + {1} == {1};
  }

  lemma LateInsertIsLive(settled: Attempt)
    requires settled.materials.live == {} && settled.materials.exchanging == {1}
    ensures LateInserted(settled) == settled.(materials := Materials({1}, settled.materials.destroyed, {}))
  {
    assert {} + {1} == {1} && {1} - {1} == {};
  }

  /** An exchange that passed its check before the abort inserts its material after it. */
  lemma LateExchangeSurvivesAbort()
    ensures exists r :: Reachable(OneAttempt(r)) && r.status == TechnicalRetry
                        && HasKey(r.transitions, AbortKey(0)) && r.materials.live == {1}
  {
    OneAttemptReady();
    OneAttemptOccurs(Ready1(), BeginExchange(1, 0));
    BegunMaterials();
    var begun := Begun(Ready1(), 1);
    assert ReserveAbort(begun, true, true, 0, 0) == (begun, Proceed);
    OneAttemptNext(begun, CommitAbortCall(0, true, 0, 0));
    var aborted := CommitAbort(begun, true, true, 0, 0).0;
    RowOfLast(begun.transitions, Transition(AbortKey(0), Ready, TechnicalRetry, 0));
    OneAttemptOccurs(aborted, InsertMaterial(1));
    LateInsertIsLive(aborted);
    assert Reachable(OneAttempt(LateInserted(aborted)));
  }

  /** The same with an expiry. */
  lemma LateExchangeSurvivesExpiry()
    ensures exists r :: Reachable(OneAttempt(r)) && r.status == Expired
                        && HasKey(r.transitions, ExpiryKey) && r.materials.live == {1}
  {
    OneAttemptReady();
    OneAttemptOccurs(Ready1(), BeginExchange(1, 0));
    BegunMaterials();
    var begun := Begun(Ready1(), 1);
    assert ReserveExpiry(begun, true, 0, 1) == (begun, Proceed);
    OneAttemptNext(begun, CommitExpiryCall(0, 0, 1));
    var expired := CommitExpiry(begun, true, 0, 1).0;
    RowOfLast(begun.transitions, Transition(ExpiryKey, Ready, Expired, 0));
    OneAttemptOccurs(expired, InsertMaterial(1));
    LateInsertIsLive(expired);
    assert Reachable(OneAttempt(LateInserted(expired)));
  }

  // ---------------------------------------------------------------------------------------------
  // What the two-phase flows promise
  // ---------------------------------------------------------------------------------------------

  /** At most one flow settles an attempt, once, with one check, and its upload is gone. */
  lemma AbortOrExpirySettlesOnce(db: Db, a: Id, k: Id)
    requires Inv(db) && a in db.attempts
    ensures var r := db.attempts[a];
            && !(HasKey(r.transitions, AbortKey(k)) && HasKey(r.transitions, ExpiryKey))
            && (HasKey(r.transitions, AbortKey(k)) ==>
                  r.status == TechnicalRetry && Settlements(r.transitions) == 1 && SettlingChecks(r.intents) == 1
                  && UploadGone(r))
            && (HasKey(r.transitions, ExpiryKey) ==>
                  r.status == Expired && Settlements(r.transitions) == 1 && SettlingChecks(r.intents) == 1
                  && UploadGone(r))
  {
    var r := db.attempts[a];
    if HasKey(r.transitions, AbortKey(k)) {
      KeyedRowFits(r, AbortKey(k));
    }
    if HasKey(r.transitions, ExpiryKey) {
      KeyedRowFits(r, ExpiryKey);
    }
  }

  /**
    From every sound state of a current, abortable attempt, also one a crash left between the
    phases, each flow gets through its reservation exactly when the upload can still be reserved,
    and its second transaction then settles the attempt, from the state either reservation left.
  */
  lemma EitherFlowFinishes(r: Attempt, head: Id, k: Id, now: int)
    requires Sound(r) && Abortable(r.status) && r.head == head && r.expiresAt <= now
    ensures ReserveAbort(r, true, true, head, k).1 == Proceed <==> UploadReservable(r)
    ensures ReserveExpiry(r, true, head, now).1 == Proceed <==> UploadReservable(r)
    ensures UploadReservable(r) ==>
              var reserved := Reserve(r);
              && reserved == ReserveAbort(r, true, true, head, k).0 == ReserveExpiry(r, true, head, now).0
              && reserved.status == r.status && Reserve(reserved) == reserved
              && CommitAbort(reserved, true, true, head, k).1 == SettledAs(TechnicalRetry)
              && CommitExpiry(reserved, true, head, now).1 == SettledAs(Expired)
  {
    LiveHasNoSettlingKey(r, AbortKey(k));
  }

  lemma {:induction false} RowOfPrefix(rows: seq<Transition>, more: seq<Transition>, key: Key)
    requires HasKey(rows, key) && rows <= more
    ensures HasKey(more, key) && RowOf(more, key) == RowOf(rows, key)
  {
    assert rows[0] == more[0];
    if rows[0].key != key {
      RowOfPrefix(rows[1..], more[1..], key);
    }
  }

  lemma {:induction false} RowOfLast(rows: seq<Transition>, row: Transition)
    requires !HasKey(rows, row.key)
    ensures HasKey(rows + [row], row.key) && RowOf(rows + [row], row.key) == row
  {
    assert (rows + [row])[|rows|] == row;
    if rows != [] {
      assert (rows + [row])[1..] == rows[1..] + [row];
      assert rows[0].key != row.key;
      RowOfLast(rows[1..], row);
    }
  }

  /** What an attempt looks like at the end of a run: `Later`, and sound. */
  lemma LaterInRun(db: Db, call: Call, calls: seq<Call>, a: Id)
    requires Inv(db) && a in db.attempts
    ensures var s := Apply(db, call).0;
            && a in s.attempts && a in Run(s, calls).attempts
            && Sound(s.attempts[a]) && Sound(Run(s, calls).attempts[a])
            && Later(s.attempts[a], Run(s, calls).attempts[a])
  {
    EveryCallMoves(db, call, a);
    ApplyKeepsInv(db, call);
    RunKeepsInv(Apply(db, call).0, calls);
  }

  /** How every phase of either flow answers once the attempt was aborted, whoever asks with which key. */
  lemma AbortedAnswers(t: Attempt, current: bool, k: Id, head: Id, k2: Id, now: int)
    requires Sound(t) && HasKey(t.transitions, AbortKey(k))
    ensures t.status == TechnicalRetry && UploadGone(t) && Settlements(t.transitions) == 1
    ensures ReserveAbort(t, current, true, t.head, k2) == (t, Replayed) == CommitAbort(t, current, true, head, k2)
    ensures ReserveExpiry(t, current, t.head, now) == (t, if current then Stale else Proceed)
    ensures CommitExpiry(t, current, t.head, now) ==
            if current then (t, Stale) else (DestroyEvidence(t), CleanedUp)
  {
    KeyedRowFits(t, AbortKey(k));
    if HasKey(t.transitions, AbortKey(k2)) {
      assert KeyFits(RowOf(t.transitions, AbortKey(k2)));
    }
  }

  lemma ExpiredAnswers(t: Attempt, current: bool, head: Id, k: Id, now: int)
    requires Sound(t) && HasKey(t.transitions, ExpiryKey)
    ensures t.status == Expired && UploadGone(t) && Settlements(t.transitions) == 1
    ensures ReserveExpiry(t, current, t.head, now) == (t, Replayed) == CommitExpiry(t, current, t.head, now)
    ensures ReserveAbort(t, current, true, head, k) == (t, Conflict)
    ensures CommitAbort(t, current, true, head, k) ==
            if current && head == t.head then (t, Conflict) else (DestroyEvidence(t), SettledAs(Invalidated))
  {
    KeyedRowFits(t, ExpiryKey);
    if HasKey(t.transitions, AbortKey(k)) {
      KeyedRowFits(t, AbortKey(k));
    }
  }

  /**
    When an abort settles an attempt it writes one row and one check and destroys the evidence, and
    at every later point of every run the attempt is still so settled and each phase of both flows
    replays or declines. A material is live again only if a late exchange inserts one.
  */
  lemma AbortWritesOneRow(db: Db, call: Call, calls: seq<Call>, current: bool, head: Id, k2: Id, now: int)
    requires Inv(db) && call.CommitAbortCall? && Apply(db, call).1 == SettledAs(TechnicalRetry)
    ensures call.a in db.attempts && call.a in Apply(db, call).0.attempts
    ensures call.a in Run(Apply(db, call).0, calls).attempts
    ensures var r, s, key := db.attempts[call.a], Apply(db, call).0.attempts[call.a], AbortKey(call.k);
            && s.transitions == r.transitions + [Transition(key, r.status, TechnicalRetry, r.author)]
            && s.intents == r.intents + [Intent(key, TechnicalRetryCheck)] && EvidenceGone(s)
    ensures var t := Run(Apply(db, call).0, calls).attempts[call.a];
            && t.status == TechnicalRetry && UploadGone(t) && Settlements(t.transitions) == 1
            && ReserveAbort(t, current, true, t.head, k2) == (t, Replayed) == CommitAbort(t, current, true, head, k2)
            && ReserveExpiry(t, current, t.head, now) == (t, if current then Stale else Proceed)
            && CommitExpiry(t, current, t.head, now) ==
               if current then (t, Stale) else (DestroyEvidence(t), CleanedUp)
    ensures EverLive(Apply(db, call).0, calls, call.a) <==> EverInserts(Apply(db, call).0, calls, call.a)
  {
    var r, s := db.attempts[call.a], Apply(db, call).0;
    LiveHasNoSettlingKey(r, AbortKey(call.k));
    RowOfLast(r.transitions, Transition(AbortKey(call.k), r.status, TechnicalRetry, r.author));
    ApplyKeepsInv(db, call);
    SettledMaterials(s, calls, call.a);
    LaterInRun(db, call, calls, call.a);
    RowOfPrefix(s.attempts[call.a].transitions, Run(s, calls).attempts[call.a].transitions, AbortKey(call.k));
    AbortedAnswers(Run(s, calls).attempts[call.a], current, call.k, head, k2, now);
  }

  /** The same when an attempt expires. */
  lemma ExpiryWritesOneRow(db: Db, call: Call, calls: seq<Call>, current: bool, head: Id, k: Id, now: int)
    requires Inv(db) && call.CommitExpiryCall? && Apply(db, call).1 == SettledAs(Expired)
    ensures call.a in db.attempts && call.a in Apply(db, call).0.attempts
    ensures call.a in Run(Apply(db, call).0, calls).attempts
    ensures var r, s := db.attempts[call.a], Apply(db, call).0.attempts[call.a];
            && s.transitions == r.transitions + [Transition(ExpiryKey, r.status, Expired, 0)]
            && s.intents == r.intents + [Intent(ExpiryKey, ExpiredCheck)] && EvidenceGone(s)
    ensures var t := Run(Apply(db, call).0, calls).attempts[call.a];
            && t.status == Expired && UploadGone(t) && Settlements(t.transitions) == 1
            && ReserveExpiry(t, current, t.head, now) == (t, Replayed) == CommitExpiry(t, current, t.head, now)
            && ReserveAbort(t, current, true, head, k) == (t, Conflict)
            && CommitAbort(t, current, true, head, k) ==
               if current && head == t.head then (t, Conflict) else (DestroyEvidence(t), SettledAs(Invalidated))
    ensures EverLive(Apply(db, call).0, calls, call.a) <==> EverInserts(Apply(db, call).0, calls, call.a)
  {
    var r, s := db.attempts[call.a], Apply(db, call).0;
    LiveHasNoSettlingKey(r, ExpiryKey);
    RowOfLast(r.transitions, Transition(ExpiryKey, r.status, Expired, 0));
    ApplyKeepsInv(db, call);
    SettledMaterials(s, calls, call.a);
    LaterInRun(db, call, calls, call.a);
    RowOfPrefix(s.attempts[call.a].transitions, Run(s, calls).attempts[call.a].transitions, ExpiryKey);
    ExpiredAnswers(Run(s, calls).attempts[call.a], current, head, k, now);
  }

  // ---------------------------------------------------------------------------------------------
  // Uploads that can no longer be reserved
  // ---------------------------------------------------------------------------------------------

  predicate Reserves(call: Call, a: Id) { (call.ReserveAbortCall? || call.ReserveExpiryCall?) && call.a == a }

  predicate Commits(call: Call, a: Id) { (call.CommitAbortCall? || call.CommitExpiryCall?) && call.a == a }

  /**
    The order the two flows keep: nobody commits on attempt `a` before a reservation on it, in this
    run, answered that the flow may proceed; `reserved` says whether one did before.
  */
  predicate ReservesFirst(db: Db, calls: seq<Call>, a: Id, reserved: bool)
    decreases |calls|
  {
    calls != [] ==>
      && (Commits(calls[0], a) ==> reserved)
      && var (next, outcome) := Apply(db, calls[0]);
         ReservesFirst(next, calls[1..], a, reserved || (Reserves(calls[0], a) && outcome == Proceed))
  }

  /** Still uploading, but the upload was deleted, or failed by the media job, under it. */
  predicate Stranded(r: Attempt) { r.status == Uploading && !UploadReservable(r) }

  lemma StrandedStays(call: Call, r: Attempt)
    requires Sound(r) && Stranded(r) && TouchesOne(call)
    requires !call.CommitAbortCall? && !call.CommitExpiryCall?
    ensures var (s, outcome) := StepOf(call, r, true);
            (Stranded(s) || s.status == Invalidated)
            && (call.ReserveAbortCall? || call.ReserveExpiryCall? ==> outcome != Proceed)
  {
    if call.ReserveAbortCall? {
      LiveHasNoSettlingKey(r, AbortKey(call.k));
    }
  }

  lemma StrandedStep(db: Db, call: Call, a: Id)
    requires Inv(db) && a in db.attempts && Stranded(db.attempts[a]) && !Commits(call, a)
    ensures a in Apply(db, call).0.attempts
    ensures var s := Apply(db, call).0.attempts[a]; Stranded(s) || s.status == Invalidated
    ensures Reserves(call, a) ==> Apply(db, call).1 != Proceed
  {
    CallEffect(db, call, a);
    assert Live(db, a);
    if TouchesOne(call) && call.a == a {
      StrandedStays(call, db.attempts[a]);
    }
  }

  /**
    If retention deletes the upload of an attempt that is still uploading, then in every run in which
    the flows reserve first, nothing but an invalidation settles the attempt any more.
  */
  lemma {:induction false} DeletedUploadStrandsAttempt(db: Db, calls: seq<Call>, a: Id)
    requires Inv(db) && a in db.attempts && Stranded(db.attempts[a]) && ReservesFirst(db, calls, a, false)
    ensures a in Run(db, calls).attempts
    ensures var s := Run(db, calls).attempts[a]; Stranded(s) || s.status == Invalidated
    decreases |calls|
  {
    if calls != [] {
      var next := Apply(db, calls[0]).0;
      StrandedStep(db, calls[0], a);
      ApplyKeepsInv(db, calls[0]);
      if Stranded(next.attempts[a]) {
        DeletedUploadStrandsAttempt(next, calls[1..], a);
      } else {
        RunKeepsInv(next, calls[1..]);
      }
    }
  }

  /** A flow already past its reservation when the deletion comes still settles the attempt. */
  lemma ReservedFlowStillFinishes(r: Attempt, head: Id, k: Id, now: int)
    requires Sound(r) && r.status == Uploading && r.head == head
    ensures var s := Occur(r, DeleteEvidence);
            && Sound(s) && Stranded(s)
            && CommitAbort(s, true, true, head, k).1 == SettledAs(TechnicalRetry)
            && CommitExpiry(s, true, head, now).1 == if r.expiresAt <= now then SettledAs(Expired) else Stale
  {
    DeletionIsSound(r);
  }

  /** The transactions of one flow: its reservation, what others commit while storage aborts, its commit. */
  function FlowCalls(db: Db, reserve: Call, stopped: bool, between: seq<Call>, commit: Call): seq<Call> {
    if Apply(db, reserve).1 != Proceed || stopped then [reserve] else [reserve] + between + [commit]
  }

  lemma {:induction false} ReservedIsFree(db: Db, calls: seq<Call>, a: Id)
    ensures ReservesFirst(db, calls, a, true)
    decreases |calls|
  {
    if calls != [] {
      ReservedIsFree(Apply(db, calls[0]).0, calls[1..], a);
    }
  }

  /** A flow is a run, and one that reserves first. */
  lemma FlowIsRun(db: Db, reserve: Call, stopped: bool, between: seq<Call>, commit: Call, a: Id)
    requires Reserves(reserve, a)
    ensures var calls, reserved := FlowCalls(db, reserve, stopped, between, commit), Apply(db, reserve);
            && ReservesFirst(db, calls, a, false)
            && Run(db, calls) == if reserved.1 != Proceed || stopped then reserved.0
                                 else Apply(Run(reserved.0, between), commit).0
  {
    var calls, next := FlowCalls(db, reserve, stopped, between, commit), Apply(db, reserve).0;
    if Apply(db, reserve).1 != Proceed || stopped {
      assert calls[1..] == [];
    } else {
      assert calls[1..] == between + [commit];
      RunSnoc(next, between, commit);
      ReservedIsFree(next, calls[1..], a);
    }
  }

  /** The answer by which a committing transaction says that it settled the attempt. */
  function Aim(commit: Call): Outcome { SettledAs(if commit.CommitAbortCall? then TechnicalRetry else Expired) }

  predicate Reached(db: Db, commit: Call)
    requires commit.CommitAbortCall? || commit.CommitExpiryCall?
  {
    && commit.a in db.attempts && SettledAs(db.attempts[commit.a].status) == Aim(commit)
    && HasKey(db.attempts[commit.a].transitions, if commit.CommitAbortCall? then AbortKey(commit.k) else ExpiryKey)
    && EvidenceGone(db.attempts[commit.a])
  }

  lemma CommitSettles(db: Db, commit: Call)
    requires Inv(db) && (commit.CommitAbortCall? || commit.CommitExpiryCall?)
    ensures Apply(db, commit).1 == Aim(commit) ==> Reached(Apply(db, commit).0, commit)
  {
    if commit.CommitAbortCall? && Apply(db, commit).1 == SettledAs(TechnicalRetry) {
      AbortWritesOneRow(db, commit, [], true, 0, 0, 0);
    } else if commit.CommitExpiryCall? && Apply(db, commit).1 == SettledAs(Expired) {
      ExpiryWritesOneRow(db, commit, [], true, 0, 0, 0);
    }
  }

  lemma ReserveSettlesNothing(db: Db, reserve: Call, a: Id)
    requires Reserves(reserve, a)
    ensures !Apply(db, reserve).1.SettledAs?
  {
  }

  // ---------------------------------------------------------------------------------------------
  // What replacement and review promise
  // ---------------------------------------------------------------------------------------------

  /** The attempt may be replaced: by its author, at its head, on the current revision, after a retry or its expiry. */
  predicate MayReplace(db: Db, a: Id, authorized: bool, head: Id) {
    && a in db.attempts && authorized
    && db.attempts[a].revision in db.current && head == db.attempts[a].head
    && db.attempts[a].status in {TechnicalRetry, RetryRequired, Expired}
  }

  /**
    When a replacement creates an attempt, the attempt it creates, and what it answers otherwise: the
    attempt already live or already there, or a conflict.
  */
  lemma ReplacementCreatesExactly(db: Db, a: Id, authorized: bool, head: Id, id: Id, now: int)
    ensures var (after, outcome) := Replace(db, a, authorized, head, id, now);
            if !MayReplace(db, a, authorized, head) then (after, outcome) == (db, Conflict)
            else
              var r := db.attempts[a];
              if !NoneLive(db, r.revision, r.author) then (after, outcome) == (db, Existing)
              else if id in db.attempts then
                && after == db
                && outcome == (if db.attempts[id].status == Ready && db.attempts[id].head == head then Existing
                               else Conflict)
              else
                && outcome == Created
                && after == db.(attempts := db.attempts[id := Attempt(
                     r.author, r.revision, head, Ready, now + 28_800_000, None, None, Materials({}, {}, {}), [],
                     [Intent(StartKey(id), ProofReadyCheck)], [])])
  {
    if a in db.attempts {
      LiveOrNone(db, db.attempts[a].revision, db.attempts[a].author);
    }
  }

  /** A replacement touches no existing attempt, and creates one only where none is live. */
  lemma ReplacementNeverRevives(db: Db, a: Id, authorized: bool, head: Id, id: Id, now: int)
    requires Inv(db)
    ensures var (after, outcome) := Replace(db, a, authorized, head, id, now);
            && (forall b :: b in db.attempts ==> b in after.attempts && after.attempts[b] == db.attempts[b])
            && (outcome == Created <==> after != db)
            && (outcome == Created ==>
                  && id !in db.attempts && after.attempts.Keys == db.attempts.Keys + {id}
                  && after.attempts[id].status == Ready)
            && (id in db.attempts && Settled(db.attempts[id].status) ==> outcome == Conflict || outcome == Existing)
  {
    var (after, outcome) := Replace(db, a, authorized, head, id, now);
    if outcome == Created {
      assert id !in db.attempts && id in after.attempts;
      assert after.attempts.Keys == db.attempts.Keys + {id};
    } else {
      assert after == db;
    }
  }

  /** Repeating a replacement with the same key answers with the attempt already there. */
  lemma ReplacementReplays(db: Db, a: Id, head: Id, id: Id, now: int, later: int)
    requires Inv(db) && Replace(db, a, true, head, id, now).1 == Created
    ensures Replace(Replace(db, a, true, head, id, now).0, a, true, head, id, later) ==
            (Replace(db, a, true, head, id, now).0, Existing)
  {
  }

  lemma {:induction false} SettledRowExists(rows: seq<Transition>)
    requires Settlements(rows) > 0
    ensures exists i :: 0 <= i < |rows| && Settled(rows[i].to)
  {
    if !Settled(rows[|rows| - 1].to) {
      SettledRowExists(rows[..|rows| - 1]);
      var i :| 0 <= i < |rows| - 1 && Settled(rows[..|rows| - 1][i].to);
      assert Settled(rows[i].to);
    }
  }

  lemma {:induction false} SettlingCheckExists(intents: seq<Intent>)
    requires SettlingChecks(intents) > 0
    ensures exists i :: 0 <= i < |intents| && Settles(intents[i].check)
  {
    if !Settles(intents[|intents| - 1].check) {
      SettlingCheckExists(intents[..|intents| - 1]);
      var i :| 0 <= i < |intents| - 1 && Settles(intents[..|intents| - 1][i].check);
      assert Settles(intents[i].check);
    }
  }

  /** Passed and retry_required come from a maintainer's decision and from nothing else. */
  lemma OnlyDecisionsPass(r: Attempt)
    requires Sound(r) && (r.status == Passed || r.status == RetryRequired)
    ensures r.decisions != []
    ensures exists i :: 0 <= i < |r.intents| && r.intents[i].check.DecisionCheck?
  {
    SettledRowExists(r.transitions);
    var i :| 0 <= i < |r.transitions| && Settled(r.transitions[i].to);
    assert RowFits(r, r.transitions[i]) && r.transitions[i].key.ReviewKey?;
    SettlingCheckExists(r.intents);
    var j :| 0 <= j < |r.intents| && Settles(r.intents[j].check);
    assert IntentFits(r, r.intents[j]);
  }

  /**
    In every reachable database: an attempt has passed exactly if a maintainer approved it, and
    exactly if it has a successful check; a rejection requires a retry, a manual retry is technical.
  */
  lemma PassedMeansApproved(calls: seq<Call>, a: Id)
    requires a in Run(Db({}, map[]), calls).attempts
    ensures var r := Run(Db({}, map[]), calls).attempts[a];
            && (r.status == Passed <==> r.decisions != [] && r.decisions[0].reason == MaintainerApproved)
            && (r.status == Passed <==> r.decisions != [] && r.decisions[0].verdict == Pass)
            && (r.status == Passed <==>
                  exists i :: 0 <= i < |r.intents| && r.intents[i].check == DecisionCheck(Success))
            && (r.status == RetryRequired <==> r.decisions != [] && r.decisions[0].reason == MaintainerRejected)
            && (r.decisions != [] && r.decisions[0].reason == ManualRetryReason ==> r.status == TechnicalRetry)
  {
    EveryDatabaseIsSound(calls);
    SoundPassIsApproved(Run(Db({}, map[]), calls).attempts[a]);
  }

  lemma SoundPassIsApproved(r: Attempt)
    requires Sound(r)
    ensures r.status == Passed <==> r.decisions != [] && r.decisions[0].reason == MaintainerApproved
    ensures r.status == Passed <==> r.decisions != [] && r.decisions[0].verdict == Pass
    ensures r.status == Passed <==> exists i :: 0 <= i < |r.intents| && r.intents[i].check == DecisionCheck(Success)
    ensures r.status == RetryRequired <==> r.decisions != [] && r.decisions[0].reason == MaintainerRejected
    ensures r.decisions != [] && r.decisions[0].reason == ManualRetryReason ==> r.status == TechnicalRetry
  {
    if r.status == Passed || r.status == RetryRequired {
      OnlyDecisionsPass(r);
      var i :| 0 <= i < |r.intents| && r.intents[i].check.DecisionCheck?;
      assert IntentFits(r, r.intents[i]);
    }
  }

  /** What an action makes of an attempt: its status, and the decision, row and check that go with it. */
  predicate DecidedAs(t: Attempt, call: Call, to: Status, verdict: Verdict, reason: ReasonCode, conclusion: Conclusion)
    requires call.DecideReviewCall?
  {
    && t.status == to && t.decisions == [Decision(call.actor, verdict, reason, call.explanation, t.head)]
    && Transition(ReviewKey(call.k), ReviewRequired, to, call.actor) in t.transitions
    && Intent(ReviewKey(call.k), DecisionCheck(conclusion)) in t.intents
  }

  /** The action by which an attempt was decided is what it says. */
  predicate ActedUpon(t: Attempt, call: Call)
    requires call.DecideReviewCall?
  {
    match call.action
    case Approve => DecidedAs(t, call, Passed, Pass, MaintainerApproved, Success)
    case Reject => DecidedAs(t, call, RetryRequired, Retry, MaintainerRejected, ActionRequired)
    case ManualRetry => DecidedAs(t, call, TechnicalRetry, Retry, ManualRetryReason, ActionRequired)
  }

  lemma DecisionDecides(r: Attempt, call: Call)
    requires call.DecideReviewCall? && RowsMatch(call, r, true) && StatusMatches(call, r, true)
    requires r.decisions == [] && StatusAfter(call, r, true) != r.status
    ensures ActedUpon(StepOf(call, r, true).0, call)
  {
    var s := StepOf(call, r, true).0;
    assert s.transitions[|r.transitions|] == RowFor(call, r, s.status)[0];
    assert s.intents[|r.intents|] == CheckFor(call, s.status)[0];
  }

  lemma DecidedSettles(r: Attempt, call: Call, current: bool)
    requires call.DecideReviewCall? && StepOf(call, r, current).1.SettledAs?
    ensures r.status == ReviewRequired && current && r.head == call.head
    ensures StepOf(call, r, current).1 == SettledAs(StepOf(call, r, current).0.status)
    ensures StatusAfter(call, r, current) != r.status
  {
  }

  lemma DecidedRemains(s: Attempt, t: Attempt, call: Call)
    requires call.DecideReviewCall? && ActedUpon(s, call) && Later(s, t) && |t.decisions| <= 1 && Settled(s.status)
    ensures ActedUpon(t, call) && t.status == s.status
  {
    assert t.decisions == s.decisions;
    assert forall row :: row in s.transitions ==> row in t.transitions;
    assert forall intent :: intent in s.intents ==> intent in t.intents;
  }

  /** At every later point of every run after a decision the attempt is what the action says. */
  lemma DecisionMeansItsAction(db: Db, call: Call, calls: seq<Call>)
    requires Inv(db) && call.DecideReviewCall? && Apply(db, call).1.SettledAs?
    ensures call.a in db.attempts
    ensures db.attempts[call.a].status == ReviewRequired && db.attempts[call.a].head == call.head
    ensures call.a in Run(Apply(db, call).0, calls).attempts
    ensures var t := Run(Apply(db, call).0, calls).attempts[call.a];
            && Apply(db, call).1 == SettledAs(t.status)
            && match call.action
               case Approve => DecidedAs(t, call, Passed, Pass, MaintainerApproved, Success)
               case Reject => DecidedAs(t, call, RetryRequired, Retry, MaintainerRejected, ActionRequired)
               case ManualRetry => DecidedAs(t, call, TechnicalRetry, Retry, ManualRetryReason, ActionRequired)
  {
    var r, s := db.attempts[call.a], Apply(db, call).0.attempts[call.a];
    DecidedSettles(r, call, r.revision in db.current);
    CallExactly(call, r, true);
    LiveHasNoDecision(r);
    DecisionDecides(r, call);
    LaterInRun(db, call, calls, call.a);
    DecidedRemains(s, Run(Apply(db, call).0, calls).attempts[call.a], call);
  }

  /** At most one decision; status, transition and check all follow the plan of one action. */
  lemma DecisionFollowsOnePlan(db: Db, a: Id)
    requires Inv(db) && a in db.attempts && db.attempts[a].decisions != []
    ensures |db.attempts[a].decisions| == 1
    ensures exists action :: FollowsPlan(db.attempts[a], PlanReviewDecision(action))
    ensures Settlements(db.attempts[a].transitions) == 1 && SettlingChecks(db.attempts[a].intents) == 1
  {
  }

  /** A decided attempt has the row of one decision key only. */
  lemma OneReviewKey(t: Attempt, k: Id, k2: Id)
    requires Sound(t) && HasKey(t.transitions, ReviewKey(k)) && HasKey(t.transitions, ReviewKey(k2))
    ensures k == k2
  {
    var i :| 0 <= i < |t.transitions| && t.transitions[i].key == ReviewKey(k);
    var j :| 0 <= j < |t.transitions| && t.transitions[j].key == ReviewKey(k2);
    assert RowFits(t, t.transitions[i]) && RowFits(t, t.transitions[j]);
    if i != j {
      TwoSettlementRowsCount(t.transitions, if i < j then i else j, if i < j then j else i);
    }
  }

  /** What a decision leaves behind for good: its row under its key, and itself. */
  ghost predicate DecidedBy(t: Attempt, call: Call)
    requires call.DecideReviewCall?
  {
    var plan, key := PlanReviewDecision(call.action), ReviewKey(call.k);
    && t.head == call.head
    && t.decisions == [Decision(call.actor, plan.verdict, plan.reason, call.explanation, call.head)]
    && HasKey(t.transitions, key)
    && RowOf(t.transitions, key) == Transition(key, ReviewRequired, plan.target, call.actor)
  }

  lemma DecideWrites(r: Attempt, call: Call, current: bool)
    requires Sound(r) && call.DecideReviewCall? && StepOf(call, r, current).1.SettledAs?
    ensures DecidedBy(StepOf(call, r, current).0, call)
  {
    LiveHasNoSettlingKey(r, ReviewKey(call.k));
    RowOfLast(r.transitions,
              Transition(ReviewKey(call.k), ReviewRequired, PlanReviewDecision(call.action).target, call.actor));
  }

  lemma DecidedAnswers(t: Attempt, call: Call, current: bool, head: Id, k: Id, actor: Id, action: Action,
                       explanation: Option<string>)
    requires Sound(t) && call.DecideReviewCall? && DecidedBy(t, call)
    ensures DecideReview(t, current, head, k, actor, action, explanation) ==
            (t, if current && head == call.head && k == call.k && actor == call.actor && action == call.action
                   && explanation == call.explanation
                then Replayed else Conflict)
  {
    assert RowFits(t, RowOf(t.transitions, ReviewKey(call.k)));
    if HasKey(t.transitions, ReviewKey(k)) {
      OneReviewKey(t, call.k, k);
    }
  }

  lemma DecidedStays(s: Attempt, t: Attempt, call: Call)
    requires call.DecideReviewCall? && DecidedBy(s, call) && Sound(t) && Later(s, t)
    ensures DecidedBy(t, call)
  {
    RowOfPrefix(s.transitions, t.transitions, ReviewKey(call.k));
  }

  /**
    At every later point of every run after a decision: a replay with the same key and input changes
    nothing, and any other second decision conflicts without change.
  */
  lemma DecisionReplays(
    db: Db, call: Call, calls: seq<Call>, current: bool, head: Id, k: Id, actor: Id, action: Action,
    explanation: Option<string>)
    requires Inv(db) && call.DecideReviewCall? && Apply(db, call).1.SettledAs?
    ensures call.a in Run(Apply(db, call).0, calls).attempts
    ensures var t := Run(Apply(db, call).0, calls).attempts[call.a];
            DecideReview(t, current, head, k, actor, action, explanation) ==
            (t, if current && head == call.head && k == call.k && actor == call.actor && action == call.action
                   && explanation == call.explanation
                then Replayed else Conflict)
  {
    var s, t := Apply(db, call).0.attempts[call.a], Run(Apply(db, call).0, calls).attempts;
    DecideWrites(db.attempts[call.a], call, db.attempts[call.a].revision in db.current);
    LaterInRun(db, call, calls, call.a);
    DecidedStays(s, t[call.a], call);
    DecidedAnswers(t[call.a], call, current, head, k, actor, action, explanation);
  }

  // ---------------------------------------------------------------------------------------------
  // The transactions, statement by statement
  // ---------------------------------------------------------------------------------------------

  /**
    The rows a transaction has locked: one attempt, its upload session, its wrapping materials, and
    what references them. Each method is one transaction, proved to be the function of that name.
  */
  class LockedAttempt {
    const author: Id
    const revision: Id
    const head: Id
    const expiresAt: int
    const own: Option<Id>
    var status: Status
    var upload: Option<UploadState>
    var materials: Materials
    var transitions: seq<Transition>
    var intents: seq<Intent>
    var decisions: seq<Decision>

    function Value(): Attempt
      reads this
    {
      Attempt(author, revision, head, status, expiresAt, upload, own, materials, transitions, intents, decisions)
    }

    constructor (r: Attempt)
      ensures Value() == r
    {
      author, revision, head, expiresAt, own := r.author, r.revision, r.head, r.expiresAt, r.own;
      status, upload, materials := r.status, r.upload, r.materials;
      transitions, intents, decisions := r.transitions, r.intents, r.decisions;
    }

    method InsertTransition(row: Transition)
      modifies this`transitions
      ensures transitions == InsertOnce(old(transitions), row)
    {
      if !HasKey(transitions, row.key) {
        transitions := transitions + [row];
      }
    }

    method DestroyIncompleteEvidence()
      modifies this`upload, this`materials
      ensures Value() == DestroyEvidence(old(Value()))
    {
      if upload.Some? {
        upload := Some(Failed);
      }
      materials := Destroy(materials, materials.live);
    }

    method WriteCheck(key: Key, check: Check)
      modifies this`intents
      ensures intents == old(intents) + [Intent(key, check)]
    {
      intents := intents + [Intent(key, check)];
    }

    method MarkAborting()
      modifies this`upload
      ensures Value() == Reserve(old(Value()))
    {
      if upload == Some(UploadActive) {
        upload := Some(Aborting);
      }
    }

    method UploadBlocks() returns (blocks: bool)
      ensures blocks <==> !UploadReservable(Value())
    {
      blocks := upload.Some? && upload.value != UploadActive && upload.value != Aborting;
    }

    method ReserveTechnicalAbort(current: bool, authorized: bool, expectedHead: Id, k: Id) returns (outcome: Outcome)
      modifies this
      ensures (Value(), outcome) == ReserveAbort(old(Value()), current, authorized, expectedHead, k)
    {
      if !authorized || head != expectedHead {
        return Conflict;
      }
      if HasKey(transitions, AbortKey(k)) {
        if RowOf(transitions, AbortKey(k)).to != TechnicalRetry || status != TechnicalRetry {
          return Conflict;
        }
        return Replayed;
      }
      if status == TechnicalRetry {
        return Replayed;
      }
      if status == Processing || status == ReviewRequired || status == Passed {
        return AlreadyProgressed;
      }
      if !current || !Abortable(status) {
        return Conflict;
      }
      var blocks := UploadBlocks();
      if blocks {
        return Conflict;
      }
      MarkAborting();
      outcome := Proceed;
    }

    method CommitTechnicalAbort(current: bool, authorized: bool, expectedHead: Id, k: Id) returns (outcome: Outcome)
      modifies this
      ensures (Value(), outcome) == CommitAbort(old(Value()), current, authorized, expectedHead, k)
    {
      if !authorized {
        return Conflict;
      }
      if status == TechnicalRetry {
        return Replayed;
      }
      if !current || head != expectedHead {
        if Abortable(status) {
          InsertTransition(Transition(StaleKey(k), status, Invalidated, 0));
          status := Invalidated;
        }
        DestroyIncompleteEvidence();
        return SettledAs(Invalidated);
      }
      if !Abortable(status) {
        return Conflict;
      }
      InsertTransition(Transition(AbortKey(k), status, TechnicalRetry, author));
      status := TechnicalRetry;
      DestroyIncompleteEvidence();
      WriteCheck(AbortKey(k), TechnicalRetryCheck);
      outcome := SettledAs(TechnicalRetry);
    }

    method ReserveExpiringAttempt(current: bool, expectedHead: Id, now: int) returns (outcome: Outcome)
      modifies this
      ensures (Value(), outcome) == ReserveExpiry(old(Value()), current, expectedHead, now)
    {
      if head != expectedHead {
        return Stale;
      }
      if status == Expired {
        return Replayed;
      }
      if status == Invalidated || !current {
        MarkAborting();
        return Proceed;
      }
      if !Abortable(status) || expiresAt > now {
        return Stale;
      }
      var blocks := UploadBlocks();
      if blocks {
        return Stale;
      }
      MarkAborting();
      outcome := Proceed;
    }

    method CommitExpiringAttempt(current: bool, expectedHead: Id, now: int) returns (outcome: Outcome)
      modifies this
      ensures (Value(), outcome) == CommitExpiry(old(Value()), current, expectedHead, now)
    {
      if head != expectedHead {
        return Stale;
      }
      if status == Expired {
        return Replayed;
      }
      if status == Invalidated || !current {
        DestroyIncompleteEvidence();
        return CleanedUp;
      }
      if !Abortable(status) || expiresAt > now {
        return Stale;
      }
      InsertTransition(Transition(ExpiryKey, status, Expired, 0));
      status := Expired;
      DestroyIncompleteEvidence();
      WriteCheck(ExpiryKey, ExpiredCheck);
      outcome := SettledAs(Expired);
    }

    /** The job was loaded with its upload and the material of that upload. */
    method RecordMediaFailure() returns (outcome: Outcome)
      modifies this
      ensures (Value(), outcome) == FailMedia(old(Value()))
    {
      if upload.None? {
        return Stale;
      }
      outcome := CleanedUp;
      if status == Processing {
        InsertTransition(Transition(MediaKey, Processing, TechnicalRetry, 0));
        status := TechnicalRetry;
        WriteCheck(MediaKey, TechnicalRetryCheck);
        outcome := SettledAs(TechnicalRetry);
      }
      upload := Some(Failed);
      materials := Destroy(materials, if own.Some? then {own.value} else {});
    }

    method TransitionToReviewRequired(eligible: bool, evidence: bool, expectedHead: Id, k: Id)
      returns (outcome: Outcome)
      modifies this
      ensures (Value(), outcome) == RequireReview(old(Value()), eligible, evidence, expectedHead, k)
    {
      if !eligible || head != expectedHead || (status != Processing && status != ReviewRequired) {
        return Stale;
      }
      if status == ReviewRequired {
        return Replayed;
      }
      if !evidence {
        return Stale;
      }
      if HasKey(transitions, PipelineKey(k)) {
        return Replayed;
      }
      InsertTransition(Transition(PipelineKey(k), Processing, ReviewRequired, 0));
      status := ReviewRequired;
      WriteCheck(PipelineKey(k), ReviewCheck);
      outcome := Advanced;
    }

    method TransitionToTechnicalRetry(eligible: bool, expectedHead: Id, k: Id) returns (outcome: Outcome)
      modifies this
      ensures (Value(), outcome) == RequireRetry(old(Value()), eligible, expectedHead, k)
    {
      if !eligible || head != expectedHead || (status != Processing && status != TechnicalRetry) {
        return Stale;
      }
      if status == TechnicalRetry || HasKey(transitions, PipelineKey(k)) {
        return Replayed;
      }
      InsertTransition(Transition(PipelineKey(k), Processing, TechnicalRetry, 0));
      status := TechnicalRetry;
      WriteCheck(PipelineKey(k), TechnicalRetryCheck);
      outcome := SettledAs(TechnicalRetry);
    }

    method DecideMaintainerReview(
        current: bool, expectedHead: Id, k: Id, actor: Id, action: Action, explanation: Option<string>)
      returns (outcome: Outcome)
      modifies this
      ensures (Value(), outcome) == DecideReview(old(Value()), current, expectedHead, k, actor, action, explanation)
    {
      var plan := PlanReviewDecision(action);
      if !current || head != expectedHead {
        return Conflict;
      }
      if HasKey(transitions, ReviewKey(k)) {
        var row := RowOf(transitions, ReviewKey(k));
        if row.to != plan.target || row.actor != actor || decisions == []
           || decisions[0].verdict != plan.verdict || decisions[0].reason != plan.reason
           || decisions[0].explanation != explanation || decisions[0].head != head || status != plan.target
        {
          return Conflict;
        }
        return Replayed;
      }
      if status != ReviewRequired || decisions != [] {
        return Conflict;
      }
      decisions := decisions + [Decision(actor, plan.verdict, plan.reason, explanation, head)];
      InsertTransition(Transition(ReviewKey(k), ReviewRequired, plan.target, actor));
      status := plan.target;
      WriteCheck(ReviewKey(k), DecisionCheck(plan.conclusion));
      outcome := SettledAs(plan.target);
    }
  }

  /** The operations on the whole table: the two flows with their phases, and the replacement. */
  class AttemptTable {
    var current: set<Id>
    var attempts: map<Id, Attempt>

    function Rows(): Db
      reads this
    {
      Db(current, attempts)
    }

    /** One transaction: the attempt's rows are locked, its statements run, and the rows are written back. */
    method Transact(call: Call) returns (outcome: Outcome)
      requires TouchesOne(call) && !call.OccurCall?
      modifies this`attempts
      ensures (Rows(), outcome) == Apply(old(Rows()), call)
    {
      if call.a !in attempts {
        return Missing(call);
      }
      var isCurrent := attempts[call.a].revision in current;
      var locked := new LockedAttempt(attempts[call.a]);
      match call {
        case ReserveAbortCall(_, authorized, head, k) =>
          outcome := locked.ReserveTechnicalAbort(isCurrent, authorized, head, k);
        case CommitAbortCall(_, authorized, head, k) =>
          outcome := locked.CommitTechnicalAbort(isCurrent, authorized, head, k);
        case ReserveExpiryCall(_, head, now) => outcome := locked.ReserveExpiringAttempt(isCurrent, head, now);
        case CommitExpiryCall(_, head, now) => outcome := locked.CommitExpiringAttempt(isCurrent, head, now);
        case FailMediaCall(_) => outcome := locked.RecordMediaFailure();
        case RequireReviewCall(_, open, evidence, head, k) =>
          outcome := locked.TransitionToReviewRequired(isCurrent && open, evidence, head, k);
        case RequireRetryCall(_, open, head, k) =>
          outcome := locked.TransitionToTechnicalRetry(isCurrent && open, head, k);
        case DecideReviewCall(_, head, k, actor, action, explanation) =>
          outcome := locked.DecideMaintainerReview(isCurrent, head, k, actor, action, explanation);
      }
      attempts := attempts[call.a := locked.Value()];
    }

    /** Whatever else the service commits while this process waits for storage. */
    method Meanwhile(between: seq<Call>)
      modifies this
      ensures Rows() == Run(old(Rows()), between)
    {
      var after := Run(Rows(), between);
      current, attempts := after.current, after.attempts;
    }

    /**
      Both flows: reserve, abort the multipart upload in storage, settle. `stopped` says whether the
      storage call failed or the process ended there, `between` what committed meanwhile.
    */
    method TwoPhases(a: Id, reserve: Call, stopped: bool, between: seq<Call>, commit: Call)
      returns (outcome: Outcome)
      requires Inv(Rows()) && Reserves(reserve, a) && Commits(commit, a)
      modifies this
      ensures var calls := FlowCalls(old(Rows()), reserve, stopped, between, commit);
              Rows() == Run(old(Rows()), calls) && Inv(Rows()) && ReservesFirst(old(Rows()), calls, a, false)
      ensures outcome == Aim(commit) ==> Reached(Rows(), commit)
    {
      FlowIsRun(Rows(), reserve, stopped, between, commit, a);
      RunKeepsInv(Rows(), FlowCalls(Rows(), reserve, stopped, between, commit));
      ApplyKeepsInv(Rows(), reserve);
      ReserveSettlesNothing(Rows(), reserve, a);
      outcome := Transact(reserve);
      if outcome == Proceed && !stopped {
        RunKeepsInv(Rows(), between);
        Meanwhile(between);
        CommitSettles(Rows(), commit);
        outcome := Transact(commit);
      }
    }

    /** abortAttemptForTechnicalRetry */
    method AbortAttempt(a: Id, authorized: bool, head: Id, k: Id, stopped: bool, between: seq<Call>)
      returns (outcome: Outcome)
      requires Inv(Rows())
      modifies this
      ensures var calls := FlowCalls(old(Rows()), ReserveAbortCall(a, authorized, head, k), stopped, between,
                                     CommitAbortCall(a, authorized, head, k));
              Rows() == Run(old(Rows()), calls) && Inv(Rows()) && ReservesFirst(old(Rows()), calls, a, false)
      ensures outcome == SettledAs(TechnicalRetry) ==>
                && a in attempts && attempts[a].status == TechnicalRetry
                && HasKey(attempts[a].transitions, AbortKey(k)) && EvidenceGone(attempts[a])
    {
      outcome := TwoPhases(a, ReserveAbortCall(a, authorized, head, k), stopped, between,
                           CommitAbortCall(a, authorized, head, k));
    }

    /** expireAttempt: one clock reading for both phases. */
    method ExpireAttempt(a: Id, head: Id, now: int, stopped: bool, between: seq<Call>) returns (outcome: Outcome)
      requires Inv(Rows())
      modifies this
      ensures var calls := FlowCalls(old(Rows()), ReserveExpiryCall(a, head, now), stopped, between,
                                     CommitExpiryCall(a, head, now));
              Rows() == Run(old(Rows()), calls) && Inv(Rows()) && ReservesFirst(old(Rows()), calls, a, false)
      ensures outcome == SettledAs(Expired) ==>
                && a in attempts && attempts[a].status == Expired
                && HasKey(attempts[a].transitions, ExpiryKey) && EvidenceGone(attempts[a])
    {
      outcome := TwoPhases(a, ReserveExpiryCall(a, head, now), stopped, between, CommitExpiryCall(a, head, now));
    }

    /** createReplacementAttempt; the revision row is locked throughout. */
    method CreateReplacementAttempt(a: Id, authorized: bool, head: Id, id: Id, now: int) returns (outcome: Outcome)
      modifies this`attempts
      ensures (Db(current, attempts), outcome) == Replace(old(Db(current, attempts)), a, authorized, head, id, now)
    {
      if a !in attempts || !authorized {
        return Conflict;
      }
      var source := attempts[a];
      if source.revision !in current || source.head != head || !Retryable(source.status) {
        return Conflict;
      }
      if LiveFor(Db(current, attempts), source.revision, source.author) {
        return Existing;
      }
      if id in attempts {
        if attempts[id].status != Ready || attempts[id].head != source.head {
          return Conflict;
        }
        return Existing;
      }
      var created := NewAttempt(source.author, source.revision, source.head, Ready, now + REPLACEMENT_LIFETIME);
      attempts := attempts[id := created.(intents := [Intent(StartKey(id), ProofReadyCheck)])];
      outcome := Created;
    }
  }
}
