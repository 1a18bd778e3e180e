/**
  Evidence frames and their deletion. A select-frames worker reserves a row that names an object
  before it uploads the object; a deletion job claims the named objects, deletes them one by one and
  then marks the rows. A sweep can move the job's deadline later, a maintainer's pass earlier. One
  attempt's rows, objects, job and running workers are one state; every transaction, storage call and
  crash is one step of it.
*/
module EvidenceRetention {
  import opened Bytes

  type Id = nat
  type Key = nat

  /** FRAME_RESERVATION_MIN_REMAINING_MS */
  const MARGIN: int := 15 * 60_000

  datatype Row = Row(key: Key, deleted: bool)
  datatype JobState = Pending | Running | Failed | Completed
  datatype Job = Job(deadline: int, state: JobState, attempts: nat, updatedAt: int)

  /** An upload a worker has started: the reserved key and when it was reserved. */
  datatype Flight = Flight(key: Key, at: int)

  /** A claimed deletion: the keys it names, and those its worker has still to delete. */
  datatype Plan = Plan(keys: set<Key>, remaining: set<Key>)

  /** `deadline` is the attempt's evidence deadline, which its recording and frame rows share. */
  datatype Evidence = Evidence(
    clock: int, deadline: int, processing: bool, decided: bool,
    rows: map<Id, Row>, storage: set<Key>, flight: Option<Flight>,
    job: Option<Job>, plans: map<Id, Plan>, audits: nat)

  datatype Step =
    | Reserve(id: Id, key: Key, now: int)
    | Land
    | Drop
    | Repair(id: Id, now: int)
    | Persist(id: Id, key: Key, now: int)
    | StopProcessing
    | Decide(accelerate: bool, now: int)
    | Sweep(picked: bool, staleBefore: int, now: int)
    | Claim(plan: Id, now: int)
    | DeleteObject(plan: Id, key: Key)
    | Complete(plan: Id, now: int)
    | Fail(plan: Id, now: int)
    | Abandon(plan: Id)

  function At(e: Evidence, now: int): Evidence { e.(clock := if e.clock < now then now else e.clock) }

  function LiveKeys(rows: map<Id, Row>): set<Key> { set id | id in rows && !rows[id].deleted :: rows[id].key }

  // ---------------------------------------------------------------------------------------------
  // The select-frames worker
  // ---------------------------------------------------------------------------------------------

  /** Rows may be reserved or repaired only while the attempt is processed and the deadline is far enough. */
  predicate HasMargin(e: Evidence, now: int) { e.processing && e.deadline > now + MARGIN }

  /** reserveFrameObject succeeds with a new row, or with the very row of an earlier try. */
  predicate Reservable(e: Evidence, id: Id, key: Key, now: int) {
    HasMargin(e, now) && (id !in e.rows || e.rows[id] == Row(key, false))
  }

  function ReserveFrame(e: Evidence, id: Id, key: Key, now: int): Evidence {
    if !Reservable(e, id, key, now) then At(e, now)
    else At(e, now).(rows := e.rows[id := Row(key, false)], flight := Some(Flight(key, now)))
  }

  /** The repair of loadExistingFrames: a row whose object is missing is removed. */
  function RepairFrame(e: Evidence, id: Id, now: int): Evidence {
    if id in e.rows && !e.rows[id].deleted && e.rows[id].key !in e.storage && HasMargin(e, now)
    then At(e, now).(rows := e.rows - {id}) else At(e, now)
  }

  /** persistFrameSelection's insert, which asks for no margin. */
  function PersistFrame(e: Evidence, id: Id, key: Key, now: int): Evidence {
    if id !in e.rows && e.processing && e.deadline > now then At(e, now).(rows := e.rows[id := Row(key, false)])
    else At(e, now)
  }

  // ---------------------------------------------------------------------------------------------
  // The deletion job
  // ---------------------------------------------------------------------------------------------

  /** enqueueDueDeletions, first statement: a due attempt gets a job, or its job the later deadline. */
  function EnsureJob(job: Option<Job>, deadline: int, now: int): Option<Job> {
    if deadline > now then job
    else if job.None? then Some(Job(deadline, Pending, 0, now))
    else Some(job.value.(deadline := Max(job.value.deadline, deadline)))
  }

  /** Second statement: which jobs a sweep hands to a worker again. */
  predicate Sweepable(job: Job, staleBefore: int, now: int) {
    && job.deadline <= now
    && (job.state == Pending || ((job.state == Running || job.state == Failed) && job.updatedAt <= staleBefore))
  }

  function SweepJob(job: Option<Job>, deadline: int, picked: bool, staleBefore: int, now: int): Option<Job> {
    var ensured := EnsureJob(job, deadline, now);
    if picked && ensured.Some? && Sweepable(ensured.value, staleBefore, now)
    then Some(ensured.value.(state := Running, updatedAt := now)) else ensured
  }

  /** accelerateEvidenceDeletionAfterPass */
  function AccelerateJob(job: Option<Job>, now: int): Option<Job> {
    if job.None? then Some(Job(now, Pending, 0, now))
    else
      Some(job.value.(deadline := Min(job.value.deadline, now),
                      state := if job.value.state == Completed then Completed else Pending, updatedAt := now))
  }

  predicate Claimable(job: Option<Job>, now: int) {
    job.Some? && job.value.state != Completed && job.value.deadline <= now
  }

  /** claimDeletion */
  function ClaimJob(job: Option<Job>, now: int): Option<Job> {
    if job.None? || job.value.state == Completed then job
    else if job.value.deadline > now then Some(job.value.(state := Pending, updatedAt := now))
    else Some(job.value.(state := Running, attempts := job.value.attempts + 1, updatedAt := now))
  }

  /** failDeletion */
  function FailJob(job: Option<Job>, now: int): Option<Job> {
    if job.None? || job.value.state == Completed then job else Some(job.value.(state := Failed, updatedAt := now))
  }

  function MarkDeleted(rows: map<Id, Row>): map<Id, Row> { map id | id in rows :: rows[id].(deleted := true) }

  /** completeDeletion: a plan whose job is still open marks every row, whatever the plan named. */
  function CompleteDeletion(e: Evidence, now: int): Evidence {
    if e.job.None? || e.job.value.state == Completed then At(e, now)
    else
      At(e, now).(rows := MarkDeleted(e.rows), audits := e.audits + 1,
                  job := Some(e.job.value.(state := Completed, updatedAt := now)))
  }

  // ---------------------------------------------------------------------------------------------
  // One step
  // ---------------------------------------------------------------------------------------------

  function Next(e: Evidence, s: Step): Evidence {
    match s
    case Reserve(id, key, now) => ReserveFrame(e, id, key, now)
    case Land => if e.flight.None? then e else e.(storage := e.storage + {e.flight.value.key}, flight := None)
    case Drop => e.(flight := None)
    case Repair(id, now) => RepairFrame(e, id, now)
    case Persist(id, key, now) => PersistFrame(e, id, key, now)
    case StopProcessing => e.(processing := false)
    case Decide(accelerate, now) =>
      At(e, now).(processing := false, decided := true, job := if accelerate then AccelerateJob(e.job, now) else e.job)
    case Sweep(picked, staleBefore, now) => At(e, now).(job := SweepJob(e.job, e.deadline, picked, staleBefore, now))
    case Claim(plan, now) =>
      var claimed := At(e, now).(job := ClaimJob(e.job, now));
      if Claimable(e.job, now) then claimed.(plans := e.plans[plan := Plan(LiveKeys(e.rows), LiveKeys(e.rows))])
      else claimed
    case DeleteObject(plan, key) =>
      if plan !in e.plans || key !in e.plans[plan].remaining then e
      else
        e.(storage := e.storage - {key},
           plans := e.plans[plan := e.plans[plan].(remaining := e.plans[plan].remaining - {key})])
    case Complete(plan, now) =>
      if plan !in e.plans || e.plans[plan].remaining != {} then At(e, now)
      else CompleteDeletion(e, now).(plans := e.plans - {plan})
    case Fail(plan, now) =>
      if plan !in e.plans then At(e, now) else At(e, now).(job := FailJob(e.job, now), plans := e.plans - {plan})
    case Abandon(plan) => e.(plans := e.plans - {plan})
  }

  /** The instant a step happens; the clock does not run backwards. */
  function TimeOf(e: Evidence, s: Step): int {
    match s
    case Reserve(_, _, now) => now
    case Repair(_, now) => now
    case Persist(_, _, now) => now
    case Decide(_, now) => now
    case Sweep(_, _, now) => now
    case Claim(_, now) => now
    case Complete(_, now) => now
    case Fail(_, now) => now
    case _ => e.clock
  }

  /** One select-frames worker at a time, counting its upload in flight. */
  predicate OneWorker(e: Evidence, s: Step) { s.Reserve? || s.Repair? || s.Persist? ==> e.flight.None? }

  /** An upload lands, or is given up, within the margin of its reservation. */
  predicate LandsInMargin(e: Evidence, s: Step) {
    e.flight.Some? ==> TimeOf(e, s) <= e.flight.value.at + MARGIN
  }

  /** An upload lands, or is given up, before the attempt is decided. */
  predicate LandsBeforeDecision(e: Evidence, s: Step) { s.Decide? ==> e.flight.None? }

  predicate Assumed(e: Evidence, s: Step) {
    e.clock <= TimeOf(e, s) && OneWorker(e, s) && LandsInMargin(e, s) && LandsBeforeDecision(e, s)
  }

  // ---------------------------------------------------------------------------------------------
  // What every step keeps
  // ---------------------------------------------------------------------------------------------

  predicate IsDone(e: Evidence) { e.job.Some? && e.job.value.state == Completed }

  /** Each stored frame object is named by an undeleted frame row. */
  predicate NoOrphan(e: Evidence) { e.storage <= LiveKeys(e.rows) }

  /** No row can be added any more: the deadline has passed or the attempt is decided. */
  predicate Closed(e: Evidence) { e.deadline <= e.clock || e.decided }

  predicate PlanFits(e: Evidence, p: Plan) {
    LiveKeys(e.rows) <= p.keys && p.remaining <= p.keys && e.storage * (p.keys - p.remaining) == {}
  }

  predicate FlightFits(e: Evidence) {
    e.flight.Some? ==>
      && e.flight.value.at <= e.clock <= e.flight.value.at + MARGIN < e.deadline && !e.decided
      && e.flight.value.key in LiveKeys(e.rows)
  }

  ghost predicate Inv(e: Evidence) {
    && NoOrphan(e) && FlightFits(e)
    && (e.decided ==> !e.processing)
    && (e.job.Some? ==> Closed(e))
    && (e.plans != map[] ==> e.job.Some?)
    && (forall plan :: plan in e.plans ==> PlanFits(e, e.plans[plan]))
    && (if IsDone(e) then e.storage == {} && LiveKeys(e.rows) == {} && e.audits == 1 else e.audits == 0)
  }

  /** Finalization has just stored the recording; nothing is reserved and no deletion is planned. */
  function Start(clock: int, deadline: int): Evidence {
    Evidence(clock, deadline, true, false, map[], {}, None, None, map[], 0)
  }

  lemma StartIsSound(clock: int, deadline: int)
    ensures Inv(Start(clock, deadline))
  {
  }

  lemma WorkerStepKeepsInv(e: Evidence, s: Step)
    requires Inv(e) && Assumed(e, s) && (s.Reserve? || s.Repair? || s.Persist?)
    ensures Inv(Next(e, s))
  {
    var f := Next(e, s);
    forall k | k in LiveKeys(e.rows) && (s.Repair? ==> k in e.storage)
      ensures k in LiveKeys(f.rows)
    {
      var id :| id in e.rows && !e.rows[id].deleted && e.rows[id].key == k;
      assert id in f.rows && f.rows[id] == e.rows[id];
    }
    if s.Reserve? && Reservable(e, s.id, s.key, s.now) {
      assert f.rows[s.id] == Row(s.key, false);
    }
  }

  lemma UploadStepKeepsInv(e: Evidence, s: Step)
    requires Inv(e) && Assumed(e, s) && (s.Land? || s.Drop? || s.StopProcessing?)
    ensures Inv(Next(e, s))
  {
  }

  lemma DecideKeepsInv(e: Evidence, s: Step)
    requires Inv(e) && Assumed(e, s) && s.Decide?
    ensures Inv(Next(e, s))
  {
  }

  lemma SweepKeepsInv(e: Evidence, s: Step)
    requires Inv(e) && Assumed(e, s) && s.Sweep?
    ensures Inv(Next(e, s))
  {
  }

  /** At a claim no row can be added any more, so the plan names everything stored. */
  lemma ClaimKeepsInv(e: Evidence, s: Step)
    requires Inv(e) && Assumed(e, s) && s.Claim?
    ensures Inv(Next(e, s))
  {
  }

  lemma AbandonKeepsInv(e: Evidence, plan: Id)
    requires Inv(e)
    ensures Inv(Next(e, Abandon(plan)))
  {
  }

  lemma FailedJobKeepsInv(e: Evidence, now: int)
    requires Inv(e) && e.clock <= now && (e.flight.Some? ==> now <= e.flight.value.at + MARGIN)
    ensures Inv(At(e, now)) && Inv(At(e, now).(job := FailJob(e.job, now)))
  {
    var f := At(e, now).(job := FailJob(e.job, now));
    forall plan | plan in e.plans
      ensures PlanFits(At(e, now), e.plans[plan]) && PlanFits(f, e.plans[plan])
    {
      assert PlanFits(e, e.plans[plan]);
    }
  }

  lemma FailKeepsInv(e: Evidence, plan: Id, now: int)
    requires Inv(e) && Assumed(e, Fail(plan, now))
    ensures Inv(Next(e, Fail(plan, now)))
  {
    AbandonKeepsInv(e, plan);
    var rest := Next(e, Abandon(plan));
    FailedJobKeepsInv(rest, now);
    assert plan !in e.plans ==> rest.plans == e.plans;
  }

  lemma DeleteKeepsInv(e: Evidence, plan: Id, key: Key)
    requires Inv(e)
    ensures Inv(Next(e, DeleteObject(plan, key)))
  {
  }

  /** When a plan's worker has deleted every key it was given, nothing of the attempt is stored. */
  lemma EmptiedPlan(e: Evidence, plan: Id)
    requires Inv(e) && plan in e.plans && e.plans[plan].remaining == {}
    ensures e.storage == {}
  {
  }

  /** A deletion is claimed only once no upload is in flight any more. */
  lemma NoFlightUnderPlan(e: Evidence, plan: Id)
    requires Inv(e) && plan in e.plans
    ensures e.flight.None? && e.job.Some?
  {
  }

  lemma CompleteKeepsInv(e: Evidence, plan: Id, now: int)
    requires Inv(e) && Assumed(e, Complete(plan, now))
    ensures Inv(Next(e, Complete(plan, now)))
  {
    if plan in e.plans && e.plans[plan].remaining == {} {
      EmptiedPlan(e, plan);
      assert LiveKeys(MarkDeleted(e.rows)) == {};
    }
  }

  lemma StepKeepsInv(e: Evidence, s: Step)
    requires Inv(e) && Assumed(e, s)
    ensures Inv(Next(e, s))
  {
    match s
    case Reserve(_, _, _) => WorkerStepKeepsInv(e, s);
    case Repair(_, _) => WorkerStepKeepsInv(e, s);
    case Persist(_, _, _) => WorkerStepKeepsInv(e, s);
    case Land => UploadStepKeepsInv(e, s);
    case Drop => UploadStepKeepsInv(e, s);
    case StopProcessing => UploadStepKeepsInv(e, s);
    case DeleteObject(plan, key) => DeleteKeepsInv(e, plan, key);
    case Complete(plan, now) => CompleteKeepsInv(e, plan, now);
    case Decide(_, _) => DecideKeepsInv(e, s);
    case Sweep(_, _, _) => SweepKeepsInv(e, s);
    case Claim(_, _) => ClaimKeepsInv(e, s);
    case Fail(plan, now) => FailKeepsInv(e, plan, now);
    case Abandon(plan) => AbandonKeepsInv(e, plan);
  }

  // ---------------------------------------------------------------------------------------------
  // Runs
  // ---------------------------------------------------------------------------------------------

  function Run(e: Evidence, steps: seq<Step>): Evidence
    decreases |steps|
  {
    if steps == [] then e else Run(Next(e, steps[0]), steps[1..])
  }

  predicate AssumedRun(e: Evidence, steps: seq<Step>)
    decreases |steps|
  {
    steps == [] || (Assumed(e, steps[0]) && AssumedRun(Next(e, steps[0]), steps[1..]))
  }

  /** In every run under the three assumptions, whatever crashes: no stored object without its row. */
  lemma {:induction false} RunKeepsInv(e: Evidence, steps: seq<Step>)
    requires Inv(e) && AssumedRun(e, steps)
    ensures Inv(Run(e, steps))
    decreases |steps|
  {
    if steps != [] {
      StepKeepsInv(e, steps[0]);
      RunKeepsInv(Next(e, steps[0]), steps[1..]);
    }
  }

  lemma NothingLeftAfterDeletion(clock: int, deadline: int, steps: seq<Step>)
    requires AssumedRun(Start(clock, deadline), steps)
    ensures var e := Run(Start(clock, deadline), steps);
            && NoOrphan(e)
            && (IsDone(e) ==> e.storage == {} && e.audits == 1)
            && (!IsDone(e) ==> e.audits == 0)
  {
    StartIsSound(clock, deadline);
    RunKeepsInv(Start(clock, deadline), steps);
  }

  /** A job that is due at the clock of its state. */
  predicate IsDue(e: Evidence) { e.job.Some? && e.job.value.deadline <= e.clock }

  /**
    A due job stays due through sweeps and maintainer passes in any order, and completed is final:
    no claim, failure, sweep or acceleration reopens it or writes its audit row again. This needs
    no assumption about workers, only a clock that does not run backwards.
  */
  lemma DueStaysDue(e: Evidence, s: Step)
    requires IsDue(e) && e.clock <= TimeOf(e, s)
    ensures IsDue(Next(e, s))
    ensures IsDone(e) ==> IsDone(Next(e, s)) && Next(e, s).audits == e.audits
  {
  }

  predicate TimelyRun(e: Evidence, steps: seq<Step>)
    decreases |steps|
  {
    steps == [] || (e.clock <= TimeOf(e, steps[0]) && TimelyRun(Next(e, steps[0]), steps[1..]))
  }

  lemma {:induction false} DueStaysDueInRuns(e: Evidence, steps: seq<Step>)
    requires IsDue(e) && TimelyRun(e, steps)
    ensures IsDue(Run(e, steps))
    ensures IsDone(e) ==> IsDone(Run(e, steps)) && Run(e, steps).audits == e.audits
    decreases |steps|
  {
    if steps != [] {
      DueStaysDue(e, steps[0]);
      DueStaysDueInRuns(Next(e, steps[0]), steps[1..]);
    }
  }

  /** A due job that is not completed is handed out by every sweep that picks it once its lease is stale. */
  lemma StaleDueJobIsSwept(e: Evidence, staleBefore: int, now: int)
    requires IsDue(e) && !IsDone(e) && e.clock <= now
    requires e.job.value.state == Pending || e.job.value.updatedAt <= staleBefore
    ensures var f := Next(e, Sweep(true, staleBefore, now));
            f.job.value.state == Running && f.job.value.updatedAt == now && Claimable(f.job, now)
  {
  }

  // ---------------------------------------------------------------------------------------------
  // What each step does, column by column
  // ---------------------------------------------------------------------------------------------

  /** The attempt is processed and its evidence has more than fifteen minutes left. */
  predicate HasTime(e: Evidence, now: int) { e.processing && e.deadline - now > 900_000 }

  predicate Reserves(e: Evidence, s: Step) {
    && s.Reserve? && HasTime(e, s.now)
    && (s.id in e.rows ==> e.rows[s.id].key == s.key && !e.rows[s.id].deleted)
  }

  predicate InsertsLate(e: Evidence, s: Step) {
    s.Persist? && s.id !in e.rows && e.processing && e.deadline > s.now
  }

  predicate Removes(e: Evidence, s: Step) {
    && s.Repair? && s.id in e.rows && !e.rows[s.id].deleted && e.rows[s.id].key !in e.storage && HasTime(e, s.now)
  }

  /** The plan's worker has deleted everything it was given, and the job is still open. */
  predicate Completes(e: Evidence, s: Step) {
    && s.Complete? && s.plan in e.plans && e.plans[s.plan].remaining == {}
    && e.job.Some? && e.job.value.state != Completed
  }

  predicate Claims(e: Evidence, s: Step) {
    s.Claim? && e.job.Some? && e.job.value.state != Completed && e.job.value.deadline <= s.now
  }

  ghost predicate RowExactly(e: Evidence, s: Step, f: Evidence, id: Id) {
    && (id in f.rows <==>
          (id in e.rows && !(Removes(e, s) && s.id == id)) || ((Reserves(e, s) || InsertsLate(e, s)) && s.id == id))
    && (id in f.rows ==>
          f.rows[id] == if id !in e.rows then Row(s.key, false)
                        else if Completes(e, s) then Row(e.rows[id].key, true) else e.rows[id])
  }

  ghost predicate ObjectsExactly(e: Evidence, s: Step, f: Evidence) {
    && (forall key ::
          key in f.storage <==>
          || (s.Land? && e.flight.Some? && e.flight.value.key == key)
          || (key in e.storage
              && !(s.DeleteObject? && s.key == key && s.plan in e.plans && key in e.plans[s.plan].remaining)))
    && f.flight == (if Reserves(e, s) then Some(Flight(s.key, s.now))
                    else if s.Land? || s.Drop? then None else e.flight)
  }

  /** A plan holds the keys of all live rows at its claim, and loses one with each deletion. */
  ghost predicate PlansExactly(e: Evidence, s: Step, f: Evidence) {
    && (forall plan ::
          plan in f.plans <==>
          || (Claims(e, s) && s.plan == plan)
          || (plan in e.plans
              && !(((s.Complete? && e.plans[plan].remaining == {}) || s.Fail? || s.Abandon?) && s.plan == plan)))
    && (forall plan ::
          plan in f.plans ==>
            if Claims(e, s) && s.plan == plan then
              && f.plans[plan].remaining == f.plans[plan].keys
              && forall key :: key in f.plans[plan].keys <==>
                               exists id :: id in e.rows && !e.rows[id].deleted && e.rows[id].key == key
            else
              && f.plans[plan].keys == e.plans[plan].keys
              && f.plans[plan].remaining ==
                 e.plans[plan].remaining - (if s.DeleteObject? && s.plan == plan then {s.key} else {}))
  }

  /** A sweep past the attempt's deadline leaves a job, and so does an accelerating decision. */
  predicate Plans(e: Evidence, s: Step) { (s.Sweep? && e.deadline <= s.now) || (s.Decide? && s.accelerate) }

  function DeadlineAfter(e: Evidence, s: Step, deadline: int): int {
    if s.Decide? && s.accelerate then if s.now < deadline then s.now else deadline
    else if s.Sweep? && e.deadline <= s.now && deadline < e.deadline then e.deadline
    else deadline
  }

  /** A sweep hands a due job out if it waits, or if its run or failure is stale. */
  predicate HandsOut(s: Step, job: Job) {
    && s.Sweep? && s.picked && job.deadline <= s.now
    && (job.state == Pending || (job.state != Completed && job.updatedAt <= s.staleBefore))
  }

  /** An accelerated or too early job waits, a claimed or swept one runs, and a completed one stays completed. */
  function StateAfter(e: Evidence, s: Step, job: Job): JobState {
    if job.state == Completed || Completes(e, s) then Completed
    else if s.Decide? && s.accelerate then Pending
    else if s.Claim? then if job.deadline <= s.now then Running else Pending
    else if s.Fail? && s.plan in e.plans then Failed
    else if HandsOut(s, job) then Running
    else job.state
  }

  predicate Touches(e: Evidence, s: Step, job: Job) {
    || (s.Decide? && s.accelerate)
    || (job.state != Completed && (s.Claim? || Completes(e, s) || (s.Fail? && s.plan in e.plans) || HandsOut(s, job)))
  }

  predicate JobExactly(e: Evidence, s: Step, f: Evidence) {
    && (f.job.Some? <==> e.job.Some? || Plans(e, s))
    && (e.job.Some? ==>
          var job := e.job.value.(deadline := DeadlineAfter(e, s, e.job.value.deadline));
          && f.job.value.deadline == job.deadline
          && f.job.value.state == StateAfter(e, s, job)
          && f.job.value.attempts == job.attempts + (if Claims(e, s) then 1 else 0)
          && f.job.value.updatedAt == if Touches(e, s, job) then s.now else job.updatedAt)
    && (e.job.None? && f.job.Some? ==>
          && f.job.value.deadline == (if s.Decide? then s.now else e.deadline)
          && f.job.value.state == (if s.Sweep? && s.picked then Running else Pending)
          && f.job.value.attempts == 0 && f.job.value.updatedAt == s.now)
  }

  predicate AttemptExactly(e: Evidence, s: Step, f: Evidence) {
    && f.clock == TimeOf(e, s) && f.deadline == e.deadline
    && f.processing == (e.processing && !s.StopProcessing? && !s.Decide?)
    && f.decided == (e.decided || s.Decide?)
    && f.audits == e.audits + (if Completes(e, s) then 1 else 0)
  }

  lemma StepWritesRow(e: Evidence, s: Step, id: Id)
    ensures RowExactly(e, s, Next(e, s), id)
  {
  }

  lemma StepMovesObjects(e: Evidence, s: Step)
    ensures ObjectsExactly(e, s, Next(e, s))
  {
  }

  lemma StepMovesPlans(e: Evidence, s: Step)
    ensures PlansExactly(e, s, Next(e, s))
  {
  }

  lemma SweepMovesJob(e: Evidence, s: Step)
    requires s.Sweep?
    ensures JobExactly(e, s, Next(e, s))
  {
  }

  lemma WorkerMovesJob(e: Evidence, s: Step)
    requires s.Decide? || s.Claim? || s.Complete? || s.Fail?
    ensures JobExactly(e, s, Next(e, s))
  {
  }

  lemma StepMovesJob(e: Evidence, s: Step)
    ensures JobExactly(e, s, Next(e, s))
  {
    if s.Sweep? {
      SweepMovesJob(e, s);
    } else if s.Decide? || s.Claim? || s.Complete? || s.Fail? {
      WorkerMovesJob(e, s);
    }
  }

  lemma StepMovesAttempt(e: Evidence, s: Step)
    requires e.clock <= TimeOf(e, s)
    ensures AttemptExactly(e, s, Next(e, s))
  {
  }

  /** What one step does: to the rows, to storage and the upload, to the plans, to the job and to the attempt. */
  lemma StepDoesExactly(e: Evidence, s: Step)
    requires e.clock <= TimeOf(e, s)
    ensures var f := Next(e, s);
            && (forall id :: RowExactly(e, s, f, id)) && ObjectsExactly(e, s, f) && PlansExactly(e, s, f)
            && JobExactly(e, s, f) && AttemptExactly(e, s, f)
  {
    StepMovesAttempt(e, s);
    forall id
      ensures RowExactly(e, s, Next(e, s), id)
    {
      StepWritesRow(e, s, id);
    }
    StepMovesObjects(e, s);
    StepMovesPlans(e, s);
    StepMovesJob(e, s);
  }

  // ---------------------------------------------------------------------------------------------
  // Each assumption is needed
  // ---------------------------------------------------------------------------------------------

  /** A second worker repairs the row of an upload still in flight: the object lands without a row. */
  lemma TwoWorkersOrphan(key: Key)
    ensures var e := Start(0, 2 * MARGIN);
            var steps := [Reserve(0, key, 0), Repair(0, 0), Land];
            && !NoOrphan(Next(Next(Next(e, steps[0]), steps[1]), steps[2]))
            && Assumed(e, steps[0]) && !OneWorker(Next(e, steps[0]), steps[1])
  {
  }

  /** Claim, delete the one named object, complete: then the upload still in flight lands. */
  function DeletedThenLanded(due: Evidence, key: Key, now: int): Evidence {
    Next(Next(Next(Next(due, Claim(0, now)), DeleteObject(0, key)), Complete(0, now)), Land)
  }

  lemma LandingAfterDeletionOrphans(due: Evidence, key: Key, now: int)
    requires due.rows == map[0 := Row(key, false)] && due.flight.Some? && due.flight.value.key == key
    requires due.plans == map[] && Claimable(due.job, now)
    ensures IsDone(DeletedThenLanded(due, key, now)) && !NoOrphan(DeletedThenLanded(due, key, now))
  {
    assert 0 in due.rows && due.rows[0] == Row(key, false);
    assert LiveKeys(due.rows) == {key};
    var claimed := Next(due, Claim(0, now));
    assert claimed.plans[0] == Plan({key}, {key});
    var emptied := Next(claimed, DeleteObject(0, key));
    assert emptied.plans[0].remaining == {};
    var deleted := Next(emptied, Complete(0, now));
    assert LiveKeys(deleted.rows) == {};
    assert key in Next(deleted, Land).storage;
  }

  /** An upload that lands later than its margin can find the deletion completed at the deadline. */
  lemma LateUploadOrphans(key: Key)
    ensures var reserved := Next(Start(0, MARGIN + 1), Reserve(0, key, 0));
            var due := Next(reserved, Sweep(true, 0, MARGIN + 1));
            && !LandsInMargin(reserved, Sweep(true, 0, MARGIN + 1))
            && IsDone(DeletedThenLanded(due, key, MARGIN + 1)) && !NoOrphan(DeletedThenLanded(due, key, MARGIN + 1))
  {
    var reserved := Next(Start(0, MARGIN + 1), Reserve(0, key, 0));
    assert reserved.rows == map[0 := Row(key, false)];
    LandingAfterDeletionOrphans(Next(reserved, Sweep(true, 0, MARGIN + 1)), key, MARGIN + 1);
  }

  /** An upload that lands after an accelerating decision can find the deletion completed at once. */
  lemma UndecidedUploadOrphans(key: Key)
    ensures var reserved := Next(Start(0, 2 * MARGIN), Reserve(0, key, 0));
            var due := Next(reserved, Decide(true, 0));
            && !LandsBeforeDecision(reserved, Decide(true, 0)) && LandsInMargin(reserved, Decide(true, 0))
            && IsDone(DeletedThenLanded(due, key, 0)) && !NoOrphan(DeletedThenLanded(due, key, 0))
  {
    var reserved := Next(Start(0, 2 * MARGIN), Reserve(0, key, 0));
    assert reserved.rows == map[0 := Row(key, false)];
    LandingAfterDeletionOrphans(Next(reserved, Decide(true, 0)), key, 0);
  }

  // ---------------------------------------------------------------------------------------------
  // The workers
  // ---------------------------------------------------------------------------------------------

  class EvidenceStore {
    var e: Evidence

    /** reserveFrameObject: insert the row unless its id is taken, else accept only the very same row. */
    method ReserveFrameObject(id: Id, key: Key, now: int) returns (reserved: bool)
      requires Inv(e) && Assumed(e, Reserve(id, key, now))
      modifies this
      ensures Inv(e) && e == Next(old(e), Reserve(id, key, now))
      ensures reserved <==> Reservable(old(e), id, key, now)
    {
      StepKeepsInv(e, Reserve(id, key, now));
      var eligible := HasMargin(e, now);
      e := At(e, now);
      if !eligible || (id in e.rows && e.rows[id] != Row(key, false)) {
        return false;
      }
      if id !in e.rows {
        e := e.(rows := e.rows[id := Row(key, false)]);
      }
      assert e.rows == e.rows[id := Row(key, false)];
      e := e.(flight := Some(Flight(key, now)));
      reserved := true;
    }

    /** enqueueDueDeletions, on this attempt's job; `picked` says whether it is within the limit and unlocked. */
    method EnqueueDueDeletion(picked: bool, staleBefore: int, now: int) returns (queued: bool)
      requires Inv(e) && Assumed(e, Sweep(picked, staleBefore, now))
      modifies this
      ensures Inv(e) && e == Next(old(e), Sweep(picked, staleBefore, now))
      ensures queued ==> Claimable(e.job, now)
    {
      StepKeepsInv(e, Sweep(picked, staleBefore, now));
      e := At(e, now);
      if e.deadline <= now {
        if e.job.None? {
          e := e.(job := Some(Job(e.deadline, Pending, 0, now)));
        } else if e.job.value.deadline < e.deadline {
          e := e.(job := Some(e.job.value.(deadline := e.deadline)));
        }
      }
      queued := picked && e.job.Some? && Sweepable(e.job.value, staleBefore, now);
      if queued {
        e := e.(job := Some(e.job.value.(state := Running, updatedAt := now)));
      }
    }

    /** decideReview's effect on evidence, with accelerateEvidenceDeletionAfterPass on an approval. */
    method DecideAttempt(accelerate: bool, now: int) returns (completed: bool)
      requires Inv(e) && Assumed(e, Decide(accelerate, now))
      modifies this
      ensures Inv(e) && e == Next(old(e), Decide(accelerate, now))
      ensures completed <==> IsDone(e)
      ensures accelerate ==> IsDue(e)
    {
      StepKeepsInv(e, Decide(accelerate, now));
      e := At(e, now).(processing := false, decided := true);
      if accelerate {
        if e.job.None? {
          e := e.(job := Some(Job(now, Pending, 0, now)));
        } else {
          var deadline := if e.job.value.deadline < now then e.job.value.deadline else now;
          var state := if e.job.value.state == Completed then Completed else Pending;
          e := e.(job := Some(e.job.value.(deadline := deadline, state := state, updatedAt := now)));
        }
      }
      completed := e.job.Some? && e.job.value.state == Completed;
    }

    /** claimDeletion */
    method ClaimDeletion(plan: Id, now: int) returns (claimed: bool)
      requires Inv(e) && Assumed(e, Claim(plan, now))
      modifies this
      ensures Inv(e) && e == Next(old(e), Claim(plan, now))
      ensures claimed <==> Claimable(old(e).job, now)
      ensures claimed ==> plan in e.plans && e.plans[plan].remaining == LiveKeys(old(e).rows)
      ensures e.storage == old(e).storage && e.rows == old(e).rows
    {
      StepKeepsInv(e, Claim(plan, now));
      ghost var before := e;
      e := At(e, now);
      if e.job.None? || e.job.value.state == Completed {
        return false;
      }
      if e.job.value.deadline > now {
        e := e.(job := Some(e.job.value.(state := Pending, updatedAt := now)));
        return false;
      }
      e := e.(job := Some(e.job.value.(state := Running, attempts := e.job.value.attempts + 1, updatedAt := now)));
      var keys := LiveKeys(e.rows);
      e := e.(plans := e.plans[plan := Plan(keys, keys)]);
      claimed := true;
    }

    /** completeDeletion */
    method CompleteEvidenceDeletion(plan: Id, now: int)
      requires Inv(e) && Assumed(e, Complete(plan, now)) && plan in e.plans && e.plans[plan].remaining == {}
      modifies this
      ensures Inv(e) && e == Next(old(e), Complete(plan, now))
    {
      StepKeepsInv(e, Complete(plan, now));
      e := At(e, now).(plans := e.plans - {plan});
      if e.job.None? || e.job.value.state == Completed {
        return;
      }
      e := e.(rows := MarkDeleted(e.rows));
      e := e.(job := Some(e.job.value.(state := Completed, updatedAt := now)));
      e := e.(audits := e.audits + 1);
    }

    method DeleteOne(plan: Id, key: Key)
      requires Inv(e) && plan in e.plans && key in e.plans[plan].remaining
      modifies this
      ensures Inv(e) && e == Next(old(e), DeleteObject(plan, key)) && SameBut(old(e), e) && plan in e.plans
      ensures e.storage == old(e).storage - {key} && e.plans[plan].remaining == old(e).plans[plan].remaining - {key}
    {
      DeleteKeepsInv(e, plan, key);
      var progressed := e.plans[plan].(remaining := e.plans[plan].remaining - {key});
      e := e.(storage := e.storage - {key}, plans := e.plans[plan := progressed]);
    }

    /** The loop over a claimed plan's objects; a storage failure stops it. */
    method DeleteObjects(plan: Id, deletes: Key -> bool) returns (failed: bool)
      requires Inv(e) && plan in e.plans
      modifies this
      ensures Inv(e) && plan in e.plans && SameBut(old(e), e)
      ensures failed <==> exists k :: k in old(e).plans[plan].remaining && !deletes(k)
      ensures OnlyDeletes(old(e).storage, e.storage, old(e).plans[plan].remaining, e.plans[plan].remaining, deletes)
      ensures !failed ==> e.plans[plan].remaining == {}
    {
      ghost var before := e;
      ghost var targets := e.plans[plan].remaining;
      var rest := e.plans[plan].remaining;
      while rest != {}
        invariant rest <= targets && Inv(e) && SameBut(before, e) && plan in e.plans && e.plans[plan].remaining == rest
        invariant OnlyDeletes(before.storage, e.storage, targets, rest, deletes)
        decreases |rest|
      {
        var key :| key in rest;
        if !deletes(key) {
          return true;
        }
        OneMoreDeleted(before.storage, e.storage, targets, rest, key, deletes);
        DeleteOne(plan, key);
        rest := rest - {key};
      }
      failed := false;
    }

    /** failDeletion */
    method FailEvidenceDeletion(plan: Id, now: int)
      requires Inv(e) && Assumed(e, Fail(plan, now)) && plan in e.plans
      modifies this
      ensures Inv(e) && e == Next(old(e), Fail(plan, now))
    {
      StepKeepsInv(e, Fail(plan, now));
      e := At(e, now).(plans := e.plans - {plan});
      if e.job.Some? && e.job.value.state != Completed {
        e := e.(job := Some(e.job.value.(state := Failed, updatedAt := now)));
      }
    }

    /**
      deleteEvidenceJob: claim, delete every named object, complete; a storage failure marks the job
      failed and leaves the rest to a later sweep. `deletes(k)` says whether deleting k succeeds, and
      `later` is the clock when the loop has ended.
    */
    method DeleteEvidence(plan: Id, now: int, deletes: Key -> bool, later: int) returns (finished: bool)
      requires Inv(e) && Assumed(e, Claim(plan, now)) && plan !in e.plans && now <= later
      modifies this
      ensures Inv(e) && e.storage <= old(e).storage
      ensures finished <==> Claimable(old(e).job, now) && forall k :: k in LiveKeys(old(e).rows) ==> deletes(k)
      ensures finished ==> IsDone(e) && e.storage == {} && e.audits == 1
      ensures forall k :: k in old(e).storage && k !in e.storage ==> k in LiveKeys(old(e).rows) && deletes(k)
      ensures !finished && Claimable(old(e).job, now) ==>
                e.job.Some? && e.job.value.state == Failed && e.rows == old(e).rows
      ensures !Claimable(old(e).job, now) ==> e.storage == old(e).storage && e.rows == old(e).rows
    {
      var claimed := ClaimDeletion(plan, now);
      if !claimed {
        return false;
      }
      NoFlightUnderPlan(e, plan);
      var failed := DeleteObjects(plan, deletes);
      if failed {
        FailEvidenceDeletion(plan, later);
        return false;
      }
      CompleteEvidenceDeletion(plan, later);
      finished := true;
    }

    /**
      One frame of loadExistingFrames: present in storage, or its row removed while the margin lasts.
      `lookupFails` says whether storage answers with another error; `now` is read only for a repair.
    */
    method CheckFrame(frame: Frame, lookupFails: bool, now: int) returns (ok: bool, present: bool)
      requires Inv(e) && e.clock <= now && e.flight.None? && HasFrame(e, frame)
      modifies this
      ensures Inv(e)
      ensures present <==> !lookupFails && frame.key in old(e).storage
      ensures ok <==> present || (!lookupFails && HasMargin(old(e), now))
      ensures e == if present || lookupFails then old(e) else RepairFrame(old(e), frame.id, now)
    {
      present := !lookupFails && frame.key in e.storage;
      if present || lookupFails {
        return present, present;
      }
      StepKeepsInv(e, Repair(frame.id, now));
      ok := HasMargin(e, now);
      e := At(e, now);
      if ok {
        e := e.(rows := e.rows - {frame.id});
      }
    }

    /** The loop over the frames the query found; an error ends it. */
    method LookUpFrames(frames: seq<Frame>, now: int, tick: nat -> int, lookupFails: Id -> bool)
      returns (ok: bool, available: seq<Frame>)
      requires Inv(e) && e.flight.None? && HasFrames(e, frames) && e.clock <= now && Readings(now, tick)
      modifies this
      ensures Inv(e)
      ensures LookUp(old(e), [], frames, 0, tick, lookupFails) == LookedUp(e, if ok then Some(available) else None)
    {
      available := [];
      var i, repairs := 0, 0;
      assert frames[0..] == frames;
      while i < |frames|
        invariant 0 <= i <= |frames| && Inv(e) && e.flight.None?
        invariant LookUp(old(e), [], frames, 0, tick, lookupFails) ==
                  LookUp(e, available, frames[i..], repairs, tick, lookupFails)
        invariant HasFrames(e, frames[i..]) && e.clock <= tick(repairs)
      {
        FrameIsThere(e, frames, i, tick(repairs));
        var present;
        ok, present := CheckFrame(frames[i], lookupFails(frames[i].id), tick(repairs));
        if !ok {
          return;
        }
        if present {
          available := available + [frames[i]];
        } else {
          repairs := repairs + 1;
        }
        i := i + 1;
      }
      ok := true;
    }

    /**
      loadExistingFrames: every undeleted row is looked up in storage, in the order of the query's
      result `frames`, and rows whose object is missing are removed, each at its own clock reading:
      the n-th repair reads `tick(n)`. It throws (not `ok`) when the deadline is too near at the
      start or at a repair, or when a lookup fails.
    */
    method LoadExistingFrames(now: int, frames: seq<Frame>, tick: nat -> int, lookupFails: Id -> bool)
      returns (ok: bool, available: seq<Frame>)
      requires Inv(e) && e.clock <= now && e.flight.None? && IsFrameList(e, frames) && Readings(now, tick)
      modifies this
      ensures Inv(e) && OnlyRemoves(old(e), e, LostFrames(old(e).storage, frames))
      ensures ok <==> HasMargin(old(e), now) && AllAnswer(frames, lookupFails)
                      && Repairable(old(e), |LostFrames(old(e).storage, frames)|, tick)
      ensures ok ==> available == StoredFrames(old(e).storage, frames) && IsFrameList(e, available)
    {
      ghost var before := e;
      e, available := At(e, now), [];
      if !HasMargin(e, now) {
        return false, available;
      }
      LookUpMeans(e, [], frames, 0, now, tick, lookupFails);
      ok, available := LookUpFrames(frames, now, tick, lookupFails);
      LoadedMeans(before, now, frames, tick, lookupFails, LookedUp(e, if ok then Some(available) else None));
    }
  }

  /** Of the targets exactly those no longer in `rest` are gone from storage, and each can be deleted. */
  predicate OnlyDeletes(before: set<Key>, after: set<Key>, targets: set<Key>, rest: set<Key>, deletes: Key -> bool) {
    after == before - (targets - rest) && forall k :: k in targets && k !in rest ==> deletes(k)
  }

  lemma OneMoreDeleted(before: set<Key>, after: set<Key>, targets: set<Key>, rest: set<Key>, key: Key,
                       deletes: Key -> bool)
    requires OnlyDeletes(before, after, targets, rest, deletes) && key in rest && rest <= targets && deletes(key)
    ensures OnlyDeletes(before, after - {key}, targets, rest - {key}, deletes)
  {
  }

  /** Deleting objects touches storage and the progress of plans, nothing else. */
  predicate SameBut(e: Evidence, f: Evidence) {
    && f.plans.Keys == e.plans.Keys
    && f == e.(storage := f.storage, plans := f.plans)
  }

  // ---------------------------------------------------------------------------------------------
  // Looking up the frames of an attempt, one after the other
  // ---------------------------------------------------------------------------------------------

  datatype Frame = Frame(id: Id, key: Key)

  predicate HasFrame(e: Evidence, frame: Frame) { frame.id in e.rows && e.rows[frame.id] == Row(frame.key, false) }

  /** These frames are undeleted rows, each listed once. */
  predicate HasFrames(e: Evidence, frames: seq<Frame>) {
    && (forall i, j :: 0 <= i < j < |frames| ==> frames[i].id != frames[j].id)
    && forall i :: 0 <= i < |frames| ==> HasFrame(e, frames[i])
  }

  /** The result of the query: all undeleted rows. */
  ghost predicate IsFrameList(e: Evidence, frames: seq<Frame>) {
    && HasFrames(e, frames)
    && forall id :: id in e.rows && !e.rows[id].deleted ==> Frame(id, e.rows[id].key) in frames
  }

  function StoredFrames(storage: set<Key>, frames: seq<Frame>): seq<Frame> {
    if frames == [] then []
    else (if frames[0].key in storage then [frames[0]] else []) + StoredFrames(storage, frames[1..])
  }

  function LostFrames(storage: set<Key>, frames: seq<Frame>): seq<Frame> {
    if frames == [] then []
    else (if frames[0].key in storage then [] else [frames[0]]) + LostFrames(storage, frames[1..])
  }

  /** Clock readings after `now`, none earlier than the one before. */
  ghost predicate Readings(now: int, tick: nat -> int) { forall i: nat, j: nat :: i <= j ==> now <= tick(i) <= tick(j) }

  predicate AllAnswer(frames: seq<Frame>, lookupFails: Id -> bool) {
    forall i :: 0 <= i < |frames| ==> !lookupFails(frames[i].id)
  }

  /** Of so many repairs the last one still has its margin. */
  predicate Repairable(e: Evidence, repairs: nat, tick: nat -> int) {
    repairs > 0 ==> HasMargin(e, tick(repairs - 1))
  }

  /** Only the clock moved, and rows of lost frames went. */
  predicate OnlyRemoves(e: Evidence, f: Evidence, lost: seq<Frame>) {
    && f == e.(clock := f.clock, rows := f.rows) && e.clock <= f.clock
    && (forall id :: id in f.rows ==> id in e.rows && f.rows[id] == e.rows[id])
    && (forall id :: id in e.rows && id !in f.rows ==> Frame(id, e.rows[id].key) in lost)
  }

  datatype LookedUp = LookedUp(e: Evidence, available: Option<seq<Frame>>)

  function LookUp(e: Evidence, available: seq<Frame>, frames: seq<Frame>, repairs: nat, tick: nat -> int,
                  lookupFails: Id -> bool): LookedUp
    decreases |frames|
  {
    if frames == [] then LookedUp(e, Some(available))
    else if lookupFails(frames[0].id) then LookedUp(e, None)
    else if frames[0].key in e.storage then
      LookUp(e, available + [frames[0]], frames[1..], repairs, tick, lookupFails)
    else
      var f := RepairFrame(e, frames[0].id, tick(repairs));
      if !HasMargin(e, tick(repairs)) then LookedUp(f, None)
      else LookUp(f, available, frames[1..], repairs + 1, tick, lookupFails)
  }

  lemma FrameIsThere(e: Evidence, frames: seq<Frame>, i: nat, now: int)
    requires i < |frames| && HasFrames(e, frames[i..])
    ensures HasFrame(e, frames[i]) && frames[i..][0] == frames[i] && frames[i..][1..] == frames[i + 1..]
    ensures HasFrames(e, frames[i + 1..]) && HasFrames(RepairFrame(e, frames[i].id, now), frames[i + 1..])
  {
    assert frames[i..][0] == frames[i];
    assert frames[i..][1..] == frames[i + 1..];
  }

  lemma AllAnswerCons(frames: seq<Frame>, lookupFails: Id -> bool)
    requires frames != []
    ensures AllAnswer(frames, lookupFails) <==> !lookupFails(frames[0].id) && AllAnswer(frames[1..], lookupFails)
  {
    if !lookupFails(frames[0].id) && AllAnswer(frames[1..], lookupFails) {
      assert forall i :: 0 < i < |frames| ==> frames[i] == frames[1..][i - 1];
    }
  }

  lemma RemovesOneMore(e: Evidence, frame: Frame, now: int, g: Evidence, lost: seq<Frame>)
    requires HasFrame(e, frame) && frame.key !in e.storage && e.clock <= now
    requires OnlyRemoves(RepairFrame(e, frame.id, now), g, lost)
    ensures OnlyRemoves(e, g, [frame] + lost)
    ensures HasMargin(e, now) ==> frame.id !in g.rows
  {
  }

  lemma NextFrames(e: Evidence, frames: seq<Frame>, now: int)
    requires frames != [] && HasFrames(e, frames)
    ensures HasFrame(e, frames[0]) && HasFrames(e, frames[1..])
    ensures HasFrames(RepairFrame(e, frames[0].id, now), frames[1..])
  {
    FrameIsThere(e, frames, 0, now);
    assert frames[0..] == frames;
  }

  /** What the loop leaves behind, however far it gets. */
  ghost predicate LeavesBehind(e: Evidence, available: seq<Frame>, frames: seq<Frame>, repairs: nat,
                               tick: nat -> int, lookupFails: Id -> bool, r: LookedUp)
  {
    var lost := LostFrames(e.storage, frames);
    && OnlyRemoves(e, r.e, lost)
    && (r.available.Some? <==>
          AllAnswer(frames, lookupFails) && (lost != [] ==> HasMargin(e, tick(repairs + |lost| - 1))))
    && (r.available.Some? ==>
          && r.available.value == available + StoredFrames(e.storage, frames)
          && forall k :: 0 <= k < |lost| ==> lost[k].id !in r.e.rows)
  }

  lemma LeftWhenPresent(e: Evidence, available: seq<Frame>, frames: seq<Frame>, repairs: nat, tick: nat -> int,
                        lookupFails: Id -> bool, r: LookedUp)
    requires frames != [] && !lookupFails(frames[0].id) && frames[0].key in e.storage
    requires LeavesBehind(e, available + [frames[0]], frames[1..], repairs, tick, lookupFails, r)
    ensures LeavesBehind(e, available, frames, repairs, tick, lookupFails, r)
  {
    AllAnswerCons(frames, lookupFails);
    assert LostFrames(e.storage, frames) == LostFrames(e.storage, frames[1..]);
    assert available + [frames[0]] + StoredFrames(e.storage, frames[1..]) ==
           available + ([frames[0]] + StoredFrames(e.storage, frames[1..]));
  }

  lemma LeftWhenRepaired(e: Evidence, available: seq<Frame>, frames: seq<Frame>, repairs: nat, tick: nat -> int,
                         lookupFails: Id -> bool, r: LookedUp)
    requires frames != [] && !lookupFails(frames[0].id) && frames[0].key !in e.storage
    requires HasFrame(e, frames[0]) && e.clock <= tick(repairs) && HasMargin(e, tick(repairs))
    requires LeavesBehind(RepairFrame(e, frames[0].id, tick(repairs)), available, frames[1..], repairs + 1, tick,
                          lookupFails, r)
    ensures LeavesBehind(e, available, frames, repairs, tick, lookupFails, r)
  {
    AllAnswerCons(frames, lookupFails);
    var lost := LostFrames(e.storage, frames[1..]);
    assert LostFrames(e.storage, frames) == [frames[0]] + lost;
    RemovesOneMore(e, frames[0], tick(repairs), r.e, lost);
    if r.available.Some? {
      forall k | 0 <= k < |[frames[0]] + lost|
        ensures ([frames[0]] + lost)[k].id !in r.e.rows
      {
        assert k > 0 ==> ([frames[0]] + lost)[k] == lost[k - 1];
      }
    }
  }

  lemma LeftWhenStopped(e: Evidence, available: seq<Frame>, frames: seq<Frame>, repairs: nat, now: int,
                        tick: nat -> int, lookupFails: Id -> bool)
    requires frames != [] && !lookupFails(frames[0].id) && frames[0].key !in e.storage
    requires HasFrame(e, frames[0]) && e.clock <= tick(repairs) && !HasMargin(e, tick(repairs)) && Readings(now, tick)
    ensures LeavesBehind(e, available, frames, repairs, tick, lookupFails,
                         LookedUp(RepairFrame(e, frames[0].id, tick(repairs)), None))
  {
    var lost := LostFrames(e.storage, frames);
    assert |lost| > 0 && tick(repairs) <= tick(repairs + |lost| - 1);
  }

  lemma {:induction false} LookUpMeans(e: Evidence, available: seq<Frame>, frames: seq<Frame>, repairs: nat, now: int,
                                       tick: nat -> int, lookupFails: Id -> bool)
    requires HasFrames(e, frames) && Readings(now, tick) && e.clock <= tick(repairs)
    ensures LeavesBehind(e, available, frames, repairs, tick, lookupFails,
                         LookUp(e, available, frames, repairs, tick, lookupFails))
    decreases |frames|
  {
    if frames == [] {
    } else if lookupFails(frames[0].id) {
      AllAnswerCons(frames, lookupFails);
    } else {
      var r := LookUp(e, available, frames, repairs, tick, lookupFails);
      NextFrames(e, frames, tick(repairs));
      if frames[0].key in e.storage {
        LookUpMeans(e, available + [frames[0]], frames[1..], repairs, now, tick, lookupFails);
        LeftWhenPresent(e, available, frames, repairs, tick, lookupFails, r);
      } else if HasMargin(e, tick(repairs)) {
        var f := RepairFrame(e, frames[0].id, tick(repairs));
        LookUpMeans(f, available, frames[1..], repairs + 1, now, tick, lookupFails);
        LeftWhenRepaired(e, available, frames, repairs, tick, lookupFails, r);
      } else {
        LeftWhenStopped(e, available, frames, repairs, now, tick, lookupFails);
      }
    }
  }

  lemma {:induction false} StoredOrLost(storage: set<Key>, frames: seq<Frame>, frame: Frame)
    ensures frame in StoredFrames(storage, frames) <==> frame in frames && frame.key in storage
    ensures frame in LostFrames(storage, frames) <==> frame in frames && frame.key !in storage
  {
    if frames != [] {
      StoredOrLost(storage, frames[1..], frame);
      assert frames == [frames[0]] + frames[1..];
    }
  }

  lemma ConsFrames(e: Evidence, frame: Frame, rest: seq<Frame>)
    requires HasFrame(e, frame) && HasFrames(e, rest)
    requires forall i :: 0 <= i < |rest| ==> rest[i].id != frame.id
    ensures HasFrames(e, [frame] + rest)
  {
  }

  lemma OtherId(e: Evidence, frames: seq<Frame>, frame: Frame)
    requires frames != [] && HasFrames(e, frames) && frame in frames[1..]
    ensures frame.id != frames[0].id
  {
    var i :| 0 <= i < |frames[1..]| && frames[1..][i] == frame;
    assert frames[i + 1] == frame;
  }

  lemma {:induction false} StoredAreFrames(e: Evidence, storage: set<Key>, frames: seq<Frame>)
    requires HasFrames(e, frames)
    ensures HasFrames(e, StoredFrames(storage, frames))
  {
    if frames != [] {
      NextFrames(e, frames, 0);
      var stored := StoredFrames(storage, frames[1..]);
      StoredAreFrames(e, storage, frames[1..]);
      forall i | 0 <= i < |stored|
        ensures stored[i].id != frames[0].id
      {
        StoredOrLost(storage, frames[1..], stored[i]);
        OtherId(e, frames, stored[i]);
      }
      ConsFrames(e, frames[0], stored);
      assert [] + stored == stored;
    }
  }

  lemma StoredRemain(before: Evidence, e: Evidence, frames: seq<Frame>)
    requires IsFrameList(before, frames) && OnlyRemoves(before, e, LostFrames(before.storage, frames))
    requires var lost := LostFrames(before.storage, frames);
             forall k :: 0 <= k < |lost| ==> lost[k].id !in e.rows
    ensures IsFrameList(e, StoredFrames(before.storage, frames))
  {
    var stored := StoredFrames(before.storage, frames);
    StoredAreFrames(before, before.storage, frames);
    forall i | 0 <= i < |stored|
      ensures HasFrame(e, stored[i])
    {
      StoredOrLost(before.storage, frames, stored[i]);
      assert HasFrame(before, stored[i]);
    }
    forall id | id in e.rows && !e.rows[id].deleted
      ensures Frame(id, e.rows[id].key) in stored
    {
      StoredOrLost(before.storage, frames, Frame(id, before.rows[id].key));
    }
  }

  /** After a complete pass the frames found in storage are the query's result, were it run again. */
  lemma LoadedMeans(before: Evidence, now: int, frames: seq<Frame>, tick: nat -> int, lookupFails: Id -> bool,
                    r: LookedUp)
    requires IsFrameList(before, frames) && HasMargin(before, now) && before.clock <= now
    requires LeavesBehind(At(before, now), [], frames, 0, tick, lookupFails, r)
    ensures OnlyRemoves(before, r.e, LostFrames(before.storage, frames))
    ensures r.available.Some? <==>
            AllAnswer(frames, lookupFails) && Repairable(before, |LostFrames(before.storage, frames)|, tick)
    ensures r.available.Some? ==>
              && r.available.value == StoredFrames(before.storage, frames)
              && IsFrameList(r.e, r.available.value)
  {
    if r.available.Some? {
      StoredRemain(before, r.e, frames);
    }
  }
}
