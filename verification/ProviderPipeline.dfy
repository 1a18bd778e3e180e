/**
  The provider pipeline: extract a transcript, select frames, evaluate, apply the policy. Jobs come at
  least once or get lost, a worker can die between committing an artifact and enqueueing the next job,
  and a sweep rebuilds the next job from committed rows. One attempt's rows and jobs are one state;
  every transaction and every job event is one step of it.
*/
module ProviderPipeline {
  import opened OrderedRows

  type Id = nat

  datatype Job =
    | ExtractTranscript | SelectFrames(transcriptId: Id) | RunEvaluation(transcriptId: Id)
    | ApplyPolicy(evaluationId: Id)

  /** An encrypted artifact: its identifier and everything else in its row. */
  datatype Bundle = Bundle(id: Id, content: Id)
  datatype Sidecar = Sidecar(evaluationId: Id, transcriptId: Id, content: Id)

  datatype Status = Processing | ReviewRequired | Elsewhere

  /**
    `open`: current revision, open pull request, active repository and installation. `retained`: the
    recording and its artifacts, which share one deadline, are undeleted and before it. `queued`: jobs
    that can still be delivered; `held`: jobs a worker is running; `pending`: jobs a worker is about to
    enqueue after its transaction committed.
  */
  datatype Pipe = Pipe(
    multimodal: bool, status: Status, open: bool, retained: bool, updatedAt: int,
    transcripts: seq<Bundle>, evaluations: seq<Bundle>, sidecars: seq<Sidecar>,
    queued: set<Job>, held: set<Job>, pending: set<Job>)

  predicate Eligible(p: Pipe) { p.status == Processing && p.open && p.retained }

  datatype Answer = Created(id: Id) | Replayed(id: Id) | Scheduled(id: Id) | Nothing | Unavailable | Inconsistent

  // ---------------------------------------------------------------------------------------------
  // The transactions
  // ---------------------------------------------------------------------------------------------

  /** persistTranscript */
  function PersistTranscript(p: Pipe, b: Bundle): (Pipe, Answer) {
    if !Eligible(p) then (p, Unavailable)
    else if |p.transcripts| > 1 then (p, Inconsistent)
    else if p.transcripts != [] then (p, Replayed(p.transcripts[0].id))
    else (p.(transcripts := [b]), Created(b.id))
  }

  /** schedulePersistedTranscript, for a transcript the worker loaded */
  function ScheduleTranscript(p: Pipe, id: Id): (Pipe, Answer) {
    if !Eligible(p) || !HasId(p.transcripts, id) then (p, Unavailable)
    else (p.(queued := p.queued + {SelectFrames(id)}), Scheduled(id))
  }

  predicate HasId(bundles: seq<Bundle>, id: Id) { exists i :: 0 <= i < |bundles| && bundles[i].id == id }

  /** persistEvaluation, on the path without a sidecar */
  function PersistEvaluation(p: Pipe, b: Bundle): (Pipe, Answer) {
    if !Eligible(p) then (p, Unavailable)
    else if |p.evaluations| > 1 then (p, Inconsistent)
    else if p.evaluations != [] then (p, Replayed(p.evaluations[0].id))
    else (p.(evaluations := [b]), Created(b.id))
  }

  /** schedulePersistedEvaluation */
  function ScheduleEvaluation(p: Pipe, id: Id): (Pipe, Answer) {
    if !Eligible(p) || !HasId(p.evaluations, id) then (p, Unavailable)
    else (p.(queued := p.queued + {ApplyPolicy(id)}), Scheduled(id))
  }

  /** requireReplayAvailability */
  predicate ReplayAvailable(p: Pipe, transcriptId: Id) {
    && p.sidecars != [] && p.sidecars[0].transcriptId == transcriptId && p.open && p.retained
    && (p.status == Processing || p.status == ReviewRequired)
  }

  /** scheduleIfEligible: only a processing attempt gets its job again. */
  function ScheduleIfProcessing(p: Pipe, evaluationId: Id): Pipe {
    if p.status == Processing then p.(queued := p.queued + {ApplyPolicy(evaluationId)}) else p
  }

  /** loadExistingAndSchedule */
  function LoadExistingAndSchedule(p: Pipe, transcriptId: Id): (Pipe, Answer) {
    if p.sidecars == [] then if p.evaluations != [] then (p, Inconsistent) else (p, Nothing)
    else if |p.sidecars| != 1 || !ReplayAvailable(p, transcriptId) then (p, Inconsistent)
    else (ScheduleIfProcessing(p, p.sidecars[0].evaluationId), Scheduled(p.sidecars[0].evaluationId))
  }

  /** persistPair: the compatibility row and the sidecar in one transaction, and the next job with them. */
  function PersistPair(p: Pipe, evaluation: Bundle, transcriptId: Id, content: Id): (Pipe, Answer) {
    var sidecar := Sidecar(evaluation.id, transcriptId, content);
    if p.sidecars != [] then
      if |p.sidecars| != 1 || !ReplayAvailable(p, transcriptId) || p.sidecars[0] != sidecar
         || !(exists i :: 0 <= i < |p.evaluations| && p.evaluations[i] == evaluation)
      then (p, Inconsistent)
      else (ScheduleIfProcessing(p, evaluation.id), Replayed(evaluation.id))
    else if p.evaluations != [] then (p, Inconsistent)
    else if !Eligible(p) || !HasId(p.transcripts, transcriptId) then (p, Unavailable)
    else
      (p.(evaluations := [evaluation], sidecars := [sidecar], queued := p.queued + {ApplyPolicy(evaluation.id)}),
       Created(evaluation.id))
  }

  /** The job the sweep rebuilds from the committed rows. */
  function FrontierJob(p: Pipe): Job {
    if p.evaluations != [] then ApplyPolicy(p.evaluations[0].id)
    else if p.transcripts != [] then SelectFrames(p.transcripts[0].id)
    else ExtractTranscript
  }

  function Swept(p: Pipe): Pipe { p.(queued := p.queued + {FrontierJob(p)}) }

  // ---------------------------------------------------------------------------------------------
  // Every step of one attempt
  // ---------------------------------------------------------------------------------------------

  datatype Step =
    | Deliver(job: Job)
    | Finish(job: Job)
    | Lose(job: Job)
    | Crash(job: Job, dropped: set<Job>)
    | Enqueue(job: Job)
    | StoreTranscript(b: Bundle)
    | ResumeTranscript
    | FramesSelected(transcriptId: Id)
    | StoreEvaluation(b: Bundle)
    | ResumeEvaluation
    | StorePair(b: Bundle, transcriptId: Id, content: Id)
    | ResumePair(transcriptId: Id)
    | PolicyApplied(evaluationId: Id)
    | Fail(review: bool)
    | SweepOne
    | SetOpen(open: bool)
    | Retire
    | Leave

  /** After a committed persist, the worker is about to enqueue the job naming what the database returned. */
  function ThenEnqueue(r: (Pipe, Answer), next: Id -> Job): Pipe {
    match r.1
    case Created(id) => r.0.(pending := r.0.pending + {next(id)})
    case Replayed(id) => r.0.(pending := r.0.pending + {next(id)})
    case _ => r.0
  }

  /** When the pair's transaction scheduled nothing, because processing is over, the worker enqueues itself. */
  function ThenEnqueuePolicy(p: Pipe, r: (Pipe, Answer)): Pipe {
    if p.status == Processing || !(r.1.Created? || r.1.Replayed? || r.1.Scheduled?) then r.0
    else r.0.(pending := r.0.pending + {ApplyPolicy(r.1.id)})
  }

  function Next(p: Pipe, s: Step): Pipe {
    match s
    case Deliver(job) => if job in p.queued then p.(held := p.held + {job}) else p
    case Finish(job) => p.(queued := p.queued - {job}, held := p.held - {job})
    case Lose(job) => p.(queued := p.queued - {job})
    case Crash(job, dropped) => p.(held := p.held - {job}, pending := p.pending - dropped)
    case Enqueue(job) =>
      if job in p.pending then p.(queued := p.queued + {job}, pending := p.pending - {job}) else p
    case StoreTranscript(b) => ThenEnqueue(PersistTranscript(p, b), (id: Id) => SelectFrames(id))
    case ResumeTranscript =>
      if p.transcripts != [] then ScheduleTranscript(p, p.transcripts[0].id).0 else p
    case FramesSelected(t) =>
      if SelectFrames(t) in p.held && Eligible(p) then p.(pending := p.pending + {RunEvaluation(t)}) else p
    case StoreEvaluation(b) =>
      if p.multimodal || !RunsEvaluation(p) then p
      else ThenEnqueue(PersistEvaluation(p, b), (id: Id) => ApplyPolicy(id))
    case ResumeEvaluation =>
      if !p.multimodal && p.evaluations != [] then ScheduleEvaluation(p, p.evaluations[0].id).0 else p
    case StorePair(b, t, content) =>
      if p.multimodal then ThenEnqueuePolicy(p, PersistPair(p, b, t, content)) else p
    case ResumePair(t) => if p.multimodal then ThenEnqueuePolicy(p, LoadExistingAndSchedule(p, t)) else p
    case PolicyApplied(e) =>
      if ApplyPolicy(e) in p.held && Eligible(p) && HasId(p.evaluations, e) then p.(status := ReviewRequired) else p
    case Fail(review) =>
      if p.status == Processing && p.open then p.(status := if review then ReviewRequired else Elsewhere) else p
    case SweepOne => if Eligible(p) then Swept(p) else p
    case SetOpen(open) => p.(open := open)
    case Retire => p.(retained := false)
    case Leave => if p.status == Processing || p.status == ReviewRequired then p.(status := Elsewhere) else p
  }

  /** A worker is inside the evaluation stage of a transcript it was given. */
  predicate RunsEvaluation(p: Pipe) { exists job :: job in p.held && job.RunEvaluation? }

  /** The state when processing begins: finalization has queued the first job. */
  function Start(multimodal: bool, updatedAt: int): Pipe {
    Pipe(multimodal, Processing, true, true, updatedAt, [], [], [], {ExtractTranscript}, {}, {})
  }

  // ---------------------------------------------------------------------------------------------
  // What every step keeps
  // ---------------------------------------------------------------------------------------------

  /** A job that needs an artifact names the one that is stored. */
  predicate NamesStored(p: Pipe, job: Job) {
    match job
    case ExtractTranscript => true
    case SelectFrames(t) => p.transcripts != [] && p.transcripts[0].id == t
    case RunEvaluation(t) => p.transcripts != [] && p.transcripts[0].id == t
    case ApplyPolicy(e) => p.evaluations != [] && p.evaluations[0].id == e
  }

  predicate SidecarFits(p: Pipe) {
    if !p.multimodal then p.sidecars == []
    else
      && |p.sidecars| == |p.evaluations|
      && (p.sidecars != [] ==>
            && p.transcripts != [] && p.sidecars[0].evaluationId == p.evaluations[0].id
            && p.sidecars[0].transcriptId == p.transcripts[0].id)
  }

  ghost predicate AllNameStored(p: Pipe, jobs: set<Job>) { forall job | job in jobs :: NamesStored(p, job) }

  ghost predicate Inv(p: Pipe) {
    && |p.transcripts| <= 1 && |p.evaluations| <= 1
    && (p.evaluations != [] ==> p.transcripts != [])
    && SidecarFits(p)
    && AllNameStored(p, p.queued) && AllNameStored(p, p.held) && AllNameStored(p, p.pending)
  }

  /** Artifacts are stored once and for all, and processing is never re-entered. */
  predicate OnlyAdds(p: Pipe, q: Pipe) {
    && p.transcripts <= q.transcripts && p.evaluations <= q.evaluations && p.sidecars <= q.sidecars
    && q.multimodal == p.multimodal && (p.status != Processing ==> q.status != Processing)
  }

  lemma TranscriptStepIsSound(p: Pipe, s: Step)
    requires Inv(p) && (s.StoreTranscript? || s.ResumeTranscript?)
    ensures Inv(Next(p, s)) && OnlyAdds(p, Next(p, s))
  {
  }

  lemma FramesStepIsSound(p: Pipe, t: Id)
    requires Inv(p)
    ensures Inv(Next(p, FramesSelected(t))) && OnlyAdds(p, Next(p, FramesSelected(t)))
  {
    assert SelectFrames(t) in p.held ==> NamesStored(p, SelectFrames(t));
  }

  lemma EvaluationStepIsSound(p: Pipe, s: Step)
    requires Inv(p) && (s.StoreEvaluation? || s.ResumeEvaluation?)
    ensures Inv(Next(p, s)) && OnlyAdds(p, Next(p, s))
  {
    if RunsEvaluation(p) {
      var job :| job in p.held && job.RunEvaluation?;
      assert NamesStored(p, job);
    }
  }

  lemma StorePairIsSound(p: Pipe, s: Step)
    requires Inv(p) && s.StorePair?
    ensures Inv(Next(p, s)) && OnlyAdds(p, Next(p, s))
  {
  }

  lemma ResumePairIsSound(p: Pipe, s: Step)
    requires Inv(p) && s.ResumePair?
    ensures Inv(Next(p, s)) && OnlyAdds(p, Next(p, s))
  {
  }

  lemma JobStepIsSound(p: Pipe, s: Step)
    requires Inv(p) && (s.Deliver? || s.Finish? || s.Lose? || s.Crash? || s.Enqueue? || s.SweepOne?)
    ensures Inv(Next(p, s)) && OnlyAdds(p, Next(p, s))
  {
  }

  lemma StatusStepIsSound(p: Pipe, s: Step)
    requires Inv(p) && (s.PolicyApplied? || s.Fail? || s.SetOpen? || s.Retire? || s.Leave?)
    ensures Inv(Next(p, s)) && OnlyAdds(p, Next(p, s))
  {
  }

  lemma StepKeepsInv(p: Pipe, s: Step)
    requires Inv(p)
    ensures Inv(Next(p, s)) && OnlyAdds(p, Next(p, s))
  {
    match s
    case StoreTranscript(_) => TranscriptStepIsSound(p, s);
    case ResumeTranscript => TranscriptStepIsSound(p, s);
    case FramesSelected(t) => FramesStepIsSound(p, t);
    case StoreEvaluation(_) => EvaluationStepIsSound(p, s);
    case ResumeEvaluation => EvaluationStepIsSound(p, s);
    case StorePair(_, _, _) => StorePairIsSound(p, s);
    case ResumePair(_) => ResumePairIsSound(p, s);
    case PolicyApplied(_) => StatusStepIsSound(p, s);
    case Fail(_) => StatusStepIsSound(p, s);
    case SetOpen(_) => StatusStepIsSound(p, s);
    case Retire => StatusStepIsSound(p, s);
    case Leave => StatusStepIsSound(p, s);
    case _ => JobStepIsSound(p, s);
  }

  function Run(p: Pipe, steps: seq<Step>): Pipe
    decreases |steps|
  {
    if steps == [] then p else Run(Next(p, steps[0]), steps[1..])
  }

  lemma StartIsSound(multimodal: bool, updatedAt: int)
    ensures Inv(Start(multimodal, updatedAt))
  {
  }

  /**
    Under any redelivery, loss or crash between steps: at most one transcript and one evaluation, an
    evaluation exactly when its sidecar does on the multimodal path, and every job names what is stored.
  */
  lemma {:induction false} RunKeepsInv(p: Pipe, steps: seq<Step>)
    requires Inv(p)
    ensures Inv(Run(p, steps)) && OnlyAdds(p, Run(p, steps))
    decreases |steps|
  {
    if steps != [] {
      StepKeepsInv(p, steps[0]);
      RunKeepsInv(Next(p, steps[0]), steps[1..]);
    }
  }

  /** Storing again answers with what is stored, whatever the second worker computed. */
  lemma PersistIsIdempotent(p: Pipe, b: Bundle, c: Bundle)
    requires Inv(p) && Eligible(p)
    ensures var (q, first) := PersistTranscript(p, b);
            && (first.Created? || first.Replayed?) && PersistTranscript(q, c) == (q, Replayed(first.id))
            && q.transcripts != [] && q.transcripts[0].id == first.id
    ensures var (q, first) := PersistEvaluation(p, b);
            && (first.Created? || first.Replayed?) && PersistEvaluation(q, c) == (q, Replayed(first.id))
            && q.evaluations != [] && q.evaluations[0].id == first.id
  {
  }

  /** A pair is replayed only if it is the stored pair; a different one is refused and changes nothing. */
  lemma PairIsExact(p: Pipe, b: Bundle, t: Id, content: Id)
    requires Inv(p) && p.multimodal && p.sidecars != []
    ensures var (q, answer) := PersistPair(p, b, t, content);
            && (answer.Replayed? || answer == Inconsistent)
            && (answer.Replayed? <==>
                  ReplayAvailable(p, t) && p.evaluations == [b] && p.sidecars == [Sidecar(b.id, t, content)])
            && q.evaluations == p.evaluations && q.sidecars == p.sidecars
  {
  }

  // ---------------------------------------------------------------------------------------------
  // What each step does, row by row and job by job
  // ---------------------------------------------------------------------------------------------

  /** A step that stores the attempt's first evaluation, with its sidecar on the multimodal path. */
  ghost predicate StoresFirstEvaluation(p: Pipe, s: Step) {
    && p.status == Processing && p.open && p.retained && p.evaluations == []
    && (if s.StorePair? then p.multimodal && p.transcripts != [] && p.transcripts[0].id == s.transcriptId
        else s.StoreEvaluation? && !p.multimodal && exists t :: RunEvaluation(t) in p.held)
  }

  /** Each artifact is stored at most once, by the step that first brings it, and never changed or removed. */
  ghost predicate RowsExactly(p: Pipe, s: Step, q: Pipe) {
    && q.transcripts == (if s.StoreTranscript? && p.transcripts == [] && p.status == Processing && p.open && p.retained
                         then [s.b] else p.transcripts)
    && q.evaluations == (if StoresFirstEvaluation(p, s) then [s.b] else p.evaluations)
    && q.sidecars == (if s.StorePair? && StoresFirstEvaluation(p, s)
                      then [Sidecar(s.b.id, s.transcriptId, s.content)] else p.sidecars)
    && q.multimodal == p.multimodal && q.updatedAt == p.updatedAt
  }

  /** Processing ends by the policy stage, which needs the stored evaluation, by a failure, or from outside. */
  predicate StatusExactly(p: Pipe, s: Step, q: Pipe) {
    && q.open == (if s.SetOpen? then s.open else p.open)
    && q.retained == (p.retained && !s.Retire?)
    && q.status == match s
                   case PolicyApplied(e) =>
                     if ApplyPolicy(e) in p.held && p.status == Processing && p.open && p.retained
                        && p.evaluations != [] && p.evaluations[0].id == e
                     then ReviewRequired else p.status
                   case Fail(review) =>
                     if p.status != Processing || !p.open then p.status
                     else if review then ReviewRequired else Elsewhere
                   case Leave => Elsewhere
                   case _ => p.status
  }

  lemma StorePairWritesRows(p: Pipe, s: Step)
    requires Inv(p) && s.StorePair?
    ensures RowsExactly(p, s, Next(p, s))
  {
    if p.transcripts != [] {
      assert HasId(p.transcripts, s.transcriptId) <==> p.transcripts[0].id == s.transcriptId;
    }
  }

  lemma StoreEvaluationWritesRows(p: Pipe, s: Step)
    requires Inv(p) && s.StoreEvaluation?
    ensures RowsExactly(p, s, Next(p, s))
  {
    if RunsEvaluation(p) {
      var job :| job in p.held && job.RunEvaluation?;
      assert RunEvaluation(job.transcriptId) in p.held;
    }
  }

  lemma StepWritesRows(p: Pipe, s: Step)
    requires Inv(p)
    ensures RowsExactly(p, s, Next(p, s))
  {
    if s.StorePair? {
      StorePairWritesRows(p, s);
    } else if s.StoreEvaluation? {
      StoreEvaluationWritesRows(p, s);
    }
  }

  lemma StepMovesStatus(p: Pipe, s: Step)
    requires Inv(p)
    ensures StatusExactly(p, s, Next(p, s))
  {
    if s.PolicyApplied? && p.evaluations != [] {
      assert HasId(p.evaluations, s.evaluationId) <==> p.evaluations[0].id == s.evaluationId;
    }
  }

  /** The step is the pair's worker, finding what it looks for in an attempt that can still use it. */
  predicate FindsPair(p: Pipe, s: Step) {
    && p.multimodal && p.open && p.retained && p.evaluations != [] && p.sidecars != []
    && match s
       case ResumePair(t) => p.sidecars[0].transcriptId == t
       case StorePair(b, t, content) => p.evaluations[0] == b && p.sidecars[0] == Sidecar(b.id, t, content)
       case _ => false
  }

  /** The steps that put a job into the queue. */
  ghost predicate Queues(p: Pipe, s: Step, job: Job) {
    || (s == Enqueue(job) && job in p.pending)
    || (p.status == Processing && p.open && p.retained &&
        match job
        case ExtractTranscript => s.SweepOne? && p.transcripts == [] && p.evaluations == []
        case SelectFrames(t) =>
          && p.transcripts != [] && p.transcripts[0].id == t
          && (s.ResumeTranscript? || (s.SweepOne? && p.evaluations == []))
        case RunEvaluation(_) => false
        case ApplyPolicy(e) =>
          if p.evaluations == [] then s.StorePair? && StoresFirstEvaluation(p, s) && s.b.id == e
          else
            && p.evaluations[0].id == e
            && (s.SweepOne? || (s.ResumeEvaluation? && !p.multimodal) || FindsPair(p, s)))
  }

  /** The steps after which their worker is about to enqueue a job. */
  ghost predicate Announces(p: Pipe, s: Step, job: Job) {
    match job
    case ExtractTranscript => false
    case SelectFrames(t) =>
      && s.StoreTranscript? && p.status == Processing && p.open && p.retained
      && t == if p.transcripts == [] then s.b.id else p.transcripts[0].id
    case RunEvaluation(t) =>
      s == FramesSelected(t) && SelectFrames(t) in p.held && p.status == Processing && p.open && p.retained
    case ApplyPolicy(e) =>
      if p.multimodal then p.status == ReviewRequired && FindsPair(p, s) && p.evaluations[0].id == e
      else
        && s.StoreEvaluation? && p.status == Processing && p.open && p.retained
        && (exists t :: RunEvaluation(t) in p.held)
        && e == if p.evaluations == [] then s.b.id else p.evaluations[0].id
  }

  ghost predicate QueuesExactly(p: Pipe, s: Step, q: Pipe, job: Job) {
    job in q.queued <==> Queues(p, s, job) || (job in p.queued && s != Finish(job) && s != Lose(job))
  }

  ghost predicate AnnouncesExactly(p: Pipe, s: Step, q: Pipe, job: Job) {
    job in q.pending <==>
    Announces(p, s, job) || (job in p.pending && s != Enqueue(job) && !(s.Crash? && job in s.dropped))
  }

  lemma PairStepMovesJob(p: Pipe, s: Step, job: Job)
    requires Inv(p) && (s.StorePair? || s.ResumePair?)
    ensures QueuesExactly(p, s, Next(p, s), job) && AnnouncesExactly(p, s, Next(p, s), job)
  {
  }

  lemma EvaluationStepMovesJob(p: Pipe, s: Step, job: Job)
    requires Inv(p) && (s.StoreEvaluation? || s.ResumeEvaluation?)
    ensures QueuesExactly(p, s, Next(p, s), job) && AnnouncesExactly(p, s, Next(p, s), job)
  {
    assert RunsEvaluation(p) <==> exists t :: RunEvaluation(t) in p.held by {
      assert forall held :: held in p.held && held.RunEvaluation? ==> RunEvaluation(held.transcriptId) in p.held;
    }
  }

  lemma OtherStepMovesJob(p: Pipe, s: Step, job: Job)
    requires Inv(p) && !(s.StorePair? || s.ResumePair? || s.StoreEvaluation? || s.ResumeEvaluation?)
    ensures QueuesExactly(p, s, Next(p, s), job) && AnnouncesExactly(p, s, Next(p, s), job)
  {
  }

  lemma StepMovesJob(p: Pipe, s: Step, job: Job)
    requires Inv(p)
    ensures QueuesExactly(p, s, Next(p, s), job) && AnnouncesExactly(p, s, Next(p, s), job)
  {
    if s.StorePair? || s.ResumePair? {
      PairStepMovesJob(p, s, job);
    } else if s.StoreEvaluation? || s.ResumeEvaluation? {
      EvaluationStepMovesJob(p, s, job);
    } else {
      OtherStepMovesJob(p, s, job);
    }
  }

  lemma StepHoldsJob(p: Pipe, s: Step, job: Job)
    ensures job in Next(p, s).held <==>
            (s == Deliver(job) && job in p.queued) || (job in p.held && s != Finish(job) && !(s.Crash? && s.job == job))
  {
  }

  /** Which jobs can be delivered, are about to be enqueued and are being run. */
  ghost predicate JobsExactly(p: Pipe, s: Step, q: Pipe, job: Job) {
    && QueuesExactly(p, s, q, job) && AnnouncesExactly(p, s, q, job)
    && (job in q.held <==>
          || (s == Deliver(job) && job in p.queued)
          || (job in p.held && s != Finish(job) && !(s.Crash? && s.job == job)))
  }

  /**
    What one step does, whatever transaction it runs: which artifact it stores, how it moves the
    status, and which jobs come and go.
  */
  lemma StepDoesExactly(p: Pipe, s: Step)
    requires Inv(p)
    ensures RowsExactly(p, s, Next(p, s)) && StatusExactly(p, s, Next(p, s))
    ensures forall job :: JobsExactly(p, s, Next(p, s), job)
  {
    StepWritesRows(p, s);
    StepMovesStatus(p, s);
    forall job
      ensures JobsExactly(p, s, Next(p, s), job)
    {
      StepMovesJob(p, s, job);
      StepHoldsJob(p, s, job);
    }
  }

  // ---------------------------------------------------------------------------------------------
  // Progress
  // ---------------------------------------------------------------------------------------------

  function Rank(job: Job): nat {
    match job
    case ExtractTranscript => 4
    case SelectFrames(_) => 3
    case RunEvaluation(_) => 2
    case ApplyPolicy(_) => 1
  }

  /** What the stages of a chain of deliveries produce. */
  datatype Work = Work(transcript: Bundle, evaluation: Bundle, content: Id)

  /** What others do before a delivery, after its handler's eligibility check, and before its last transaction. */
  datatype Others = Others(early: seq<Step>, before: seq<Step>, between: seq<Step>)

  /** The transactions of the extraction handler: schedule what it loaded, or store. */
  function ExtractionSteps(p: Pipe, b: Bundle, between: seq<Step>): seq<Step> {
    if !Eligible(p) then [] else between + [if p.transcripts != [] then ResumeTranscript else StoreTranscript(b)]
  }

  function JudgeSteps(p: Pipe, b: Bundle, between: seq<Step>): seq<Step> {
    if !Eligible(p) then [] else between + [if p.evaluations != [] then ResumeEvaluation else StoreEvaluation(b)]
  }

  function MultimodalSteps(p: Pipe, t: Id, evaluation: Bundle, content: Id, before: seq<Step>, between: seq<Step>)
    : seq<Step>
  {
    if !Eligible(p) then []
    else
      before + [ResumePair(t)]
      + if LoadExistingAndSchedule(Run(p, before), t).1 == Nothing then between + [StorePair(evaluation, t, content)]
        else []
  }

  /** The transactions of the handler of a job, in a state in which the job was delivered. */
  function HandlerSteps(p: Pipe, job: Job, work: Work, o: Others): seq<Step> {
    match job
    case ExtractTranscript => ExtractionSteps(p, work.transcript, o.between)
    case SelectFrames(t) => if Eligible(p) then o.between + [FramesSelected(t)] else []
    case RunEvaluation(t) =>
      if p.multimodal then MultimodalSteps(p, t, work.evaluation, work.content, o.before, o.between)
      else JudgeSteps(p, work.evaluation, o.between)
    case ApplyPolicy(e) => if Eligible(p) then o.between + [PolicyApplied(e)] else []
  }

  /** The job that follows, by what is stored; none follows the policy job. */
  function Follower(p: Pipe, job: Job): Job {
    match job
    case ExtractTranscript => if p.transcripts != [] then SelectFrames(p.transcripts[0].id) else job
    case SelectFrames(t) => RunEvaluation(t)
    case RunEvaluation(_) => if p.evaluations != [] then ApplyPolicy(p.evaluations[0].id) else job
    case ApplyPolicy(_) => job
  }

  /** One delivery: others come first, the job is delivered, its handler runs and enqueues what follows. */
  function Delivered(p: Pipe, job: Job, work: Work, o: Others): Pipe {
    var q := Next(Run(p, o.early), Deliver(job));
    var r := Run(q, HandlerSteps(q, job, work, o));
    if Follower(r, job) == job then r else Next(r, Enqueue(Follower(r, job)))
  }

  /**
    What may happen beside a chain of deliveries that is at `job`: anything, except that someone else
    finishes, loses or crashes this job, finishes or loses one that follows it, or that the attempt's
    surroundings end its processing.
  */
  predicate Harmless(s: Step, job: Job) {
    match s
    case Finish(other) => Rank(other) > Rank(job)
    case Lose(other) => Rank(other) > Rank(job)
    case Crash(other, _) => other != job
    case Fail(review) => review
    case SetOpen(_) => false
    case Retire => false
    case Leave => false
    case _ => true
  }

  predicate HarmlessRun(steps: seq<Step>, job: Job) { forall i :: 0 <= i < |steps| ==> Harmless(steps[i], job) }

  predicate HarmlessOthers(o: Others, job: Job) {
    HarmlessRun(o.early, job) && HarmlessRun(o.before, job) && HarmlessRun(o.between, job)
  }

  predicate Underway(p: Pipe) { p.open && p.retained && (p.status == Processing || p.status == ReviewRequired) }

  /** Nothing another worker, a redelivery or a sweep does takes a queued job's usefulness away. */
  lemma InterferenceKeepsJobs(p: Pipe, s: Step, job: Job)
    requires Inv(p) && job in p.queued && !(s == Finish(job) || s == Lose(job))
    ensures job in Next(p, s).queued && NamesStored(Next(p, s), job)
  {
    StepKeepsInv(p, s);
    QueuedStays(p, s, job);
  }

  lemma QueuedStays(p: Pipe, s: Step, job: Job)
    requires job in p.queued && !(s == Finish(job) || s == Lose(job))
    ensures job in Next(p, s).queued
  {
  }

  lemma HeldStays(p: Pipe, s: Step, job: Job)
    requires job in p.held && s != Finish(job) && !(s.Crash? && s.job == job)
    ensures job in Next(p, s).held
  {
  }

  lemma ReviewedStays(p: Pipe, s: Step)
    requires p.status == ReviewRequired && !s.Leave?
    ensures Next(p, s).status == ReviewRequired
  {
  }

  lemma UnderwayStays(p: Pipe, s: Step, job: Job)
    requires Underway(p) && Harmless(s, job)
    ensures Underway(Next(p, s))
  {
  }

  /** A stored pair's policy job is queued with it, and stays queued beside the chain. */
  predicate PairQueued(p: Pipe) {
    p.multimodal && p.evaluations != [] && p.status == Processing ==> ApplyPolicy(p.evaluations[0].id) in p.queued
  }

  lemma PairStaysQueued(p: Pipe, s: Step, job: Job)
    requires Inv(p) && PairQueued(p) && Harmless(s, job) && Rank(job) >= 1
    ensures PairQueued(Next(p, s))
  {
    StepKeepsInv(p, s);
    if p.evaluations != [] && ApplyPolicy(p.evaluations[0].id) in p.queued {
      QueuedStays(p, s, ApplyPolicy(p.evaluations[0].id));
    }
  }

  /** A job at work: delivered, and still there for another delivery. */
  predicate AtWork(p: Pipe, job: Job) { job in p.queued && job in p.held }

  lemma {:induction false} HarmlessKeeps(p: Pipe, steps: seq<Step>, job: Job)
    requires Inv(p) && Underway(p) && job in p.queued && HarmlessRun(steps, job)
    ensures var q := Run(p, steps);
            && Inv(q) && Underway(q) && job in q.queued && OnlyAdds(p, q)
            && (p.status == ReviewRequired ==> q.status == ReviewRequired)
            && (AtWork(p, job) ==> AtWork(q, job)) && (PairQueued(p) ==> PairQueued(q))
    decreases |steps|
  {
    if steps != [] {
      var s := steps[0];
      StepKeepsInv(p, s);
      QueuedStays(p, s, job);
      UnderwayStays(p, s, job);
      if AtWork(p, job) {
        HeldStays(p, s, job);
      }
      if PairQueued(p) {
        PairStaysQueued(p, s, job);
      }
      if p.status == ReviewRequired {
        ReviewedStays(p, s);
      }
      HarmlessKeeps(Next(p, s), steps[1..], job);
    }
  }

  // What the transactions of a handler do when they come to an eligible attempt

  /** The first pair is stored as it is, with its policy job. */
  lemma FirstPairIsStored(p: Pipe, b: Bundle, t: Id, content: Id)
    requires Inv(p) && p.multimodal && Eligible(p) && p.evaluations == []
    requires p.transcripts != [] && p.transcripts[0].id == t
    ensures LoadExistingAndSchedule(p, t) == (p, Nothing)
    ensures PersistPair(p, b, t, content) ==
            (p.(evaluations := [b], sidecars := [Sidecar(b.id, t, content)], queued := p.queued + {ApplyPolicy(b.id)}),
             Created(b.id))
  {
    assert p.transcripts[0].id == t && HasId(p.transcripts, t);
  }

  /** A stored pair is found by every later handler of its transcript, and replayed to its own worker. */
  lemma StoredPairIsReplayed(p: Pipe, b: Bundle, t: Id, content: Id)
    requires Underway(p) && p.evaluations == [b] && p.sidecars == [Sidecar(b.id, t, content)]
    ensures LoadExistingAndSchedule(p, t).1 == Scheduled(b.id) && PersistPair(p, b, t, content).1 == Replayed(b.id)
    ensures LoadExistingAndSchedule(p, t).0 == PersistPair(p, b, t, content).0 ==
            if p.status == Processing then p.(queued := p.queued + {ApplyPolicy(b.id)}) else p
  {
    assert p.evaluations[0] == b;
  }

  /** The first transcript or evaluation is stored as it is; a later one is answered with the stored one. */
  lemma FirstBundleIsStored(p: Pipe, b: Bundle)
    requires Eligible(p)
    ensures p.transcripts == [] ==> PersistTranscript(p, b) == (p.(transcripts := [b]), Created(b.id))
    ensures |p.transcripts| == 1 ==> PersistTranscript(p, b) == (p, Replayed(p.transcripts[0].id))
    ensures p.evaluations == [] ==> PersistEvaluation(p, b) == (p.(evaluations := [b]), Created(b.id))
    ensures |p.evaluations| == 1 ==> PersistEvaluation(p, b) == (p, Replayed(p.evaluations[0].id))
  {
  }

  /** A stored artifact's next job is queued again when a handler finds it. */
  lemma StoredBundleIsScheduled(p: Pipe)
    requires Eligible(p)
    ensures p.transcripts != [] ==>
              ScheduleTranscript(p, p.transcripts[0].id) ==
              (p.(queued := p.queued + {SelectFrames(p.transcripts[0].id)}), Scheduled(p.transcripts[0].id))
    ensures p.evaluations != [] ==>
              ScheduleEvaluation(p, p.evaluations[0].id) ==
              (p.(queued := p.queued + {ApplyPolicy(p.evaluations[0].id)}), Scheduled(p.evaluations[0].id))
  {
  }

  /** What the transactions refuse, and that they then change nothing. */
  lemma RefusalsChangeNothing(p: Pipe, b: Bundle, t: Id, content: Id)
    ensures !(p.status == Processing && p.open && p.retained) ==>
              && PersistTranscript(p, b) == PersistEvaluation(p, b) == (p, Unavailable)
              && ScheduleTranscript(p, b.id) == ScheduleEvaluation(p, b.id) == (p, Unavailable)
    ensures Eligible(p) && |p.transcripts| > 1 ==> PersistTranscript(p, b) == (p, Inconsistent)
    ensures Eligible(p) && |p.evaluations| > 1 ==> PersistEvaluation(p, b) == (p, Inconsistent)
    ensures (p.sidecars == [] && p.evaluations != []) || |p.sidecars| > 1 || (p.sidecars != [] && !Underway(p)) ==>
              LoadExistingAndSchedule(p, t) == PersistPair(p, b, t, content) == (p, Inconsistent)
  {
  }

  // What one delivery achieves

  predicate Advanced(p: Pipe, job: Job) {
    || p.status == ReviewRequired
    || (!job.ApplyPolicy? && Eligible(p) && Follower(p, job) in p.queued && Rank(Follower(p, job)) < Rank(job))
  }

  /** After a handler's transactions, the enqueueing that ends it. */
  predicate AboutToAdvance(r: Pipe, job: Job) {
    || r.status == ReviewRequired
    || (!job.ApplyPolicy? && Eligible(r) && Follower(r, job) in r.queued + r.pending && Follower(r, job) != job)
  }

  lemma ExtractionAdvances(q: Pipe, job: Job, work: Work, o: Others)
    requires Inv(q) && Underway(q) && AtWork(q, job) && HarmlessOthers(o, job) && job.ExtractTranscript?
    ensures AboutToAdvance(Run(q, HandlerSteps(q, job, work, o)), job)
  {
    if Eligible(q) {
      HarmlessKeeps(q, o.between, job);
      var q1 := Run(q, o.between);
      var last := if q.transcripts != [] then ResumeTranscript else StoreTranscript(work.transcript);
      RunSnoc(q, o.between, last);
      if q1.status == ReviewRequired {
        ReviewedStays(q1, last);
      } else {
        FirstBundleIsStored(q1, work.transcript);
        StoredBundleIsScheduled(q1);
      }
    }
  }

  lemma SelectionAdvances(q: Pipe, job: Job, work: Work, o: Others)
    requires Inv(q) && Underway(q) && AtWork(q, job) && HarmlessOthers(o, job) && job.SelectFrames?
    ensures AboutToAdvance(Run(q, HandlerSteps(q, job, work, o)), job)
  {
    if Eligible(q) {
      HarmlessKeeps(q, o.between, job);
      RunSnoc(q, o.between, FramesSelected(job.transcriptId));
    }
  }

  lemma EvaluationStepAdvances(q1: Pipe, job: Job, s: Step)
    requires Inv(q1) && Underway(q1) && !q1.multimodal && job in q1.held && job.RunEvaluation?
    requires s.StoreEvaluation? || (s.ResumeEvaluation? && q1.evaluations != [])
    ensures AboutToAdvance(Next(q1, s), job)
  {
    assert RunsEvaluation(q1);
    if q1.status == ReviewRequired {
      ReviewedStays(q1, s);
    } else if s.StoreEvaluation? {
      FirstBundleIsStored(q1, s.b);
    } else {
      StoredBundleIsScheduled(q1);
    }
  }

  lemma JudgementAdvances(q: Pipe, job: Job, work: Work, o: Others)
    requires Inv(q) && Underway(q) && AtWork(q, job) && HarmlessOthers(o, job) && job.RunEvaluation? && !q.multimodal
    ensures AboutToAdvance(Run(q, HandlerSteps(q, job, work, o)), job)
  {
    if Eligible(q) {
      HarmlessKeeps(q, o.between, job);
      var last := if q.evaluations != [] then ResumeEvaluation else StoreEvaluation(work.evaluation);
      RunSnoc(q, o.between, last);
      EvaluationStepAdvances(Run(q, o.between), job, last);
    }
  }

  lemma PairResumed(q1: Pipe, t: Id)
    requires Inv(q1) && q1.multimodal && Underway(q1) && RunEvaluation(t) in q1.queued
    ensures q1.evaluations == [] ==> Next(q1, ResumePair(t)) == q1 && LoadExistingAndSchedule(q1, t).1 == Nothing
    ensures q1.evaluations != [] ==>
              && LoadExistingAndSchedule(q1, t).1 == Scheduled(q1.evaluations[0].id)
              && AboutToAdvance(Next(q1, ResumePair(t)), RunEvaluation(t))
  {
    assert NamesStored(q1, RunEvaluation(t));
    if q1.evaluations != [] {
      var sidecar := q1.sidecars[0];
      assert q1.sidecars == [Sidecar(q1.evaluations[0].id, t, sidecar.content)];
      StoredPairIsReplayed(q1, q1.evaluations[0], t, sidecar.content);
    }
  }

  lemma PairAdvances(q2: Pipe, t: Id, b: Bundle, content: Id)
    requires Inv(q2) && q2.multimodal && Underway(q2) && RunEvaluation(t) in q2.queued && PairQueued(q2)
    ensures AboutToAdvance(Next(q2, StorePair(b, t, content)), RunEvaluation(t))
  {
    assert NamesStored(q2, RunEvaluation(t));
    var s := StorePair(b, t, content);
    StepKeepsInv(q2, s);
    if q2.status == ReviewRequired {
      ReviewedStays(q2, s);
    } else if q2.evaluations == [] {
      FirstPairIsStored(q2, b, t, content);
    } else {
      QueuedStays(q2, s, ApplyPolicy(q2.evaluations[0].id));
    }
  }

  lemma MultimodalAdvances(q: Pipe, job: Job, work: Work, o: Others)
    requires Inv(q) && Underway(q) && AtWork(q, job) && HarmlessOthers(o, job) && job.RunEvaluation? && q.multimodal
    ensures AboutToAdvance(Run(q, HandlerSteps(q, job, work, o)), job)
  {
    if Eligible(q) {
      var t := job.transcriptId;
      MultimodalHandlerIsRun(q, t, work.evaluation, work.content, o.before, o.between);
      HarmlessKeeps(q, o.before, job);
      var q1 := Run(q, o.before);
      PairResumed(q1, t);
      if q1.evaluations == [] {
        HarmlessKeeps(q1, o.between, job);
        PairAdvances(Run(q1, o.between), t, work.evaluation, work.content);
      }
    }
  }

  lemma PolicyAdvances(q: Pipe, job: Job, work: Work, o: Others)
    requires Inv(q) && Underway(q) && AtWork(q, job) && HarmlessOthers(o, job) && job.ApplyPolicy?
    ensures AboutToAdvance(Run(q, HandlerSteps(q, job, work, o)), job)
  {
    if Eligible(q) {
      HarmlessKeeps(q, o.between, job);
      var q1 := Run(q, o.between);
      RunSnoc(q, o.between, PolicyApplied(job.evaluationId));
      assert NamesStored(q1, job);
      if q1.status == ReviewRequired {
        ReviewedStays(q1, PolicyApplied(job.evaluationId));
      }
    }
  }

  lemma HandlerAdvances(q: Pipe, job: Job, work: Work, o: Others)
    requires Inv(q) && Underway(q) && AtWork(q, job) && HarmlessOthers(o, job)
    ensures AboutToAdvance(Run(q, HandlerSteps(q, job, work, o)), job)
  {
    match job
    case ExtractTranscript => ExtractionAdvances(q, job, work, o);
    case SelectFrames(_) => SelectionAdvances(q, job, work, o);
    case RunEvaluation(_) =>
      if q.multimodal {
        MultimodalAdvances(q, job, work, o);
      } else {
        JudgementAdvances(q, job, work, o);
      }
    case ApplyPolicy(_) => PolicyAdvances(q, job, work, o);
  }

  lemma EnqueueAdvances(r: Pipe, job: Job)
    requires AboutToAdvance(r, job)
    ensures Advanced(if Follower(r, job) == job then r else Next(r, Enqueue(Follower(r, job))), job)
  {
    if r.status == ReviewRequired && Follower(r, job) != job {
      ReviewedStays(r, Enqueue(Follower(r, job)));
    }
  }

  /**
    A delivery of a queued job, its handler's transactions among the harmless steps of others, ends
    processing or queues the job that follows.
  */
  lemma DeliveryAdvances(p: Pipe, job: Job, work: Work, o: Others)
    requires Inv(p) && Underway(p) && job in p.queued && HarmlessOthers(o, job)
    ensures var q := Delivered(p, job, work, o); Inv(q) && Advanced(q, job)
  {
    HarmlessKeeps(p, o.early, job);
    var delivered := Next(Run(p, o.early), Deliver(job));
    StepKeepsInv(Run(p, o.early), Deliver(job));
    HandlerAdvances(delivered, job, work, o);
    var steps := HandlerSteps(delivered, job, work, o);
    RunKeepsInv(delivered, steps);
    var r := Run(delivered, steps);
    EnqueueAdvances(r, job);
    if Follower(r, job) != job {
      StepKeepsInv(r, Enqueue(Follower(r, job)));
    }
  }

  ghost predicate AllHarmless(others: Job -> Others) { forall job :: HarmlessOthers(others(job), job) }

  /** Deliver a job, then what follows it, and so on, until the attempt is in review. */
  function DeliverChain(p: Pipe, job: Job, work: Work, others: Job -> Others): Pipe
    decreases Rank(job)
  {
    var q := Delivered(p, job, work, others(job));
    if q.status == ReviewRequired || Rank(Follower(q, job)) >= Rank(job) then q
    else DeliverChain(q, Follower(q, job), work, others)
  }

  /**
    From a queued job, the deliveries that follow one another, at most the job's rank in number,
    reach review_required, whatever other workers, redeliveries and sweeps do before and inside them.
  */
  lemma {:induction false} ChainReachesReview(p: Pipe, job: Job, work: Work, others: Job -> Others)
    requires Inv(p) && Underway(p) && job in p.queued && AllHarmless(others)
    ensures DeliverChain(p, job, work, others).status == ReviewRequired
    decreases Rank(job)
  {
    DeliveryAdvances(p, job, work, others(job));
    var q := Delivered(p, job, work, others(job));
    if q.status != ReviewRequired {
      ChainReachesReview(q, Follower(q, job), work, others);
    }
  }

  /**
    From every reachable state in which the attempt is processing and eligible, even with every job
    lost, one sweep followed by at most four deliveries (three with a transcript stored, one with an
    evaluation) reaches review_required, whatever harmless steps others take before and inside each.
  */
  lemma SweepRecovers(
    multimodal: bool, updatedAt: int, steps: seq<Step>, work: Work, others: Job -> Others)
    requires Eligible(Run(Start(multimodal, updatedAt), steps)) && AllHarmless(others)
    ensures var p := Run(Start(multimodal, updatedAt), steps).(queued := {}, held := {}, pending := {});
            && DeliverChain(Swept(p), FrontierJob(p), work, others).status == ReviewRequired
            && Rank(FrontierJob(p)) == if p.evaluations != [] then 1 else if p.transcripts != [] then 3 else 4
  {
    var reached := Run(Start(multimodal, updatedAt), steps);
    StartIsSound(multimodal, updatedAt);
    RunKeepsInv(Start(multimodal, updatedAt), steps);
    var p := reached.(queued := {}, held := {}, pending := {});
    assert Inv(p);
    StepKeepsInv(p, SweepOne);
    ChainReachesReview(Swept(p), FrontierJob(p), work, others);
  }

  // ---------------------------------------------------------------------------------------------
  // The sweep over all attempts
  // ---------------------------------------------------------------------------------------------

  /** The sweep's candidates: eligible attempts no other transaction has locked. */
  function Candidates(pipes: map<Id, Pipe>, locked: set<Id>): set<Id> {
    set a | a in pipes && a !in locked && Eligible(pipes[a])
  }

  function ByUpdate(pipes: map<Id, Pipe>): Id -> Key {
    (a: Id) => if a in pipes then (pipes[a].updatedAt, a as int) else (0, a as int)
  }

  function Earlier(pipes: map<Id, Pipe>, locked: set<Id>, a: Id): set<Id>
    requires a in pipes
  {
    set b | b in Candidates(pipes, locked) && b != a && AtMost(ByUpdate(pipes)(b), ByUpdate(pipes)(a))
  }

  /** A candidate is picked whenever fewer than `limit` candidates come before it. */
  lemma EarlyCandidateIsPicked(pipes: map<Id, Pipe>, locked: set<Id>, limit: nat, picked: set<Id>, a: Id)
    requires IsFirst(Candidates(pipes, locked), ByUpdate(pipes), limit, picked)
    requires a in Candidates(pipes, locked) && |Earlier(pipes, locked, a)| < limit
    ensures a in picked
  {
    if a !in picked {
      assert picked <= Earlier(pipes, locked, a);
      SubsetIsNoLarger(picked, Earlier(pipes, locked, a));
      SubsetIsNoLarger(picked + {a}, Candidates(pipes, locked));
    }
  }

  predicate CanProceed(p: Pipe) { p.status == Processing && p.open && p.retained }

  /** Only processing, open and retained attempts nobody has locked, and none left out that is older. */
  ghost predicate SweepsOldest(pipes: map<Id, Pipe>, locked: set<Id>, limit: nat, swept: set<Id>) {
    && |swept| <= limit
    && (forall a :: a in swept ==> a in pipes && a !in locked && CanProceed(pipes[a]))
    && (forall b :: b in pipes && b !in swept && b !in locked && CanProceed(pipes[b]) ==>
          && |swept| == limit
          && forall a :: a in swept && a in pipes ==>
               pipes[a].updatedAt < pipes[b].updatedAt || (pipes[a].updatedAt == pipes[b].updatedAt && a < b))
  }

  lemma FirstAreOldest(pipes: map<Id, Pipe>, locked: set<Id>, limit: nat, swept: set<Id>)
    requires IsFirst(Candidates(pipes, locked), ByUpdate(pipes), limit, swept)
    ensures SweepsOldest(pipes, locked, limit, swept)
  {
    forall a, b | a in swept && b in Candidates(pipes, locked) && b !in swept
      ensures |swept| == limit
      ensures pipes[a].updatedAt < pipes[b].updatedAt || (pipes[a].updatedAt == pipes[b].updatedAt && a < b)
    {
      FirstComeFirst(Candidates(pipes, locked), ByUpdate(pipes), limit, swept, a, b);
    }
    if swept == {} && Candidates(pipes, locked) != {} {
      assert limit == 0;
    }
  }

  predicate Unambiguous(p: Pipe) { |p.transcripts| <= 1 && |p.evaluations| <= 1 }

  /** The next job, from what is stored: policy after an evaluation, frames after a transcript; or an error. */
  method RebuildJob(p: Pipe) returns (ok: bool, q: Pipe)
    ensures ok <==> Unambiguous(p)
    ensures q == if ok then Swept(p) else p
  {
    q := p;
    if |p.transcripts| > 1 || |p.evaluations| > 1 {
      return false, q;
    }
    ok := true;
    if p.evaluations != [] {
      q := p.(queued := p.queued + {ApplyPolicy(p.evaluations[0].id)});
    } else if p.transcripts != [] {
      q := p.(queued := p.queued + {SelectFrames(p.transcripts[0].id)});
    } else {
      q := p.(queued := p.queued + {ExtractTranscript});
    }
  }

  lemma SweptIsSound(p: Pipe)
    requires Inv(p)
    ensures Inv(Swept(p))
  {
  }

  /** These attempts have their rebuilt job, the others are as they were. */
  predicate AreSwept(pipes: map<Id, Pipe>, swept: set<Id>, rebuilt: map<Id, Pipe>) {
    && rebuilt.Keys == pipes.Keys
    && forall a :: a in pipes ==> rebuilt[a] == if a in swept then Swept(pipes[a]) else pipes[a]
  }

  class PipelineTable {
    var pipes: map<Id, Pipe>

    ghost predicate Valid()
      reads this
    {
      forall a :: a in pipes ==> Inv(pipes[a])
    }

    /**
      sweepPendingProviderStages: the oldest candidates, each given the job its committed rows call
      for. A limit out of range, or a candidate with two active artifacts of a kind, is an error that
      rolls everything back.
    */
    method SweepPendingProviderStages(limit: int, locked: set<Id>) returns (ok: bool, swept: set<Id>)
      modifies this
      ensures ok <==> 1 <= limit <= 1000 && forall a :: a in swept ==> a in old(pipes) && Unambiguous(old(pipes)[a])
      ensures 1 <= limit <= 1000 ==> IsFirst(Candidates(old(pipes), locked), ByUpdate(old(pipes)), limit, swept)
      ensures 1 <= limit <= 1000 ==> SweepsOldest(old(pipes), locked, limit, swept)
      ensures if ok then AreSwept(old(pipes), swept, pipes) else pipes == old(pipes)
      ensures old(Valid()) ==> Valid() && (ok <==> 1 <= limit <= 1000)
    {
      swept := {};
      if limit < 1 || limit > 1000 {
        return false, swept;
      }
      swept := First(Candidates(pipes, locked), ByUpdate(pipes), limit);
      FirstAreOldest(pipes, locked, limit, swept);
      var rebuilt;
      ok, rebuilt := RebuildJobs(pipes, swept);
      if !ok {
        return;
      }
      if Valid() {
        AllSweptAreSound(pipes, swept, rebuilt);
      }
      pipes := rebuilt;
    }
  }

  /** The loop over the candidates; an error rolls back what it did. */
  method RebuildJobs(pipes: map<Id, Pipe>, swept: set<Id>) returns (ok: bool, rebuilt: map<Id, Pipe>)
    requires swept <= pipes.Keys
    ensures ok <==> forall a :: a in swept ==> Unambiguous(pipes[a])
    ensures ok ==> AreSwept(pipes, swept, rebuilt)
  {
    rebuilt := pipes;
    var rest := swept;
    while rest != {}
      invariant rest <= swept && AreSwept(pipes, swept - rest, rebuilt)
      invariant forall a :: a in swept && a !in rest ==> Unambiguous(pipes[a])
      decreases |rest|
    {
      var a :| a in rest;
      var q;
      ok, q := RebuildJob(pipes[a]);
      if !ok {
        return;
      }
      OneMoreSwept(pipes, swept, rest, rebuilt, a);
      rebuilt, rest := rebuilt[a := q], rest - {a};
    }
    assert swept - {} == swept;
    ok := true;
  }

  lemma OneMoreSwept(pipes: map<Id, Pipe>, swept: set<Id>, rest: set<Id>, rebuilt: map<Id, Pipe>, a: Id)
    requires AreSwept(pipes, swept - rest, rebuilt) && a in rest && rest <= swept && a in pipes
    ensures AreSwept(pipes, swept - (rest - {a}), rebuilt[a := Swept(pipes[a])])
  {
  }

  lemma AllSweptAreSound(pipes: map<Id, Pipe>, swept: set<Id>, rebuilt: map<Id, Pipe>)
    requires AreSwept(pipes, swept, rebuilt)
    requires forall a :: a in pipes ==> Inv(pipes[a])
    ensures forall a :: a in rebuilt ==> Inv(rebuilt[a])
  {
    forall a | a in pipes
      ensures Inv(rebuilt[a])
    {
      SweptIsSound(pipes[a]);
    }
  }

  // ---------------------------------------------------------------------------------------------
  // The transactions, statement by statement
  // ---------------------------------------------------------------------------------------------

  // How the handlers end, by what is stored when they begin and when their last transaction comes

  /** `late` is the state to which the handler's one writing transaction comes. */
  predicate ExtractionEnds(start: Pipe, late: Pipe, b: Bundle, end: Pipe, answer: Answer) {
    if !CanProceed(start) then end == start && answer == Unavailable
    else if !CanProceed(late) then end == late && answer == Unavailable
    else if late.transcripts == [] then
      && end == late.(transcripts := [b], pending := late.pending + {SelectFrames(b.id)})
      && answer == Created(b.id)
    else
      var stored := late.transcripts[0].id;
      if start.transcripts == [] then
        end == late.(pending := late.pending + {SelectFrames(stored)}) && answer == Replayed(stored)
      else end == late.(queued := late.queued + {SelectFrames(stored)}) && answer == Scheduled(stored)
  }

  predicate JudgementEnds(start: Pipe, late: Pipe, b: Bundle, end: Pipe, answer: Answer) {
    if !CanProceed(start) then end == start && answer == Unavailable
    else if !CanProceed(late) then end == late && answer == Unavailable
    else if late.evaluations == [] then
      && end == late.(evaluations := [b], pending := late.pending + {ApplyPolicy(b.id)})
      && answer == Created(b.id)
    else
      var stored := late.evaluations[0].id;
      if start.evaluations == [] then
        end == late.(pending := late.pending + {ApplyPolicy(stored)}) && answer == Replayed(stored)
      else end == late.(queued := late.queued + {ApplyPolicy(stored)}) && answer == Scheduled(stored)
  }

  /** A stored pair's policy job is queued again, by the transaction while processing, else by the worker. */
  predicate PolicyFollows(p: Pipe, end: Pipe) {
    && p.evaluations != []
    && var job := ApplyPolicy(p.evaluations[0].id);
       end == if p.status == Processing then p.(queued := p.queued + {job}) else p.(pending := p.pending + {job})
  }

  /** `looked` is the state in which the handler looks for a stored pair, `late` that in which it stores its own. */
  predicate MultimodalEnds(start: Pipe, looked: Pipe, late: Pipe, t: Id, b: Bundle, content: Id, end: Pipe,
                           answer: Answer)
  {
    var sidecar := Sidecar(b.id, t, content);
    if !CanProceed(start) then end == start && answer == Unavailable
    else if looked.evaluations != [] then
      if looked.sidecars != [] && looked.sidecars[0].transcriptId == t && Underway(looked)
      then PolicyFollows(looked, end) && answer == Scheduled(looked.evaluations[0].id)
      else end == looked && answer == Inconsistent
    else if late.evaluations != [] then
      if late.evaluations == [b] && late.sidecars == [sidecar] && Underway(late)
      then PolicyFollows(late, end) && answer == Replayed(b.id)
      else end == late && answer == Inconsistent
    else if CanProceed(late) && late.transcripts != [] && late.transcripts[0].id == t then
      && end == late.(evaluations := [b], sidecars := [sidecar], queued := late.queued + {ApplyPolicy(b.id)})
      && answer == Created(b.id)
    else end == late && answer == Unavailable
  }

  /** One attempt's rows and queue entries under the transaction's locks. */
  class LockedPipe {
    var p: Pipe

    method PersistTranscriptRow(b: Bundle) returns (answer: Answer)
      modifies this
      ensures (p, answer) == PersistTranscript(old(p), b)
    {
      if !Eligible(p) {
        return Unavailable;
      }
      if |p.transcripts| > 1 {
        return Inconsistent;
      }
      if p.transcripts != [] {
        return Replayed(p.transcripts[0].id);
      }
      assert [] + [b] == [b];
      p := p.(transcripts := p.transcripts + [b]);
      answer := Created(b.id);
    }

    method PersistEvaluationRow(b: Bundle) returns (answer: Answer)
      modifies this
      ensures (p, answer) == PersistEvaluation(old(p), b)
    {
      if !Eligible(p) {
        return Unavailable;
      }
      if |p.evaluations| > 1 {
        return Inconsistent;
      }
      if p.evaluations != [] {
        return Replayed(p.evaluations[0].id);
      }
      assert [] + [b] == [b];
      p := p.(evaluations := p.evaluations + [b]);
      answer := Created(b.id);
    }

    method ScheduleNext(evaluationId: Id)
      modifies this
      ensures p == ScheduleIfProcessing(old(p), evaluationId)
    {
      if p.status == Processing {
        p := p.(queued := p.queued + {ApplyPolicy(evaluationId)});
      }
    }

    method LoadExistingPair(transcriptId: Id) returns (answer: Answer)
      modifies this
      ensures (p, answer) == LoadExistingAndSchedule(old(p), transcriptId)
    {
      if p.sidecars == [] {
        return if p.evaluations != [] then Inconsistent else Nothing;
      }
      if |p.sidecars| != 1 || !ReplayAvailable(p, transcriptId) {
        return Inconsistent;
      }
      answer := Scheduled(p.sidecars[0].evaluationId);
      ScheduleNext(p.sidecars[0].evaluationId);
    }

    method PersistEvaluationPair(evaluation: Bundle, transcriptId: Id, content: Id) returns (answer: Answer)
      modifies this
      ensures (p, answer) == PersistPair(old(p), evaluation, transcriptId, content)
    {
      if p.sidecars != [] {
        if |p.sidecars| != 1 || !ReplayAvailable(p, transcriptId) {
          return Inconsistent;
        }
        if p.sidecars[0] != Sidecar(evaluation.id, transcriptId, content) || evaluation !in p.evaluations {
          return Inconsistent;
        }
        ScheduleNext(evaluation.id);
        return Replayed(evaluation.id);
      }
      if p.evaluations != [] {
        return Inconsistent;
      }
      if !Eligible(p) || !HasId(p.transcripts, transcriptId) {
        return Unavailable;
      }
      assert [] + [evaluation] == [evaluation];
      p := p.(evaluations := p.evaluations + [evaluation]);
      var sidecar := Sidecar(evaluation.id, transcriptId, content);
      assert [] + [sidecar] == [sidecar];
      p := p.(sidecars := p.sidecars + [sidecar]);
      ScheduleNext(evaluation.id);
      answer := Created(evaluation.id);
    }

    /** Whatever else happens to the attempt while this worker is between its transactions. */
    method Meanwhile(others: seq<Step>)
      modifies this
      ensures p == Run(old(p), others)
    {
      p := Run(p, others);
    }

    /** The worker enqueues the policy job itself when the transaction, processing being over, did not. */
    method EnqueueUnscheduled(answer: Answer, scheduled: bool)
      modifies this
      ensures p == if scheduled || !(answer.Created? || answer.Replayed? || answer.Scheduled?) then old(p)
                   else old(p).(pending := old(p).pending + {ApplyPolicy(answer.id)})
    {
      if !scheduled && (answer.Created? || answer.Replayed? || answer.Scheduled?) {
        p := p.(pending := p.pending + {ApplyPolicy(answer.id)});
      }
    }

    method ScheduleTranscriptRow(id: Id) returns (answer: Answer)
      modifies this
      ensures (p, answer) == ScheduleTranscript(old(p), id)
    {
      if !Eligible(p) || !HasId(p.transcripts, id) {
        return Unavailable;
      }
      p := p.(queued := p.queued + {SelectFrames(id)});
      answer := Scheduled(id);
    }

    method ScheduleEvaluationRow(id: Id) returns (answer: Answer)
      modifies this
      ensures (p, answer) == ScheduleEvaluation(old(p), id)
    {
      if !Eligible(p) || !HasId(p.evaluations, id) {
        return Unavailable;
      }
      p := p.(queued := p.queued + {ApplyPolicy(id)});
      answer := Scheduled(id);
    }

    /** The media.extract-transcript handler: schedule what it loaded, else transcribe, store and enqueue. */
    method RunExtraction(b: Bundle, between: seq<Step>) returns (answer: Answer)
      requires Inv(p)
      modifies this
      ensures p == Run(old(p), ExtractionSteps(old(p), b, between)) && Inv(p)
      ensures ExtractionEnds(old(p), Run(old(p), between), b, p, answer)
    {
      RunKeepsInv(p, ExtractionSteps(p, b, between));
      if !Eligible(p) {
        return Unavailable;
      }
      var loaded := p.transcripts;
      RunKeepsInv(p, between);
      RunSnoc(p, between, if loaded != [] then ResumeTranscript else StoreTranscript(b));
      Meanwhile(between);
      if loaded != [] {
        answer := ScheduleTranscriptRow(loaded[0].id);
        return;
      }
      answer := PersistTranscriptRow(b);
      if answer.Created? || answer.Replayed? {
        p := p.(pending := p.pending + {SelectFrames(answer.id)});
      }
    }

    /** The evaluation.run handler without a sidecar; the worker still holds its job after evaluating. */
    method RunJudgeEvaluation(b: Bundle, between: seq<Step>) returns (answer: Answer)
      requires Inv(p) && !p.multimodal && RunsEvaluation(Run(p, between))
      modifies this
      ensures p == Run(old(p), JudgeSteps(old(p), b, between)) && Inv(p)
      ensures JudgementEnds(old(p), Run(old(p), between), b, p, answer)
    {
      RunKeepsInv(p, JudgeSteps(p, b, between));
      if !Eligible(p) {
        return Unavailable;
      }
      var loaded := p.evaluations;
      RunKeepsInv(p, between);
      RunSnoc(p, between, if loaded != [] then ResumeEvaluation else StoreEvaluation(b));
      Meanwhile(between);
      if loaded != [] {
        answer := ScheduleEvaluationRow(loaded[0].id);
        return;
      }
      answer := PersistEvaluationRow(b);
      if answer.Created? || answer.Replayed? {
        p := p.(pending := p.pending + {ApplyPolicy(answer.id)});
      }
    }

    /**
      The evaluation.run handler on the multimodal path: replay the stored pair if there is one, else
      evaluate and store. `before` happens after its eligibility check, `between` while it evaluates.
    */
    method RunMultimodalEvaluation(
        transcriptId: Id, evaluation: Bundle, content: Id, before: seq<Step>, between: seq<Step>)
      returns (answer: Answer)
      requires Inv(p) && p.multimodal
      modifies this
      ensures p == Run(old(p), MultimodalSteps(old(p), transcriptId, evaluation, content, before, between)) && Inv(p)
      ensures var looked := Run(old(p), before);
              MultimodalEnds(old(p), looked, Run(looked, between), transcriptId, evaluation, content, p, answer)
    {
      RunKeepsInv(p, MultimodalSteps(p, transcriptId, evaluation, content, before, between));
      if !Eligible(p) {
        return Unavailable;
      }
      MultimodalHandlerIsRun(p, transcriptId, evaluation, content, before, between);
      RunKeepsInv(p, before);
      ghost var start, looked, late := p, Run(p, before), Run(Run(p, before), between);
      Meanwhile(before);
      LookingEnds(start, looked, late, transcriptId, evaluation, content);
      var processing := p.status == Processing;
      answer := LoadExistingPair(transcriptId);
      EnqueueUnscheduled(answer, processing);
      if answer != Nothing {
        return;
      }
      RunKeepsInv(p, between);
      Meanwhile(between);
      StoringEnds(start, looked, late, transcriptId, evaluation, content);
      processing := p.status == Processing;
      answer := PersistEvaluationPair(evaluation, transcriptId, content);
      EnqueueUnscheduled(answer, processing);
    }

    /** The media.select-frames handler, once its frames are stored. */
    method RunFrameSelection(transcriptId: Id, between: seq<Step>)
      requires SelectFrames(transcriptId) in Run(p, between).held
      modifies this
      ensures p == if !CanProceed(old(p)) then old(p) else
                   var late := Run(old(p), between);
                   if CanProceed(late) then late.(pending := late.pending + {RunEvaluation(transcriptId)}) else late
    {
      if !Eligible(p) {
        return;
      }
      Meanwhile(between);
      if Eligible(p) {
        p := p.(pending := p.pending + {RunEvaluation(transcriptId)});
      }
    }

    /** The policy.apply handler: the attempt goes to review if it still has the evaluation the job names. */
    method RunPolicy(evaluationId: Id, between: seq<Step>)
      requires Inv(p) && ApplyPolicy(evaluationId) in Run(p, between).held
      modifies this
      ensures p == if !CanProceed(old(p)) then old(p) else
                   var late := Run(old(p), between);
                   if CanProceed(late) then late.(status := ReviewRequired) else late
    {
      if !Eligible(p) {
        return;
      }
      RunKeepsInv(p, between);
      Meanwhile(between);
      assert NamesStored(p, ApplyPolicy(evaluationId));
      if Eligible(p) && HasId(p.evaluations, evaluationId) {
        p := p.(status := ReviewRequired);
      }
    }

    /** The handler of a delivered job, while others take their harmless steps. */
    method RunHandler(job: Job, work: Work, o: Others)
      requires Inv(p) && Underway(p) && AtWork(p, job) && HarmlessOthers(o, job)
      modifies this
      ensures p == Run(old(p), HandlerSteps(old(p), job, work, o))
    {
      HarmlessKeeps(p, o.between, job);
      match job
      case ExtractTranscript =>
        var _ := RunExtraction(work.transcript, o.between);
      case SelectFrames(t) =>
        RunSnoc(p, o.between, FramesSelected(t));
        RunFrameSelection(t, o.between);
      case RunEvaluation(t) =>
        if p.multimodal {
          var _ := RunMultimodalEvaluation(t, work.evaluation, work.content, o.before, o.between);
        } else {
          assert job in Run(p, o.between).held;
          var _ := RunJudgeEvaluation(work.evaluation, o.between);
        }
      case ApplyPolicy(e) =>
        RunSnoc(p, o.between, PolicyApplied(e));
        StepDoesExactly(Run(p, o.between), PolicyApplied(e));
        assert NamesStored(Run(p, o.between), job);
        RunPolicy(e, o.between);
    }

    /**
      One delivery of a queued job: it ends in review, or with the job that follows in the queue.
      What the handlers do here is what the chain of deliveries is made of.
    */
    method RunDelivery(job: Job, work: Work, o: Others)
      requires Inv(p) && Underway(p) && job in p.queued && HarmlessOthers(o, job)
      modifies this
      ensures p == Delivered(old(p), job, work, o) && Inv(p) && Advanced(p, job)
    {
      DeliveryAdvances(p, job, work, o);
      HarmlessKeeps(p, o.early, job);
      Meanwhile(o.early);
      StepKeepsInv(p, Deliver(job));
      p := p.(held := p.held + {job});
      RunHandler(job, work, o);
      var next := Follower(p, job);
      if next != job && next in p.pending {
        p := p.(queued := p.queued + {next}, pending := p.pending - {next});
      }
    }
  }

  lemma LookingEnds(start: Pipe, looked: Pipe, late: Pipe, t: Id, b: Bundle, content: Id)
    requires Inv(looked) && looked.multimodal && CanProceed(start)
    ensures var (end, answer) := LoadExistingAndSchedule(looked, t);
            var next := ThenEnqueuePolicy(looked, (end, answer));
            if answer == Nothing then looked.evaluations == [] && next == looked
            else MultimodalEnds(start, looked, late, t, b, content, next, answer)
  {
  }

  lemma StoringEnds(start: Pipe, looked: Pipe, late: Pipe, t: Id, b: Bundle, content: Id)
    requires Inv(late) && late.multimodal && CanProceed(start) && looked.evaluations == []
    ensures var (end, answer) := PersistPair(late, b, t, content);
            MultimodalEnds(start, looked, late, t, b, content, ThenEnqueuePolicy(late, (end, answer)), answer)
  {
    if late.transcripts != [] {
      assert HasId(late.transcripts, t) <==> late.transcripts[0].id == t;
    }
  }

  lemma {:induction false} RunAppend(p: Pipe, a: seq<Step>, b: seq<Step>)
    ensures Run(p, a + b) == Run(Run(p, a), b)
    decreases |a|
  {
    if a == [] {
      assert a + b == b;
    } else {
      assert (a + b)[1..] == a[1..] + b;
      RunAppend(Next(p, a[0]), a[1..], b);
    }
  }

  lemma RunSnoc(p: Pipe, a: seq<Step>, last: Step)
    ensures Run(p, a + [last]) == Next(Run(p, a), last)
  {
    RunAppend(p, a, [last]);
    assert [last][1..] == [];
  }

  lemma MultimodalHandlerIsRun(p: Pipe, t: Id, evaluation: Bundle, content: Id, before: seq<Step>, between: seq<Step>)
    requires Eligible(p)
    ensures var steps := MultimodalSteps(p, t, evaluation, content, before, between);
            var looked := Next(Run(p, before), ResumePair(t));
            Run(p, steps) ==
            if LoadExistingAndSchedule(Run(p, before), t).1 == Nothing
            then Next(Run(looked, between), StorePair(evaluation, t, content)) else looked
  {
    RunSnoc(p, before, ResumePair(t));
    var looked := Next(Run(p, before), ResumePair(t));
    RunSnoc(looked, between, StorePair(evaluation, t, content));
    RunAppend(p, before + [ResumePair(t)], between + [StorePair(evaluation, t, content)]);
    assert before + [ResumePair(t)] + [] == before + [ResumePair(t)];
  }
}
