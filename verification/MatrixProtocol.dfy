/** The crash and resume protocol of the speech matrix runner, over any number of runs in one output directory.

    A run keeps its records in memory and rewrites the manifest atomically at every checkpoint; workers
    interleave freely. A crash may fall between any two steps, a manifest or artifact write may fail, and the
    artifact files may be changed from outside. `decisive` counts, for each job, the provider calls that are
    under way, succeeded, or ended ambiguously. */
module MatrixProtocol {
  import opened Wrappers
  import opened MatrixRecords

  // ----- How a provider error is judged -----

  /** The fields the retry rules look at; `mentionsCredit` is the text match on message and provider code. */
  datatype ProviderError = ProviderError(
    retriable: bool, code: Option<string>, providerCode: Option<string>, httpStatus: Option<int>,
    outcomeUnknown: bool, mentionsCredit: bool, message: string)

  predicate IsCreditExhausted(e: ProviderError) {
    if e.providerCode == Some("insufficient_quota_error") then true
    else if e.providerCode == Some("rate_limit_exceeded_error") then false
    else if e.code == Some("provider.rate_limited") && e.httpStatus in {Some(429), Some(503)} then false
    else e.mentionsCredit
  }

  predicate IsAmbiguous(e: ProviderError) {
    e.outcomeUnknown || e.code !in {
      Some("provider.auth_failed"), Some("provider.invalid_request"), Some("provider.input_rejected"),
      Some("provider.model_unsupported"), Some("provider.voice_unsupported"), Some("provider.quota_exceeded"),
      Some("provider.rate_limited")}
  }

  predicate ShouldRetry(e: ProviderError) {
    e.retriable && !IsCreditExhausted(e) && !IsAmbiguous(e) && e.code == Some("provider.rate_limited")
  }

  // ----- State -----

  datatype Worker =
    | Idle
    | Starting(i: nat, attempt: nat)
    | Calling(i: nat, attempt: nat)
    | Synthesized(i: nat, attempt: nat, metrics: Metrics)
    | ArtifactDue(i: nat, attempt: nat, record: Record)
    | ArtifactWritten(i: nat, attempt: nat, record: Record)
    | Settling(i: nat, record: Record)
    | Stopped

  datatype Run = Run(
    jobs: seq<Job>,
    writeAudio: bool,
    retries: nat,
    history: seq<Record>,
    unresolved: map<Job, Record>,
    records: seq<Option<Record>>,
    nextJob: nat,
    workers: seq<Worker>)

  datatype Outcome = Success(metrics: Metrics) | Error(error: ProviderError)

  /** A provider call: the run that made it, its number among the job's attempts in that run, and how it ended, if it
      has. */
  datatype Call = Call(run: nat, attempt: nat, outcome: Option<Outcome>)

  /** `decisive`, `calls` and `runs`, the number of runs so far, are the history. */
  datatype State = State(
    manifest: Option<Manifest>, wavs: Artifacts, run: Option<Run>, decisive: map<Job, nat>,
    calls: map<Job, seq<Call>>, runs: nat)

  datatype Action =
    | Start(jobs: seq<Job>, writeAudio: bool, retries: nat, workers: nat)
    | Take(w: nat)
    | BeginAttempt(w: nat, persisted: bool)
    | EndCall(w: nat, outcome: Outcome)
    | Complete(w: nat, persisted: bool)
    | WriteArtifact(w: nat, written: bool)
    | FinishArtifact(w: nat, persisted: bool)
    | Settle(w: nat, persisted: bool)
    | Finish
    | Crash
    | Tamper(job: Job, bytes: Option<int>)

  const INITIAL := State(None, map[], None, map[], map[], 0)

  function Count(decisive: map<Job, nat>, job: Job): nat {
    if job in decisive then decisive[job] else 0
  }

  function CallsOf(calls: map<Job, seq<Call>>, job: Job): seq<Call> {
    if job in calls then calls[job] else []
  }

  function Called(calls: map<Job, seq<Call>>, job: Job, run: nat, attempt: nat): map<Job, seq<Call>> {
    calls[job := CallsOf(calls, job) + [Call(run, attempt, None)]]
  }

  /** The last call of the job has ended. */
  function Ended(calls: map<Job, seq<Call>>, job: Job, outcome: Outcome): map<Job, seq<Call>> {
    var cs := CallsOf(calls, job);
    if cs == [] then calls
    else calls[job := cs[..|cs| - 1] + [cs[|cs| - 1].(outcome := Some(outcome))]]
  }

  // ----- Records that a worker writes -----

  function Base(job: Job, status: Status, attempts: int): Record {
    Record(job, status, attempts, Some(attempts), None, None, false, Some(false), None, None)
  }

  function WithHistory(run: Run, record: Record): Record {
    if record.job in run.unresolved then CarryHistory(run.unresolved[record.job], record) else record
  }

  function Completed(run: Run, job: Job, attempt: int, metrics: Metrics): Record {
    WithHistory(run, Base(job, if run.writeAudio then PendingArtifact else Passed, attempt)
                       .(hasAudioArtifact := Some(run.writeAudio), metrics := Some(metrics)))
  }

  /** The record of a failure: unknown when the outcome is ambiguous, else failed and safe to retry. */
  function FailureRecord(run: Run, job: Job, attempt: int, ambiguous: bool, message: string): Record {
    WithHistory(run, Base(job, if ambiguous then Unknown else Failed, attempt)
                       .(hasAudioArtifact := None, retrySafe := !ambiguous, error := Some(message)))
  }

  // ----- Steps -----

  predicate Busy(worker: Worker) { !worker.Idle? && !worker.Stopped? }

  ghost predicate Enabled(s: State, a: Action) {
    match a
    case Start(jobs, _, _, _) =>
      s.run.None? && forall i, j :: 0 <= i < j < |jobs| ==> jobs[i] != jobs[j]
    case Crash => s.run.Some?
    case Tamper(_, _) => true
    case Finish => s.run.Some? && forall w :: 0 <= w < |s.run.value.workers| ==> s.run.value.workers[w].Stopped?
    case _ =>
      && s.run.Some? && a.w < |s.run.value.workers|
      && var worker := s.run.value.workers[a.w];
         match a
         case Take(_) => worker.Idle?
         case BeginAttempt(_, _) =>
           worker.Starting? && worker.i < |s.run.value.records| && worker.i < |s.run.value.jobs|
         case EndCall(_, _) => worker.Calling? && worker.i < |s.run.value.jobs|
         case Complete(_, _) => worker.Synthesized? && worker.i < |s.run.value.records| && worker.i < |s.run.value.jobs|
         case WriteArtifact(_, _) => worker.ArtifactDue? && worker.i < |s.run.value.jobs|
         case FinishArtifact(_, _) =>
           worker.ArtifactWritten? && worker.i < |s.run.value.records| && worker.i < |s.run.value.jobs|
         case Settle(_, _) => worker.Settling? && worker.i < |s.run.value.records|
         case _ => false
  }

  function Move(run: Run, w: nat, worker: Worker): Run
    requires w < |run.workers|
  {
    run.(workers := run.workers[w := worker])
  }

  /** Stores a record in memory, then rewrites the manifest, which may fail. */
  function Checkpoint(s: State, run: Run, i: nat, record: Record, persisted: bool): State
    requires i < |run.records|
  {
    var after := run.(records := run.records[i := Some(record)]);
    s.(run := Some(after),
       manifest := if persisted then Some(Snapshot(run.writeAudio, run.history, after.records)) else s.manifest)
  }

  /** Where an error thrown by the runner itself leads: its code is unknown, so its outcome counts as ambiguous. */
  function Thrown(run: Run, i: nat, attempt: int): Worker
    requires i < |run.jobs|
  {
    Settling(i, FailureRecord(run, run.jobs[i], attempt, true, "write failed"))
  }

  function StartRun(s: State, jobs: seq<Job>, writeAudio: bool, retries: nat, workers: nat): State {
    var prior := if s.manifest.None? then Some(ResumeState(map[], map[], []))
                 else ReadBack(s.manifest.value, s.wavs, jobs, writeAudio);
    if prior.None? then s
    else s.(runs := s.runs + 1,
            run := Some(Run(jobs, writeAudio, retries, prior.value.history, prior.value.unresolved,
                            Select(jobs, prior.value), 0, seq(workers, _ => Idle))))
  }

  function TakeJob(run: Run, w: nat): Run
    requires w < |run.workers|
  {
    var i := run.nextJob;
    var next := run.(nextJob := i + 1);
    if i >= |run.jobs| || i >= |run.records| then Move(next, w, Stopped)
    else if run.records[i].Some? && Settled(run.records[i].value) then next
    else Move(next, w, Starting(i, 1))
  }

  /** The checkpoint before a call, and the call itself. */
  function CallStarted(s: State, run: Run, w: nat, record: Record): State
    requires w < |run.workers| && run.workers[w].Starting? && run.workers[w].i < |run.records|
  {
    var i := run.workers[w].i;
    Checkpoint(s, Move(run, w, Calling(i, run.workers[w].attempt)), i, record, true)
      .(decisive := s.decisive[record.job := Count(s.decisive, record.job) + 1],
        calls := Called(s.calls, record.job, s.runs, run.workers[w].attempt))
  }

  function CallPrevented(s: State, run: Run, w: nat, record: Record): State
    requires w < |run.workers| && run.workers[w].Starting? && run.workers[w].i < |run.records|
    requires run.workers[w].i < |run.jobs|
  {
    var i := run.workers[w].i;
    Checkpoint(s, Move(run, w, Thrown(run, i, run.retries + 1)), i, record, false)
  }

  function BeginStep(s: State, run: Run, w: nat, persisted: bool): State
    requires w < |run.workers| && run.workers[w].Starting? && run.workers[w].i < |run.records|
    requires run.workers[w].i < |run.jobs|
  {
    var record := WithHistory(run, Base(run.jobs[run.workers[w].i], InFlight, run.workers[w].attempt));
    if persisted then CallStarted(s, run, w, record) else CallPrevented(s, run, w, record)
  }

  function AfterError(run: Run, i: nat, attempt: nat, e: ProviderError): Worker
    requires i < |run.jobs|
  {
    if attempt > run.retries || !ShouldRetry(e) then
      Settling(i, FailureRecord(run, run.jobs[i], attempt, IsAmbiguous(e), e.message))
    else Starting(i, attempt + 1)
  }

  function EndStep(s: State, run: Run, w: nat, outcome: Outcome): State
    requires w < |run.workers| && run.workers[w].Calling? && run.workers[w].i < |run.jobs|
  {
    var Calling(i, attempt) := run.workers[w];
    var job := run.jobs[i];
    match outcome
    case Success(metrics) =>
      s.(run := Some(Move(run, w, Synthesized(i, attempt, metrics))), calls := Ended(s.calls, job, outcome))
    case Error(e) =>
      var t := s.(run := Some(Move(run, w, AfterError(run, i, attempt, e))), calls := Ended(s.calls, job, outcome));
      if IsAmbiguous(e) || Count(s.decisive, job) == 0 then t
      else t.(decisive := s.decisive[job := Count(s.decisive, job) - 1])
  }

  function CompleteStep(s: State, run: Run, w: nat, persisted: bool): State
    requires w < |run.workers| && run.workers[w].Synthesized? && run.workers[w].i < |run.records|
    requires run.workers[w].i < |run.jobs|
  {
    var Synthesized(i, attempt, metrics) := run.workers[w];
    var record := Completed(run, run.jobs[i], attempt, metrics);
    if !run.writeAudio then s.(run := Some(Move(run, w, Settling(i, record))))
    else
      var worker := if persisted then ArtifactDue(i, attempt, record) else Thrown(run, i, attempt);
      Checkpoint(s, Move(run, w, worker), i, record, persisted)
  }

  function ArtifactStep(s: State, run: Run, w: nat, written: bool): State
    requires w < |run.workers| && run.workers[w].ArtifactDue? && run.workers[w].i < |run.jobs|
  {
    var ArtifactDue(i, attempt, record) := run.workers[w];
    var bytes := if record.metrics.Some? then record.metrics.value.audioBytes else 0;
    if written then
      s.(wavs := s.wavs[run.jobs[i] := bytes], run := Some(Move(run, w, ArtifactWritten(i, attempt, record))))
    else s.(run := Some(Move(run, w, Thrown(run, i, attempt))))
  }

  function FinishArtifactStep(s: State, run: Run, w: nat, persisted: bool): State
    requires w < |run.workers| && run.workers[w].ArtifactWritten?
    requires run.workers[w].i < |run.records| && run.workers[w].i < |run.jobs|
  {
    var ArtifactWritten(i, attempt, record) := run.workers[w];
    var worker := if persisted then Idle else Thrown(run, i, attempt);
    Checkpoint(s, Move(run, w, worker), i, record.(status := Passed), persisted)
  }

  function SettleStep(s: State, run: Run, w: nat, persisted: bool): State
    requires w < |run.workers| && run.workers[w].Settling? && run.workers[w].i < |run.records|
  {
    var Settling(i, record) := run.workers[w];
    Checkpoint(s, Move(run, w, if persisted then Idle else Stopped), i, record, persisted)
  }

  ghost function Step(s: State, a: Action): State
    requires Enabled(s, a)
  {
    match a
    case Start(jobs, writeAudio, retries, workers) => StartRun(s, jobs, writeAudio, retries, workers)
    case Take(w) => s.(run := Some(TakeJob(s.run.value, w)))
    case BeginAttempt(w, persisted) => BeginStep(s, s.run.value, w, persisted)
    case EndCall(w, outcome) => EndStep(s, s.run.value, w, outcome)
    case Complete(w, persisted) => CompleteStep(s, s.run.value, w, persisted)
    case WriteArtifact(w, written) => ArtifactStep(s, s.run.value, w, written)
    case FinishArtifact(w, persisted) => FinishArtifactStep(s, s.run.value, w, persisted)
    case Settle(w, persisted) => SettleStep(s, s.run.value, w, persisted)
    case Finish =>
      var run := s.run.value;
      s.(run := None, manifest := Some(Snapshot(run.writeAudio, run.history, run.records)))
    case Crash => s.(run := None)
    case Tamper(job, bytes) => s.(wavs := if bytes.Some? then s.wavs[job := bytes.value] else s.wavs - {job})
  }

  ghost predicate Legal(s: State, actions: seq<Action>)
    decreases |actions|
  {
    actions == [] || (Enabled(s, actions[0]) && Legal(Step(s, actions[0]), actions[1..]))
  }

  ghost function After(s: State, actions: seq<Action>): State
    requires Legal(s, actions)
    decreases |actions|
  {
    if actions == [] then s else After(Step(s, actions[0]), actions[1..])
  }

  // ----- The invariant -----

  function Values(m: Manifest): seq<Record> { m.history + m.records }

  /** Every job with a decisive call has a blocking record in the durable manifest, and no later run will refuse
      the manifest. */
  ghost predicate DiskOk(manifest: Option<Manifest>, decisive: map<Job, nat>) {
    && (manifest.Some? ==> AllAcceptable(Values(manifest.value)))
    && (forall job :: 0 < Count(decisive, job) ==> manifest.Some? && BlockedIn(Values(manifest.value), job))
  }

  ghost predicate BlockedIn(rs: seq<Record>, job: Job) {
    Last(rs, job).Some? && Blocking(Last(rs, job).value)
  }

  ghost predicate CountsOk(decisive: map<Job, nat>) { forall job :: Count(decisive, job) <= 1 }

  ghost predicate DistinctJobs(jobs: seq<Job>) { forall i, j :: 0 <= i < j < |jobs| ==> jobs[i] != jobs[j] }

  ghost predicate RecordsOk(records: seq<Option<Record>>, jobs: seq<Job>) {
    && |records| == |jobs|
    && forall i ::
         0 <= i < |jobs| && records[i].Some? ==> records[i].value.job == jobs[i] && Acceptable(records[i].value)
  }

  ghost predicate UnresolvedOk(unresolved: map<Job, Record>) {
    forall job :: job in unresolved ==> unresolved[job].job == job && 0 < unresolved[job].attempts
  }

  /** In memory a decisive job is blocked by its own record, or by the history if this run did not select it. */
  ghost predicate MemoryOk(records: seq<Option<Record>>, jobs: seq<Job>, history: seq<Record>, decisive: map<Job, nat>)
    requires |records| == |jobs|
  {
    && (forall i :: 0 <= i < |jobs| && 0 < Count(decisive, jobs[i]) ==> records[i].Some? && Blocking(records[i].value))
    && (forall job :: job !in jobs && 0 < Count(decisive, job) ==> BlockedIn(history, job))
  }

  /** A job no worker has reached yet, but with a decisive call, will be passed over. */
  ghost predicate AheadOk(records: seq<Option<Record>>, jobs: seq<Job>, nextJob: nat, decisive: map<Job, nat>)
    requires |records| == |jobs|
  {
    forall i :: nextJob <= i < |jobs| && 0 < Count(decisive, jobs[i]) ==> records[i].Some? && Settled(records[i].value)
  }

  ghost predicate WorkerInv(worker: Worker, jobs: seq<Job>, nextJob: nat, decisive: map<Job, nat>) {
    Busy(worker) ==>
      && worker.i < |jobs| && worker.i < nextJob
      && var count := Count(decisive, jobs[worker.i]);
         match worker
         case Starting(_, attempt) => count == 0 && 0 < attempt
         case Calling(_, attempt) => count == 1 && 0 < attempt
         case Synthesized(_, attempt, _) => count == 1 && 0 < attempt
         case ArtifactDue(i, attempt, record) =>
           0 < attempt && record.job == jobs[i] && Acceptable(record) && record.status == PendingArtifact
         case ArtifactWritten(i, attempt, record) =>
           0 < attempt && record.job == jobs[i] && Acceptable(record) && record.status == PendingArtifact
         case Settling(i, record) => record.job == jobs[i] && Acceptable(record) && (0 < count ==> Blocking(record))
         case _ => true
  }

  ghost predicate WorkersOk(workers: seq<Worker>, jobs: seq<Job>, nextJob: nat, decisive: map<Job, nat>) {
    && (forall w :: 0 <= w < |workers| ==> WorkerInv(workers[w], jobs, nextJob, decisive))
    && (forall v, w :: 0 <= v < w < |workers| && Busy(workers[v]) && Busy(workers[w]) ==> workers[v].i != workers[w].i)
  }

  ghost predicate RunOk(run: Run, decisive: map<Job, nat>) {
    && DistinctJobs(run.jobs) && RecordsOk(run.records, run.jobs) && UnresolvedOk(run.unresolved)
    && Distinct(run.history) && AllAcceptable(run.history)
    && MemoryOk(run.records, run.jobs, run.history, decisive)
    && AheadOk(run.records, run.jobs, run.nextJob, decisive)
    && WorkersOk(run.workers, run.jobs, run.nextJob, decisive)
  }

  ghost predicate Inv(s: State) {
    CountsOk(s.decisive) && DiskOk(s.manifest, s.decisive) && (s.run.Some? ==> RunOk(s.run.value, s.decisive))
  }

  // ----- The manifest of a snapshot -----

  lemma PresentLast(records: seq<Option<Record>>, jobs: seq<Job>, job: Job)
    requires DistinctJobs(jobs) && RecordsOk(records, jobs)
    ensures job !in jobs ==> Last(Present(records), job).None?
    ensures forall i :: 0 <= i < |jobs| && jobs[i] == job ==> Last(Present(records), job) == records[i]
  {
    if job in jobs {
      var i :| 0 <= i < |jobs| && jobs[i] == job;
      LastPresent(records, jobs, i);
    } else {
      LastAbsent(records, job);
    }
  }

  /** A snapshot says of a job what its present record says, else what the history said. */
  lemma SnapshotSays(
    writeAudio: bool, history: seq<Record>, present: seq<Record>, records: seq<Option<Record>>, job: Job)
    requires present == Present(records)
    ensures Last(Values(Snapshot(writeAudio, history, records)), job) ==
      if Last(present, job).Some? then Last(present, job) else Last(history, job)
  {
    MergedLast(history, present);
    LastOfConcat(PutAll(PutAll([], history), present), present, job);
  }

  lemma SnapshotLast(
    writeAudio: bool, history: seq<Record>, records: seq<Option<Record>>, jobs: seq<Job>, job: Job)
    requires DistinctJobs(jobs) && RecordsOk(records, jobs)
    ensures var values := Values(Snapshot(writeAudio, history, records));
      && (job !in jobs ==> Last(values, job) == Last(history, job))
      && (forall i :: 0 <= i < |jobs| && jobs[i] == job && records[i].Some? ==> Last(values, job) == records[i])
  {
    PresentLast(records, jobs, job);
    SnapshotSays(writeAudio, history, Present(records), records, job);
  }

  lemma SnapshotAcceptable(writeAudio: bool, history: seq<Record>, records: seq<Option<Record>>, jobs: seq<Job>)
    requires RecordsOk(records, jobs) && Distinct(history) && AllAcceptable(history)
    ensures AllAcceptable(Values(Snapshot(writeAudio, history, records)))
  {
    var present, base := Present(records), PutAll([], history);
    PutAllIsDistinct(history);
    forall r | r in Values(Snapshot(writeAudio, history, records)) ensures Acceptable(r) {
      if r in present {
        PresentComesFrom(records, r);
      } else {
        PutAllComesFrom(base, present, r);
        PutAllComesFrom([], history, r);
      }
    }
  }

  /** Whatever a worker persists, the manifest blocks every job that memory blocks. */
  lemma SnapshotIsOk(run: Run, decisive: map<Job, nat>)
    requires DistinctJobs(run.jobs) && RecordsOk(run.records, run.jobs) && Distinct(run.history)
    requires AllAcceptable(run.history)
    requires MemoryOk(run.records, run.jobs, run.history, decisive)
    ensures DiskOk(Some(Snapshot(run.writeAudio, run.history, run.records)), decisive)
  {
    SnapshotAcceptable(run.writeAudio, run.history, run.records, run.jobs);
    forall job | 0 < Count(decisive, job)
      ensures BlockedIn(Values(Snapshot(run.writeAudio, run.history, run.records)), job)
    {
      SnapshotLast(run.writeAudio, run.history, run.records, run.jobs, job);
      if job in run.jobs {
        var i :| 0 <= i < |run.jobs| && run.jobs[i] == job;
      }
    }
  }

  // ----- Records that workers write -----

  lemma CarryKeeps(run: Run, r: Record)
    requires UnresolvedOk(run.unresolved) && Acceptable(r)
    ensures var c := WithHistory(run, r); c.job == r.job && Acceptable(c) && (Blocking(r) ==> Blocking(c))
    ensures r.status != Failed ==> WithHistory(run, r).status == r.status
  {
  }

  lemma ThrownSettles(run: Run, i: nat, attempt: int)
    requires UnresolvedOk(run.unresolved) && i < |run.jobs| && 0 < attempt
    ensures var r := Thrown(run, i, attempt).record; r.job == run.jobs[i] && Acceptable(r) && Blocking(r)
  {
    CarryKeeps(
      run,
      Base(run.jobs[i], Unknown, attempt)
        .(hasAudioArtifact := None, retrySafe := false, error := Some("write failed")));
  }

  // ----- Every step keeps the invariant -----

  lemma MoveKeeps(s: State, run: Run, w: nat, worker: Worker)
    requires Inv(s) && s.run == Some(run) && w < |run.workers| && WorkerInv(worker, run.jobs, run.nextJob, s.decisive)
    requires Busy(worker) ==> Busy(run.workers[w]) && worker.i == run.workers[w].i
    ensures Inv(s.(run := Some(Move(run, w, worker))))
  {
    var workers := run.workers[w := worker];
    assert WorkersOk(workers, run.jobs, run.nextJob, s.decisive);
  }

  /** Storing an acceptable record that blocks its job if it must, and persisting it or failing to. */
  lemma CheckpointKeeps(s: State, run: Run, i: nat, record: Record, persisted: bool)
    requires Inv(s) && s.run == Some(run) && i < |run.records| && i < run.nextJob
    requires record.job == run.jobs[i] && Acceptable(record)
    requires (0 < Count(s.decisive, run.jobs[i]) ==> Blocking(record))
    ensures Inv(Checkpoint(s, run, i, record, persisted))
  {
    var after := run.(records := run.records[i := Some(record)]);
    assert RecordsOk(after.records, after.jobs);
    assert MemoryOk(after.records, after.jobs, after.history, s.decisive);
    assert AheadOk(after.records, after.jobs, after.nextJob, s.decisive);
    if persisted { SnapshotIsOk(after, s.decisive); }
  }

  /** What a run may rely on about one job after reading back a manifest. */
  ghost predicate Resumed(prior: ResumeState, jobs: seq<Job>, decisive: map<Job, nat>, job: Job) {
    && (0 < Count(decisive, job) ==> BlockedIn(prior.history, job))
    && (0 < Count(decisive, job) && job in jobs ==>
          SelectOne(prior, job).Some? && Settled(SelectOne(prior, job).value))
    && (SelectOne(prior, job).Some? ==>
          SelectOne(prior, job).value.job == job && Acceptable(SelectOne(prior, job).value))
    && (job in prior.unresolved ==> prior.unresolved[job].job == job && Acceptable(prior.unresolved[job]))
  }

  lemma ReadBackResumes(
    m: Manifest, wavs: Artifacts, jobs: seq<Job>, writeAudio: bool, decisive: map<Job, nat>, job: Job)
    requires DiskOk(Some(m), decisive)
    ensures ReadBack(m, wavs, jobs, writeAudio).Some?
    ensures var prior := ReadBack(m, wavs, jobs, writeAudio).value;
      Distinct(prior.history) && AllAcceptable(prior.history) && Resumed(prior, jobs, decisive, job)
  {
    ReadBackBlocks(m, wavs, jobs, writeAudio, job);
  }

  lemma ResumedRecords(prior: ResumeState, jobs: seq<Job>, decisive: map<Job, nat>)
    requires forall job :: Resumed(prior, jobs, decisive, job)
    ensures var records := Select(jobs, prior);
      && RecordsOk(records, jobs) && MemoryOk(records, jobs, prior.history, decisive)
      && AheadOk(records, jobs, 0, decisive)
    ensures UnresolvedOk(prior.unresolved)
  {
    var records := Select(jobs, prior);
    forall i | 0 <= i < |jobs|
      ensures records[i].Some? ==> records[i].value.job == jobs[i] && Acceptable(records[i].value)
      ensures 0 < Count(decisive, jobs[i]) ==> records[i].Some? && Settled(records[i].value)
    {
      assert Resumed(prior, jobs, decisive, jobs[i]);
    }
    forall job | job !in jobs && 0 < Count(decisive, job) ensures BlockedIn(prior.history, job) {
      assert Resumed(prior, jobs, decisive, job);
    }
    forall job | job in prior.unresolved
      ensures prior.unresolved[job].job == job && 0 < prior.unresolved[job].attempts
    {
      assert Resumed(prior, jobs, decisive, job);
    }
  }

  lemma StartKeeps(s: State, jobs: seq<Job>, writeAudio: bool, retries: nat, workers: nat)
    requires Inv(s) && s.run.None? && DistinctJobs(jobs)
    ensures Inv(StartRun(s, jobs, writeAudio, retries, workers))
    ensures StartRun(s, jobs, writeAudio, retries, workers).run.Some?
  {
    if s.manifest.Some? {
      var m := s.manifest.value;
      forall job
        ensures ReadBack(m, s.wavs, jobs, writeAudio).Some?
        ensures Resumed(ReadBack(m, s.wavs, jobs, writeAudio).value, jobs, s.decisive, job)
      {
        ReadBackResumes(m, s.wavs, jobs, writeAudio, s.decisive, job);
      }
      ReadBackResumes(m, s.wavs, jobs, writeAudio, s.decisive, Job("", Rest, "", "", ""));
      ResumedRecords(ReadBack(m, s.wavs, jobs, writeAudio).value, jobs, s.decisive);
    } else {
      ResumedRecords(ResumeState(map[], map[], []), jobs, s.decisive);
    }
  }

  /** The next job is free for the taking: no worker is on it, and no decisive call was made for it unless its
      record is settled. */
  lemma AdvanceKeeps(s: State, run: Run)
    requires Inv(s) && s.run == Some(run)
    ensures Inv(s.(run := Some(run.(nextJob := run.nextJob + 1))))
    ensures forall v :: 0 <= v < |run.workers| && Busy(run.workers[v]) ==> run.workers[v].i < run.nextJob
  {
    forall v | 0 <= v < |run.workers|
      ensures WorkerInv(run.workers[v], run.jobs, run.nextJob + 1, s.decisive)
      ensures Busy(run.workers[v]) ==> run.workers[v].i < run.nextJob {
      assert WorkerInv(run.workers[v], run.jobs, run.nextJob, s.decisive);
    }
  }

  lemma EngageKeeps(s: State, run: Run, w: nat, i: nat)
    requires Inv(s) && s.run == Some(run) && w < |run.workers| && i < |run.jobs| && i < run.nextJob
    requires forall v :: 0 <= v < |run.workers| && Busy(run.workers[v]) ==> run.workers[v].i != i
    requires Count(s.decisive, run.jobs[i]) == 0
    ensures Inv(s.(run := Some(Move(run, w, Starting(i, 1)))))
  {
    var workers := run.workers[w := Starting(i, 1)];
    assert WorkersOk(workers, run.jobs, run.nextJob, s.decisive);
  }

  lemma TakeKeeps(s: State, run: Run, w: nat)
    requires Inv(s) && s.run == Some(run) && w < |run.workers| && run.workers[w].Idle?
    ensures Inv(s.(run := Some(TakeJob(run, w))))
  {
    AdvanceKeeps(s, run);
    var i, next := run.nextJob, run.(nextJob := run.nextJob + 1);
    var t := s.(run := Some(next));
    if i >= |run.jobs| {
      MoveKeeps(t, next, w, Stopped);
    } else if !(run.records[i].Some? && Settled(run.records[i].value)) {
      EngageKeeps(t, next, w, i);
    }
  }

  /** Changing the count of one job leaves the others alone; `w` is the only worker on that job. */
  lemma RecountWorkers(
    workers: seq<Worker>, jobs: seq<Job>, nextJob: nat, decisive: map<Job, nat>, w: nat, worker: Worker, count: nat)
    requires DistinctJobs(jobs) && WorkersOk(workers, jobs, nextJob, decisive) && w < |workers| && Busy(workers[w])
    requires Busy(worker) && worker.i == workers[w].i && worker.i < |jobs|
    requires WorkerInv(worker, jobs, nextJob, decisive[jobs[worker.i] := count])
    ensures WorkersOk(workers[w := worker], jobs, nextJob, decisive[jobs[worker.i] := count])
  {
    var after := workers[w := worker];
    forall v | 0 <= v < |after| ensures WorkerInv(after[v], jobs, nextJob, decisive[jobs[worker.i] := count]) {
      assert WorkerInv(workers[v], jobs, nextJob, decisive);
    }
  }

  lemma RecountDisk(manifest: Option<Manifest>, decisive: map<Job, nat>, job: Job, count: nat)
    requires DiskOk(manifest, decisive)
    requires 0 < count ==> manifest.Some? && BlockedIn(Values(manifest.value), job)
    ensures DiskOk(manifest, decisive[job := count])
  {
    var after := decisive[job := count];
    forall j | 0 < Count(after, j) ensures manifest.Some? && BlockedIn(Values(manifest.value), j) {
      if j != job { assert Count(after, j) == Count(decisive, j); }
    }
    assert DiskOk(manifest, after);
  }

  lemma RecountKeeps(s: State, run: Run, w: nat, worker: Worker, count: nat)
    requires Inv(s) && s.run == Some(run) && w < |run.workers| && Busy(run.workers[w])
    requires Busy(worker) && worker.i == run.workers[w].i && count <= 1
    requires worker.i < |run.jobs| && WorkerInv(worker, run.jobs, run.nextJob, s.decisive[run.jobs[worker.i] := count])
    requires 0 < count ==>
      && run.records[worker.i].Some? && Blocking(run.records[worker.i].value)
      && s.manifest.Some? && BlockedIn(Values(s.manifest.value), run.jobs[worker.i])
    ensures Inv(s.(run := Some(Move(run, w, worker)), decisive := s.decisive[run.jobs[worker.i] := count]))
  {
    var job := run.jobs[worker.i];
    var decisive := s.decisive[job := count];
    assert WorkerInv(run.workers[w], run.jobs, run.nextJob, s.decisive);
    RecountWorkers(run.workers, run.jobs, run.nextJob, s.decisive, w, worker, count);
    RecountDisk(s.manifest, s.decisive, job, count);
    assert forall j :: Count(decisive, j) == if j == job then count else Count(s.decisive, j);
    assert MemoryOk(run.records, run.jobs, run.history, decisive);
    assert AheadOk(run.records, run.jobs, run.nextJob, decisive);
  }

  /** A stored record of a job is the one that the next reader of the manifest finds for it. */
  lemma StoredIsDurable(s: State, run: Run, i: nat, record: Record)
    requires RunOk(run, s.decisive) && i < |run.records| && record.job == run.jobs[i] && Acceptable(record)
    ensures Last(Values(Checkpoint(s, run, i, record, true).manifest.value), record.job) == Some(record)
  {
    var records := run.records[i := Some(record)];
    SnapshotLast(run.writeAudio, run.history, records, run.jobs, record.job);
    assert records[i] == Some(record);
  }

  /** The in-flight record is durable before the provider is called. */
  lemma CallKeeps(s: State, run: Run, w: nat, record: Record)
    requires Inv(s) && s.run == Some(run) && w < |run.workers| && run.workers[w].Starting?
    requires run.workers[w].i < |run.records|
    requires WorkerInv(run.workers[w], run.jobs, run.nextJob, s.decisive)
    requires record.job == run.jobs[run.workers[w].i] && Acceptable(record) && record.status == InFlight
    ensures Inv(CallStarted(s, run, w, record))
  {
    var Starting(i, attempt) := run.workers[w];
    CheckpointKeeps(s, run, i, record, true);
    StoredIsDurable(s, run, i, record);
    var t := Checkpoint(s, run, i, record, true);
    RecountKeeps(t, t.run.value, w, Calling(i, attempt), 1);
    var u := t.(run := Some(Move(t.run.value, w, Calling(i, attempt))), decisive := s.decisive[record.job := 1]);
    CallsAreFree(u, Called(s.calls, record.job, s.runs, attempt));
    assert CallStarted(s, run, w, record) == u.(calls := Called(s.calls, record.job, s.runs, attempt));
  }

  /** The history of calls is no part of the invariant. */
  lemma CallsAreFree(s: State, calls: map<Job, seq<Call>>)
    requires Inv(s)
    ensures Inv(s.(calls := calls))
  {
  }

  /** A run that cannot persist the in-flight record makes no call. */
  lemma NoCallKeeps(s: State, run: Run, w: nat, record: Record)
    requires Inv(s) && s.run == Some(run) && w < |run.workers| && run.workers[w].Starting?
    requires run.workers[w].i < |run.records|
    requires WorkerInv(run.workers[w], run.jobs, run.nextJob, s.decisive)
    requires record.job == run.jobs[run.workers[w].i] && Acceptable(record) && record.status == InFlight
    ensures Inv(CallPrevented(s, run, w, record))
  {
    var i := run.workers[w].i;
    var worker := Thrown(run, i, run.retries + 1);
    ThrownSettles(run, i, run.retries + 1);
    MoveKeeps(s, run, w, worker);
    CheckpointKeeps(s.(run := Some(Move(run, w, worker))), Move(run, w, worker), i, record, false);
  }

  lemma BeginKeeps(s: State, run: Run, w: nat, persisted: bool)
    requires Inv(s) && s.run == Some(run) && w < |run.workers| && run.workers[w].Starting?
    requires run.workers[w].i < |run.jobs|
    requires run.workers[w].i < |run.records|
    ensures Inv(BeginStep(s, run, w, persisted))
  {
    assert WorkerInv(run.workers[w], run.jobs, run.nextJob, s.decisive);
    var base := Base(run.jobs[run.workers[w].i], InFlight, run.workers[w].attempt);
    CarryKeeps(run, base);
    var record := WithHistory(run, base);
    if persisted {
      CallKeeps(s, run, w, record);
    } else {
      NoCallKeeps(s, run, w, record);
    }
  }

  lemma EndKeeps(s: State, run: Run, w: nat, outcome: Outcome)
    requires Inv(s) && s.run == Some(run) && w < |run.workers| && run.workers[w].Calling?
    requires run.workers[w].i < |run.jobs|
    ensures Inv(EndStep(s, run, w, outcome))
  {
    var Calling(i, attempt) := run.workers[w];
    assert WorkerInv(run.workers[w], run.jobs, run.nextJob, s.decisive);
    match outcome
    case Success(metrics) => MoveKeeps(s, run, w, Synthesized(i, attempt, metrics));
    case Error(e) =>
      var r := Base(run.jobs[i], if IsAmbiguous(e) then Unknown else Failed, attempt)
                 .(hasAudioArtifact := None, retrySafe := !IsAmbiguous(e), error := Some(e.message));
      CarryKeeps(run, r);
      var worker := AfterError(run, i, attempt, e);
      if IsAmbiguous(e) {
        MoveKeeps(s, run, w, worker);
      } else {
        RecountKeeps(s, run, w, worker, 0);
      }
  }

  lemma CompleteKeeps(s: State, run: Run, w: nat, persisted: bool)
    requires Inv(s) && s.run == Some(run) && w < |run.workers| && run.workers[w].Synthesized?
    requires run.workers[w].i < |run.records| && run.workers[w].i < |run.jobs|
    ensures Inv(CompleteStep(s, run, w, persisted))
  {
    var Synthesized(i, attempt, metrics) := run.workers[w];
    assert WorkerInv(run.workers[w], run.jobs, run.nextJob, s.decisive);
    CarryKeeps(run, Base(run.jobs[i], if run.writeAudio then PendingArtifact else Passed, attempt)
                      .(hasAudioArtifact := Some(run.writeAudio), metrics := Some(metrics)));
    var record := Completed(run, run.jobs[i], attempt, metrics);
    ThrownSettles(run, i, attempt);
    var worker := if !run.writeAudio then Settling(i, record)
                  else if persisted then ArtifactDue(i, attempt, record) else Thrown(run, i, attempt);
    MoveKeeps(s, run, w, worker);
    if run.writeAudio {
      CheckpointKeeps(s.(run := Some(Move(run, w, worker))), Move(run, w, worker), i, record, persisted);
    }
  }

  lemma ArtifactKeeps(s: State, run: Run, w: nat, written: bool)
    requires Inv(s) && s.run == Some(run) && w < |run.workers| && run.workers[w].ArtifactDue?
    requires run.workers[w].i < |run.jobs|
    ensures Inv(ArtifactStep(s, run, w, written))
  {
    var ArtifactDue(i, attempt, record) := run.workers[w];
    assert WorkerInv(run.workers[w], run.jobs, run.nextJob, s.decisive);
    ThrownSettles(run, i, attempt);
    MoveKeeps(s, run, w, if written then ArtifactWritten(i, attempt, record) else Thrown(run, i, attempt));
  }

  lemma FinishArtifactKeeps(s: State, run: Run, w: nat, persisted: bool)
    requires Inv(s) && s.run == Some(run) && w < |run.workers| && run.workers[w].ArtifactWritten?
    requires run.workers[w].i < |run.records| && run.workers[w].i < |run.jobs|
    ensures Inv(FinishArtifactStep(s, run, w, persisted))
  {
    var ArtifactWritten(i, attempt, record) := run.workers[w];
    assert WorkerInv(run.workers[w], run.jobs, run.nextJob, s.decisive);
    ThrownSettles(run, i, attempt);
    var worker := if persisted then Idle else Thrown(run, i, attempt);
    MoveKeeps(s, run, w, worker);
    CheckpointKeeps(
      s.(run := Some(Move(run, w, worker))), Move(run, w, worker), i, record.(status := Passed), persisted);
  }

  lemma SettleKeeps(s: State, run: Run, w: nat, persisted: bool)
    requires Inv(s) && s.run == Some(run) && w < |run.workers| && run.workers[w].Settling?
    requires run.workers[w].i < |run.records|
    ensures Inv(SettleStep(s, run, w, persisted))
  {
    var Settling(i, record) := run.workers[w];
    assert WorkerInv(run.workers[w], run.jobs, run.nextJob, s.decisive);
    var worker := if persisted then Idle else Stopped;
    MoveKeeps(s, run, w, worker);
    CheckpointKeeps(s.(run := Some(Move(run, w, worker))), Move(run, w, worker), i, record, persisted);
  }

  lemma StepKeeps(s: State, a: Action)
    requires Inv(s) && Enabled(s, a)
    ensures Inv(Step(s, a))
  {
    match a
    case Start(jobs, writeAudio, retries, workers) => StartKeeps(s, jobs, writeAudio, retries, workers);
    case Take(w) => TakeKeeps(s, s.run.value, w);
    case BeginAttempt(w, persisted) => BeginKeeps(s, s.run.value, w, persisted);
    case EndCall(w, outcome) => EndKeeps(s, s.run.value, w, outcome);
    case Complete(w, persisted) => CompleteKeeps(s, s.run.value, w, persisted);
    case WriteArtifact(w, written) => ArtifactKeeps(s, s.run.value, w, written);
    case FinishArtifact(w, persisted) => FinishArtifactKeeps(s, s.run.value, w, persisted);
    case Settle(w, persisted) => SettleKeeps(s, s.run.value, w, persisted);
    case Finish => SnapshotIsOk(s.run.value, s.decisive);
    case Crash =>
    case Tamper(_, _) =>
  }

  lemma {:induction false} RunsKeep(s: State, actions: seq<Action>)
    requires Inv(s) && Legal(s, actions)
    ensures Inv(After(s, actions))
    decreases |actions|
  {
    if actions != [] {
      StepKeeps(s, actions[0]);
      RunsKeep(Step(s, actions[0]), actions[1..]);
    }
  }

  // ----- A settled job -----

  /** Job `i` of the run has a settled record and no worker. */
  ghost predicate AtRest(run: Run, i: nat) {
    && i < |run.jobs| == |run.records| && DistinctJobs(run.jobs)
    && run.records[i].Some? && Settled(run.records[i].value)
    && forall w :: 0 <= w < |run.workers| && Busy(run.workers[w]) ==> run.workers[w].i != i
  }

  /** From `s` to `t` job `i` had no call started or ended, and its record is the same for as long as the run lasts. */
  ghost predicate LeftAlone(s: State, t: State, job: Job, i: nat, record: Option<Record>) {
    && Count(t.decisive, job) == Count(s.decisive, job) && CallsOf(t.calls, job) == CallsOf(s.calls, job)
    && (t.run.Some? ==> AtRest(t.run.value, i) && t.run.value.jobs[i] == job && t.run.value.records[i] == record)
  }

  /** A worker that is not on job `i` may move and store its own job's record. */
  lemma RestSurvives(run: Run, w: nat, worker: Worker, k: nat, record: Option<Record>, nextJob: nat, i: nat)
    requires AtRest(run, i) && w < |run.workers| && k < |run.records| && k != i && (Busy(worker) ==> worker.i != i)
    ensures AtRest(run.(workers := run.workers[w := worker]), i)
    ensures AtRest(
              run.(workers := run.workers[w := worker], records := run.records[k := record], nextJob := nextJob), i)
  {
    var workers := run.workers[w := worker];
    forall v | 0 <= v < |workers| && Busy(workers[v]) ensures workers[v].i != i {
      if v != w { assert workers[v] == run.workers[v]; }
    }
  }

  lemma RestTake(s: State, run: Run, w: nat, job: Job, i: nat, record: Option<Record>)
    requires LeftAlone(s, s, job, i, record) && s.run == Some(run) && w < |run.workers|
    ensures LeftAlone(s, s.(run := Some(TakeJob(run, w))), job, i, record)
  {
    var k := run.nextJob;
    if k != i && k < |run.jobs| {
      RestSurvives(run, w, Starting(k, 1), k, run.records[k], k + 1, i);
      assert run.records[k := run.records[k]] == run.records;
    }
  }

  lemma RestCall(s: State, run: Run, w: nat, stored: Record, job: Job, i: nat, record: Option<Record>)
    requires LeftAlone(s, s, job, i, record) && s.run == Some(run) && w < |run.workers| && run.workers[w].Starting?
    requires run.workers[w].i < |run.records| && run.workers[w].i < |run.jobs|
    requires stored.job == run.jobs[run.workers[w].i]
    ensures LeftAlone(s, CallStarted(s, run, w, stored), job, i, record)
  {
    var Starting(k, attempt) := run.workers[w];
    RestSurvives(run, w, Calling(k, attempt), k, Some(stored), run.nextJob, i);
  }

  lemma RestNoCall(s: State, run: Run, w: nat, stored: Record, job: Job, i: nat, record: Option<Record>)
    requires LeftAlone(s, s, job, i, record) && s.run == Some(run) && w < |run.workers| && run.workers[w].Starting?
    requires run.workers[w].i < |run.records| && run.workers[w].i < |run.jobs|
    ensures LeftAlone(s, CallPrevented(s, run, w, stored), job, i, record)
  {
    var k := run.workers[w].i;
    RestSurvives(run, w, Thrown(run, k, run.retries + 1), k, Some(stored), run.nextJob, i);
  }

  lemma WithHistoryKeepsJob(run: Run, record: Record)
    ensures WithHistory(run, record).job == record.job
  {
  }

  lemma RestBegin(s: State, run: Run, w: nat, persisted: bool, job: Job, i: nat, record: Option<Record>)
    requires LeftAlone(s, s, job, i, record) && s.run == Some(run) && w < |run.workers| && run.workers[w].Starting?
    requires run.workers[w].i < |run.records| && run.workers[w].i < |run.jobs|
    ensures LeftAlone(s, BeginStep(s, run, w, persisted), job, i, record)
  {
    var base := Base(run.jobs[run.workers[w].i], InFlight, run.workers[w].attempt);
    WithHistoryKeepsJob(run, base);
    var stored := WithHistory(run, base);
    if persisted {
      RestCall(s, run, w, stored, job, i, record);
    } else {
      RestNoCall(s, run, w, stored, job, i, record);
    }
  }

  lemma RestEnd(s: State, run: Run, w: nat, outcome: Outcome, job: Job, i: nat, record: Option<Record>)
    requires LeftAlone(s, s, job, i, record) && s.run == Some(run) && w < |run.workers| && run.workers[w].Calling?
    requires run.workers[w].i < |run.jobs|
    ensures LeftAlone(s, EndStep(s, run, w, outcome), job, i, record)
  {
    var Calling(k, attempt) := run.workers[w];
    var worker := match outcome
      case Success(metrics) => Synthesized(k, attempt, metrics)
      case Error(e) => AfterError(run, k, attempt, e);
    RestSurvives(run, w, worker, k, run.records[k], run.nextJob, i);
  }

  /** The steps that neither start nor end a call. */
  lemma RestStore(s: State, a: Action, run: Run, w: nat, job: Job, i: nat, record: Option<Record>)
    requires LeftAlone(s, s, job, i, record) && s.run == Some(run) && Enabled(s, a) && w < |run.workers|
    requires (a.Complete? || a.FinishArtifact? || a.Settle?) && a.w == w
    ensures LeftAlone(s, Step(s, a), job, i, record)
  {
    var k, after := run.workers[w].i, Step(s, a).run.value;
    RestSurvives(run, w, after.workers[w], k, after.records[k], run.nextJob, i);
  }

  lemma RestArtifact(s: State, run: Run, w: nat, written: bool, job: Job, i: nat, record: Option<Record>)
    requires LeftAlone(s, s, job, i, record) && s.run == Some(run) && w < |run.workers| && run.workers[w].ArtifactDue?
    requires run.workers[w].i < |run.jobs|
    ensures LeftAlone(s, ArtifactStep(s, run, w, written), job, i, record)
  {
    var k, after := run.workers[w].i, ArtifactStep(s, run, w, written).run.value;
    RestSurvives(run, w, after.workers[w], k, run.records[k], run.nextJob, i);
  }

  lemma RestGoesOn(s: State, a: Action, job: Job, i: nat, record: Option<Record>)
    requires LeftAlone(s, s, job, i, record) && Enabled(s, a) && !a.Start?
    ensures LeftAlone(s, Step(s, a), job, i, record)
  {
    match a
    case Take(w) => RestTake(s, s.run.value, w, job, i, record);
    case BeginAttempt(w, persisted) => RestBegin(s, s.run.value, w, persisted, job, i, record);
    case EndCall(w, outcome) => RestEnd(s, s.run.value, w, outcome, job, i, record);
    case Complete(w, _) => RestStore(s, a, s.run.value, w, job, i, record);
    case WriteArtifact(w, written) => RestArtifact(s, s.run.value, w, written, job, i, record);
    case FinishArtifact(w, _) => RestStore(s, a, s.run.value, w, job, i, record);
    case Settle(w, _) => RestStore(s, a, s.run.value, w, job, i, record);
    case Finish =>
    case Crash =>
    case Tamper(_, _) =>
  }

  /** A settled job stays out of reach of every worker, whatever the run does: no call of it starts or ends, and its
      record is not written again. */
  lemma {:induction false} SettledIsLeftAlone(s: State, actions: seq<Action>, job: Job, i: nat, record: Option<Record>)
    requires LeftAlone(s, s, job, i, record) && Legal(s, actions) && forall a :: a in actions ==> !a.Start?
    ensures LeftAlone(s, After(s, actions), job, i, record)
    decreases |actions|
  {
    if actions != [] {
      RestGoesOn(s, actions[0], job, i, record);
      SettledIsLeftAlone(Step(s, actions[0]), actions[1..], job, i, record);
    }
  }
}
