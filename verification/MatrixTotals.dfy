/** Attempts: how a job's record adds them up over its runs, and that the totals never fall short of the calls made. */
module MatrixTotals {
  import opened Wrappers
  import opened MatrixRecords
  import opened MatrixProtocol
  import opened MatrixHistory

  // ----- The record carried over several runs -----

  /** A record as one run writes it by itself. */
  predicate OfOneRun(r: Record) {
    && 0 < r.attempts && r.lastRunAttempts == Some(r.attempts)
    && r.priorUnknownAttempts.None? && r.priorUnknownError.None?
  }

  /** The record after each run in turn has carried the one before. */
  function CarryAll(rs: seq<Record>): Record
    requires rs != []
  {
    var n := |rs| - 1;
    if n == 0 then rs[0] else CarryHistory(CarryAll(rs[..n]), rs[n])
  }

  function Attempts(rs: seq<Record>): int {
    if rs == [] then 0 else Attempts(rs[..|rs| - 1]) + rs[|rs| - 1].attempts
  }

  /** The job was left unknown: by the last run, or by an earlier one if only failures followed. */
  predicate LeftUnknown(rs: seq<Record>) {
    && rs != []
    && var n := |rs| - 1;
       rs[n].status == Unknown || (rs[n].status == Failed && LeftUnknown(rs[..n]))
  }

  /** The attempts of the runs before the last one that left the job unknown. */
  function UnknownAttempts(rs: seq<Record>): int {
    if |rs| <= 1 then 0
    else
      var front := rs[..|rs| - 1];
      UnknownAttempts(front) + if LeftUnknown(front) then front[|front| - 1].attempts else 0
  }

  /** The error of the last run, before the last one, after which the job was left unknown. */
  function UnknownError(rs: seq<Record>): Option<string> {
    if |rs| <= 1 then None
    else
      var front := rs[..|rs| - 1];
      if LeftUnknown(front) then front[|front| - 1].error else UnknownError(front)
  }

  lemma {:induction false} UnknownAttemptsArePositive(rs: seq<Record>)
    requires forall r :: r in rs ==> OfOneRun(r)
    ensures 0 <= UnknownAttempts(rs)
  {
    if |rs| > 1 {
      var front := rs[..|rs| - 1];
      assert rs[|front| - 1] in rs;
      UnknownAttemptsArePositive(front);
    }
  }

  /** Totals are sums; a job that was left unknown stays unknown when it only fails, and is not safe to retry then;
      everything else is as the last run says. */
  lemma {:induction false} CarriedTotals(rs: seq<Record>)
    requires rs != [] && forall r :: r in rs ==> OfOneRun(r)
    ensures var c, last := CarryAll(rs), rs[|rs| - 1];
      && c.attempts == Attempts(rs) && c.lastRunAttempts == Some(last.attempts)
      && c.priorUnknownAttempts == (if UnknownAttempts(rs) > 0 then Some(UnknownAttempts(rs)) else None)
      && (c.status == Unknown <==> LeftUnknown(rs)) && (c.status != Unknown ==> c.status == last.status)
      && (last.status == Failed && LeftUnknown(rs) ==> !c.retrySafe)
      && (last.status == Failed && !LeftUnknown(rs) ==> c.retrySafe == last.retrySafe)
      && c.job == last.job && c.metrics == last.metrics && c.hasAudioArtifact == last.hasAudioArtifact
      && c.error == last.error && c.priorUnknownError == UnknownError(rs)
    decreases |rs|
  {
    var n := |rs| - 1;
    assert rs[n] in rs;
    if n == 0 {
      assert rs[..0] == [];
    } else {
      var front := rs[..n];
      CarriedTotals(front);
      UnknownAttemptsArePositive(front);
      assert front[n - 1] == rs[n - 1];
    }
  }

  // ----- Totals and calls -----

  /** The record counts every call of its job; `exact` says that it counts nothing else. */
  predicate Tally(attempts: int, cs: seq<Call>, exact: bool) {
    |cs| <= attempts && (exact ==> attempts == |cs|)
  }

  predicate LastTally(rs: seq<Record>, job: Job, cs: seq<Call>, exact: bool) {
    if Last(rs, job).Some? then Tally(Last(rs, job).value.attempts, cs, exact) else cs == []
  }

  ghost predicate DiskTally(manifest: Option<Manifest>, calls: map<Job, seq<Call>>, exact: bool) {
    forall job :: if manifest.Some? then LastTally(Values(manifest.value), job, CallsOf(calls, job), exact)
                  else CallsOf(calls, job) == []
  }

  /** The attempts that a run adds its own to. */
  function Prior(unresolved: map<Job, Record>, job: Job): int {
    if job in unresolved then unresolved[job].attempts else 0
  }

  ghost predicate RecordsTally(
    records: seq<Option<Record>>, jobs: seq<Job>, history: seq<Record>, calls: map<Job, seq<Call>>, exact: bool)
    requires |records| == |jobs|
  {
    && (forall i :: 0 <= i < |jobs| ==>
          if records[i].Some? then Tally(records[i].value.attempts, CallsOf(calls, jobs[i]), exact)
          else CallsOf(calls, jobs[i]) == [] && Last(history, jobs[i]).None?)
    && (forall job :: job !in jobs ==> LastTally(history, job, CallsOf(calls, job), exact))
  }

  ghost predicate AheadTally(run: Run, calls: map<Job, seq<Call>>, exact: bool)
    requires |run.records| == |run.jobs|
  {
    forall i :: run.nextJob <= i < |run.jobs| && !(run.records[i].Some? && Settled(run.records[i].value)) ==>
      Tally(Prior(run.unresolved, run.jobs[i]), CallsOf(calls, run.jobs[i]), exact)
  }

  /** What a worker's stage adds to the attempts before this run. */
  ghost predicate WorkerTally(worker: Worker, run: Run, calls: map<Job, seq<Call>>, exact: bool) {
    Busy(worker) && worker.i < |run.jobs| ==>
      var cs, prior := CallsOf(calls, run.jobs[worker.i]), Prior(run.unresolved, run.jobs[worker.i]);
      match worker
      case Starting(_, attempt) => Tally(prior + attempt - 1, cs, exact)
      case Calling(_, attempt) => Tally(prior + attempt, cs, exact)
      case Synthesized(_, attempt, _) => Tally(prior + attempt, cs, exact)
      case ArtifactDue(_, attempt, record) => Tally(prior + attempt, cs, exact) && Tally(record.attempts, cs, exact)
      case ArtifactWritten(_, attempt, record) => Tally(prior + attempt, cs, exact) && Tally(record.attempts, cs, exact)
      case Settling(_, record) => Tally(record.attempts, cs, exact)
      case _ => true
  }

  ghost predicate WorkersTally(run: Run, calls: map<Job, seq<Call>>, exact: bool) {
    forall w :: 0 <= w < |run.workers| ==> WorkerTally(run.workers[w], run, calls, exact)
  }

  ghost predicate RunTally(run: Run, calls: map<Job, seq<Call>>, exact: bool) {
    && |run.records| == |run.jobs| && RecordsTally(run.records, run.jobs, run.history, calls, exact)
    && AheadTally(run, calls, exact) && WorkersTally(run, calls, exact)
  }

  ghost predicate Tallied(s: State, exact: bool) {
    DiskTally(s.manifest, s.calls, exact) && (s.run.Some? ==> RunTally(s.run.value, s.calls, exact))
  }

  /** The in-flight checkpoint was written. */
  predicate Clean(a: Action) { a.BeginAttempt? ==> a.persisted }

  // ----- Steps -----

  lemma SnapshotTallies(run: Run, calls: map<Job, seq<Call>>, exact: bool)
    requires DistinctJobs(run.jobs) && RecordsOk(run.records, run.jobs)
    requires RecordsTally(run.records, run.jobs, run.history, calls, exact)
    ensures DiskTally(Some(Snapshot(run.writeAudio, run.history, run.records)), calls, exact)
  {
    var manifest := Snapshot(run.writeAudio, run.history, run.records);
    forall job ensures LastTally(Values(manifest), job, CallsOf(calls, job), exact) {
      PresentLast(run.records, run.jobs, job);
      SnapshotSays(run.writeAudio, run.history, Present(run.records), run.records, job);
      if job in run.jobs {
        var i :| 0 <= i < |run.jobs| && run.jobs[i] == job;
      }
    }
  }

  lemma CarriedAttempts(run: Run, r: Record)
    ensures WithHistory(run, r).attempts == Prior(run.unresolved, r.job) + r.attempts
    ensures WithHistory(run, r).job == r.job
  {
  }

  lemma MoveTallies(run: Run, w: nat, worker: Worker, calls: map<Job, seq<Call>>, exact: bool)
    requires RunTally(run, calls, exact) && w < |run.workers| && WorkerTally(worker, run, calls, exact)
    ensures RunTally(Move(run, w, worker), calls, exact)
  {
    var next := Move(run, w, worker);
    forall v | 0 <= v < |next.workers| ensures WorkerTally(next.workers[v], next, calls, exact) {
      assert v != w ==> WorkerTally(run.workers[v], run, calls, exact);
    }
  }

  lemma StoreTallies(run: Run, i: nat, record: Record, calls: map<Job, seq<Call>>, exact: bool)
    requires DistinctJobs(run.jobs) && RunTally(run, calls, exact) && i < |run.jobs| && i < run.nextJob
    requires Tally(record.attempts, CallsOf(calls, run.jobs[i]), exact)
    ensures RunTally(run.(records := run.records[i := Some(record)]), calls, exact)
  {
    var next := run.(records := run.records[i := Some(record)]);
    forall w | 0 <= w < |next.workers| ensures WorkerTally(next.workers[w], next, calls, exact) {
      assert WorkerTally(run.workers[w], run, calls, exact);
    }
  }

  lemma CheckpointTallies(s: State, run: Run, i: nat, record: Record, persisted: bool, exact: bool)
    requires DistinctJobs(run.jobs) && RecordsOk(run.records, run.jobs) && DiskTally(s.manifest, s.calls, exact)
    requires RunTally(run, s.calls, exact) && i < |run.records| && i < run.nextJob
    requires record.job == run.jobs[i] && Acceptable(record)
    requires Tally(record.attempts, CallsOf(s.calls, run.jobs[i]), exact)
    ensures Tallied(Checkpoint(s, run, i, record, persisted), exact)
  {
    StoreTallies(run, i, record, s.calls, exact);
    if persisted { SnapshotTallies(run.(records := run.records[i := Some(record)]), s.calls, exact); }
  }

  /** Only the number of calls matters. */
  lemma SameNumbers(s: State, calls: map<Job, seq<Call>>, exact: bool)
    requires Tallied(s, exact) && forall job :: |CallsOf(calls, job)| == |CallsOf(s.calls, job)|
    ensures Tallied(s.(calls := calls), exact)
  {
    forall job ensures CallsOf(calls, job) == [] <==> CallsOf(s.calls, job) == [] {}
    if s.run.Some? {
      var run := s.run.value;
      forall w | 0 <= w < |run.workers| ensures WorkerTally(run.workers[w], run, calls, exact) {
        assert WorkerTally(run.workers[w], run, s.calls, exact);
      }
    }
  }

  /** One more call of one job, with its record and its worker. */
  lemma CallTallies(s: State, run: Run, w: nat, record: Record, exact: bool)
    requires Inv(s) && Tallied(s, exact) && s.run == Some(run) && w < |run.workers| && run.workers[w].Starting?
    requires run.workers[w].i < |run.records| && run.workers[w].i < |run.jobs|
    requires record.job == run.jobs[run.workers[w].i] && Acceptable(record)
    requires record.attempts == Prior(run.unresolved, record.job) + run.workers[w].attempt
    ensures Tallied(CallStarted(s, run, w, record), exact)
  {
    var Starting(i, attempt) := run.workers[w];
    var calls := Called(s.calls, record.job, s.runs, attempt);
    var next := Move(run, w, Calling(i, attempt)).(records := run.records[i := Some(record)]);
    assert WorkerTally(run.workers[w], run, s.calls, exact);
    assert WorkerInv(run.workers[w], run.jobs, run.nextJob, s.decisive);
    assert |CallsOf(calls, record.job)| == |CallsOf(s.calls, record.job)| + 1;
    OneJobTallies(run, next, w, i, s.calls, calls, exact);
    SnapshotTallies(next, calls, exact);
  }

  lemma OneJobTallies(
    run: Run, next: Run, w: nat, i: nat, calls: map<Job, seq<Call>>, after: map<Job, seq<Call>>, exact: bool)
    requires DistinctJobs(run.jobs) && RunTally(run, calls, exact) && w < |run.workers|
    requires i < |run.jobs| && i < run.nextJob
    requires next == run.(workers := next.workers, records := next.records) && |next.records| == |run.records|
    requires |next.workers| == |run.workers| && next.workers == run.workers[w := next.workers[w]]
    requires forall k :: 0 <= k < |run.records| && k != i ==> next.records[k] == run.records[k]
    requires forall v :: 0 <= v < |run.workers| && v != w && Busy(run.workers[v]) ==> run.workers[v].i != i
    requires forall job :: job != run.jobs[i] ==> CallsOf(after, job) == CallsOf(calls, job)
    requires next.records[i].Some? && Tally(next.records[i].value.attempts, CallsOf(after, run.jobs[i]), exact)
    requires WorkerTally(next.workers[w], next, after, exact)
    ensures RunTally(next, after, exact)
  {
    forall v | 0 <= v < |next.workers| ensures WorkerTally(next.workers[v], next, after, exact) {
      if v != w { assert WorkerTally(run.workers[v], run, calls, exact); }
    }
    assert RecordsTally(next.records, next.jobs, next.history, after, exact);
    assert AheadTally(next, after, exact);
  }

  lemma MoreTallies(attempts: int, more: int, cs: seq<Call>, exact: bool)
    requires Tally(attempts, cs, exact) && attempts <= more
    ensures Tally(more, cs, false)
  {
  }

  /** What a worker that starts an attempt stands for. */
  lemma StartingTally(s: State, run: Run, w: nat)
    requires Inv(s) && History(s) && Tallied(s, false) && s.run == Some(run)
    requires w < |run.workers| && run.workers[w].Starting? && run.workers[w].i < |run.jobs|
    ensures var i, attempt := run.workers[w].i, run.workers[w].attempt;
      && i < run.nextJob && attempt <= run.retries + 1
      && Tally(Prior(run.unresolved, run.jobs[i]) + attempt, CallsOf(s.calls, run.jobs[i]), false)
  {
    var prior, cs := Prior(run.unresolved, run.jobs[run.workers[w].i]), CallsOf(s.calls, run.jobs[run.workers[w].i]);
    assert WorkerTally(run.workers[w], run, s.calls, false);
    assert WorkerCalls(run.workers[w], run.jobs, s.calls, s.runs, run.retries);
    assert WorkerInv(run.workers[w], run.jobs, run.nextJob, s.decisive);
    MoreTallies(prior + run.workers[w].attempt - 1, prior + run.workers[w].attempt, cs, false);
  }

  lemma NoCallTallies(s: State, run: Run, w: nat, i: nat, attempt: nat, record: Record)
    requires DistinctJobs(run.jobs) && RecordsOk(run.records, run.jobs) && Tallied(s, false) && s.run == Some(run)
    requires w < |run.workers| && run.workers[w] == Starting(i, attempt) && i < |run.jobs| && i < run.nextJob
    requires attempt <= run.retries + 1 && record.job == run.jobs[i] && Acceptable(record)
    requires record.attempts == Prior(run.unresolved, run.jobs[i]) + attempt
    requires Tally(record.attempts, CallsOf(s.calls, run.jobs[i]), false)
    ensures Tallied(CallPrevented(s, run, w, record), false)
  {
    var worker := Thrown(run, i, run.retries + 1);
    ThrownAttempts(run, i, run.retries + 1);
    MoreTallies(record.attempts, worker.record.attempts, CallsOf(s.calls, run.jobs[i]), false);
    MoveAndStore(s, run, w, i, worker, record);
  }

  lemma MoveAndStore(s: State, run: Run, w: nat, i: nat, worker: Worker, record: Record)
    requires DistinctJobs(run.jobs) && RecordsOk(run.records, run.jobs) && Tallied(s, false) && s.run == Some(run)
    requires w < |run.workers| && i < |run.jobs| && i < run.nextJob && worker.Settling? && worker.i == i
    requires Tally(worker.record.attempts, CallsOf(s.calls, run.jobs[i]), false)
    requires record.job == run.jobs[i] && Acceptable(record)
    requires Tally(record.attempts, CallsOf(s.calls, run.jobs[i]), false)
    ensures Tallied(Checkpoint(s, Move(run, w, worker), i, record, false), false)
  {
    MoveTallies(run, w, worker, s.calls, false);
    CheckpointTallies(s, Move(run, w, worker), i, record, false, false);
  }

  lemma ThrownAttempts(run: Run, i: nat, attempt: int)
    requires i < |run.jobs|
    ensures var worker := Thrown(run, i, attempt);
      worker.Settling? && worker.i == i && worker.record.attempts == Prior(run.unresolved, run.jobs[i]) + attempt
  {
  }

  lemma BeginTallies(s: State, run: Run, w: nat, persisted: bool, exact: bool)
    requires Inv(s) && History(s) && Tallied(s, exact) && s.run == Some(run) && (exact ==> persisted)
    requires w < |run.workers| && run.workers[w].Starting?
    requires run.workers[w].i < |run.records| && run.workers[w].i < |run.jobs|
    ensures Tallied(BeginStep(s, run, w, persisted), exact)
  {
    var base := Base(run.jobs[run.workers[w].i], InFlight, run.workers[w].attempt);
    assert WorkerInv(run.workers[w], run.jobs, run.nextJob, s.decisive);
    CarryKeeps(run, base);
    CarriedAttempts(run, base);
    var record := WithHistory(run, base);
    if persisted {
      CallTallies(s, run, w, record, exact);
    } else {
      StartingTally(s, run, w);
      NoCallTallies(s, run, w, run.workers[w].i, run.workers[w].attempt, record);
    }
  }

  lemma EndedNumber(calls: map<Job, seq<Call>>, job: Job, outcome: Outcome, other: Job)
    ensures |CallsOf(Ended(calls, job, outcome), other)| == |CallsOf(calls, other)|
  {
  }

  lemma AfterErrorTallies(
    run: Run, i: nat, attempt: nat, e: ProviderError, calls: map<Job, seq<Call>>, exact: bool)
    requires i < |run.jobs|
    requires Tally(Prior(run.unresolved, run.jobs[i]) + attempt, CallsOf(calls, run.jobs[i]), exact)
    ensures WorkerTally(AfterError(run, i, attempt, e), run, calls, exact)
  {
    CarriedAttempts(run, Base(run.jobs[i], if IsAmbiguous(e) then Unknown else Failed, attempt)
                           .(hasAudioArtifact := None, retrySafe := !IsAmbiguous(e), error := Some(e.message)));
  }

  lemma EndTallies(s: State, run: Run, w: nat, outcome: Outcome, exact: bool)
    requires Tallied(s, exact) && s.run == Some(run) && w < |run.workers| && run.workers[w].Calling?
    requires run.workers[w].i < |run.jobs|
    ensures Tallied(EndStep(s, run, w, outcome), exact)
  {
    var Calling(i, attempt) := run.workers[w];
    var calls := Ended(s.calls, run.jobs[i], outcome);
    forall job ensures |CallsOf(calls, job)| == |CallsOf(s.calls, job)| {
      EndedNumber(s.calls, run.jobs[i], outcome, job);
    }
    SameNumbers(s, calls, exact);
    assert WorkerTally(run.workers[w], run, calls, exact);
    match outcome
    case Success(metrics) => MoveTallies(run, w, Synthesized(i, attempt, metrics), calls, exact);
    case Error(e) =>
      AfterErrorTallies(run, i, attempt, e, calls, exact);
      MoveTallies(run, w, AfterError(run, i, attempt, e), calls, exact);
  }

  lemma CompleteTallies(s: State, run: Run, w: nat, persisted: bool, exact: bool)
    requires Inv(s) && Tallied(s, exact) && s.run == Some(run) && w < |run.workers| && run.workers[w].Synthesized?
    requires run.workers[w].i < |run.records| && run.workers[w].i < |run.jobs|
    ensures Tallied(CompleteStep(s, run, w, persisted), exact)
  {
    var Synthesized(i, attempt, metrics) := run.workers[w];
    assert WorkerTally(run.workers[w], run, s.calls, exact);
    assert WorkerInv(run.workers[w], run.jobs, run.nextJob, s.decisive);
    var base := Base(run.jobs[i], if run.writeAudio then PendingArtifact else Passed, attempt)
                  .(hasAudioArtifact := Some(run.writeAudio), metrics := Some(metrics));
    CarryKeeps(run, base);
    CarriedAttempts(run, base);
    ThrownAttempts(run, i, attempt);
    var record := Completed(run, run.jobs[i], attempt, metrics);
    var worker := if !run.writeAudio then Settling(i, record)
                  else if persisted then ArtifactDue(i, attempt, record) else Thrown(run, i, attempt);
    MoveTallies(run, w, worker, s.calls, exact);
    if run.writeAudio { CheckpointTallies(s, Move(run, w, worker), i, record, persisted, exact); }
  }

  lemma ArtifactTallies(s: State, run: Run, w: nat, written: bool, exact: bool)
    requires Tallied(s, exact) && s.run == Some(run) && w < |run.workers| && run.workers[w].ArtifactDue?
    requires run.workers[w].i < |run.jobs|
    ensures Tallied(ArtifactStep(s, run, w, written), exact)
  {
    var ArtifactDue(i, attempt, record) := run.workers[w];
    assert WorkerTally(run.workers[w], run, s.calls, exact);
    ThrownAttempts(run, i, attempt);
    var worker := if written then ArtifactWritten(i, attempt, record) else Thrown(run, i, attempt);
    MoveTallies(run, w, worker, s.calls, exact);
  }

  lemma FinishArtifactTallies(s: State, run: Run, w: nat, persisted: bool, exact: bool)
    requires Inv(s) && Tallied(s, exact) && s.run == Some(run) && w < |run.workers| && run.workers[w].ArtifactWritten?
    requires run.workers[w].i < |run.records| && run.workers[w].i < |run.jobs|
    ensures Tallied(FinishArtifactStep(s, run, w, persisted), exact)
  {
    var ArtifactWritten(i, attempt, record) := run.workers[w];
    assert WorkerTally(run.workers[w], run, s.calls, exact);
    assert WorkerInv(run.workers[w], run.jobs, run.nextJob, s.decisive);
    ThrownAttempts(run, i, attempt);
    var worker := if persisted then Idle else Thrown(run, i, attempt);
    MoveTallies(run, w, worker, s.calls, exact);
    CheckpointTallies(s, Move(run, w, worker), i, record.(status := Passed), persisted, exact);
  }

  lemma SettleTallies(s: State, run: Run, w: nat, persisted: bool, exact: bool)
    requires Inv(s) && Tallied(s, exact) && s.run == Some(run) && w < |run.workers| && run.workers[w].Settling?
    requires run.workers[w].i < |run.records| && run.workers[w].i < |run.jobs|
    ensures Tallied(SettleStep(s, run, w, persisted), exact)
  {
    var Settling(i, record) := run.workers[w];
    assert WorkerTally(run.workers[w], run, s.calls, exact);
    assert WorkerInv(run.workers[w], run.jobs, run.nextJob, s.decisive);
    var worker := if persisted then Idle else Stopped;
    MoveTallies(run, w, worker, s.calls, exact);
    CheckpointTallies(s, Move(run, w, worker), i, record, persisted, exact);
  }

  lemma AdvanceTallies(run: Run, calls: map<Job, seq<Call>>, exact: bool)
    requires RunTally(run, calls, exact)
    ensures RunTally(run.(nextJob := run.nextJob + 1), calls, exact)
  {
    var next := run.(nextJob := run.nextJob + 1);
    forall v | 0 <= v < |next.workers| ensures WorkerTally(next.workers[v], next, calls, exact) {
      assert WorkerTally(run.workers[v], run, calls, exact);
    }
  }

  lemma TakeTallies(s: State, run: Run, w: nat, exact: bool)
    requires Tallied(s, exact) && s.run == Some(run) && w < |run.workers|
    ensures Tallied(s.(run := Some(TakeJob(run, w))), exact)
  {
    var next := run.(nextJob := run.nextJob + 1);
    AdvanceTallies(run, s.calls, exact);
    if run.nextJob >= |run.jobs| {
      MoveTallies(next, w, Stopped, s.calls, exact);
    } else if !(run.records[run.nextJob].Some? && Settled(run.records[run.nextJob].value)) {
      var worker := Starting(run.nextJob, 1);
      assert WorkerTally(worker, next, s.calls, exact);
      MoveTallies(next, w, worker, s.calls, exact);
    }
  }

  // ----- A new run -----

  /** Among records that are all open, the last one of a selected job is the one that a run starts from. */
  lemma SelectedIsLast(history: seq<Record>, jobs: seq<Job>, writeAudio: bool, job: Job)
    requires job in jobs && (Last(history, job).Some? ==> OpenRecord(Last(history, job).value))
    ensures
      var state := ResumeState(ReusableOf(history, jobs, writeAudio), UnresolvedOf(history, jobs, writeAudio), history);
      var one, last := SelectOne(state, job), Last(history, job);
      && (last.None? ==> one.None? && job !in state.unresolved)
      && (last.Some? ==>
            && one.Some? && one.value.attempts == last.value.attempts
            && (!Settled(one.value) ==>
                  job in state.unresolved && state.unresolved[job].attempts == last.value.attempts))
  {
  }

  /** Reading back keeps the totals, and selects the last record of every job that has one. */
  lemma ReadBackTallies(m: Manifest, wavs: Artifacts, jobs: seq<Job>, writeAudio: bool, job: Job)
    requires AllAcceptable(Values(m))
    ensures ReadBack(m, wavs, jobs, writeAudio).Some?
    ensures var history := ReadBack(m, wavs, jobs, writeAudio).value.history;
      && (Last(Values(m), job).None? ==> Last(history, job).None?)
      && (Last(Values(m), job).Some? ==>
            && Last(history, job).Some? && OpenRecord(Last(history, job).value)
            && Last(history, job).value.attempts == Last(Values(m), job).value.attempts)
  {
    NormalizeAllReadsTheLast(Values(m), wavs, m.writeAudio, job);
    var all := NormalizeAll(Values(m), wavs, m.writeAudio).value;
    PutAllKeepsTheLast([], all, job);
    LastIsThere(all, job);
  }

  lemma StartTallies(s: State, jobs: seq<Job>, writeAudio: bool, retries: nat, workers: nat, exact: bool)
    requires Inv(s) && Tallied(s, exact) && s.run.None? && DistinctJobs(jobs)
    ensures Tallied(StartRun(s, jobs, writeAudio, retries, workers), exact)
  {
    var t := StartRun(s, jobs, writeAudio, retries, workers);
    if t.run.Some? {
      var run := t.run.value;
      forall job
        ensures LastTally(run.history, job, CallsOf(s.calls, job), exact)
        ensures job in jobs ==>
          var one := if s.manifest.Some? then SelectOne(ReadBack(s.manifest.value, s.wavs, jobs, writeAudio).value, job)
                     else None;
          if one.Some? then
            && Tally(one.value.attempts, CallsOf(s.calls, job), exact)
            && (!Settled(one.value) ==> Tally(Prior(run.unresolved, job), CallsOf(s.calls, job), exact))
          else
            CallsOf(s.calls, job) == [] && Last(run.history, job).None? && Prior(run.unresolved, job) == 0
      {
        if s.manifest.Some? {
          ReadBackTallies(s.manifest.value, s.wavs, jobs, writeAudio, job);
          if job in jobs { SelectedIsLast(run.history, jobs, writeAudio, job); }
          assert LastTally(Values(s.manifest.value), job, CallsOf(s.calls, job), exact);
        }
      }
    }
  }

  lemma StepTallies(s: State, a: Action, exact: bool)
    requires Inv(s) && History(s) && Tallied(s, exact) && Enabled(s, a) && (exact ==> Clean(a))
    ensures Tallied(Step(s, a), exact)
  {
    match a
    case Start(jobs, writeAudio, retries, workers) => StartTallies(s, jobs, writeAudio, retries, workers, exact);
    case Take(w) => TakeTallies(s, s.run.value, w, exact);
    case BeginAttempt(w, persisted) => BeginTallies(s, s.run.value, w, persisted, exact);
    case EndCall(w, outcome) => EndTallies(s, s.run.value, w, outcome, exact);
    case Complete(w, persisted) => CompleteTallies(s, s.run.value, w, persisted, exact);
    case WriteArtifact(w, written) => ArtifactTallies(s, s.run.value, w, written, exact);
    case FinishArtifact(w, persisted) => FinishArtifactTallies(s, s.run.value, w, persisted, exact);
    case Settle(w, persisted) => SettleTallies(s, s.run.value, w, persisted, exact);
    case Finish => SnapshotTallies(s.run.value, s.calls, exact);
    case Crash =>
    case Tamper(_, _) =>
  }

  lemma {:induction false} RunsTally(s: State, actions: seq<Action>, exact: bool)
    requires Inv(s) && History(s) && Tallied(s, exact) && Legal(s, actions)
    requires exact ==> forall a :: a in actions ==> Clean(a)
    ensures Tallied(After(s, actions), exact)
    decreases |actions|
  {
    if actions != [] {
      assert actions[0] in actions;
      StepKeeps(s, actions[0]);
      StepHistory(s, actions[0]);
      StepTallies(s, actions[0], exact);
      RunsTally(Step(s, actions[0]), actions[1..], exact);
    }
  }

  /** Over any runs and crashes: a job that was called has a durable record whose total counts at least its calls, and
      exactly these as long as no in-flight checkpoint has failed. */
  lemma TotalsCountTheCalls(actions: seq<Action>, job: Job)
    requires Legal(INITIAL, actions) && CallsOf(After(INITIAL, actions).calls, job) != []
    ensures
      var s := After(INITIAL, actions);
      && s.manifest.Some? && Last(Values(s.manifest.value), job).Some?
      && |CallsOf(s.calls, job)| <= Last(Values(s.manifest.value), job).value.attempts
      && ((forall a :: a in actions && a.BeginAttempt? ==> a.persisted) ==>
            Last(Values(s.manifest.value), job).value.attempts == |CallsOf(s.calls, job)|)
  {
    var exact := forall a :: a in actions && a.BeginAttempt? ==> a.persisted;
    RunsTally(INITIAL, actions, exact);
    var s := After(INITIAL, actions);
    assert s.manifest.Some? && LastTally(Values(s.manifest.value), job, CallsOf(s.calls, job), exact);
  }
}
