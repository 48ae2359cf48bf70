/** No job is forgotten: when a run of the speech matrix runner has finished, every job that it selected has passed, is
    unknown, or was called again by this run and failed. */
module MatrixCoverage {
  import opened Wrappers
  import opened MatrixRecords
  import opened MatrixProtocol
  import opened MatrixHistory

  /** The last call of the job was made by this run. */
  predicate CalledNow(calls: map<Job, seq<Call>>, job: Job, runs: nat) {
    CallsOf(calls, job) != [] && LastOf(CallsOf(calls, job)).run == runs
  }

  /** A failure is final only for a run that has tried. */
  predicate Final(r: Record, calls: map<Job, seq<Call>>, job: Job, runs: nat) {
    r.status in {Passed, Unknown} || (r.status == Failed && CalledNow(calls, job, runs))
  }

  predicate FinalAt(run: Run, i: nat, calls: map<Job, seq<Call>>, runs: nat) {
    i < |run.records| && i < |run.jobs| && run.records[i].Some? && Final(run.records[i].value, calls, run.jobs[i], runs)
  }

  ghost predicate OnIt(workers: seq<Worker>, i: nat) {
    exists w :: 0 <= w < |workers| && Busy(workers[w]) && workers[w].i == i
  }

  /** Every job that was taken is with a worker or done, and a worker about to settle has a final record. */
  ghost predicate Covered(run: Run, calls: map<Job, seq<Call>>, runs: nat) {
    && |run.records| == |run.jobs|
    && (forall i :: 0 <= i < |run.jobs| && i < run.nextJob ==> OnIt(run.workers, i) || FinalAt(run, i, calls, runs))
    && (forall w :: 0 <= w < |run.workers| && run.workers[w].Settling? && run.workers[w].i < |run.jobs| ==>
          Final(run.workers[w].record, calls, run.jobs[run.workers[w].i], runs))
  }

  ghost predicate AllCovered(s: State) { s.run.Some? ==> Covered(s.run.value, s.calls, s.runs) }

  /** Whoever was called by this run still was. */
  ghost predicate Grows(calls: map<Job, seq<Call>>, after: map<Job, seq<Call>>, runs: nat) {
    forall job :: CalledNow(calls, job, runs) ==> CalledNow(after, job, runs)
  }

  lemma OthersStayOn(workers: seq<Worker>, w: nat, worker: Worker, i: nat)
    requires w < |workers| && OnIt(workers, i)
    requires Busy(workers[w]) && workers[w].i == i ==> Busy(worker) && worker.i == i
    ensures OnIt(workers[w := worker], i)
  {
    var v :| 0 <= v < |workers| && Busy(workers[v]) && workers[v].i == i;
    assert Busy(workers[w := worker][v]) && workers[w := worker][v].i == i;
  }

  /** A worker stays on its job, or leaves it with a final record. */
  lemma MoveCovers(
    run: Run, w: nat, worker: Worker, records: seq<Option<Record>>, calls: map<Job, seq<Call>>,
    after: map<Job, seq<Call>>, runs: nat)
    requires Covered(run, calls, runs) && Grows(calls, after, runs)
    requires w < |run.workers| && Busy(run.workers[w]) && run.workers[w].i < |run.records|
    requires records == run.records || exists r :: records == run.records[run.workers[w].i := Some(r)]
    requires if Busy(worker) then worker.i == run.workers[w].i
             else FinalAt(run.(records := records), run.workers[w].i, after, runs)
    requires worker.Settling? ==> Final(worker.record, after, run.jobs[worker.i], runs)
    ensures Covered(Move(run, w, worker).(records := records), after, runs)
  {
    var next := Move(run, w, worker).(records := records);
    forall i | 0 <= i < |next.jobs| && i < next.nextJob
      ensures OnIt(next.workers, i) || FinalAt(next, i, after, runs)
    {
      if i == run.workers[w].i {
        if Busy(worker) { assert next.workers[w] == worker; }
      } else if OnIt(run.workers, i) {
        OthersStayOn(run.workers, w, worker, i);
      } else {
        assert FinalAt(run, i, calls, runs);
      }
    }
  }

  lemma WithHistoryIsFinal(run: Run, r: Record, calls: map<Job, seq<Call>>, job: Job, runs: nat)
    ensures Final(r, calls, job, runs) ==> Final(WithHistory(run, r), calls, job, runs)
  {
  }

  lemma ThrownIsFinal(run: Run, i: nat, attempt: int)
    requires i < |run.jobs|
    ensures var worker := Thrown(run, i, attempt); worker.Settling? && worker.i == i && worker.record.status == Unknown
  {
  }

  lemma TakeCovers(s: State, run: Run, w: nat)
    requires Covered(run, s.calls, s.runs) && s.run == Some(run) && w < |run.workers| && run.workers[w].Idle?
    ensures Covered(TakeJob(run, w), s.calls, s.runs)
  {
    var next := TakeJob(run, w);
    forall i | 0 <= i < |next.jobs| && i < next.nextJob
      ensures OnIt(next.workers, i) || FinalAt(next, i, s.calls, s.runs)
    {
      if i < run.nextJob {
        if OnIt(run.workers, i) && next.workers != run.workers { OthersStayOn(run.workers, w, next.workers[w], i); }
      } else if !FinalAt(next, i, s.calls, s.runs) {
        assert next.workers[w] == Starting(i, 1);
      }
    }
  }

  lemma BeginCovers(s: State, run: Run, w: nat, persisted: bool)
    requires Inv(s) && Covered(run, s.calls, s.runs) && s.run == Some(run)
    requires w < |run.workers| && run.workers[w].Starting?
    requires run.workers[w].i < |run.records| && run.workers[w].i < |run.jobs|
    ensures AllCovered(BeginStep(s, run, w, persisted))
  {
    var Starting(i, attempt) := run.workers[w];
    var base := Base(run.jobs[i], InFlight, attempt);
    WithHistoryKeepsJob(run, base);
    ThrownIsFinal(run, i, run.retries + 1);
    var worker := if persisted then Calling(i, attempt) else Thrown(run, i, run.retries + 1);
    var records := run.records[i := Some(WithHistory(run, base))];
    var calls := if persisted then Called(s.calls, run.jobs[i], s.runs, attempt) else s.calls;
    MoveCovers(run, w, worker, records, s.calls, calls, s.runs);
  }

  lemma EndedGrows(calls: map<Job, seq<Call>>, job: Job, outcome: Outcome, runs: nat)
    ensures Grows(calls, Ended(calls, job, outcome), runs)
  {
  }

  lemma EndCovers(s: State, run: Run, w: nat, outcome: Outcome)
    requires Covered(run, s.calls, s.runs) && History(s) && s.run == Some(run)
    requires w < |run.workers| && run.workers[w].Calling? && run.workers[w].i < |run.jobs|
    ensures AllCovered(EndStep(s, run, w, outcome))
  {
    var Calling(i, attempt) := run.workers[w];
    var calls := Ended(s.calls, run.jobs[i], outcome);
    assert WorkerCalls(run.workers[w], run.jobs, s.calls, s.runs, run.retries);
    EndedGrows(s.calls, run.jobs[i], outcome, s.runs);
    match outcome
    case Success(metrics) => MoveCovers(run, w, Synthesized(i, attempt, metrics), run.records, s.calls, calls, s.runs);
    case Error(e) =>
      var base := Base(run.jobs[i], if IsAmbiguous(e) then Unknown else Failed, attempt)
                    .(hasAudioArtifact := None, retrySafe := !IsAmbiguous(e), error := Some(e.message));
      WithHistoryIsFinal(run, base, calls, run.jobs[i], s.runs);
      MoveCovers(run, w, AfterError(run, i, attempt, e), run.records, s.calls, calls, s.runs);
  }

  lemma CompletedIsFinal(run: Run, job: Job, attempt: int, metrics: Metrics)
    ensures Completed(run, job, attempt, metrics).status == if run.writeAudio then PendingArtifact else Passed
  {
  }

  lemma CompleteCovers(s: State, run: Run, w: nat, persisted: bool)
    requires Covered(run, s.calls, s.runs) && s.run == Some(run) && w < |run.workers| && run.workers[w].Synthesized?
    requires run.workers[w].i < |run.records| && run.workers[w].i < |run.jobs|
    ensures AllCovered(CompleteStep(s, run, w, persisted))
  {
    var Synthesized(i, attempt, metrics) := run.workers[w];
    var record := Completed(run, run.jobs[i], attempt, metrics);
    CompletedIsFinal(run, run.jobs[i], attempt, metrics);
    ThrownIsFinal(run, i, attempt);
    if run.writeAudio {
      var worker := if persisted then ArtifactDue(i, attempt, record) else Thrown(run, i, attempt);
      MoveCovers(run, w, worker, run.records[i := Some(record)], s.calls, s.calls, s.runs);
    } else {
      MoveCovers(run, w, Settling(i, record), run.records, s.calls, s.calls, s.runs);
    }
  }

  lemma ArtifactCovers(s: State, run: Run, w: nat, written: bool)
    requires Covered(run, s.calls, s.runs) && s.run == Some(run) && w < |run.workers| && run.workers[w].ArtifactDue?
    requires run.workers[w].i < |run.jobs|
    ensures AllCovered(ArtifactStep(s, run, w, written))
  {
    var ArtifactDue(i, attempt, record) := run.workers[w];
    ThrownIsFinal(run, i, attempt);
    var worker := if written then ArtifactWritten(i, attempt, record) else Thrown(run, i, attempt);
    MoveCovers(run, w, worker, run.records, s.calls, s.calls, s.runs);
  }

  lemma FinishArtifactCovers(s: State, run: Run, w: nat, persisted: bool)
    requires Covered(run, s.calls, s.runs) && s.run == Some(run)
    requires w < |run.workers| && run.workers[w].ArtifactWritten?
    requires run.workers[w].i < |run.records| && run.workers[w].i < |run.jobs|
    ensures AllCovered(FinishArtifactStep(s, run, w, persisted))
  {
    var ArtifactWritten(i, attempt, record) := run.workers[w];
    ThrownIsFinal(run, i, attempt);
    var worker := if persisted then Idle else Thrown(run, i, attempt);
    MoveCovers(run, w, worker, run.records[i := Some(record.(status := Passed))], s.calls, s.calls, s.runs);
  }

  lemma SettleCovers(s: State, run: Run, w: nat, persisted: bool)
    requires Covered(run, s.calls, s.runs) && s.run == Some(run) && w < |run.workers| && run.workers[w].Settling?
    requires run.workers[w].i < |run.records|
    ensures AllCovered(SettleStep(s, run, w, persisted))
  {
    var Settling(i, record) := run.workers[w];
    var worker := if persisted then Idle else Stopped;
    MoveCovers(run, w, worker, run.records[i := Some(record)], s.calls, s.calls, s.runs);
  }

  lemma StepCovers(s: State, a: Action)
    requires Inv(s) && History(s) && AllCovered(s) && Enabled(s, a)
    ensures AllCovered(Step(s, a))
  {
    match a
    case Start(_, _, _, _) =>
    case Take(w) => TakeCovers(s, s.run.value, w);
    case BeginAttempt(w, persisted) => BeginCovers(s, s.run.value, w, persisted);
    case EndCall(w, outcome) => EndCovers(s, s.run.value, w, outcome);
    case Complete(w, persisted) => CompleteCovers(s, s.run.value, w, persisted);
    case WriteArtifact(w, written) => ArtifactCovers(s, s.run.value, w, written);
    case FinishArtifact(w, persisted) => FinishArtifactCovers(s, s.run.value, w, persisted);
    case Settle(w, persisted) => SettleCovers(s, s.run.value, w, persisted);
    case Finish =>
    case Crash =>
    case Tamper(_, _) =>
  }

  lemma {:induction false} RunsCover(s: State, actions: seq<Action>)
    requires Inv(s) && History(s) && AllCovered(s) && Legal(s, actions)
    ensures AllCovered(After(s, actions))
    decreases |actions|
  {
    if actions != [] {
      StepKeeps(s, actions[0]);
      StepHistory(s, actions[0]);
      StepCovers(s, actions[0]);
      RunsCover(Step(s, actions[0]), actions[1..]);
    }
  }

  /** When the workers have run out of jobs and the run has written its last manifest, the last durable record of every
      selected job says passed or unknown, or it says failed and the job's last call was made by this run. */
  lemma FinishedRunHasHandledEveryJob(actions: seq<Action>, i: nat)
    requires Legal(INITIAL, actions) && Enabled(After(INITIAL, actions), Finish)
    requires var run := After(INITIAL, actions).run.value; i < |run.jobs| <= run.nextJob
    ensures
      var s := After(INITIAL, actions);
      var job, cs := s.run.value.jobs[i], CallsOf(s.calls, s.run.value.jobs[i]);
      var manifest := Step(s, Finish).manifest;
      && manifest.Some? && Last(Values(manifest.value), job).Some?
      && var status := Last(Values(manifest.value), job).value.status;
         || status in {Passed, Unknown}
         || (status == Failed && cs != [] && cs[|cs| - 1].run == s.runs)
  {
    var s := After(INITIAL, actions);
    var run := s.run.value;
    RunsKeepHistory(INITIAL, actions);
    RunsCover(INITIAL, actions);
    assert FinalAt(run, i, s.calls, s.runs);
    SnapshotLast(run.writeAudio, run.history, run.records, run.jobs, run.jobs[i]);
  }

  lemma {:induction false} AllPresent(records: seq<Option<Record>>, i: nat)
    requires i < |records| && forall k :: 0 <= k < |records| ==> records[k].Some?
    ensures |Present(records)| == |records| && Present(records)[i] == records[i].value
  {
    var front := records[..|records| - 1];
    if front != [] { AllPresent(front, if i < |front| then i else 0); }
  }

  /** And the manifest that it leaves lists the jobs in their order, each with its record, and says whether this run
      wrote audio. */
  lemma FinishedManifestListsEveryJob(actions: seq<Action>, i: nat)
    requires Legal(INITIAL, actions) && Enabled(After(INITIAL, actions), Finish)
    requires var run := After(INITIAL, actions).run.value; i < |run.jobs| <= run.nextJob
    ensures
      var run, manifest := After(INITIAL, actions).run.value, Step(After(INITIAL, actions), Finish).manifest;
      && manifest.Some? && manifest.value.writeAudio == run.writeAudio
      && |manifest.value.records| == |run.jobs| && manifest.value.records[i].job == run.jobs[i]
  {
    var s := After(INITIAL, actions);
    var run := s.run.value;
    RunsKeepHistory(INITIAL, actions);
    RunsCover(INITIAL, actions);
    forall k | 0 <= k < |run.records| ensures run.records[k].Some? && run.records[k].value.job == run.jobs[k] {
      assert FinalAt(run, k, s.calls, s.runs);
    }
    AllPresent(run.records, i);
  }
}
