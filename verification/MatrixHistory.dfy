/** The calls that the speech matrix runner makes over any number of runs: which error may be followed by another call
    of the same job, and what is left of a job when a run has finished. */
module MatrixHistory {
  import opened Wrappers
  import opened MatrixRecords
  import opened MatrixProtocol

  /** The provider certainly did not synthesize: it said so with one of these codes, and did not call it unknown. */
  predicate Definite(e: ProviderError) {
    && !e.outcomeUnknown
    && e.code in {
         Some("provider.auth_failed"), Some("provider.invalid_request"), Some("provider.input_rejected"),
         Some("provider.model_unsupported"), Some("provider.voice_unsupported"), Some("provider.quota_exceeded"),
         Some("provider.rate_limited")}
  }

  /** What the credit rule reads: a quota code settles it, then a rate limit does, then the text. */
  predicate HasCredit(e: ProviderError) {
    && e.providerCode != Some("insufficient_quota_error")
    && (|| e.providerCode == Some("rate_limit_exceeded_error")
        || (e.code == Some("provider.rate_limited") && e.httpStatus in {Some(429), Some(503)})
        || !e.mentionsCredit)
  }

  predicate Repeatable(e: ProviderError) {
    !e.outcomeUnknown && e.retriable && e.code == Some("provider.rate_limited") && HasCredit(e)
  }

  lemma RulesAgree(e: ProviderError)
    ensures IsAmbiguous(e) <==> !Definite(e)
    ensures ShouldRetry(e) <==> Repeatable(e)
  {
  }

  // ----- The invariant on calls -----

  predicate EndedDefinitely(call: Call) {
    call.outcome.Some? && call.outcome.value.Error? && Definite(call.outcome.value.error)
  }

  predicate EndedRepeatably(call: Call) {
    call.outcome.Some? && call.outcome.value.Error? && Repeatable(call.outcome.value.error)
  }

  /** One call after another: only after a definite error, and within one run only after a repeatable one. */
  ghost predicate Follows(call: Call, next: Call) {
    && EndedDefinitely(call) && call.run <= next.run
    && if call.run == next.run then EndedRepeatably(call) && next.attempt == call.attempt + 1 else next.attempt == 1
  }

  ghost predicate InSequence(cs: seq<Call>) {
    forall i :: 0 <= i < |cs| - 1 ==> Follows(cs[i], cs[i + 1])
  }

  function LastOf(cs: seq<Call>): Call
    requires cs != []
  {
    cs[|cs| - 1]
  }

  /** Neither was the job called yet, nor may its last call have succeeded. */
  predicate Free(cs: seq<Call>) { cs == [] || EndedDefinitely(LastOf(cs)) }

  ghost predicate JobOk(cs: seq<Call>, count: nat, runs: nat) {
    && InSequence(cs) && (cs != [] ==> cs[0].attempt == 1 && LastOf(cs).run <= runs)
    && count == if Free(cs) then 0 else 1
  }

  ghost predicate CallsOk(calls: map<Job, seq<Call>>, decisive: map<Job, nat>, runs: nat) {
    forall job :: JobOk(CallsOf(calls, job), Count(decisive, job), runs)
  }

  /** No call of the job in this run. */
  predicate NotYet(cs: seq<Call>, run: nat) { cs == [] || LastOf(cs).run < run }

  /** What the calls of its job look like to a worker. */
  ghost predicate WorkerCalls(worker: Worker, jobs: seq<Job>, calls: map<Job, seq<Call>>, runs: nat, retries: nat) {
    Busy(worker) && worker.i < |jobs| ==>
      var cs := CallsOf(calls, jobs[worker.i]);
      match worker
      case Starting(_, attempt) =>
        && 1 <= attempt <= retries + 1
        && if attempt == 1 then NotYet(cs, runs)
           else cs != [] && LastOf(cs).run == runs && LastOf(cs).attempt == attempt - 1 && EndedRepeatably(LastOf(cs))
      case Calling(_, attempt) => attempt <= retries + 1 && cs != [] && LastOf(cs) == Call(runs, attempt, None)
      case _ => true
  }

  ghost predicate AllWorkerCalls(run: Run, calls: map<Job, seq<Call>>, runs: nat) {
    forall w :: 0 <= w < |run.workers| ==> WorkerCalls(run.workers[w], run.jobs, calls, runs, run.retries)
  }

  ghost predicate AheadNotYet(run: Run, calls: map<Job, seq<Call>>, runs: nat) {
    forall i :: run.nextJob <= i < |run.jobs| ==> NotYet(CallsOf(calls, run.jobs[i]), runs)
  }

  /** No job has more calls in this run than the retries allow. */
  ghost predicate WithinRetries(calls: map<Job, seq<Call>>, runs: nat, retries: nat) {
    forall job :: CallsOf(calls, job) != [] && LastOf(CallsOf(calls, job)).run == runs ==>
      LastOf(CallsOf(calls, job)).attempt <= retries + 1
  }

  ghost predicate RunCalls(run: Run, calls: map<Job, seq<Call>>, runs: nat) {
    AllWorkerCalls(run, calls, runs) && AheadNotYet(run, calls, runs) && WithinRetries(calls, runs, run.retries)
  }

  ghost predicate History(s: State) {
    CallsOk(s.calls, s.decisive, s.runs) && (s.run.Some? ==> RunCalls(s.run.value, s.calls, s.runs))
  }

  // ----- What each step does to it -----

  lemma MoveKeepsCalls(run: Run, w: nat, worker: Worker, calls: map<Job, seq<Call>>, runs: nat)
    requires RunCalls(run, calls, runs) && w < |run.workers| && WorkerCalls(worker, run.jobs, calls, runs, run.retries)
    ensures RunCalls(Move(run, w, worker), calls, runs)
  {
    var next := Move(run, w, worker);
    forall v | 0 <= v < |next.workers| ensures WorkerCalls(next.workers[v], next.jobs, calls, runs, next.retries) {
      assert v != w ==> next.workers[v] == run.workers[v];
    }
  }

  /** Steps that only store a record and move a worker past its call. */
  lemma PastCall(s: State, t: State, run: Run, w: nat, worker: Worker)
    requires History(s) && s.run == Some(run) && w < |run.workers| && !worker.Starting? && !worker.Calling?
    requires t.run.Some? && t.calls == s.calls && t.decisive == s.decisive && t.runs == s.runs
    requires t.run.value == Move(run, w, worker).(records := t.run.value.records)
    ensures History(t)
  {
    MoveKeepsCalls(run, w, worker, s.calls, s.runs);
    var moved, after := Move(run, w, worker), t.run.value;
    assert after.workers == moved.workers && after.jobs == moved.jobs;
    assert AllWorkerCalls(after, s.calls, s.runs) && AheadNotYet(after, s.calls, s.runs);
  }

  lemma StartHistory(s: State, jobs: seq<Job>, writeAudio: bool, retries: nat, workers: nat)
    requires History(s) && s.run.None?
    ensures History(StartRun(s, jobs, writeAudio, retries, workers))
  {
    var t := StartRun(s, jobs, writeAudio, retries, workers);
    if t.run.Some? {
      forall job
        ensures NotYet(CallsOf(t.calls, job), t.runs)
        ensures JobOk(CallsOf(t.calls, job), Count(t.decisive, job), t.runs)
      {
        assert JobOk(CallsOf(s.calls, job), Count(s.decisive, job), s.runs);
      }
    }
  }

  lemma TakeHistory(s: State, run: Run, w: nat)
    requires History(s) && s.run == Some(run) && w < |run.workers|
    ensures History(s.(run := Some(TakeJob(run, w))))
  {
    var next := run.(nextJob := run.nextJob + 1);
    assert RunCalls(next, s.calls, s.runs);
    if run.nextJob >= |run.jobs| || run.nextJob >= |run.records| {
      MoveKeepsCalls(next, w, Stopped, s.calls, s.runs);
    } else if !(run.records[run.nextJob].Some? && Settled(run.records[run.nextJob].value)) {
      MoveKeepsCalls(next, w, Starting(run.nextJob, 1), s.calls, s.runs);
    }
  }

  lemma OneMoreCall(cs: seq<Call>, call: Call, count: nat, runs: nat)
    requires JobOk(cs, 0, runs) && call.run == runs && call.outcome.None?
    requires if call.attempt == 1 then NotYet(cs, runs)
             else
               && cs != [] && LastOf(cs).run == runs && LastOf(cs).attempt == call.attempt - 1
               && EndedRepeatably(LastOf(cs))
    ensures JobOk(cs + [call], 1, runs)
  {
    var more := cs + [call];
    forall i | 0 <= i < |more| - 1 ensures Follows(more[i], more[i + 1]) {
      if i < |cs| - 1 { assert Follows(cs[i], cs[i + 1]); }
    }
  }

  lemma CallEnds(cs: seq<Call>, outcome: Outcome, runs: nat)
    requires JobOk(cs, 1, runs) && cs != []
    ensures var after := cs[..|cs| - 1] + [LastOf(cs).(outcome := Some(outcome))];
      JobOk(after, if outcome.Error? && Definite(outcome.error) then 0 else 1, runs)
  {
    var after := cs[..|cs| - 1] + [LastOf(cs).(outcome := Some(outcome))];
    forall i | 0 <= i < |after| - 1 ensures Follows(after[i], after[i + 1]) {
      assert Follows(cs[i], cs[i + 1]);
    }
  }

  /** A change of one job's calls leaves the other workers alone. */
  lemma OtherCalls(run: Run, w: nat, worker: Worker, calls: map<Job, seq<Call>>, after: map<Job, seq<Call>>, runs: nat)
    requires DistinctJobs(run.jobs) && RunCalls(run, calls, runs) && w < |run.workers| && Busy(run.workers[w])
    requires Busy(worker) && worker.i == run.workers[w].i < |run.jobs| && worker.i < run.nextJob
    requires forall v :: 0 <= v < |run.workers| && v != w && Busy(run.workers[v]) ==> run.workers[v].i != worker.i
    requires forall job :: job != run.jobs[worker.i] ==> CallsOf(after, job) == CallsOf(calls, job)
    requires WorkerCalls(worker, run.jobs, after, runs, run.retries)
    requires var cs := CallsOf(after, run.jobs[worker.i]);
      cs != [] && LastOf(cs).run == runs && LastOf(cs).attempt <= run.retries + 1
    ensures RunCalls(Move(run, w, worker), after, runs)
  {
    var next := Move(run, w, worker);
    forall v | 0 <= v < |next.workers| ensures WorkerCalls(next.workers[v], next.jobs, after, runs, next.retries) {
      if v != w { assert WorkerCalls(run.workers[v], run.jobs, calls, runs, run.retries); }
    }
    forall i | next.nextJob <= i < |next.jobs| ensures NotYet(CallsOf(after, next.jobs[i]), runs) {
      assert next.jobs[i] != run.jobs[worker.i];
    }
  }

  lemma CallHistory(s: State, run: Run, w: nat, record: Record)
    requires Inv(s) && History(s) && s.run == Some(run) && w < |run.workers| && run.workers[w].Starting?
    requires run.workers[w].i < |run.records| && run.workers[w].i < |run.jobs|
    requires record.job == run.jobs[run.workers[w].i]
    ensures History(CallStarted(s, run, w, record))
  {
    var Starting(i, attempt) := run.workers[w];
    var t := CallStarted(s, run, w, record);
    assert WorkerInv(run.workers[w], run.jobs, run.nextJob, s.decisive);
    assert WorkerCalls(run.workers[w], run.jobs, s.calls, s.runs, run.retries);
    var cs := CallsOf(s.calls, record.job);
    OneMoreCall(cs, Call(s.runs, attempt, None), 0, s.runs);
    forall job ensures JobOk(CallsOf(t.calls, job), Count(t.decisive, job), t.runs) {
      assert JobOk(CallsOf(s.calls, job), Count(s.decisive, job), s.runs);
    }
    OtherCalls(run, w, Calling(i, attempt), s.calls, t.calls, s.runs);
    var moved := Move(run, w, Calling(i, attempt));
    assert AllWorkerCalls(t.run.value, t.calls, s.runs) by { assert AllWorkerCalls(moved, t.calls, s.runs); }
  }

  lemma EndCounts(s: State, run: Run, w: nat, outcome: Outcome)
    requires CallsOk(s.calls, s.decisive, s.runs) && w < |run.workers| && run.workers[w].Calling?
    requires run.workers[w].i < |run.jobs| && CallsOf(s.calls, run.jobs[run.workers[w].i]) != []
    requires Count(s.decisive, run.jobs[run.workers[w].i]) == 1
    ensures var t := EndStep(s, run, w, outcome); CallsOk(t.calls, t.decisive, s.runs)
  {
    var job, t := run.jobs[run.workers[w].i], EndStep(s, run, w, outcome);
    CallEnds(CallsOf(s.calls, job), outcome, s.runs);
    if outcome.Error? { RulesAgree(outcome.error); }
    forall j ensures JobOk(CallsOf(t.calls, j), Count(t.decisive, j), s.runs) {
      assert JobOk(CallsOf(s.calls, j), Count(s.decisive, j), s.runs);
    }
  }

  lemma NextWorker(run: Run, i: nat, attempt: nat, outcome: Outcome, calls: map<Job, seq<Call>>, runs: nat)
    requires i < |run.jobs| && 0 < attempt <= run.retries + 1 && outcome.Error?
    requires CallsOf(calls, run.jobs[i]) != []
    requires LastOf(CallsOf(calls, run.jobs[i])) == Call(runs, attempt, Some(outcome))
    ensures WorkerCalls(AfterError(run, i, attempt, outcome.error), run.jobs, calls, runs, run.retries)
  {
    RulesAgree(outcome.error);
  }

  lemma EndHistory(s: State, run: Run, w: nat, outcome: Outcome)
    requires Inv(s) && History(s) && s.run == Some(run) && w < |run.workers| && run.workers[w].Calling?
    requires run.workers[w].i < |run.jobs|
    ensures History(EndStep(s, run, w, outcome))
  {
    var Calling(i, attempt) := run.workers[w];
    assert WorkerInv(run.workers[w], run.jobs, run.nextJob, s.decisive);
    assert WorkerCalls(run.workers[w], run.jobs, s.calls, s.runs, run.retries);
    EndCounts(s, run, w, outcome);
    var calls := Ended(s.calls, run.jobs[i], outcome);
    match outcome
    case Success(metrics) => OtherCalls(run, w, Synthesized(i, attempt, metrics), s.calls, calls, s.runs);
    case Error(e) =>
      NextWorker(run, i, attempt, outcome, calls, s.runs);
      OtherCalls(run, w, AfterError(run, i, attempt, e), s.calls, calls, s.runs);
  }

  lemma BeginHistory(s: State, run: Run, w: nat, persisted: bool)
    requires Inv(s) && History(s) && s.run == Some(run) && w < |run.workers| && run.workers[w].Starting?
    requires run.workers[w].i < |run.records| && run.workers[w].i < |run.jobs|
    ensures History(BeginStep(s, run, w, persisted))
  {
    var base := Base(run.jobs[run.workers[w].i], InFlight, run.workers[w].attempt);
    WithHistoryKeepsJob(run, base);
    if persisted {
      CallHistory(s, run, w, WithHistory(run, base));
    } else {
      PastCall(s, BeginStep(s, run, w, persisted), run, w, Thrown(run, run.workers[w].i, run.retries + 1));
    }
  }

  lemma CompleteHistory(s: State, run: Run, w: nat, persisted: bool)
    requires History(s) && s.run == Some(run) && w < |run.workers| && run.workers[w].Synthesized?
    requires run.workers[w].i < |run.records| && run.workers[w].i < |run.jobs|
    ensures History(CompleteStep(s, run, w, persisted))
  {
    var t := CompleteStep(s, run, w, persisted);
    PastCall(s, t, run, w, t.run.value.workers[w]);
  }

  lemma ArtifactHistory(s: State, run: Run, w: nat, written: bool)
    requires History(s) && s.run == Some(run) && w < |run.workers| && run.workers[w].ArtifactDue?
    requires run.workers[w].i < |run.jobs|
    ensures History(ArtifactStep(s, run, w, written))
  {
    var t := ArtifactStep(s, run, w, written);
    PastCall(s, t, run, w, t.run.value.workers[w]);
  }

  lemma FinishArtifactHistory(s: State, run: Run, w: nat, persisted: bool)
    requires History(s) && s.run == Some(run) && w < |run.workers| && run.workers[w].ArtifactWritten?
    requires run.workers[w].i < |run.records| && run.workers[w].i < |run.jobs|
    ensures History(FinishArtifactStep(s, run, w, persisted))
  {
    var t := FinishArtifactStep(s, run, w, persisted);
    PastCall(s, t, run, w, t.run.value.workers[w]);
  }

  lemma SettleHistory(s: State, run: Run, w: nat, persisted: bool)
    requires History(s) && s.run == Some(run) && w < |run.workers| && run.workers[w].Settling?
    requires run.workers[w].i < |run.records|
    ensures History(SettleStep(s, run, w, persisted))
  {
    var t := SettleStep(s, run, w, persisted);
    PastCall(s, t, run, w, t.run.value.workers[w]);
  }

  lemma StepHistory(s: State, a: Action)
    requires Inv(s) && History(s) && Enabled(s, a)
    ensures History(Step(s, a))
  {
    match a
    case Start(jobs, writeAudio, retries, workers) => StartHistory(s, jobs, writeAudio, retries, workers);
    case Take(w) => TakeHistory(s, s.run.value, w);
    case BeginAttempt(w, persisted) => BeginHistory(s, s.run.value, w, persisted);
    case EndCall(w, outcome) => EndHistory(s, s.run.value, w, outcome);
    case Complete(w, persisted) => CompleteHistory(s, s.run.value, w, persisted);
    case WriteArtifact(w, written) => ArtifactHistory(s, s.run.value, w, written);
    case FinishArtifact(w, persisted) => FinishArtifactHistory(s, s.run.value, w, persisted);
    case Settle(w, persisted) => SettleHistory(s, s.run.value, w, persisted);
    case Finish =>
    case Crash =>
    case Tamper(_, _) =>
  }

  lemma {:induction false} RunsKeepHistory(s: State, actions: seq<Action>)
    requires Inv(s) && History(s) && Legal(s, actions)
    ensures Inv(After(s, actions)) && History(After(s, actions))
    decreases |actions|
  {
    if actions != [] {
      StepKeeps(s, actions[0]);
      StepHistory(s, actions[0]);
      RunsKeepHistory(Step(s, actions[0]), actions[1..]);
    }
  }

  // ----- The promises of the protocol -----

  /** Over any number of runs, crashes, failed writes and changed selections: a call that is followed by another call
      of its job has ended in an error that the provider does not call unknown, with one of seven codes; within one
      run only a retriable rate limit with credit left is followed, by the next attempt, and another run begins with
      the first attempt. */
  lemma CalledAgainOnlyAfterDefiniteError(actions: seq<Action>, job: Job, i: nat)
    requires Legal(INITIAL, actions) && i + 1 < |CallsOf(After(INITIAL, actions).calls, job)|
    ensures
      var call, next :=
        CallsOf(After(INITIAL, actions).calls, job)[i], CallsOf(After(INITIAL, actions).calls, job)[i + 1];
      && call.outcome.Some? && call.outcome.value.Error?
      && var e := call.outcome.value.error;
         && !e.outcomeUnknown
         && e.code in {
              Some("provider.auth_failed"), Some("provider.invalid_request"), Some("provider.input_rejected"),
              Some("provider.model_unsupported"), Some("provider.voice_unsupported"),
              Some("provider.quota_exceeded"), Some("provider.rate_limited")}
         && call.run <= next.run && (call.run < next.run ==> next.attempt == 1)
         && (call.run == next.run ==>
               && next.attempt == call.attempt + 1 && e.retriable && e.code == Some("provider.rate_limited")
               && e.providerCode != Some("insufficient_quota_error")
               && (|| e.providerCode == Some("rate_limit_exceeded_error") || e.httpStatus in {Some(429), Some(503)}
                   || !e.mentionsCredit))
  {
    RunsKeepHistory(INITIAL, actions);
    var cs := CallsOf(After(INITIAL, actions).calls, job);
    assert JobOk(cs, Count(After(INITIAL, actions).decisive, job), After(INITIAL, actions).runs);
    assert Follows(cs[i], cs[i + 1]);
  }

  /** Under way, succeeded, or ended in an error that leaves open whether the provider synthesized. */
  predicate MayHaveSynthesized(call: Call) {
    call.outcome.Some? && call.outcome.value.Error? ==>
      var e := call.outcome.value.error;
      || e.outcomeUnknown
      || e.code !in {
           Some("provider.auth_failed"), Some("provider.invalid_request"), Some("provider.input_rejected"),
           Some("provider.model_unsupported"), Some("provider.voice_unsupported"), Some("provider.quota_exceeded"),
           Some("provider.rate_limited")}
  }

  /** A job has at most one such call: its last one. */
  lemma AtMostOneDecisiveCall(actions: seq<Action>, job: Job, i: nat, j: nat)
    requires Legal(INITIAL, actions)
    requires var cs := CallsOf(After(INITIAL, actions).calls, job);
      i <= j < |cs| && MayHaveSynthesized(cs[i]) && MayHaveSynthesized(cs[j])
    ensures i == j == |CallsOf(After(INITIAL, actions).calls, job)| - 1
  {
    var cs := CallsOf(After(INITIAL, actions).calls, job);
    if i + 1 < |cs| { CalledAgainOnlyAfterDefiniteError(actions, job, i); }
  }

  /** And a job has no more calls in a run than the run's retries allow. */
  lemma CallsAreWithinRetries(actions: seq<Action>, job: Job, i: nat)
    requires Legal(INITIAL, actions) && After(INITIAL, actions).run.Some?
    requires i < |CallsOf(After(INITIAL, actions).calls, job)|
    requires CallsOf(After(INITIAL, actions).calls, job)[i].run == After(INITIAL, actions).runs
    ensures CallsOf(After(INITIAL, actions).calls, job)[i].attempt <= After(INITIAL, actions).run.value.retries + 1
  {
    RunsKeepHistory(INITIAL, actions);
    var s := After(INITIAL, actions);
    assert JobOk(CallsOf(s.calls, job), Count(s.decisive, job), s.runs);
    LaterAttempts(CallsOf(s.calls, job), i, s.runs);
  }

  lemma {:induction false} LaterAttempts(cs: seq<Call>, i: nat, runs: nat)
    requires InSequence(cs) && i < |cs| && LastOf(cs).run <= runs && cs[i].run == runs
    ensures LastOf(cs).run == runs && cs[i].attempt <= LastOf(cs).attempt
    decreases |cs| - i
  {
    if i + 1 < |cs| {
      assert Follows(cs[i], cs[i + 1]);
      RunsGrow(cs, i + 1);
      LaterAttempts(cs, i + 1, runs);
    }
  }

  lemma {:induction false} RunsGrow(cs: seq<Call>, i: nat)
    requires InSequence(cs) && i < |cs|
    ensures cs[i].run <= LastOf(cs).run
    decreases |cs| - i
  {
    if i + 1 < |cs| {
      assert Follows(cs[i], cs[i + 1]);
      RunsGrow(cs, i + 1);
    }
  }

  lemma OpenCallCounts(actions: seq<Action>, job: Job)
    requires Legal(INITIAL, actions) && CallsOf(After(INITIAL, actions).calls, job) != []
    requires MayHaveSynthesized(LastOf(CallsOf(After(INITIAL, actions).calls, job)))
    ensures Inv(After(INITIAL, actions)) && Count(After(INITIAL, actions).decisive, job) == 1
  {
    RunsKeepHistory(INITIAL, actions);
    assert JobOk(CallsOf(After(INITIAL, actions).calls, job), Count(After(INITIAL, actions).decisive, job),
                 After(INITIAL, actions).runs);
  }

  /** At any moment a crash may hit: the next run, whatever it selects, is not refused, and reads a job whose last call
      may have synthesized back as passed or unknown. */
  lemma DecisiveCallIsReadBack(
    actions: seq<Action>, jobs: seq<Job>, writeAudio: bool, retries: nat, workers: nat, i: nat)
    requires Legal(INITIAL, actions) && DistinctJobs(jobs) && i < |jobs|
    requires CallsOf(After(INITIAL, actions).calls, jobs[i]) != []
    requires MayHaveSynthesized(LastOf(CallsOf(After(INITIAL, actions).calls, jobs[i])))
    ensures var run := StartRun(After(INITIAL, actions).(run := None), jobs, writeAudio, retries, workers).run;
      run.Some? && run.value.records[i].Some? && run.value.records[i].value.status in {Passed, Unknown}
  {
    OpenCallCounts(actions, jobs[i]);
    StartKeeps(After(INITIAL, actions).(run := None), jobs, writeAudio, retries, workers);
  }

  /** And that whole run makes no call for it. */
  lemma NextRunMakesNoCall(
    actions: seq<Action>, jobs: seq<Job>, writeAudio: bool, retries: nat, workers: nat, more: seq<Action>, i: nat)
    requires Legal(INITIAL, actions) && DistinctJobs(jobs) && i < |jobs|
    requires CallsOf(After(INITIAL, actions).calls, jobs[i]) != []
    requires MayHaveSynthesized(LastOf(CallsOf(After(INITIAL, actions).calls, jobs[i])))
    requires Legal(StartRun(After(INITIAL, actions).(run := None), jobs, writeAudio, retries, workers), more)
    requires forall a :: a in more ==> !a.Start?
    ensures
      var s := StartRun(After(INITIAL, actions).(run := None), jobs, writeAudio, retries, workers);
      CallsOf(After(s, more).calls, jobs[i]) == CallsOf(s.calls, jobs[i])
  {
    var s := StartRun(After(INITIAL, actions).(run := None), jobs, writeAudio, retries, workers);
    DecisiveCallIsReadBack(actions, jobs, writeAudio, retries, workers, i);
    SettledIsLeftAlone(s, more, jobs[i], i, s.run.value.records[i]);
  }

  /** The record of an error names it and this run's attempts. */
  predicate SaysWhy(r: Record, attempt: int, message: string) {
    r.error == Some(message) && r.lastRunAttempts == Some(attempt)
  }

  lemma AfterErrorIs(run: Run, i: nat, attempt: nat, e: ProviderError)
    requires i < |run.jobs|
    ensures var worker := AfterError(run, i, attempt, e);
      if attempt <= run.retries && Repeatable(e) then worker == Starting(i, attempt + 1)
      else
        && worker.Settling? && worker.record.job == run.jobs[i] && SaysWhy(worker.record, attempt, e.message)
        && (!Definite(e) ==> worker.record.status == Unknown)
        && (Definite(e) && !(run.jobs[i] in run.unresolved && run.unresolved[run.jobs[i]].status == Unknown) ==>
              worker.record.status == Failed && worker.record.retrySafe)
  {
    RulesAgree(e);
  }

  /** In every reachable state a worker that gets an error tries again exactly when attempts are left and the error is a
      retriable rate limit with credit; otherwise it settles on a record that is unknown if the error is not definite,
      and a failure that is safe to retry if it is. */
  lemma ErrorDecidesTheWorker(actions: seq<Action>, w: nat, e: ProviderError)
    requires Legal(INITIAL, actions) && Enabled(After(INITIAL, actions), EndCall(w, Error(e)))
    ensures
      var run := After(INITIAL, actions).run.value;
      var worker := Step(After(INITIAL, actions), EndCall(w, Error(e))).run.value.workers[w];
      var job := run.jobs[run.workers[w].i];
      && (worker.Settling? ==> SaysWhy(worker.record, run.workers[w].attempt, e.message))
      && if && run.workers[w].attempt <= run.retries
            && !e.outcomeUnknown && e.retriable && e.code == Some("provider.rate_limited")
            && e.providerCode != Some("insufficient_quota_error")
            && (|| e.providerCode == Some("rate_limit_exceeded_error") || e.httpStatus in {Some(429), Some(503)}
                || !e.mentionsCredit)
         then worker == Starting(run.workers[w].i, run.workers[w].attempt + 1)
         else if && !e.outcomeUnknown
                 && e.code in {
                      Some("provider.auth_failed"), Some("provider.invalid_request"), Some("provider.input_rejected"),
                      Some("provider.model_unsupported"), Some("provider.voice_unsupported"),
                      Some("provider.quota_exceeded"), Some("provider.rate_limited")}
         then worker.Settling? && worker.record.job == job
              && (!(job in run.unresolved && run.unresolved[job].status == Unknown) ==>
                    worker.record.status == Failed && worker.record.retrySafe)
         else worker.Settling? && worker.record.job == job && worker.record.status == Unknown
  {
    var run := After(INITIAL, actions).run.value;
    AfterErrorIs(run, run.workers[w].i, run.workers[w].attempt, e);
  }

  lemma ErrorCounts(s: State, run: Run, w: nat, e: ProviderError)
    requires Inv(s) && s.run == Some(run) && w < |run.workers| && run.workers[w].Calling?
    requires run.workers[w].i < |run.jobs|
    ensures var job, t := run.jobs[run.workers[w].i], EndStep(s, run, w, Error(e));
      && Count(s.decisive, job) == 1 && Count(t.decisive, job) == (if Definite(e) then 0 else 1)
      && (forall k :: k != job ==> Count(t.decisive, k) == Count(s.decisive, k))
  {
    RulesAgree(e);
    assert WorkerInv(run.workers[w], run.jobs, run.nextJob, s.decisive);
  }

  /** And it gives its call back, of the ones that count against the job, exactly when the error is definite. */
  lemma ErrorGivesTheCallBack(actions: seq<Action>, w: nat, e: ProviderError)
    requires Legal(INITIAL, actions) && Enabled(After(INITIAL, actions), EndCall(w, Error(e)))
    ensures
      var s, t := After(INITIAL, actions), Step(After(INITIAL, actions), EndCall(w, Error(e)));
      var job := s.run.value.jobs[s.run.value.workers[w].i];
      var definite :=
        && !e.outcomeUnknown
        && e.code in {
             Some("provider.auth_failed"), Some("provider.invalid_request"), Some("provider.input_rejected"),
             Some("provider.model_unsupported"), Some("provider.voice_unsupported"), Some("provider.quota_exceeded"),
             Some("provider.rate_limited")};
      && Count(s.decisive, job) == 1 && Count(t.decisive, job) == (if definite then 0 else 1)
      && (forall k :: k != job ==> Count(t.decisive, k) == Count(s.decisive, k))
  {
    RunsKeep(INITIAL, actions);
    ErrorCounts(After(INITIAL, actions), After(INITIAL, actions).run.value, w, e);
  }
}
