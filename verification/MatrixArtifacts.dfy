/** The order of durable writes: a record says passed only when its artifact is complete, in memory and on disk, at
    every moment of every run, as long as nobody else touches the artifact files. */
module MatrixArtifacts {
  import opened Wrappers
  import opened MatrixRecords
  import opened MatrixProtocol

  predicate Synthesized(r: Record) { r.status == Passed || r.status == PendingArtifact }

  /** The complete file that a passed record with audio speaks of. */
  predicate Backed(r: Record, wavs: Artifacts) {
    r.status == Passed && r.hasAudioArtifact == Some(true) ==>
      r.metrics.Some? && r.job in wavs && wavs[r.job] == r.metrics.value.audioBytes
  }

  /** Records that exist: in the manifest, in the history that a run read, or in its memory. */
  ghost predicate Exists(s: State, r: Record) {
    || (s.manifest.Some? && r in Values(s.manifest.value))
    || (s.run.Some? && (r in s.run.value.history || Some(r) in s.run.value.records))
  }

  /** Backed by its file, and by a call that succeeded or may have. */
  ghost predicate Good(r: Record, wavs: Artifacts, decisive: map<Job, nat>, calls: map<Job, seq<Call>>) {
    Backed(r, wavs) && (Synthesized(r) ==> 0 < Count(decisive, r.job) && Reports(r, CallsOf(calls, r.job)))
  }

  /** The record has the metrics of its job's last call, which succeeded. */
  predicate Reports(r: Record, cs: seq<Call>) { r.metrics.Some? && SucceededWith(cs, r.metrics.value) }

  predicate SucceededWith(cs: seq<Call>, metrics: Metrics) {
    cs != [] && cs[|cs| - 1].outcome == Some(Success(metrics))
  }

  ghost predicate NoneSynthesized(s: State, job: Job) { forall r :: Exists(s, r) && r.job == job ==> !Synthesized(r) }

  ghost predicate NonePassed(s: State, job: Job) { forall r :: Exists(s, r) && r.job == job ==> r.status != Passed }

  /** What a worker relies on at each stage of its job. */
  ghost predicate WorkerGood(s: State, job: Job, worker: Worker) {
    match worker
    case Calling(_, _) => NoneSynthesized(s, job) && CallsOf(s.calls, job) != []
    case Synthesized(_, _, metrics) => NoneSynthesized(s, job) && SucceededWith(CallsOf(s.calls, job), metrics)
    case ArtifactDue(_, _, record) =>
      NonePassed(s, job) && 0 < Count(s.decisive, job) && Reports(record, CallsOf(s.calls, job))
    case ArtifactWritten(_, _, record) =>
      && 0 < Count(s.decisive, job) && Reports(record, CallsOf(s.calls, job))
      && job in s.wavs && s.wavs[job] == record.metrics.value.audioBytes
    case Settling(_, record) =>
      Synthesized(record) ==>
        && record.status == Passed && record.hasAudioArtifact == Some(false)
        && 0 < Count(s.decisive, job) && Reports(record, CallsOf(s.calls, job))
    case _ => true
  }

  ghost predicate WorkersGood(s: State, run: Run) {
    forall w :: 0 <= w < |run.workers| && Busy(run.workers[w]) && run.workers[w].i < |run.jobs| ==>
      WorkerGood(s, run.jobs[run.workers[w].i], run.workers[w])
  }

  ghost predicate AllGood(s: State) { forall r :: Exists(s, r) ==> Good(r, s.wavs, s.decisive, s.calls) }

  ghost predicate InOrder(s: State) { AllGood(s) && (s.run.Some? ==> WorkersGood(s, s.run.value)) }

  // ----- A step concerns one job -----

  /** Nothing but this job's records, count and file has changed. */
  ghost predicate Touches(s: State, t: State, job: Job) {
    && (forall r :: Exists(t, r) ==> Exists(s, r) || r.job == job)
    && (forall k :: k != job ==>
          Count(t.decisive, k) == Count(s.decisive, k) && CallsOf(t.calls, k) == CallsOf(s.calls, k))
    && (forall k :: k != job ==> (k in t.wavs <==> k in s.wavs) && (k in s.wavs ==> t.wavs[k] == s.wavs[k]))
  }

  lemma OthersStayGood(s: State, t: State, job: Job, other: Job, worker: Worker)
    requires Touches(s, t, job) && other != job && WorkerGood(s, other, worker)
    ensures WorkerGood(t, other, worker)
  {
  }

  /** A worker's step on its job keeps the order if it does so for the job. */
  lemma JobStep(s: State, t: State, run: Run, w: nat, next: Worker)
    requires Inv(s) && InOrder(s) && s.run == Some(run) && w < |run.workers| && Busy(run.workers[w])
    requires run.workers[w].i < |run.jobs|
    requires t.run.Some? && t.run.value.jobs == run.jobs && t.run.value.workers == run.workers[w := next]
    requires Busy(next) ==> next.i == run.workers[w].i && WorkerGood(t, run.jobs[next.i], next)
    requires Touches(s, t, run.jobs[run.workers[w].i])
    requires forall r :: Exists(t, r) && r.job == run.jobs[run.workers[w].i] ==> Good(r, t.wavs, t.decisive, t.calls)
    ensures InOrder(t)
  {
    var job := run.jobs[run.workers[w].i];
    forall r | Exists(t, r) ensures Good(r, t.wavs, t.decisive, t.calls) {
      if r.job != job { assert Good(r, s.wavs, s.decisive, s.calls); }
    }
    forall v | 0 <= v < |run.workers| && v != w && Busy(run.workers[v]) && run.workers[v].i < |run.jobs|
      ensures WorkerGood(t, run.jobs[run.workers[v].i], run.workers[v])
    {
      OthersStayGood(s, t, job, run.jobs[run.workers[v].i], run.workers[v]);
    }
  }

  // ----- Where records come from -----

  lemma SnapshotComesFrom(writeAudio: bool, history: seq<Record>, records: seq<Option<Record>>, r: Record)
    requires r in Values(Snapshot(writeAudio, history, records))
    ensures r in history || Some(r) in records
  {
    var present, base := Present(records), PutAll([], history);
    PutAllIsDistinct(history);
    if r in present {
      PresentComesFrom(records, r);
    } else {
      PutAllComesFrom(base, present, r);
      PutAllComesFrom([], history, r);
    }
  }

  lemma StoredAt(records: seq<Option<Record>>, i: nat, record: Record, r: Record)
    requires i < |records| && Some(r) in records[i := Some(record)]
    ensures Some(r) in records || r == record
  {
  }

  /** A checkpoint adds no record but the one stored. */
  lemma CheckpointAdds(s: State, run: Run, i: nat, record: Record, persisted: bool, r: Record)
    requires i < |run.records| && Exists(Checkpoint(s, run, i, record, persisted), r)
    ensures Exists(s.(run := Some(run)), r) || r == record
  {
    var after := run.(records := run.records[i := Some(record)]);
    if Some(r) in after.records { StoredAt(run.records, i, record, r); }
    if persisted && r in Values(Snapshot(run.writeAudio, run.history, after.records)) {
      SnapshotComesFrom(run.writeAudio, run.history, after.records, r);
      if Some(r) in after.records { StoredAt(run.records, i, record, r); }
    }
  }

  /** A checkpoint of a record for a worker's job, with the count of that job possibly changed afterwards. */
  lemma StoreStep(
    s: State, run: Run, w: nat, next: Worker, record: Record, persisted: bool, decisive: map<Job, nat>,
    calls: map<Job, seq<Call>>)
    requires Inv(s) && InOrder(s) && s.run == Some(run) && w < |run.workers| && Busy(run.workers[w])
    requires run.workers[w].i < |run.jobs| && run.workers[w].i < |run.records|
    requires record.job == run.jobs[run.workers[w].i]
    requires forall k :: k != record.job ==>
      Count(decisive, k) == Count(s.decisive, k) && CallsOf(calls, k) == CallsOf(s.calls, k)
    requires CallsOf(calls, record.job) == CallsOf(s.calls, record.job) || NoneSynthesized(s, record.job)
    requires Count(s.decisive, record.job) <= Count(decisive, record.job) && Good(record, s.wavs, decisive, calls)
    requires
      var t := Checkpoint(s, Move(run, w, next), run.workers[w].i, record, persisted)
                 .(decisive := decisive, calls := calls);
      Busy(next) ==> next.i == run.workers[w].i && WorkerGood(t, record.job, next)
    ensures InOrder(Checkpoint(s, Move(run, w, next), run.workers[w].i, record, persisted)
                      .(decisive := decisive, calls := calls))
  {
    var i, moved := run.workers[w].i, Move(run, w, next);
    var c := Checkpoint(s, moved, i, record, persisted);
    var t := c.(decisive := decisive, calls := calls);
    forall r | Exists(t, r)
      ensures Exists(s, r) || r == record
      ensures r.job == record.job ==> Good(r, t.wavs, t.decisive, t.calls)
    {
      assert Exists(c, r);
      CheckpointAdds(s, moved, i, record, persisted, r);
      assert Exists(s, r) ==> Good(r, s.wavs, s.decisive, s.calls);
    }
    JobStep(s, t, run, w, next);
  }

  // ----- Every step keeps the order -----

  lemma NormalizedIsGood(
    r: Record, wavs: Artifacts, manifestWritesAudio: bool, decisive: map<Job, nat>, calls: map<Job, seq<Call>>)
    requires Normalize(r, wavs, manifestWritesAudio).Some? && Good(r, wavs, decisive, calls)
    ensures var n := Normalize(r, wavs, manifestWritesAudio).value; Good(n, wavs, decisive, calls)
  {
  }

  lemma {:induction false} NormalizedAreGood(
    rs: seq<Record>, wavs: Artifacts, manifestWritesAudio: bool, decisive: map<Job, nat>, calls: map<Job, seq<Call>>,
    r: Record)
    requires NormalizeAll(rs, wavs, manifestWritesAudio).Some? && r in NormalizeAll(rs, wavs, manifestWritesAudio).value
    requires forall x :: x in rs ==> Good(x, wavs, decisive, calls)
    ensures Good(r, wavs, decisive, calls)
  {
    var head, last := rs[..|rs| - 1], rs[|rs| - 1];
    assert rs == head + [last];
    if r in NormalizeAll(head, wavs, manifestWritesAudio).value {
      NormalizedAreGood(head, wavs, manifestWritesAudio, decisive, calls, r);
    } else {
      NormalizedIsGood(last, wavs, manifestWritesAudio, decisive, calls);
    }
  }

  lemma HistoryIsGood(
    m: Manifest, wavs: Artifacts, jobs: seq<Job>, writeAudio: bool, decisive: map<Job, nat>, calls: map<Job, seq<Call>>,
    r: Record)
    requires ReadBack(m, wavs, jobs, writeAudio).Some? && forall x :: x in Values(m) ==> Good(x, wavs, decisive, calls)
    requires r in ReadBack(m, wavs, jobs, writeAudio).value.history
    ensures Good(r, wavs, decisive, calls)
  {
    var all := NormalizeAll(Values(m), wavs, m.writeAudio).value;
    PutAllComesFrom([], all, r);
    NormalizedAreGood(Values(m), wavs, m.writeAudio, decisive, calls, r);
  }

  /** A selected record is one of the history, or one that lost its claim to be passed. */
  lemma SelectedComesFrom(history: seq<Record>, jobs: seq<Job>, writeAudio: bool, job: Job)
    requires job in jobs
    ensures
      var prior := ResumeState(ReusableOf(history, jobs, writeAudio), UnresolvedOf(history, jobs, writeAudio), history);
      var chosen := SelectOne(prior, job);
      chosen.Some? ==> chosen.value in history || !Synthesized(chosen.value)
  {
    LastIsThere(history, job);
  }

  lemma ReadBackIsGood(
    m: Manifest, wavs: Artifacts, jobs: seq<Job>, writeAudio: bool, decisive: map<Job, nat>,
    calls: map<Job, seq<Call>>)
    requires ReadBack(m, wavs, jobs, writeAudio).Some? && forall x :: x in Values(m) ==> Good(x, wavs, decisive, calls)
    ensures var prior := ReadBack(m, wavs, jobs, writeAudio).value;
      && (forall r :: r in prior.history ==> Good(r, wavs, decisive, calls))
      && (forall r :: Some(r) in Select(jobs, prior) ==> Good(r, wavs, decisive, calls))
  {
    var prior := ReadBack(m, wavs, jobs, writeAudio).value;
    forall r | r in prior.history ensures Good(r, wavs, decisive, calls) {
      HistoryIsGood(m, wavs, jobs, writeAudio, decisive, calls, r);
    }
    forall r | Some(r) in Select(jobs, prior) ensures Good(r, wavs, decisive, calls) {
      var i :| 0 <= i < |jobs| && Select(jobs, prior)[i] == Some(r);
      SelectedComesFrom(prior.history, jobs, writeAudio, jobs[i]);
    }
  }

  lemma StartOrder(s: State, jobs: seq<Job>, writeAudio: bool, retries: nat, workers: nat)
    requires InOrder(s) && s.run.None?
    ensures InOrder(StartRun(s, jobs, writeAudio, retries, workers))
  {
    var t := StartRun(s, jobs, writeAudio, retries, workers);
    if s.manifest.Some? {
      if t.run.Some? {
        assert forall r :: r in Values(s.manifest.value) ==> Exists(s, r);
        ReadBackIsGood(s.manifest.value, s.wavs, jobs, writeAudio, s.decisive, s.calls);
      }
    } else {
      forall i | 0 <= i < |jobs| ensures t.run.value.records[i].None? {}
    }
  }

  lemma WorkerStaysGood(s: State, t: State, job: Job, worker: Worker)
    requires WorkerGood(s, job, worker) && forall r :: Exists(t, r) ==> Exists(s, r)
    requires t.decisive == s.decisive && t.calls == s.calls && t.wavs == s.wavs
    ensures WorkerGood(t, job, worker)
  {
  }

  lemma TakeOrder(s: State, run: Run, w: nat)
    requires InOrder(s) && s.run == Some(run) && w < |run.workers|
    ensures InOrder(s.(run := Some(TakeJob(run, w))))
  {
    var next := TakeJob(run, w);
    var t := s.(run := Some(next));
    assert next.records == run.records && next.history == run.history && next.jobs == run.jobs;
    forall r | Exists(t, r) ensures Exists(s, r) && Good(r, t.wavs, t.decisive, t.calls) {}
    forall v | 0 <= v < |next.workers| && Busy(next.workers[v]) && next.workers[v].i < |next.jobs|
      ensures WorkerGood(t, next.jobs[next.workers[v].i], next.workers[v])
    {
      if v != w {
        assert next.workers[v] == run.workers[v];
        WorkerStaysGood(s, t, run.jobs[run.workers[v].i], run.workers[v]);
      }
    }
  }

  /** A job that was free has no synthesized record when its call starts. */
  lemma CallOrder(s: State, run: Run, w: nat, record: Record)
    requires Inv(s) && InOrder(s) && s.run == Some(run) && w < |run.workers| && run.workers[w].Starting?
    requires run.workers[w].i < |run.records| && run.workers[w].i < |run.jobs|
    requires record.job == run.jobs[run.workers[w].i] && record.status == InFlight && Count(s.decisive, record.job) == 0
    ensures InOrder(CallStarted(s, run, w, record))
  {
    var Starting(i, attempt) := run.workers[w];
    var moved := Move(run, w, Calling(i, attempt));
    var decisive := s.decisive[record.job := Count(s.decisive, record.job) + 1];
    var calls := Called(s.calls, record.job, s.runs, attempt);
    NothingSynthesized(s, run, w, Calling(i, attempt), record);
    var t := Checkpoint(s, moved, i, record, true).(decisive := decisive, calls := calls);
    assert NoneSynthesized(t, record.job);
    NoneIsSynthesized(s, record.job);
    StoreStep(s, run, w, Calling(i, attempt), record, true, decisive, calls);
  }

  lemma NoneIsSynthesized(s: State, job: Job)
    requires AllGood(s) && Count(s.decisive, job) == 0
    ensures NoneSynthesized(s, job)
  {
    forall r | Exists(s, r) && r.job == job ensures !Synthesized(r) {
      assert Good(r, s.wavs, s.decisive, s.calls);
    }
  }

  lemma NothingSynthesized(s: State, run: Run, w: nat, next: Worker, record: Record)
    requires AllGood(s) && s.run == Some(run) && w < |run.workers| && run.workers[w].Starting?
    requires run.workers[w].i < |run.records| && Count(s.decisive, record.job) == 0 && record.status == InFlight
    ensures NoneSynthesized(Checkpoint(s, Move(run, w, next), run.workers[w].i, record, true), record.job)
  {
    var moved := Move(run, w, next);
    var t := Checkpoint(s, moved, run.workers[w].i, record, true);
    forall r | Exists(t, r) && r.job == record.job ensures !Synthesized(r) {
      CheckpointAdds(s, moved, run.workers[w].i, record, true, r);
      assert Exists(s, r) || r == record;
      assert Exists(s, r) ==> Good(r, s.wavs, s.decisive, s.calls);
    }
  }

  lemma BeginOrder(s: State, run: Run, w: nat, persisted: bool)
    requires Inv(s) && InOrder(s) && s.run == Some(run) && w < |run.workers| && run.workers[w].Starting?
    requires run.workers[w].i < |run.records| && run.workers[w].i < |run.jobs|
    ensures InOrder(BeginStep(s, run, w, persisted))
  {
    var Starting(i, attempt) := run.workers[w];
    assert WorkerInv(run.workers[w], run.jobs, run.nextJob, s.decisive);
    CarryKeeps(run, Base(run.jobs[i], InFlight, attempt));
    var record := WithHistory(run, Base(run.jobs[i], InFlight, attempt));
    if persisted { CallOrder(s, run, w, record); } else { NoCallOrder(s, run, w, record); }
  }

  lemma NoCallOrder(s: State, run: Run, w: nat, record: Record)
    requires Inv(s) && InOrder(s) && s.run == Some(run) && w < |run.workers| && run.workers[w].Starting?
    requires run.workers[w].i < |run.records| && run.workers[w].i < |run.jobs|
    requires record.job == run.jobs[run.workers[w].i] && record.status == InFlight
    ensures InOrder(CallPrevented(s, run, w, record))
  {
    ThrownIsUnknown(run, run.workers[w].i, run.retries + 1);
    StoreOrder(s, run, w, Thrown(run, run.workers[w].i, run.retries + 1), record);
  }

  lemma ThrownIsUnknown(run: Run, i: nat, attempt: int)
    requires i < |run.jobs|
    ensures var worker := Thrown(run, i, attempt);
      worker.Settling? && worker.i == i && worker.record.status == Unknown
  {
  }

  lemma StoreOrder(s: State, run: Run, w: nat, next: Worker, record: Record)
    requires Inv(s) && InOrder(s) && s.run == Some(run) && w < |run.workers| && Busy(run.workers[w])
    requires run.workers[w].i < |run.records| && run.workers[w].i < |run.jobs|
    requires record.job == run.jobs[run.workers[w].i] && !Synthesized(record)
    requires next.Settling? && next.i == run.workers[w].i && !Synthesized(next.record)
    ensures InOrder(Checkpoint(s, Move(run, w, next), run.workers[w].i, record, false))
  {
    StoreStep(s, run, w, next, record, false, s.decisive, s.calls);
    var t := Checkpoint(s, Move(run, w, next), run.workers[w].i, record, false);
    assert t.(decisive := s.decisive, calls := s.calls) == t;
  }

  /** While the call was under way no record of its job said synthesized, so its count may go back. */
  lemma RecountOrder(s: State, t: State, run: Run, w: nat, next: Worker)
    requires Inv(s) && InOrder(s) && s.run == Some(run) && w < |run.workers| && run.workers[w].Calling?
    requires run.workers[w].i < |run.jobs|
    requires t.run == Some(Move(run, w, next)) && t.manifest == s.manifest && t.wavs == s.wavs
    requires forall k :: k != run.jobs[run.workers[w].i] ==>
      Count(t.decisive, k) == Count(s.decisive, k) && CallsOf(t.calls, k) == CallsOf(s.calls, k)
    requires Busy(next) && next.i == run.workers[w].i && (next.Starting? || next.Synthesized? || next.Settling?)
    requires next.Synthesized? ==> SucceededWith(CallsOf(t.calls, run.jobs[run.workers[w].i]), next.metrics)
    requires next.Settling? ==> !Synthesized(next.record)
    ensures InOrder(t)
  {
    var job := run.jobs[run.workers[w].i];
    assert WorkerGood(s, job, run.workers[w]);
    assert forall r :: Exists(t, r) <==> Exists(s, r);
    forall r | Exists(t, r) && r.job == job
      ensures Good(r, t.wavs, t.decisive, t.calls)
    {
      assert Exists(s, r) && !Synthesized(r);
    }
    JobStep(s, t, run, w, next);
  }

  lemma EndedElsewhere(calls: map<Job, seq<Call>>, job: Job, outcome: Outcome, k: Job)
    requires CallsOf(calls, job) != []
    ensures k != job ==> CallsOf(Ended(calls, job, outcome), k) == CallsOf(calls, k)
    ensures outcome.Success? ==> SucceededWith(CallsOf(Ended(calls, job, outcome), job), outcome.metrics)
  {
  }

  lemma SuccessOrder(s: State, run: Run, w: nat, metrics: Metrics)
    requires Inv(s) && InOrder(s) && s.run == Some(run) && w < |run.workers| && run.workers[w].Calling?
    requires run.workers[w].i < |run.jobs|
    ensures InOrder(EndStep(s, run, w, Success(metrics)))
  {
    var Calling(i, attempt) := run.workers[w];
    var t := EndStep(s, run, w, Success(metrics));
    assert WorkerGood(s, run.jobs[i], run.workers[w]);
    forall k ensures k != run.jobs[i] ==> CallsOf(t.calls, k) == CallsOf(s.calls, k) {
      EndedElsewhere(s.calls, run.jobs[i], Success(metrics), k);
    }
    EndedElsewhere(s.calls, run.jobs[i], Success(metrics), run.jobs[i]);
    RecountOrder(s, t, run, w, Worker.Synthesized(i, attempt, metrics));
  }

  lemma AfterErrorHasNoSuccess(run: Run, i: nat, attempt: nat, e: ProviderError)
    requires i < |run.jobs|
    ensures var next := AfterError(run, i, attempt, e);
      next.i == i && (next.Starting? || (next.Settling? && !Synthesized(next.record)))
  {
  }

  lemma ErrorOrder(s: State, run: Run, w: nat, e: ProviderError)
    requires Inv(s) && InOrder(s) && s.run == Some(run) && w < |run.workers| && run.workers[w].Calling?
    requires run.workers[w].i < |run.jobs|
    ensures InOrder(EndStep(s, run, w, Error(e)))
  {
    var Calling(i, attempt) := run.workers[w];
    var t := EndStep(s, run, w, Error(e));
    assert WorkerGood(s, run.jobs[i], run.workers[w]);
    forall k | k != run.jobs[i]
      ensures Count(t.decisive, k) == Count(s.decisive, k) && CallsOf(t.calls, k) == CallsOf(s.calls, k)
    {
      EndedElsewhere(s.calls, run.jobs[i], Error(e), k);
    }
    AfterErrorHasNoSuccess(run, i, attempt, e);
    RecountOrder(s, t, run, w, AfterError(run, i, attempt, e));
  }

  lemma EndOrder(s: State, run: Run, w: nat, outcome: Outcome)
    requires Inv(s) && InOrder(s) && s.run == Some(run) && w < |run.workers| && run.workers[w].Calling?
    requires run.workers[w].i < |run.jobs|
    ensures InOrder(EndStep(s, run, w, outcome))
  {
    match outcome
    case Success(metrics) => SuccessOrder(s, run, w, metrics);
    case Error(e) => ErrorOrder(s, run, w, e);
  }

  /** While its call was under way, nothing about a job said passed, and a pending record does not say so either. */
  lemma PendingOrder(s: State, run: Run, w: nat, next: Worker, record: Record, persisted: bool)
    requires Inv(s) && InOrder(s) && s.run == Some(run) && w < |run.workers| && run.workers[w].Synthesized?
    requires run.workers[w].i < |run.records| && run.workers[w].i < |run.jobs|
    requires record.job == run.jobs[run.workers[w].i] && record.status == PendingArtifact
    requires record.metrics == Some(run.workers[w].metrics) && record.hasAudioArtifact == Some(true)
    requires next.Settling? || next.ArtifactDue?
    requires next.i == run.workers[w].i && next.record.status != Passed
    requires next.Settling? ==> !Synthesized(next.record)
    requires next.ArtifactDue? ==> next.record == record
    ensures InOrder(Checkpoint(s, Move(run, w, next), run.workers[w].i, record, persisted))
  {
    var i, moved := run.workers[w].i, Move(run, w, next);
    var t := Checkpoint(s, moved, i, record, persisted);
    assert WorkerInv(run.workers[w], run.jobs, run.nextJob, s.decisive) && WorkerGood(s, record.job, run.workers[w]);
    forall r | Exists(t, r) && r.job == record.job ensures r.status != Passed {
      CheckpointAdds(s, moved, i, record, persisted, r);
      assert Exists(s, r) || r == record;
    }
    assert t.(decisive := s.decisive, calls := s.calls) == t;
    StoreStep(s, run, w, next, record, persisted, s.decisive, s.calls);
  }

  lemma CompletedIs(run: Run, job: Job, attempt: int, metrics: Metrics)
    ensures var record := Completed(run, job, attempt, metrics);
      && record.job == job && record.metrics == Some(metrics) && record.hasAudioArtifact == Some(run.writeAudio)
      && record.status == if run.writeAudio then PendingArtifact else Passed
  {
  }

  lemma CompleteOrder(s: State, run: Run, w: nat, persisted: bool)
    requires Inv(s) && InOrder(s) && s.run == Some(run) && w < |run.workers| && run.workers[w].Synthesized?
    requires run.workers[w].i < |run.records| && run.workers[w].i < |run.jobs|
    ensures InOrder(CompleteStep(s, run, w, persisted))
  {
    var Synthesized(i, attempt, metrics) := run.workers[w];
    var record := Completed(run, run.jobs[i], attempt, metrics);
    CompletedIs(run, run.jobs[i], attempt, metrics);
    if !run.writeAudio {
      var t := CompleteStep(s, run, w, persisted);
      assert WorkerInv(run.workers[w], run.jobs, run.nextJob, s.decisive);
      assert forall r :: Exists(t, r) <==> Exists(s, r);
      JobStep(s, t, run, w, Settling(i, record));
    } else {
      ThrownIsUnknown(run, i, attempt);
      var next := if persisted then ArtifactDue(i, attempt, record) else Thrown(run, i, attempt);
      PendingOrder(s, run, w, next, record, persisted);
    }
  }

  lemma ArtifactOrder(s: State, run: Run, w: nat, written: bool)
    requires Inv(s) && InOrder(s) && s.run == Some(run) && w < |run.workers| && run.workers[w].ArtifactDue?
    requires run.workers[w].i < |run.jobs|
    ensures InOrder(ArtifactStep(s, run, w, written))
  {
    var ArtifactDue(i, attempt, record) := run.workers[w];
    var t := ArtifactStep(s, run, w, written);
    assert WorkerGood(s, run.jobs[i], run.workers[w]);
    assert forall r :: Exists(t, r) <==> Exists(s, r);
    forall r | Exists(t, r) && r.job == run.jobs[i] ensures Good(r, t.wavs, t.decisive, t.calls) {
      assert Exists(s, r) && r.status != Passed && Good(r, s.wavs, s.decisive, s.calls);
    }
    JobStep(s, t, run, w, if written then ArtifactWritten(i, attempt, record) else Thrown(run, i, attempt));
  }

  lemma FinishArtifactOrder(s: State, run: Run, w: nat, persisted: bool)
    requires Inv(s) && InOrder(s) && s.run == Some(run) && w < |run.workers| && run.workers[w].ArtifactWritten?
    requires run.workers[w].i < |run.records| && run.workers[w].i < |run.jobs|
    ensures InOrder(FinishArtifactStep(s, run, w, persisted))
  {
    var ArtifactWritten(i, attempt, record) := run.workers[w];
    assert WorkerInv(run.workers[w], run.jobs, run.nextJob, s.decisive) && WorkerGood(s, run.jobs[i], run.workers[w]);
    var next := if persisted then Idle else Thrown(run, i, attempt);
    StoreStep(s, run, w, next, record.(status := Passed), persisted, s.decisive, s.calls);
  }

  lemma SettleOrder(s: State, run: Run, w: nat, persisted: bool)
    requires Inv(s) && InOrder(s) && s.run == Some(run) && w < |run.workers| && run.workers[w].Settling?
    requires run.workers[w].i < |run.records| && run.workers[w].i < |run.jobs|
    ensures InOrder(SettleStep(s, run, w, persisted))
  {
    var Settling(i, record) := run.workers[w];
    assert WorkerInv(run.workers[w], run.jobs, run.nextJob, s.decisive) && WorkerGood(s, run.jobs[i], run.workers[w]);
    StoreStep(s, run, w, if persisted then Idle else Stopped, record, persisted, s.decisive, s.calls);
  }

  lemma FinishOrder(s: State, run: Run)
    requires InOrder(s) && s.run == Some(run)
    ensures InOrder(s.(run := None, manifest := Some(Snapshot(run.writeAudio, run.history, run.records))))
  {
    var t := s.(run := None, manifest := Some(Snapshot(run.writeAudio, run.history, run.records)));
    forall r | Exists(t, r) ensures Exists(s, r) { SnapshotComesFrom(run.writeAudio, run.history, run.records, r); }
  }

  lemma StepInOrder(s: State, a: Action)
    requires Inv(s) && InOrder(s) && Enabled(s, a) && !a.Tamper?
    ensures InOrder(Step(s, a))
  {
    match a
    case Start(jobs, writeAudio, retries, workers) => StartOrder(s, jobs, writeAudio, retries, workers);
    case Take(w) => TakeOrder(s, s.run.value, w);
    case BeginAttempt(w, persisted) => BeginOrder(s, s.run.value, w, persisted);
    case EndCall(w, outcome) => EndOrder(s, s.run.value, w, outcome);
    case Complete(w, persisted) => CompleteOrder(s, s.run.value, w, persisted);
    case WriteArtifact(w, written) => ArtifactOrder(s, s.run.value, w, written);
    case FinishArtifact(w, persisted) => FinishArtifactOrder(s, s.run.value, w, persisted);
    case Settle(w, persisted) =>
      assert WorkerInv(s.run.value.workers[w], s.run.value.jobs, s.run.value.nextJob, s.decisive);
      SettleOrder(s, s.run.value, w, persisted);
    case Finish => FinishOrder(s, s.run.value);
    case Crash => assert forall r :: Exists(s.(run := None), r) ==> Exists(s, r);
  }

  lemma {:induction false} RunsInOrder(s: State, actions: seq<Action>)
    requires Inv(s) && InOrder(s) && Legal(s, actions) && forall a :: a in actions ==> !a.Tamper?
    ensures InOrder(After(s, actions))
    decreases |actions|
  {
    if actions != [] {
      StepKeeps(s, actions[0]);
      StepInOrder(s, actions[0]);
      RunsInOrder(Step(s, actions[0]), actions[1..]);
    }
  }

  /** Through any number of runs, crashes between any two steps and failed writes: a passed record with audio, be it
      durable or in memory, has its complete artifact. */
  lemma PassedHasItsArtifact(actions: seq<Action>, r: Record)
    requires Legal(INITIAL, actions) && (forall a :: a in actions ==> !a.Tamper?) && Exists(After(INITIAL, actions), r)
    requires r.status == Passed && r.hasAudioArtifact == Some(true)
    ensures var wavs := After(INITIAL, actions).wavs;
      r.metrics.Some? && r.job in wavs && wavs[r.job] == r.metrics.value.audioBytes
  {
    RunsInOrder(INITIAL, actions);
  }

  /** And a passed record, with or without audio, has the metrics of its job's last call, which succeeded. */
  lemma PassedReportsItsCall(actions: seq<Action>, r: Record)
    requires Legal(INITIAL, actions) && (forall a :: a in actions ==> !a.Tamper?) && Exists(After(INITIAL, actions), r)
    requires r.status == Passed
    ensures var cs := CallsOf(After(INITIAL, actions).calls, r.job);
      cs != [] && r.metrics.Some? && cs[|cs| - 1].outcome == Some(Success(r.metrics.value))
  {
    RunsInOrder(INITIAL, actions);
  }

  /** The next run takes a passed record from there, audio included, and does not synthesize again. */
  lemma PassedIsReused(
    actions: seq<Action>, jobs: seq<Job>, writeAudio: bool, retries: nat, workers: nat, i: nat, r: Record)
    requires Legal(INITIAL, actions) && (forall a :: a in actions ==> !a.Tamper?) && DistinctJobs(jobs) && i < |jobs|
    requires After(INITIAL, actions).manifest.Some?
    requires Last(Values(After(INITIAL, actions).manifest.value), jobs[i]) == Some(r)
    requires r.status == Passed && r.hasAudioArtifact.Some? && (writeAudio ==> r.hasAudioArtifact.value)
    requires r.metrics.Some? && var m := r.metrics.value;
      0 <= m.latencyMs && 1 <= m.chunks && 0 <= m.durationMs && 2 <= m.audioBytes && m.audioBytes % 2 == 0
    ensures var run := StartRun(After(INITIAL, actions).(run := None), jobs, writeAudio, retries, workers).run;
      && run.Some? && i < |run.value.records| && run.value.records[i].Some?
      && run.value.records[i].value.status == Passed && run.value.records[i].value.metrics == r.metrics
  {
    var s := After(INITIAL, actions);
    RunsKeep(INITIAL, actions);
    RunsInOrder(INITIAL, actions);
    LastIsThere(Values(s.manifest.value), jobs[i]);
    assert Exists(s, r) && Good(r, s.wavs, s.decisive, s.calls);
    SynthesisIsReused(s.manifest.value, s.wavs, jobs, writeAudio, jobs[i], r);
  }
}
