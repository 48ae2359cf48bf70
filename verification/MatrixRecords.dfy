/** Manifest records of the speech matrix runner: how a run's records are merged into the manifest, and how the
    next run reads them back.

    An artifact file name carries a digest of exactly the job's fields, so the job itself stands for its file. */
module MatrixRecords {
  import opened Wrappers

  datatype Transport = Rest | HttpStream

  datatype Job = Job(model: string, transport: Transport, voice: string, language: string, text: string)

  datatype Status = InFlight | PendingArtifact | Passed | Failed | Unknown

  datatype Metrics = Metrics(latencyMs: int, chunks: int, audioBytes: int, durationMs: int)

  datatype Record = Record(
    job: Job,
    status: Status,
    attempts: int,
    lastRunAttempts: Option<int>,
    priorUnknownAttempts: Option<int>,
    priorUnknownError: Option<string>,
    retrySafe: bool,
    hasAudioArtifact: Option<bool>,
    metrics: Option<Metrics>,
    error: Option<string>)

  datatype Manifest = Manifest(writeAudio: bool, records: seq<Record>, history: seq<Record>)

  /** The audio byte count of each complete WAV file in the directory. */
  type Artifacts = map<Job, int>

  datatype ResumeState = ResumeState(reusable: map<Job, Record>, unresolved: map<Job, Record>, history: seq<Record>)

  const STOPPED_IN_CALL := "matrix stopped during an API attempt; inspect the outcome before retrying"
  const BAD_ARTIFACT := "completed synthesis has a missing or invalid WAV artifact; inspect before retrying"
  const NO_ARTIFACT := "prior synthesis completed without a WAV artifact; inspect before retrying"

  // ----- Pure rules -----

  predicate ValidMetrics(m: Metrics) {
    0 <= m.latencyMs && 0 < m.chunks && 2 <= m.audioBytes && m.audioBytes % 2 == 0 && 0 <= m.durationMs
  }

  predicate ValidArtifact(wavs: Artifacts, job: Job, audioBytes: int) {
    0 < audioBytes && audioBytes % 2 == 0 && job in wavs && wavs[job] == audioBytes
  }

  function KeepPositive(n: Option<int>): Option<int> {
    if n.Some? && 0 < n.value then n else None
  }

  /** What a later run makes of one manifest record; `None` is a record it refuses. */
  function Normalize(r: Record, wavs: Artifacts, manifestWritesAudio: bool): Option<Record> {
    var unknown := r.(status := Unknown, lastRunAttempts := KeepPositive(r.lastRunAttempts),
                      priorUnknownAttempts := KeepPositive(r.priorUnknownAttempts),
                      retrySafe := false, hasAudioArtifact := Some(false), metrics := None);
    if r.attempts <= 0 then None
    else match r.status
      case InFlight => Some(unknown.(error := Some(STOPPED_IN_CALL)))
      case Unknown => if r.error.None? then None else Some(unknown)
      case Failed =>
        if r.error.None? then None
        else if r.retrySafe then Some(unknown.(status := Failed, retrySafe := true)) else Some(unknown)
      case _ =>
        var hasAudio := if r.hasAudioArtifact.Some? then r.hasAudioArtifact.value else manifestWritesAudio;
        if r.metrics.None? || !ValidMetrics(r.metrics.value)
           || (hasAudio && !ValidArtifact(wavs, r.job, r.metrics.value.audioBytes))
          then Some(unknown.(error := Some(BAD_ARTIFACT)))
        else Some(unknown.(status := Passed, hasAudioArtifact := Some(hasAudio), metrics := r.metrics, error := None))
  }

  function CarryHistory(previous: Record, current: Record): Record {
    var was := previous.status == Unknown;
    var attempts := (if previous.priorUnknownAttempts.Some? then previous.priorUnknownAttempts.value else 0)
      + (if !was then 0
         else if previous.lastRunAttempts.Some? then previous.lastRunAttempts.value
         else previous.attempts);
    var error := if was then previous.error else previous.priorUnknownError;
    var carried := current.(attempts := previous.attempts + current.attempts,
                            lastRunAttempts := Some(current.attempts),
                            priorUnknownAttempts :=
                              if 0 < attempts then Some(attempts) else current.priorUnknownAttempts,
                            priorUnknownError := if error.Some? then error else current.priorUnknownError);
    if was && current.status == Failed then carried.(status := Unknown, retrySafe := false) else carried
  }

  /** Never to be called again: in flight, synthesized, of unknown outcome, or failed without a safe retry. */
  predicate Blocking(r: Record) {
    r.status != Failed || !r.retrySafe
  }

  predicate Settled(r: Record) { r.status == Passed || r.status == Unknown }

  /** A record the runner writes and any later run accepts. */
  predicate Acceptable(r: Record) {
    0 < r.attempts && (r.status == Unknown || r.status == Failed ==> r.error.Some?)
  }

  // ----- Insertion-ordered maps by file, as sequences -----

  function Last(rs: seq<Record>, job: Job): Option<Record> {
    if rs == [] then None
    else if rs[|rs| - 1].job == job then Some(rs[|rs| - 1])
    else Last(rs[..|rs| - 1], job)
  }

  /** Replaces the record of the same file in place, or appends. */
  function Put(rs: seq<Record>, r: Record): seq<Record> {
    if rs == [] then [r] else if rs[0].job == r.job then [r] + rs[1..] else [rs[0]] + Put(rs[1..], r)
  }

  function PutAll(rs: seq<Record>, more: seq<Record>): seq<Record>
    decreases |more|
  {
    if more == [] then rs else Put(PutAll(rs, more[..|more| - 1]), more[|more| - 1])
  }

  function Present(records: seq<Option<Record>>): seq<Record> {
    if records == [] then []
    else
      var last := records[|records| - 1];
      Present(records[..|records| - 1]) + if last.Some? then [last.value] else []
  }

  /** Records are stored at most once for each file. */
  ghost predicate Distinct(rs: seq<Record>) {
    forall i, j :: 0 <= i < j < |rs| ==> rs[i].job != rs[j].job
  }

  lemma {:induction false} LastIsThere(rs: seq<Record>, job: Job)
    ensures Last(rs, job).Some? ==> Last(rs, job).value in rs && Last(rs, job).value.job == job
    ensures Last(rs, job).None? ==> forall r :: r in rs ==> r.job != job
  {
    if rs != [] {
      var head := rs[..|rs| - 1];
      assert rs == head + [rs[|rs| - 1]];
      LastIsThere(head, job);
    }
  }

  lemma {:induction false} LastOfConcat(a: seq<Record>, b: seq<Record>, job: Job)
    ensures Last(a + b, job) == if Last(b, job).Some? then Last(b, job) else Last(a, job)
  {
    if b == [] {
      assert a + b == a;
    } else {
      assert (a + b)[..|a + b| - 1] == a + b[..|b| - 1];
      LastOfConcat(a, b[..|b| - 1], job);
    }
  }

  lemma DistinctTail(rs: seq<Record>)
    requires Distinct(rs) && rs != []
    ensures Distinct(rs[1..]) && forall r :: r in rs[1..] ==> r.job != rs[0].job
  {
    forall i, j | 0 <= i < j < |rs[1..]| ensures rs[1..][i].job != rs[1..][j].job {
      assert rs[1..][i] == rs[i + 1] && rs[1..][j] == rs[j + 1];
    }
  }

  lemma {:induction false} PutRecord(rs: seq<Record>, r: Record)
    requires Distinct(rs)
    ensures Distinct(Put(rs, r))
    ensures forall x :: x in Put(rs, r) <==> x == r || (x in rs && x.job != r.job)
  {
    if rs != [] {
      DistinctTail(rs);
      assert rs == [rs[0]] + rs[1..];
      if rs[0].job != r.job { PutRecord(rs[1..], r); }
    }
  }

  /** Among distinct records, the last one of a file is the only one. */
  lemma LastOfDistinct(rs: seq<Record>, r: Record)
    requires Distinct(rs) && r in rs
    ensures Last(rs, r.job) == Some(r)
  {
    LastIsThere(rs, r.job);
    var found := Last(rs, r.job).value;
    var i :| 0 <= i < |rs| && rs[i] == r;
    var j :| 0 <= j < |rs| && rs[j] == found;
  }

  lemma LastAfterPut(rs: seq<Record>, r: Record, job: Job)
    requires Distinct(rs)
    ensures Distinct(Put(rs, r)) && Last(Put(rs, r), job) == if job == r.job then Some(r) else Last(rs, job)
  {
    PutRecord(rs, r);
    LastIsThere(rs, job);
    LastIsThere(Put(rs, r), job);
    if job == r.job {
      LastOfDistinct(Put(rs, r), r);
    } else if Last(rs, job).Some? {
      LastOfDistinct(Put(rs, r), Last(rs, job).value);
    }
  }

  /** Filling an ordered map in a loop keeps, for every file, the last record seen. */
  lemma {:induction false} PutAllKeepsTheLast(rs: seq<Record>, more: seq<Record>, job: Job)
    requires Distinct(rs)
    ensures Distinct(PutAll(rs, more))
    ensures Last(PutAll(rs, more), job) == if Last(more, job).Some? then Last(more, job) else Last(rs, job)
    decreases |more|
  {
    if more != [] {
      PutAllKeepsTheLast(rs, more[..|more| - 1], job);
      LastAfterPut(PutAll(rs, more[..|more| - 1]), more[|more| - 1], job);
    }
  }

  /** Of two lists folded one after the other, the second decides wherever it has a record. */
  lemma MergedLast(older: seq<Record>, newer: seq<Record>)
    ensures var merged := PutAll(PutAll([], older), newer);
      && Distinct(merged)
      && forall job ::
           Last(merged, job) == if Last(newer, job).Some? then Last(newer, job) else Last(older, job)
  {
    PutAllIsDistinct(older);
    var base := PutAll([], older);
    forall job
      ensures Distinct(PutAll(base, newer))
      ensures Last(PutAll(base, newer), job) == if Last(newer, job).Some? then Last(newer, job) else Last(older, job)
    {
      PutAllKeepsTheLast([], older, job);
      PutAllKeepsTheLast(base, newer, job);
    }
    PutAllKeepsTheLast(base, newer, Job("", Rest, "", "", ""));
  }

  lemma PutAllStep(rs: seq<Record>, more: seq<Record>, r: Record)
    ensures PutAll(rs, more + [r]) == Put(PutAll(rs, more), r)
  {
    assert (more + [r])[..|more|] == more;
  }

  lemma PresentStep(records: seq<Option<Record>>, i: nat)
    requires i < |records|
    ensures Present(records[..i + 1]) ==
      if records[i].Some? then Present(records[..i]) + [records[i].value] else Present(records[..i])
  {
    assert records[..i + 1][..i] == records[..i];
  }

  lemma {:induction false} PutAllComesFrom(rs: seq<Record>, more: seq<Record>, r: Record)
    requires Distinct(rs) && r in PutAll(rs, more)
    ensures r in rs || r in more
    decreases |more|
  {
    if more != [] {
      var head := more[..|more| - 1];
      assert more == head + [more[|more| - 1]];
      PutAllKeepsTheLast(rs, head, r.job);
      PutRecord(PutAll(rs, head), more[|more| - 1]);
      if r != more[|more| - 1] { PutAllComesFrom(rs, head, r); }
    }
  }

  // ----- The readers and the merge, as the loops that they are -----

  /** `history` and `records` folded into one ordered map by file, later records replacing earlier ones. */
  method MergeRecordHistory(history: seq<Record>, records: seq<Option<Record>>) returns (merged: seq<Record>)
    ensures merged == PutAll(PutAll([], history), Present(records))
    ensures Distinct(merged)
    ensures forall job ::
              Last(merged, job) ==
                if Last(Present(records), job).Some? then Last(Present(records), job) else Last(history, job)
  {
    MergedLast(history, Present(records));
    merged := [];
    for i := 0 to |history|
      invariant merged == PutAll([], history[..i])
    {
      assert history[..i + 1] == history[..i] + [history[i]];
      PutAllStep([], history[..i], history[i]);
      merged := Put(merged, history[i]);
    }
    assert history[..|history|] == history;
    for i := 0 to |records|
      invariant merged == PutAll(PutAll([], history), Present(records[..i]))
    {
      PresentStep(records, i);
      if records[i].Some? {
        PutAllStep(PutAll([], history), Present(records[..i]), records[i].value);
        merged := Put(merged, records[i].value);
      }
    }
    assert records[..|records|] == records;
  }

  /** The manifest of a snapshot. */
  function Snapshot(writeAudio: bool, history: seq<Record>, records: seq<Option<Record>>): Manifest {
    Manifest(writeAudio, Present(records), PutAll(PutAll([], history), Present(records)))
  }

  function NormalizeAll(rs: seq<Record>, wavs: Artifacts, manifestWritesAudio: bool): Option<seq<Record>> {
    if rs == [] then Some([])
    else
      var head := NormalizeAll(rs[..|rs| - 1], wavs, manifestWritesAudio);
      var last := Normalize(rs[|rs| - 1], wavs, manifestWritesAudio);
      if head.None? || last.None? then None else Some(head.value + [last.value])
  }

  /** A passed record is reused, unless this run wants audio that was never written. */
  predicate Reusable(r: Record, writeAudio: bool) {
    r.status == Passed && (!writeAudio || r.hasAudioArtifact == Some(true))
  }

  function Unresolved(r: Record): Record {
    if r.status == Passed then r.(status := Unknown, error := Some(NO_ARTIFACT)) else r
  }

  predicate OpenRecord(r: Record) {
    r.status == Passed || r.status == Unknown || (r.status == Failed && r.retrySafe)
  }

  function ReusableOf(history: seq<Record>, jobs: seq<Job>, writeAudio: bool): map<Job, Record> {
    map job | job in jobs && Last(history, job).Some? && Reusable(Last(history, job).value, writeAudio) ::
      Last(history, job).value
  }

  function UnresolvedOf(history: seq<Record>, jobs: seq<Job>, writeAudio: bool): map<Job, Record> {
    map job | job in jobs && Last(history, job).Some? && OpenRecord(Last(history, job).value)
              && !Reusable(Last(history, job).value, writeAudio) :: Unresolved(Last(history, job).value)
  }

  /** What reading back a manifest yields, or `None` when it must be refused. */
  function ReadBack(m: Manifest, wavs: Artifacts, jobs: seq<Job>, writeAudio: bool): Option<ResumeState> {
    var all := NormalizeAll(m.history + m.records, wavs, m.writeAudio);
    if all.None? then None
    else
      var history := PutAll([], all.value);
      Some(ResumeState(ReusableOf(history, jobs, writeAudio), UnresolvedOf(history, jobs, writeAudio), history))
  }

  lemma LastOfPrefix(rs: seq<Record>, i: nat)
    requires i < |rs| && Distinct(rs)
    ensures Last(rs[..i], rs[i].job).None?
    ensures forall job :: Last(rs[..i + 1], job) == if job == rs[i].job then Some(rs[i]) else Last(rs[..i], job)
  {
    assert rs[..i + 1][..i] == rs[..i];
    LastIsThere(rs[..i], rs[i].job);
  }

  lemma ReusableOne(history: seq<Record>, i: nat, jobs: seq<Job>, writeAudio: bool)
    requires i < |history| && Distinct(history)
    ensures var r, before := history[i], ReusableOf(history[..i], jobs, writeAudio);
      ReusableOf(history[..i + 1], jobs, writeAudio) ==
        if r.job in jobs && Reusable(r, writeAudio) then before[r.job := r] else before
  {
    LastOfPrefix(history, i);
  }

  lemma UnresolvedOne(history: seq<Record>, i: nat, jobs: seq<Job>, writeAudio: bool)
    requires i < |history| && Distinct(history)
    ensures var r, before := history[i], UnresolvedOf(history[..i], jobs, writeAudio);
      UnresolvedOf(history[..i + 1], jobs, writeAudio) ==
        if r.job in jobs && OpenRecord(r) && !Reusable(r, writeAudio) then before[r.job := Unresolved(r)] else before
  {
    LastOfPrefix(history, i);
  }

  /** The second loop of the reader: each record of a selected job is reused, kept as unresolved, or passed over. */
  method Classify(history: seq<Record>, jobs: seq<Job>, writeAudio: bool)
    returns (reusable: map<Job, Record>, unresolved: map<Job, Record>)
    requires Distinct(history)
    ensures reusable == ReusableOf(history, jobs, writeAudio) && unresolved == UnresolvedOf(history, jobs, writeAudio)
  {
    reusable, unresolved := map[], map[];
    for i := 0 to |history|
      invariant reusable == ReusableOf(history[..i], jobs, writeAudio)
      invariant unresolved == UnresolvedOf(history[..i], jobs, writeAudio)
    {
      ReusableOne(history, i, jobs, writeAudio);
      UnresolvedOne(history, i, jobs, writeAudio);
      var record := history[i];
      if record.job in jobs {
        if record.status == Passed {
          if !writeAudio || record.hasAudioArtifact == Some(true) {
            reusable := reusable[record.job := record];
          } else {
            unresolved := unresolved[record.job := record.(status := Unknown, error := Some(NO_ARTIFACT))];
          }
        } else if record.status == Unknown || (record.status == Failed && record.retrySafe) {
          unresolved := unresolved[record.job := record];
        }
      }
    }
    assert history[..|history|] == history;
  }

  lemma NormalizeStep(rs: seq<Record>, i: nat, wavs: Artifacts, manifestWritesAudio: bool)
    requires i < |rs|
    ensures
      var before, last := NormalizeAll(rs[..i], wavs, manifestWritesAudio), Normalize(rs[i], wavs, manifestWritesAudio);
      NormalizeAll(rs[..i + 1], wavs, manifestWritesAudio) ==
        if before.None? || last.None? then None else Some(before.value + [last.value])
  {
    assert rs[..i + 1][..i] == rs[..i];
  }

  method ReadPriorRecords(
    m: Manifest, wavs: Artifacts, jobs: seq<Job>, writeAudio: bool) returns (state: Option<ResumeState>)
    ensures state == ReadBack(m, wavs, jobs, writeAudio)
  {
    var values := m.history + m.records;
    var history: seq<Record> := [];
    ghost var seen: seq<Record> := [];
    for i := 0 to |values|
      invariant NormalizeAll(values[..i], wavs, m.writeAudio) == Some(seen)
      invariant history == PutAll([], seen)
    {
      NormalizeStep(values, i, wavs, m.writeAudio);
      var record := Normalize(values[i], wavs, m.writeAudio);
      if record.None? {
        RefusalSpreads(values, i + 1, wavs, m.writeAudio);
        return None;
      }
      PutAllStep([], seen, record.value);
      history := Put(history, record.value);
      seen := seen + [record.value];
    }
    assert values[..|values|] == values;
    PutAllIsDistinct(seen);
    var reusable, unresolved := Classify(history, jobs, writeAudio);
    return Some(ResumeState(reusable, unresolved, history));
  }

  /** The records a run starts from: what can be reused, else what is unresolved. */
  function Select(jobs: seq<Job>, state: ResumeState): (records: seq<Option<Record>>)
    ensures |records| == |jobs|
    ensures forall i :: 0 <= i < |jobs| ==> records[i] == SelectOne(state, jobs[i])
  {
    seq(|jobs|, i requires 0 <= i < |jobs| => SelectOne(state, jobs[i]))
  }

  function SelectOne(state: ResumeState, job: Job): Option<Record> {
    if job in state.reusable then Some(state.reusable[job])
    else if job in state.unresolved then Some(state.unresolved[job])
    else None
  }

  lemma {:induction false} PutAllIsDistinct(rs: seq<Record>)
    ensures Distinct(PutAll([], rs))
  {
    if rs != [] {
      PutAllIsDistinct(rs[..|rs| - 1]);
      PutRecord(PutAll([], rs[..|rs| - 1]), rs[|rs| - 1]);
    }
  }

  lemma {:induction false} RefusalSpreads(rs: seq<Record>, n: nat, wavs: Artifacts, manifestWritesAudio: bool)
    requires n <= |rs| && NormalizeAll(rs[..n], wavs, manifestWritesAudio).None?
    ensures NormalizeAll(rs, wavs, manifestWritesAudio).None?
    decreases |rs| - n
  {
    if n < |rs| {
      assert rs[..n + 1][..n] == rs[..n];
      RefusalSpreads(rs, n + 1, wavs, manifestWritesAudio);
    } else {
      assert rs[..n] == rs;
    }
  }

  // ----- Reading back what was written -----

  ghost predicate AllAcceptable(rs: seq<Record>) {
    forall r :: r in rs ==> Acceptable(r)
  }

  /** Normalizing keeps the job, accepts every record the runner writes, and turns a blocking record into one
      that the next run leaves alone; only a safely retriable failure stays open. A synthesis is still passed exactly
      when its metrics make sense and the file that it claims is there, complete. */
  lemma NormalizeRecord(r: Record, wavs: Artifacts, manifestWritesAudio: bool)
    requires Acceptable(r)
    ensures var n := Normalize(r, wavs, manifestWritesAudio);
      && n.Some? && n.value.job == r.job && Acceptable(n.value) && OpenRecord(n.value)
      && (Blocking(r) <==> Settled(n.value)) && n.value.attempts == r.attempts
      && (n.value.status == Failed <==> r.status == Failed && r.retrySafe)
      && (n.value.status == Passed <==> IsSynthesis(r, wavs, manifestWritesAudio))
      && (n.value.status == Passed ==> n.value.metrics == r.metrics && n.value.error == None)
      && (n.value.status == Unknown ==> n.value.metrics == None && n.value.error.Some?)
  {
  }

  predicate IsSynthesis(r: Record, wavs: Artifacts, manifestWritesAudio: bool) {
    && (r.status == Passed || r.status == PendingArtifact) && r.metrics.Some?
    && var m := r.metrics.value;
       && 0 <= m.latencyMs && 1 <= m.chunks && 0 <= m.durationMs && 2 <= m.audioBytes && m.audioBytes % 2 == 0
       && (r.hasAudioArtifact == Some(true) || (r.hasAudioArtifact == None && manifestWritesAudio) ==>
             r.job in wavs && wavs[r.job] == m.audioBytes)
  }

  /** A synthesis that is the last record of its job, with audio if the run wants it, is what the run starts from. */
  lemma SynthesisIsReused(m: Manifest, wavs: Artifacts, jobs: seq<Job>, writeAudio: bool, job: Job, r: Record)
    requires AllAcceptable(m.history + m.records) && Last(m.history + m.records, job) == Some(r) && job in jobs
    requires IsSynthesis(r, wavs, m.writeAudio)
    requires writeAudio ==> r.hasAudioArtifact == Some(true) || (r.hasAudioArtifact == None && m.writeAudio)
    ensures ReadBack(m, wavs, jobs, writeAudio).Some?
    ensures var one := SelectOne(ReadBack(m, wavs, jobs, writeAudio).value, job);
      one.Some? && one.value.status == Passed && one.value.metrics == r.metrics
  {
    var values := m.history + m.records;
    NormalizeAllReadsTheLast(values, wavs, m.writeAudio, job);
    var all := NormalizeAll(values, wavs, m.writeAudio).value;
    PutAllKeepsTheLast([], all, job);
    LastIsThere(values, job);
    NormalizeRecord(r, wavs, m.writeAudio);
  }

  /** No manifest that only holds acceptable records is refused, and the last record of every file is read back. */
  lemma {:induction false} NormalizeAllReadsTheLast(
    rs: seq<Record>, wavs: Artifacts, manifestWritesAudio: bool, job: Job)
    requires AllAcceptable(rs)
    ensures var all := NormalizeAll(rs, wavs, manifestWritesAudio);
      && all.Some? && AllAcceptable(all.value) && (forall r :: r in all.value ==> OpenRecord(r))
      && (Last(rs, job).None? <==> Last(all.value, job).None?)
      && (Last(rs, job).Some? ==> Last(all.value, job) == Normalize(Last(rs, job).value, wavs, manifestWritesAudio))
  {
    if rs != [] {
      var head, last := rs[..|rs| - 1], rs[|rs| - 1];
      assert rs == head + [last];
      NormalizeAllReadsTheLast(head, wavs, manifestWritesAudio, job);
      NormalizeRecord(last, wavs, manifestWritesAudio);
      var all := NormalizeAll(rs, wavs, manifestWritesAudio).value;
      assert all[..|all| - 1] == NormalizeAll(head, wavs, manifestWritesAudio).value;
    }
  }

  /** Reading back: never refused, and every selected job whose last record was blocking comes back passed or
      unknown, so that no worker calls it again. */
  lemma ReadBackBlocks(m: Manifest, wavs: Artifacts, jobs: seq<Job>, writeAudio: bool, job: Job)
    requires AllAcceptable(m.history + m.records)
    ensures var state := ReadBack(m, wavs, jobs, writeAudio);
      && state.Some? && Distinct(state.value.history) && AllAcceptable(state.value.history)
      && (Last(m.history + m.records, job).Some? && Blocking(Last(m.history + m.records, job).value) ==>
            && Last(state.value.history, job).Some? && Settled(Last(state.value.history, job).value)
            && (job in jobs ==>
                  SelectOne(state.value, job).Some? && Settled(SelectOne(state.value, job).value)))
      && (SelectOne(state.value, job).Some? ==>
            SelectOne(state.value, job).value.job == job && Acceptable(SelectOne(state.value, job).value))
      && (job in state.value.unresolved ==>
            state.value.unresolved[job].job == job && Acceptable(state.value.unresolved[job]))
  {
    var values := m.history + m.records;
    NormalizeAllReadsTheLast(values, wavs, m.writeAudio, job);
    var all := NormalizeAll(values, wavs, m.writeAudio).value;
    PutAllKeepsTheLast([], all, job);
    PutAllIsDistinct(all);
    var history := PutAll([], all);
    forall r | r in history ensures Acceptable(r) { PutAllComesFrom([], all, r); }
    LastIsThere(history, job);
    if Last(values, job).Some? {
      LastIsThere(values, job);
      NormalizeRecord(Last(values, job).value, wavs, m.writeAudio);
    }
  }

  /** The present record of a job is the one at the job's index. */
  lemma {:induction false} LastPresent(records: seq<Option<Record>>, jobs: seq<Job>, i: nat)
    requires i < |records| <= |jobs|
    requires forall a, b :: 0 <= a < b < |jobs| ==> jobs[a] != jobs[b]
    requires forall a :: 0 <= a < |records| && records[a].Some? ==> records[a].value.job == jobs[a]
    ensures Last(Present(records), jobs[i]) == records[i]
  {
    var n := |records| - 1;
    assert records == records[..n] + [records[n]];
    var head := Present(records[..n]);
    if records[n].Some? {
      assert (head + [records[n].value])[..|head|] == head;
    } else {
      assert Present(records) == head;
    }
    if i < n {
      LastPresent(records[..n], jobs, i);
    } else {
      LastAbsent(records[..n], jobs[n]);
    }
  }

  lemma LastAbsent(records: seq<Option<Record>>, job: Job)
    requires forall a :: 0 <= a < |records| && records[a].Some? ==> records[a].value.job != job
    ensures Last(Present(records), job).None?
  {
    LastIsThere(Present(records), job);
    if Last(Present(records), job).Some? { PresentComesFrom(records, Last(Present(records), job).value); }
  }

  lemma {:induction false} PresentComesFrom(records: seq<Option<Record>>, r: Record)
    requires r in Present(records)
    ensures Some(r) in records
  {
    var n := |records| - 1;
    assert records == records[..n] + [records[n]];
    if records[n] != Some(r) { PresentComesFrom(records[..n], r); }
  }
}
