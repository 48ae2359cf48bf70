/** The browser client's acknowledgement of played audio: frames are scheduled back to back, a commit names a range
    of frames, and its acknowledgement goes out when the last of them has been played.

    A source is named by the order of its creation. Times are those of the audio context. */
module PlayoutAck {

  type CommitId = string

  /** `lifecycle` is the connection that the source was created in. */
  datatype Source = Source(sequence: int, end: real, lifecycle: nat)

  /** `serial` numbers the accepted commit messages. */
  datatype Pending = Pending(commitId: CommitId, source: nat, serial: nat)

  /** An accepted commit message and the sources of its range, in order of sequence. */
  datatype Accepted = Accepted(commitId: CommitId, start: int, sources: seq<nat>)

  datatype Ack = Ack(serial: nat, at: real)

  /** The range of a commit message, unless it is no pair of safe integers. */
  datatype CommitRange = Malformed | Range(start: int, end: int)

  // ----- What holds throughout -----

  /** Since the last clear, `epoch`, a frame that arrived later does not end earlier. */
  ghost predicate Timeline(sources: seq<Source>, epoch: nat, nextTime: real) {
    && epoch <= |sources|
    && (forall i, j :: epoch <= i < j < |sources| ==> sources[i].end <= sources[j].end)
    && (forall i :: epoch <= i < |sources| ==> sources[i].end <= nextTime)
  }

  ghost predicate Indexed(bySequence: map<int, nat>, sources: seq<Source>, epoch: nat) {
    forall k :: k in bySequence ==> epoch <= bySequence[k] < |sources| && sources[bySequence[k]].sequence == k
  }

  ghost predicate Playing(outputs: set<nat>, sources: seq<Source>, epoch: nat, lifecycle: nat) {
    forall s :: s in outputs ==> epoch <= s < |sources| && sources[s].lifecycle == lifecycle
  }

  ghost predicate Finished(completed: set<nat>, sources: seq<Source>, epoch: nat, now: real) {
    forall s :: s in completed ==> s < |sources| && (epoch <= s ==> sources[s].end <= now)
  }

  /** The committed sources are those of consecutive sequences. */
  ghost predicate IsRange(a: Accepted, sources: seq<Source>) {
    && a.sources != []
    && forall i :: 0 <= i < |a.sources| ==> a.sources[i] < |sources| && sources[a.sources[i]].sequence == a.start + i
  }

  ghost predicate Ranges(accepted: seq<Accepted>, sources: seq<Source>) {
    forall i :: 0 <= i < |accepted| ==> IsRange(accepted[i], sources)
  }

  /** No frame is committed twice, and a frame that can still be committed has not been. */
  ghost predicate Disjoint(accepted: seq<Accepted>, bySequence: map<int, nat>) {
    && (forall i, j :: 0 <= i < j < |accepted| ==> forall s :: s in accepted[i].sources ==> s !in accepted[j].sources)
    && (forall i, k :: 0 <= i < |accepted| && k in bySequence ==> bySequence[k] !in accepted[i].sources)
  }

  /** The index and what has been taken out of it. */
  ghost predicate Committable(bySequence: map<int, nat>, accepted: seq<Accepted>, sources: seq<Source>, epoch: nat) {
    Indexed(bySequence, sources, epoch) && Ranges(accepted, sources) && Disjoint(accepted, bySequence)
  }

  /** The source of the last sequence of a range: the one whose end is waited for. */
  function Final(a: Accepted): (source: nat)
    requires a.sources != []
  {
    a.sources[|a.sources| - 1]
  }

  ghost predicate Waits(p: Pending, accepted: seq<Accepted>, epoch: nat) {
    && p.serial < |accepted| && accepted[p.serial].commitId == p.commitId
    && accepted[p.serial].sources != [] && p.source == Final(accepted[p.serial])
    && forall s :: s in accepted[p.serial].sources ==> epoch <= s
  }

  ghost predicate InOrder(pending: seq<Pending>) {
    forall i, j :: 0 <= i < j < |pending| ==>
      pending[i].serial < pending[j].serial && pending[i].commitId != pending[j].commitId
  }

  /** Pending commits wait for the last source of their range, in order of acceptance and under distinct names. */
  ghost predicate AllWait(pending: seq<Pending>, accepted: seq<Accepted>, epoch: nat) {
    InOrder(pending) && forall i :: 0 <= i < |pending| ==> Waits(pending[i], accepted, epoch)
  }

  /** An acknowledged range has been played up to the frame of its last sequence: that frame and every frame of the
      range that arrived before it. */
  ghost predicate Played(acks: seq<Ack>, accepted: seq<Accepted>, sources: seq<Source>) {
    forall i :: 0 <= i < |acks| ==> PlayedBy(acks[i], accepted, sources)
  }

  ghost predicate PlayedBy(ack: Ack, accepted: seq<Accepted>, sources: seq<Source>) {
    && ack.serial < |accepted| && accepted[ack.serial].sources != []
    && forall s :: s in accepted[ack.serial].sources && s <= Final(accepted[ack.serial]) ==>
         s < |sources| && sources[s].end <= ack.at
  }

  /** No commit message is acknowledged twice. */
  ghost predicate Once(acks: seq<Ack>, pending: seq<Pending>) {
    && (forall i, j :: 0 <= i < j < |acks| ==> acks[i].serial != acks[j].serial)
    && (forall i, j :: 0 <= i < |acks| && 0 <= j < |pending| ==> acks[i].serial != pending[j].serial)
  }

  // ----- Steps on values -----

  /** When the source of the last sequence has ended, so has every source of the range that arrived before it. */
  lemma LastEndsLast(a: Accepted, sources: seq<Source>, epoch: nat, nextTime: real, now: real)
    requires Timeline(sources, epoch, nextTime) && IsRange(a, sources) && (forall s :: s in a.sources ==> epoch <= s)
    requires sources[Final(a)].end <= now
    ensures forall s :: s in a.sources && s <= Final(a) ==> s < |sources| && sources[s].end <= now
  {
    assert Final(a) in a.sources;
  }

  /** However its frames are laid out in time, the whole range has been played once its last sequence has. */
  ghost predicate LastDecides(a: Accepted) {
    forall sources: seq<Source>, nextTime: real, now: real ::
      Timeline(sources, 0, nextTime) && IsRange(a, sources) && sources[Final(a)].end <= now ==>
        AllEnded(a, sources, now)
  }

  ghost predicate AllEnded(a: Accepted, sources: seq<Source>, now: real) {
    forall s :: s in a.sources ==> s < |sources| && sources[s].end <= now
  }

  /** The client only waits for the last sequence. That is enough for the whole range exactly when no frame of it
      arrived after the frame of that sequence. */
  lemma LastDecidesIff(a: Accepted)
    requires a.sources != [] && forall i, j :: 0 <= i < j < |a.sources| ==> a.sources[i] != a.sources[j]
    ensures LastDecides(a) <==> forall s :: s in a.sources ==> s <= Final(a)
  {
    if forall s :: s in a.sources ==> s <= Final(a) {
      forall sources: seq<Source>, nextTime: real, now: real |
        Timeline(sources, 0, nextTime) && IsRange(a, sources) && sources[Final(a)].end <= now
        ensures AllEnded(a, sources, now)
      {
        LastEndsLast(a, sources, 0, nextTime, now);
      }
    } else {
      var late :| late in a.sources && late > Final(a);
      var n := Above(a.sources);
      var sources := Laid(a, n);
      forall i | 0 <= i < |a.sources| ensures a.sources[i] < n && sources[a.sources[i]].sequence == a.start + i {
        assert a.sources[i] in a.sources;
      }
      assert Final(a) in a.sources;
      assert Timeline(sources, 0, n as real) && IsRange(a, sources) && sources[Final(a)].end <= Final(a) as real;
      assert !AllEnded(a, sources, Final(a) as real);
    }
  }

  /** Frames of these sequences, each ending a second after the one before. */
  ghost function Laid(a: Accepted, n: nat): (sources: seq<Source>)
    requires forall i, j :: 0 <= i < j < |a.sources| ==> a.sources[i] != a.sources[j]
    ensures |sources| == n && forall k :: 0 <= k < n ==> sources[k].end == k as real
    ensures forall i :: 0 <= i < |a.sources| && a.sources[i] < n ==> sources[a.sources[i]].sequence == a.start + i
  {
    seq(n, k requires 0 <= k < n => Source(if k in a.sources then a.start + Place(a.sources, k) else 0, k as real, 0))
  }

  ghost function Place(xs: seq<nat>, x: nat): (i: nat)
    requires x in xs
    ensures i < |xs| && xs[i] == x
  {
    var i :| 0 <= i < |xs| && xs[i] == x; i
  }

  function Above(xs: seq<nat>): (n: nat)
    ensures forall x :: x in xs ==> x < n
  {
    if xs == [] then 0
    else
      var n, last := Above(xs[..|xs| - 1]), xs[|xs| - 1];
      assert xs == xs[..|xs| - 1] + [last];
      if last < n then n else last + 1
  }

  function Remaining(pending: seq<Pending>, source: nat): seq<Pending> {
    if pending == [] then []
    else
      var last := pending[|pending| - 1];
      Remaining(pending[..|pending| - 1], source) + if last.source == source then [] else [last]
  }

  /** The acknowledgements for the commits that wait for this source. */
  function Due(pending: seq<Pending>, source: nat, now: real): seq<Ack> {
    if pending == [] then []
    else
      var last := pending[|pending| - 1];
      Due(pending[..|pending| - 1], source, now) + if last.source == source then [Ack(last.serial, now)] else []
  }

  lemma {:induction false} RemainingAre(pending: seq<Pending>, source: nat)
    ensures forall p :: p in Remaining(pending, source) <==> p in pending && p.source != source
  {
    if pending != [] {
      RemainingAre(pending[..|pending| - 1], source);
      assert pending == pending[..|pending| - 1] + [pending[|pending| - 1]];
    }
  }

  lemma {:induction false} RemainingInOrder(pending: seq<Pending>, source: nat)
    requires InOrder(pending)
    ensures InOrder(Remaining(pending, source))
  {
    if pending != [] {
      var front, last := pending[..|pending| - 1], pending[|pending| - 1];
      RemainingInOrder(front, source);
      RemainingAre(front, source);
      var rest := Remaining(front, source);
      forall i | 0 <= i < |rest| ensures rest[i].serial < last.serial && rest[i].commitId != last.commitId {
        assert rest[i] in front;
      }
    }
  }

  lemma RemainingWait(pending: seq<Pending>, source: nat, accepted: seq<Accepted>, epoch: nat)
    requires AllWait(pending, accepted, epoch)
    ensures AllWait(Remaining(pending, source), accepted, epoch)
    ensures forall p :: p in Remaining(pending, source) ==> p in pending && p.source != source
  {
    RemainingInOrder(pending, source);
    RemainingAre(pending, source);
    var rest := Remaining(pending, source);
    forall i | 0 <= i < |rest| ensures Waits(rest[i], accepted, epoch) { assert rest[i] in pending; }
  }

  lemma {:induction false} DueAcks(pending: seq<Pending>, source: nat, now: real, i: nat)
    requires i < |Due(pending, source, now)|
    ensures var ack := Due(pending, source, now)[i];
      ack.at == now && exists p :: p in pending && p.source == source && p.serial == ack.serial
  {
    var front, last := pending[..|pending| - 1], pending[|pending| - 1];
    assert pending == front + [last];
    if i < |Due(front, source, now)| {
      DueAcks(front, source, now, i);
      var p :| p in front && p.source == source && p.serial == Due(pending, source, now)[i].serial;
      assert p in pending;
    } else {
      assert last in pending;
    }
  }

  /** An acknowledgement for every commit that waits for the source, and for no other. */
  lemma {:induction false} DueIsExactly(pending: seq<Pending>, source: nat, now: real, ack: Ack)
    ensures ack in Due(pending, source, now) <==>
      ack.at == now && exists p :: p in pending && p.source == source && p.serial == ack.serial
  {
    if pending != [] {
      var front, last := pending[..|pending| - 1], pending[|pending| - 1];
      assert pending == front + [last];
      DueIsExactly(front, source, now, ack);
      if p :| p in pending && p.source == source && p.serial == ack.serial { assert p in front || p == last; }
    }
  }

  // ----- No commit is forgotten -----

  ghost predicate Pends(pending: seq<Pending>, serial: nat) { exists p :: p in pending && p.serial == serial }

  ghost predicate Acked(acks: seq<Ack>, serial: nat) { exists a :: a in acks && a.serial == serial }

  /** Every accepted commit message waits, has been acknowledged, or was lost. */
  ghost predicate NoneForgotten(pending: seq<Pending>, acks: seq<Ack>, n: nat, lost: set<nat>) {
    forall k :: 0 <= k < n ==> Pends(pending, k) || Acked(acks, k) || k in lost
  }

  ghost function Serials(pending: seq<Pending>): set<nat> { set p | p in pending :: p.serial }

  /** Those that wait for this source. */
  ghost function SerialsFor(pending: seq<Pending>, source: nat): set<nat> {
    set p | p in pending && p.source == source :: p.serial
  }

  lemma EndingForgetsNone(
    pending: seq<Pending>, acks: seq<Ack>, n: nat, lost: set<nat>, source: nat, now: real, open: bool)
    requires NoneForgotten(pending, acks, n, lost)
    ensures NoneForgotten(
      Remaining(pending, source), if open then acks + Due(pending, source, now) else acks, n,
      if open then lost else lost + SerialsFor(pending, source))
  {
    RemainingAre(pending, source);
    var rest, more := Remaining(pending, source), if open then acks + Due(pending, source, now) else acks;
    forall k | 0 <= k < n
      ensures Pends(rest, k) || Acked(more, k) || k in (if open then lost else lost + SerialsFor(pending, source))
    {
      if Acked(acks, k) {
        var a :| a in acks && a.serial == k;
        assert a in more;
      } else if Pends(pending, k) {
        var p :| p in pending && p.serial == k;
        DueIsExactly(pending, source, now, Ack(k, now));
        assert p in rest || p.source == source;
        assert open && p.source == source ==> Ack(k, now) in more;
      }
    }
  }

  lemma CancellingForgetsNone(pending: seq<Pending>, acks: seq<Ack>, n: nat, lost: set<nat>)
    requires NoneForgotten(pending, acks, n, lost)
    ensures NoneForgotten([], acks, n, lost + Serials(pending))
  {
    forall k | 0 <= k < n ensures Acked(acks, k) || k in lost + Serials(pending) {
      if p :| p in pending && p.serial == k { assert k in Serials(pending); }
    }
  }

  lemma AcceptingForgetsNone(l: Ledger, next: Ledger, lost: set<nat>, after: set<nat>)
    requires NoneForgotten(l.pending, l.acks, |l.accepted|, lost) && lost <= after
    requires |next.accepted| == |l.accepted| + 1 && l.pending <= next.pending && l.acks <= next.acks
    requires Pends(next.pending, |l.accepted|) || Acked(next.acks, |l.accepted|) || |l.accepted| in after
    ensures NoneForgotten(next.pending, next.acks, |next.accepted|, after)
  {
    forall k | 0 <= k < |l.accepted| ensures Pends(next.pending, k) || Acked(next.acks, k) || k in after {
      if p :| p in l.pending && p.serial == k { assert p in next.pending; }
      if a :| a in l.acks && a.serial == k { assert a in next.acks; }
    }
  }

  ghost predicate Ascending(due: seq<Ack>) {
    forall i, j :: 0 <= i < j < |due| ==> due[i].serial < due[j].serial
  }

  ghost predicate Below(due: seq<Ack>, serial: nat) {
    forall i :: 0 <= i < |due| ==> due[i].serial < serial
  }

  lemma DueIsBelow(pending: seq<Pending>, source: nat, now: real, serial: nat)
    requires forall i :: 0 <= i < |pending| ==> pending[i].serial < serial
    ensures Below(Due(pending, source, now), serial)
  {
    var due := Due(pending, source, now);
    forall i | 0 <= i < |due| ensures due[i].serial < serial {
      DueAcks(pending, source, now, i);
      var p :| p in pending && p.serial == due[i].serial;
    }
  }

  lemma AscendingAppends(due: seq<Ack>, ack: Ack)
    requires Ascending(due) && Below(due, ack.serial)
    ensures Ascending(due + [ack])
  {
  }

  lemma {:induction false} DueIsAscending(pending: seq<Pending>, source: nat, now: real)
    requires InOrder(pending)
    ensures Ascending(Due(pending, source, now))
  {
    if pending != [] {
      var front, last := pending[..|pending| - 1], pending[|pending| - 1];
      DueIsAscending(front, source, now);
      DueIsBelow(front, source, now, last.serial);
      if last.source == source {
        AscendingAppends(Due(front, source, now), Ack(last.serial, now));
      } else {
        assert Due(pending, source, now) == Due(front, source, now);
      }
    }
  }

  lemma DueIsPlayed(
    pending: seq<Pending>, accepted: seq<Accepted>, sources: seq<Source>, epoch: nat, nextTime: real, source: nat,
    now: real)
    requires Timeline(sources, epoch, nextTime) && Ranges(accepted, sources) && AllWait(pending, accepted, epoch)
    requires source < |sources| && sources[source].end <= now
    ensures forall i ::
      0 <= i < |Due(pending, source, now)| ==> PlayedBy(Due(pending, source, now)[i], accepted, sources)
  {
    forall i | 0 <= i < |Due(pending, source, now)| ensures PlayedBy(Due(pending, source, now)[i], accepted, sources) {
      DueAcks(pending, source, now, i);
      var p :| p in pending && p.source == source && p.serial == Due(pending, source, now)[i].serial;
      LastEndsLast(accepted[p.serial], sources, epoch, nextTime, now);
    }
  }

  /** The pending commits, what they refer to and what has been acknowledged. */
  ghost predicate Accounted(
    pending: seq<Pending>, accepted: seq<Accepted>, acks: seq<Ack>, sources: seq<Source>, epoch: nat)
  {
    AllWait(pending, accepted, epoch) && Played(acks, accepted, sources) && Once(acks, pending)
  }

  /** What the end of a source does to the pending commits, whether or not the socket is open. */
  lemma EndingKeeps(
    pending: seq<Pending>, accepted: seq<Accepted>, acks: seq<Ack>, sources: seq<Source>, epoch: nat, nextTime: real,
    source: nat, now: real)
    requires Timeline(sources, epoch, nextTime) && Ranges(accepted, sources)
    requires Accounted(pending, accepted, acks, sources, epoch)
    requires source < |sources| && sources[source].end <= now
    ensures Accounted(Remaining(pending, source), accepted, acks, sources, epoch)
    ensures Accounted(Remaining(pending, source), accepted, acks + Due(pending, source, now), sources, epoch)
  {
    RemainingWait(pending, source, accepted, epoch);
    DueIsPlayed(pending, accepted, sources, epoch, nextTime, source, now);
    DueIsNew(pending, accepted, acks, epoch, source, now);
    OnceAppends(acks, Due(pending, source, now), Remaining(pending, source), now, pending, source, accepted, epoch);
  }

  lemma OnceAppends(
    acks: seq<Ack>, due: seq<Ack>, rest: seq<Pending>, now: real, pending: seq<Pending>, source: nat,
    accepted: seq<Accepted>, epoch: nat)
    requires Once(acks, rest) && due == Due(pending, source, now) && AllWait(pending, accepted, epoch)
    requires forall i, j :: 0 <= i < |acks| && 0 <= j < |due| ==> acks[i].serial != due[j].serial
    requires forall i, j :: 0 <= i < |due| && 0 <= j < |rest| ==> due[i].serial != rest[j].serial
    ensures Once(acks + due, rest)
  {
    DueIsAscending(pending, source, now);
  }

  lemma DueIsNew(pending: seq<Pending>, accepted: seq<Accepted>, acks: seq<Ack>, epoch: nat, source: nat, now: real)
    requires AllWait(pending, accepted, epoch) && Once(acks, pending)
    ensures var due := Due(pending, source, now);
      && (forall i, j :: 0 <= i < |acks| && 0 <= j < |due| ==> acks[i].serial != due[j].serial)
      && (forall i, j :: 0 <= i < |due| && 0 <= j < |Remaining(pending, source)| ==>
            due[i].serial != Remaining(pending, source)[j].serial)
      && (forall i, j :: 0 <= i < |acks| && 0 <= j < |Remaining(pending, source)| ==>
            acks[i].serial != Remaining(pending, source)[j].serial)
  {
    var due, rest := Due(pending, source, now), Remaining(pending, source);
    RemainingWait(pending, source, accepted, epoch);
    forall i, j | 0 <= i < |acks| && 0 <= j < |due| ensures acks[i].serial != due[j].serial {
      DueAcks(pending, source, now, j);
      var p :| p in pending && p.serial == due[j].serial;
    }
    forall i, j | 0 <= i < |due| && 0 <= j < |rest| ensures due[i].serial != rest[j].serial {
      DueAcks(pending, source, now, i);
      var p :| p in pending && p.source == source && p.serial == due[i].serial;
      assert rest[j] in pending;
    }
    forall i, j | 0 <= i < |acks| && 0 <= j < |rest|
      ensures acks[i].serial != rest[j].serial
    {
      assert rest[j] in pending;
    }
  }

  // ----- Accepting a commit -----

  /** Every sequence of the range is indexed. */
  predicate Holds(bySequence: map<int, nat>, start: int, n: nat) {
    forall k :: start <= k < start + n ==> k in bySequence
  }

  /** The sources of consecutive sequences. */
  function RangeOf(bySequence: map<int, nat>, start: int, n: nat): (r: seq<nat>)
    requires Holds(bySequence, start, n)
    ensures |r| == n && forall i :: 0 <= i < n ==> r[i] == bySequence[start + i]
  {
    seq(n, i requires 0 <= i < n => bySequence[start + i])
  }

  function Outside(bySequence: map<int, nat>, start: int, n: nat): map<int, nat> {
    map k | k in bySequence && !(start <= k < start + n) :: bySequence[k]
  }

  /** The size check never refuses a range that is there. */
  lemma {:induction false} RangeFits(keys: set<int>, start: int, n: nat)
    requires forall k :: start <= k < start + n ==> k in keys
    ensures n <= |keys|
    decreases n
  {
    if n > 0 { RangeFits(keys - {start + n - 1}, start, n - 1); }
  }

  lemma AcceptingKeeps(
    bySequence: map<int, nat>, sources: seq<Source>, epoch: nat, accepted: seq<Accepted>, id: CommitId, start: int,
    n: nat)
    requires Committable(bySequence, accepted, sources, epoch)
    requires n > 0 && Holds(bySequence, start, n)
    ensures var a := Accepted(id, start, RangeOf(bySequence, start, n)); var left := Outside(bySequence, start, n);
      && Committable(left, accepted + [a], sources, epoch)
      && IsRange(a, sources) && forall s :: s in a.sources ==> epoch <= s
  {
    var a, left := Accepted(id, start, RangeOf(bySequence, start, n)), Outside(bySequence, start, n);
    forall s | s in a.sources
      ensures s < |sources| && start <= sources[s].sequence < start + n
      ensures (exists k :: k in bySequence && bySequence[k] == s) && epoch <= s
    {
      var i :| 0 <= i < n && a.sources[i] == s;
      assert bySequence[start + i] == s;
    }
    forall i, s | 0 <= i < |accepted| && s in a.sources ensures s !in accepted[i].sources {
      var k :| k in bySequence && bySequence[k] == s;
    }
  }

  /** An accepted commit whose last source is still playing waits for it. */
  lemma WaitingKeeps(
    pending: seq<Pending>, accepted: seq<Accepted>, acks: seq<Ack>, sources: seq<Source>, epoch: nat, a: Accepted)
    requires Accounted(pending, accepted, acks, sources, epoch)
    requires a.sources != [] && (forall s :: s in a.sources ==> epoch <= s)
    requires forall i :: 0 <= i < |pending| ==> pending[i].commitId != a.commitId
    ensures var waiting := Pending(a.commitId, Final(a), |accepted|);
      Accounted(pending + [waiting], accepted + [a], acks, sources, epoch)
  {
    var all := accepted + [a];
    forall i | 0 <= i < |acks|
      ensures PlayedBy(acks[i], all, sources) && acks[i].serial != |accepted|
    {
      assert PlayedBy(acks[i], accepted, sources);
    }
    forall i | 0 <= i < |pending|
      ensures Waits(pending[i], all, epoch) && pending[i].serial < |accepted|
    {
      assert Waits(pending[i], accepted, epoch);
    }
  }

  /** One whose last source has been played is acknowledged, or was meant for a socket that is gone. */
  lemma PlayedAlreadyKeeps(
    pending: seq<Pending>, accepted: seq<Accepted>, acks: seq<Ack>, sources: seq<Source>, epoch: nat, nextTime: real,
    a: Accepted, now: real)
    requires Accounted(pending, accepted, acks, sources, epoch) && Timeline(sources, epoch, nextTime)
    requires IsRange(a, sources)
    requires (forall s :: s in a.sources ==> epoch <= s) && sources[Final(a)].end <= now
    ensures Accounted(pending, accepted + [a], acks, sources, epoch)
    ensures Accounted(pending, accepted + [a], acks + [Ack(|accepted|, now)], sources, epoch)
  {
    var all, ack := accepted + [a], Ack(|accepted|, now);
    LastEndsLast(a, sources, epoch, nextTime, now);
    assert PlayedBy(ack, all, sources);
    forall i | 0 <= i < |acks|
      ensures PlayedBy(acks[i], all, sources) && acks[i].serial < |accepted|
    {
      assert PlayedBy(acks[i], accepted, sources);
    }
    forall i | 0 <= i < |pending|
      ensures Waits(pending[i], all, epoch) && pending[i].serial < |accepted|
    {
      assert Waits(pending[i], accepted, epoch);
    }
  }

  lemma NewSourceIsFree(
    accepted: seq<Accepted>, sources: seq<Source>, bySequence: map<int, nat>, acks: seq<Ack>, source: Source)
    requires Ranges(accepted, sources) && Disjoint(accepted, bySequence) && Played(acks, accepted, sources)
    ensures var more := sources + [source];
      && Ranges(accepted, more) && Disjoint(accepted, bySequence[source.sequence := |sources|])
      && Played(acks, accepted, more)
  {
    forall i, s | 0 <= i < |accepted| && s in accepted[i].sources ensures s < |sources| {
      var k :| 0 <= k < |accepted[i].sources| && accepted[i].sources[k] == s;
    }
  }

  /** The acknowledgements sent since are for frames that no clear has touched. */
  ghost predicate Untouched(acks: seq<Ack>, from: nat, accepted: seq<Accepted>, epoch: nat) {
    forall i :: from <= i < |acks| ==>
      acks[i].serial < |accepted| && forall s :: s in accepted[acks[i].serial].sources ==> epoch <= s
  }

  lemma DueIsUntouched(
    pending: seq<Pending>, source: nat, now: real, acks: seq<Ack>, accepted: seq<Accepted>, epoch: nat)
    requires AllWait(pending, accepted, epoch)
    ensures Untouched(acks + Due(pending, source, now), |acks|, accepted, epoch)
  {
    var more := acks + Due(pending, source, now);
    forall i | |acks| <= i < |more|
      ensures more[i].serial < |accepted| && forall s :: s in accepted[more[i].serial].sources ==> epoch <= s
    {
      DueAcks(pending, source, now, i - |acks|);
      var p :| p in pending && p.source == source && p.serial == more[i].serial;
    }
  }

  /** Both ways of accepting at once; `done` says that the last source has been played. */
  lemma AcceptedKeeps(
    pending: seq<Pending>, accepted: seq<Accepted>, acks: seq<Ack>, sources: seq<Source>, epoch: nat, nextTime: real,
    a: Accepted, now: real, done: bool, sent: bool)
    requires Accounted(pending, accepted, acks, sources, epoch) && Timeline(sources, epoch, nextTime)
    requires IsRange(a, sources)
    requires (forall s :: s in a.sources ==> epoch <= s)
    requires forall i :: 0 <= i < |pending| ==> pending[i].commitId != a.commitId
    requires (sent ==> done) && (done ==> sources[a.sources[|a.sources| - 1]].end <= now)
    ensures var p := if done then pending else pending + [Pending(a.commitId, a.sources[|a.sources| - 1], |accepted|)];
      var more := if sent then acks + [Ack(|accepted|, now)] else acks;
      Accounted(p, accepted + [a], more, sources, epoch) && Untouched(more, |acks|, accepted + [a], epoch)
  {
    if done {
      PlayedAlreadyKeeps(pending, accepted, acks, sources, epoch, nextTime, a, now);
    } else {
      WaitingKeeps(pending, accepted, acks, sources, epoch, a);
    }
  }

  /** What a commit message can change. */
  datatype Ledger = Ledger(bySequence: map<int, nat>, pending: seq<Pending>, accepted: seq<Accepted>, acks: seq<Ack>) {

    /** The range leaves the index; it is acknowledged if its last source has been played, and waits otherwise. */
    function Accept(id: CommitId, start: int, n: nat, completed: set<nat>, now: real, open: bool): Ledger
      requires n > 0 && Holds(bySequence, start, n)
    {
      var last := bySequence[start + n - 1];
      Ledger(
        Outside(bySequence, start, n),
        if last in completed then pending else pending + [Pending(id, last, |accepted|)],
        accepted + [Accepted(id, start, RangeOf(bySequence, start, n))],
        if last in completed && open then acks + [Ack(|accepted|, now)] else acks)
    }
  }

  /** Accepting a commit keeps everything, and acknowledges only what no clear has touched. */
  lemma CommitKeeps(
    l: Ledger, sources: seq<Source>, epoch: nat, nextTime: real, completed: set<nat>, now: real, id: CommitId,
    start: int, n: nat, open: bool)
    requires Committable(l.bySequence, l.accepted, sources, epoch)
    requires Accounted(l.pending, l.accepted, l.acks, sources, epoch)
    requires Timeline(sources, epoch, nextTime) && Finished(completed, sources, epoch, now)
    requires n > 0 && Holds(l.bySequence, start, n) && forall i :: 0 <= i < |l.pending| ==> l.pending[i].commitId != id
    ensures var next := l.Accept(id, start, n, completed, now, open);
      && Committable(next.bySequence, next.accepted, sources, epoch)
      && Accounted(next.pending, next.accepted, next.acks, sources, epoch)
      && Untouched(next.acks, |l.acks|, next.accepted, epoch)
  {
    var a, last := Accepted(id, start, RangeOf(l.bySequence, start, n)), l.bySequence[start + n - 1];
    assert a.sources[n - 1] == last && last in a.sources;
    AcceptingKeeps(l.bySequence, sources, epoch, l.accepted, id, start, n);
    AcceptedKeeps(
      l.pending, l.accepted, l.acks, sources, epoch, nextTime, a, now, last in completed, last in completed && open);
  }

  lemma AcceptedIsKept(
    l: Ledger, lost: set<nat>, after: set<nat>, completed: set<nat>, now: real, id: CommitId, start: int, n: nat,
    open: bool)
    requires n > 0 && Holds(l.bySequence, start, n) && NoneForgotten(l.pending, l.acks, |l.accepted|, lost)
    requires after == if open then lost else lost + {|l.accepted|}
    ensures var next := l.Accept(id, start, n, completed, now, open);
      NoneForgotten(next.pending, next.acks, |next.accepted|, after)
  {
    var next, last := l.Accept(id, start, n, completed, now, open), l.bySequence[start + n - 1];
    if last !in completed {
      assert Pending(id, last, |l.accepted|) in next.pending;
    } else if open {
      assert Ack(|l.accepted|, now) in next.acks;
    }
    AcceptingForgetsNone(l, next, lost, after);
  }

  /** The loop over the pending commits when a source has ended. */
  method TakeDue(pending: seq<Pending>, source: nat, now: real) returns (kept: seq<Pending>, sent: seq<Ack>)
    ensures kept == Remaining(pending, source) && sent == Due(pending, source, now)
  {
    kept, sent := [], [];
    for i := 0 to |pending|
      invariant kept == Remaining(pending[..i], source) && sent == Due(pending[..i], source, now)
    {
      assert pending[..i + 1][..i] == pending[..i] && pending[..i + 1][i] == pending[i];
      if pending[i].source == source {
        sent := sent + [Ack(pending[i].serial, now)];
      } else {
        kept := kept + [pending[i]];
      }
    }
    assert pending[..|pending|] == pending;
  }

  /** A range longer than the index is refused at once, any other one sequence by sequence. */
  method HasRange(bySequence: map<int, nat>, start: int, n: nat) returns (found: bool)
    ensures found <==> Holds(bySequence, start, n)
  {
    if n > |bySequence.Keys| {
      if Holds(bySequence, start, n) { RangeFits(bySequence.Keys, start, n); }
      return false;
    }
    for sequence := start to start + n
      invariant forall k :: start <= k < sequence ==> k in bySequence
    {
      if sequence !in bySequence { return false; }
    }
    return true;
  }

  function Length(range: CommitRange): nat
    requires range.Range? && range.start <= range.end
  {
    range.end - range.start + 1
  }

  /** Whether a commit message is accepted; a missing name is the empty one. */
  predicate Accepts(pending: seq<Pending>, bySequence: map<int, nat>, commitId: CommitId, range: CommitRange) {
    && commitId != "" && (forall i :: 0 <= i < |pending| ==> pending[i].commitId != commitId)
    && range.Range? && 1 <= range.start <= range.end && Holds(bySequence, range.start, Length(range))
  }

  method Check(
    pending: seq<Pending>, bySequence: map<int, nat>, commitId: CommitId, range: CommitRange) returns (ok: bool)
    ensures ok <==> Accepts(pending, bySequence, commitId, range)
  {
    var duplicate := exists i :: 0 <= i < |pending| && pending[i].commitId == commitId;
    if commitId == "" || duplicate || range.Malformed? { return false; }
    var startSequence, endSequence := range.start, range.end;
    if startSequence < 1 || endSequence < startSequence { return false; }
    ok := HasRange(bySequence, startSequence, Length(range));
  }

  // ----- The client -----

  class VoiceClient {
    var nextPlaybackTime: real
    var bySequence: map<int, nat>
    var outputs: set<nat>
    var completed: set<nat>
    var pending: seq<Pending>
    var closed: bool
    var socketOpen: bool
    var lifecycle: nat

    /** The clock of the audio context, every source ever created, how many of them the last clear found, the commit
        messages accepted and the acknowledgements sent. */
    var now: real
    var sources: seq<Source>
    var epoch: nat
    var accepted: seq<Accepted>
    var acks: seq<Ack>
    /** Commit messages that will never be acknowledged: cleared while they waited, or played while there was no open
        socket. */
    ghost var lost: set<nat>

    ghost predicate Valid()
      reads this
    {
      && Timeline(sources, epoch, nextPlaybackTime)
      && Playing(outputs, sources, epoch, lifecycle) && (closed ==> outputs == {})
      && Finished(completed, sources, epoch, now)
      && Committable(bySequence, accepted, sources, epoch)
      && Accounted(pending, accepted, acks, sources, epoch)
      && NoneForgotten(pending, acks, |accepted|, lost)
    }

    constructor ()
      ensures Valid() && acks == [] && accepted == [] && closed
    {
      nextPlaybackTime, bySequence, outputs, completed, pending := 0.0, map[], {}, {}, [];
      closed, socketOpen, lifecycle, now, sources := true, false, 0, 0.0, [];
      epoch, accepted, acks, lost := 0, [], [], {};
    }

    /** The context's clock moves on. */
    method Tick(time: real)
      requires Valid() && now <= time
      modifies this`now
      ensures Valid() && now == time
    {
      now := time;
    }

    /** A frame is scheduled right behind the earlier ones; without a context it is dropped. */
    method HandleAudio(sequence: int, duration: real)
      requires Valid() && duration >= 0.0
      modifies this`nextPlaybackTime, this`bySequence, this`outputs, this`sources
      ensures Valid()
      ensures closed ==>
        && nextPlaybackTime == old(nextPlaybackTime) && sources == old(sources)
        && bySequence == old(bySequence) && outputs == old(outputs)
      ensures !closed ==>
        && nextPlaybackTime == old((if now + 0.02 < nextPlaybackTime then nextPlaybackTime else now + 0.02)) + duration
        && sources == old(sources) + [Source(sequence, nextPlaybackTime, lifecycle)]
        && bySequence == old(bySequence)[sequence := |old(sources)|] && outputs == old(outputs) + {|old(sources)|}
    {
      if closed { return; }
      var start := if now + 0.02 < nextPlaybackTime then nextPlaybackTime else now + 0.02;
      var end := start + duration;
      nextPlaybackTime := end;
      var source := |sources|;
      sources := sources + [Source(sequence, end, lifecycle)];
      bySequence := bySequence[sequence := source];
      outputs := outputs + {source};
      NewSourceIsFree(accepted, old(sources), old(bySequence), acks, Source(sequence, end, lifecycle));
    }

    /** A source whose end has come reports it, unless its playback was cancelled. */
    method Ended(source: nat)
      requires Valid() && source in outputs && sources[source].end <= now
      modifies this`outputs, this`completed, this`pending, this`acks, this`lost
      ensures lost == if socketOpen then old(lost) else old(lost) + SerialsFor(old(pending), source)
      ensures Valid() && outputs == old(outputs) - {source} && completed == old(completed) + {source}
      ensures pending == Remaining(old(pending), source)
      ensures acks == old(acks) + if socketOpen then Due(old(pending), source, now) else []
      ensures Untouched(acks, |old(acks)|, accepted, epoch)
      ensures forall p :: p in pending <==> p in old(pending) && p.source != source
      ensures forall ack :: ack in acks <==>
        || ack in old(acks)
        || (&& socketOpen && ack.at == now
            && exists p :: p in old(pending) && p.source == source && p.serial == ack.serial)
    {
      RemainingAre(pending, source);
      forall ack { DueIsExactly(pending, source, now, ack); }
      outputs := outputs - {source};
      if sources[source].lifecycle == lifecycle && !closed {
        completed := completed + {source};
        Acknowledge(source);
      }
    }

    method Acknowledge(source: nat)
      requires Valid() && source < |sources| && sources[source].end <= now
      modifies this`pending, this`acks, this`lost
      ensures lost == if socketOpen then old(lost) else old(lost) + SerialsFor(old(pending), source)
      ensures Valid() && pending == Remaining(old(pending), source)
      ensures acks == old(acks) + if socketOpen then Due(old(pending), source, now) else []
      ensures Untouched(acks, |old(acks)|, accepted, epoch)
    {
      DueIsUntouched(pending, source, now, acks, accepted, epoch);
      EndingKeeps(pending, accepted, acks, sources, epoch, nextPlaybackTime, source, now);
      var kept, sent := TakeDue(pending, source, now);
      EndingForgetsNone(pending, acks, |accepted|, lost, source, now, socketOpen);
      if socketOpen { acks := acks + sent; } else { lost := lost + SerialsFor(pending, source); }
      pending := kept;
    }

    method ScheduleCommit(commitId: CommitId, range: CommitRange)
      requires Valid()
      modifies this`bySequence, this`pending, this`accepted, this`acks, this`lost
      ensures Valid() && Untouched(acks, |old(acks)|, accepted, epoch)
      ensures accepted != old(accepted) <==>
        && commitId != "" && (forall p :: p in old(pending) ==> p.commitId != commitId)
        && range.Range? && 1 <= range.start <= range.end
        && forall k :: range.start <= k <= range.end ==> k in old(bySequence)
      ensures accepted != old(accepted) ==>
        bySequence == map k | k in old(bySequence) && (k < range.start || range.end < k) :: old(bySequence)[k]
      ensures socketOpen && !closed ==> lost == old(lost)
      ensures old(lost) <= lost <= old(lost) + {|old(accepted)|}
      ensures !Accepts(old(pending), old(bySequence), commitId, range) ==>
        && lost == old(lost) && bySequence == old(bySequence) && pending == old(pending)
        && accepted == old(accepted) && acks == old(acks)
      ensures Accepts(old(pending), old(bySequence), commitId, range) ==>
        Ledger(bySequence, pending, accepted, acks)
        == old(Ledger(bySequence, pending, accepted, acks))
             .Accept(commitId, range.start, Length(range), completed, now, socketOpen && !closed)
    {
      var ok := Check(pending, bySequence, commitId, range);
      if ok { AcceptValid(commitId, range.start, Length(range)); }
    }

    method AcceptValid(commitId: CommitId, start: int, n: nat)
      requires Valid() && n > 0 && Holds(bySequence, start, n)
      requires forall i :: 0 <= i < |pending| ==> pending[i].commitId != commitId
      modifies this`bySequence, this`pending, this`accepted, this`acks, this`lost
      ensures Valid() && Untouched(acks, |old(acks)|, accepted, epoch)
      ensures socketOpen && !closed ==> lost == old(lost)
      ensures old(lost) <= lost <= old(lost) + {|old(accepted)|}
      ensures Ledger(bySequence, pending, accepted, acks)
        == old(Ledger(bySequence, pending, accepted, acks))
             .Accept(commitId, start, n, completed, now, socketOpen && !closed)
    {
      ghost var l := Ledger(bySequence, pending, accepted, acks);
      CommitKeeps(l, sources, epoch, nextPlaybackTime, completed, now, commitId, start, n, socketOpen && !closed);
      ghost var after := if socketOpen && !closed then lost else lost + {|accepted|};
      AcceptedIsKept(l, lost, after, completed, now, commitId, start, n, socketOpen && !closed);
      Accept(commitId, start, n);
      lost := after;
    }

    method Accept(commitId: CommitId, start: int, n: nat)
      requires n > 0 && Holds(bySequence, start, n)
      modifies this`bySequence, this`pending, this`accepted, this`acks
      ensures Ledger(bySequence, pending, accepted, acks)
        == old(Ledger(bySequence, pending, accepted, acks))
             .Accept(commitId, start, n, completed, now, socketOpen && !closed)
    {
      var finalSource := bySequence[start + n - 1];
      var serial := |accepted|;
      accepted := accepted + [Accepted(commitId, start, RangeOf(bySequence, start, n))];
      bySequence := Outside(bySequence, start, n);
      if finalSource in completed {
        if socketOpen && !closed { acks := acks + [Ack(serial, now)]; }
        return;
      }
      pending := pending + [Pending(commitId, finalSource, serial)];
    }

    /** Handlers are detached and everything that was waiting is forgotten. */
    method CancelPlayback()
      requires Valid()
      modifies this`outputs, this`bySequence, this`pending, this`epoch, this`lost
      ensures lost == old(lost) + Serials(old(pending))
      ensures Valid() && outputs == {} && bySequence == map[] && pending == [] && epoch == |sources|
    {
      CancellingForgetsNone(pending, acks, |accepted|, lost);
      lost := lost + Serials(pending);
      outputs := {};
      bySequence := map[];
      pending := [];
      epoch := |sources|;
    }

    method ClearPlayback()
      requires Valid()
      modifies this`outputs, this`bySequence, this`pending, this`epoch, this`lost, this`nextPlaybackTime
      ensures lost == old(lost) + Serials(old(pending))
      ensures Valid() && outputs == {} && bySequence == map[] && pending == [] && epoch == |sources|
      ensures nextPlaybackTime == now
    {
      CancelPlayback();
      nextPlaybackTime := now;
    }

    method SocketChanges(open: bool)
      requires Valid()
      modifies this`socketOpen
      ensures Valid() && socketOpen == open
    {
      socketOpen := open;
    }

    /** A new connection: a new audio context, whose clock starts at zero, and nothing left of the last one. */
    method Connect()
      requires Valid()
      modifies this
      ensures Valid() && !closed && lifecycle == old(lifecycle) + 1 && now == 0.0 && epoch == |sources|
      ensures outputs == {} && bySequence == map[] && pending == [] && acks == old(acks) && accepted == old(accepted)
      ensures sources == old(sources) && lost == old(lost) + Serials(old(pending))
    {
      CancelPlayback();
      lifecycle := lifecycle + 1;
      closed := false;
      socketOpen := false;
      nextPlaybackTime := 0.0;
      now := 0.0;
    }

    method Close()
      requires Valid()
      modifies this
      ensures Valid() && closed && lifecycle == old(lifecycle) + 1 && !socketOpen && epoch == |sources|
      ensures outputs == {} && bySequence == map[] && pending == [] && acks == old(acks) && accepted == old(accepted)
      ensures sources == old(sources) && lost == old(lost) + Serials(old(pending))
    {
      CancelPlayback();
      lifecycle := lifecycle + 1;
      closed := true;
      socketOpen := false;
      nextPlaybackTime := 0.0;
    }
  }
}
