/** The stereo recording: caller audio on the left, agent audio on the right, each frame at its time or right behind
    the one before it, and agent audio cut where a clear cut it. */
module StereoWav {
  import opened Wrappers
  import opened WavCodec
  import opened StableSort
  import opened ClearCutoff

  const LIMIT_BYTES := 64 * 1024 * 1024

  datatype Failure = PendingTurnsTruncated | WrongFormat | IncompleteSample | BadTimestamp | TooLong

  /** 16 samples per millisecond; `Math.round` is the floor of half more. */
  function TimestampSample(ms: real): int { (ms * 16.0 + 0.5).Floor }

  function CutoffSample(ms: real): int { (ms * 16.0).Floor }

  function Max(a: int, b: int): int { if a < b then b else a }

  function Min(a: int, b: int): int { if a < b then a else b }

  // ----- Confirmed playout -----

  predicate Confirms(f: Frame, turn: Turn) { f.Playout? && f.confirmed && f.playedThrough.Some? && f.turnId == turn }

  function Through(f: Frame): int
    requires f.Playout? && f.playedThrough.Some?
  {
    Max(-1, f.playedThrough.value)
  }

  /** The agent's audio was heard according to some playout report. */
  predicate Confirmed(frames: seq<Frame>, a: Frame)
    requires a.Audio?
  {
    && a.direction == Agent && a.turnId != ""
    && exists f :: f in frames && Confirms(f, a.turnId) && a.sequence <= Through(f)
  }

  ghost predicate IsConfirmedMap(frames: seq<Frame>, m: map<Turn, int>) {
    && (forall f, t :: f in frames && Confirms(f, t) ==> t in m && Through(f) <= m[t])
    && (forall t :: t in m ==> exists f :: f in frames && Confirms(f, t) && Through(f) == m[t])
  }

  lemma ConfirmedMapGrows(frames: seq<Frame>, f: Frame, m: map<Turn, int>)
    requires IsConfirmedMap(frames, m)
    ensures IsConfirmedMap(frames + [f],
      if !Confirms(f, f.turnId) then m
      else m[f.turnId := if f.turnId in m then Max(m[f.turnId], f.playedThrough.value) else Through(f)])
  {
    var all := frames + [f];
    assert f in all;
    forall t | t in m ensures exists g :: g in all && Confirms(g, t) && Through(g) == m[t] {
      var g :| g in frames && Confirms(g, t) && Through(g) == m[t];
      assert g in all;
    }
  }

  method ConfirmedAgentAudioThrough(frames: seq<Frame>) returns (m: map<Turn, int>)
    ensures IsConfirmedMap(frames, m)
  {
    m := map[];
    for i := 0 to |frames|
      invariant IsConfirmedMap(frames[..i], m)
    {
      var f := frames[i];
      assert frames[..i + 1] == frames[..i] + [f];
      ConfirmedMapGrows(frames[..i], f, m);
      if f.Playout? && f.confirmed && f.playedThrough.Some? {
        m := m[f.turnId := Max(if f.turnId in m then m[f.turnId] else -1, f.playedThrough.value)];
      }
    }
    assert frames[..|frames|] == frames;
  }

  // ----- Where a frame goes -----

  datatype Positioned = Positioned(frame: Frame, startSample: nat, sampleCount: nat)

  datatype Placement = Refused(error: Failure) | Skipped | Placed(audio: Positioned)

  /** Unconfirmed agent audio is cut by the earliest clear that concerns it. */
  function CutoffFor(frames: seq<Frame>, a: Frame): Option<real>
    requires a.Audio?
  {
    if a.direction == Agent && !Confirmed(frames, a) then EarliestClear(frames, a.sequence, a.turnId) else None
  }

  function Playable(samples: nat, start: nat, cutoff: Option<real>): nat {
    if cutoff.None? then samples else Min(samples, Max(0, CutoffSample(cutoff.value) - start))
  }

  function PlaceOne(a: Frame, cutoff: Option<real>, last: nat): Placement
    requires a.Audio?
  {
    if !a.plain then Refused(WrongFormat)
    else if |a.bytes| % 2 != 0 then Refused(IncompleteSample)
    else if a.at.NotFinite? || a.at.value < 0.0 then Refused(BadTimestamp)
    else if TimestampSample(a.at.value) > MAX_SAFE then Refused(TooLong)
    else
      var start := Max(TimestampSample(a.at.value), last);
      var playable := Playable(|a.bytes| / 2, start, cutoff);
      if playable == 0 then Skipped
      else if start + playable > LIMIT_BYTES / 4 then Refused(TooLong)
      else Placed(Positioned(a, start, playable))
  }

  function EndOf(p: Positioned): nat { p.startSample + p.sampleCount }

  function LastEnd(ends: map<Direction, nat>, d: Direction): nat { if d in ends then ends[d] else 0 }

  ghost predicate AllAudio(todo: seq<Frame>) { forall a :: a in todo ==> a.Audio? }

  ghost function PlaceAll(
    frames: seq<Frame>, todo: seq<Frame>, ends: map<Direction, nat>): Result<seq<Positioned>, Failure>
    requires AllAudio(todo)
    decreases todo
  {
    if todo == [] then Ok([])
    else
      var a := todo[0];
      match PlaceOne(a, CutoffFor(frames, a), LastEnd(ends, a.direction))
      case Refused(e) => Err(e)
      case Skipped => PlaceAll(frames, todo[1..], ends)
      case Placed(p) =>
        match PlaceAll(frames, todo[1..], ends[a.direction := EndOf(p)])
        case Err(e) => Err(e)
        case Ok(rest) => Ok([p] + rest)
  }

  function AudioFrames(frames: seq<Frame>): (r: seq<Frame>)
    ensures forall a :: a in r <==> a in frames && a.Audio?
  {
    if frames == [] then []
    else
      assert frames == [frames[0]] + frames[1..];
      (if frames[0].Audio? then [frames[0]] else []) + AudioFrames(frames[1..])
  }

  function SequenceOf(f: Frame): int { if f.Audio? then f.sequence else 0 }

  function InOrder(frames: seq<Frame>): (r: seq<Frame>)
    ensures forall a :: a in r <==> a in frames && a.Audio?
    ensures multiset(r) == multiset(AudioFrames(frames))
    ensures forall i, j :: 0 <= i < j < |r| ==> r[i].sequence <= r[j].sequence
  {
    SortSorts(AudioFrames(frames), SequenceOf);
    Sort(AudioFrames(frames), SequenceOf)
  }

  // ----- Where everything ended up -----

  predicate SameChannel(
    p: Positioned, q: Positioned) { p.frame.Audio? && q.frame.Audio? && p.frame.direction == q.frame.direction }

  /** On one channel each interval ends before the next one begins. */
  ghost predicate Disjoint(ps: seq<Positioned>) {
    forall i, j :: 0 <= i < j < |ps| && SameChannel(ps[i], ps[j]) ==> EndOf(ps[i]) <= ps[j].startSample
  }

  /** How many of a frame's samples are kept, in milliseconds of the recording: all of them without a cutoff, else all
      that end by it and no more. */
  ghost predicate KeptUpTo(samples: nat, start: nat, count: nat, cutoff: Option<real>) {
    && count <= samples
    && if cutoff.None? then count == samples
       else
         && (start + count) as real / 16.0 <= cutoff.value
         && (count < samples ==> cutoff.value < (start + count + 1) as real / 16.0)
  }

  /** A placed frame is one of the recording's, no more than half a sample before its time, in bounds, and cut exactly
      at its cutoff. */
  ghost predicate WellPlaced(frames: seq<Frame>, p: Positioned) {
    && p.frame.Audio? && p.frame.plain && |p.frame.bytes| % 2 == 0 && p.frame.at.Finite?
    && p.startSample as real / 16.0 >= p.frame.at.value - 1.0 / 32.0
    && 0 < p.sampleCount && KeptUpTo(|p.frame.bytes| / 2, p.startSample, p.sampleCount, CutoffFor(frames, p.frame))
    && EndOf(p) <= 16_777_216
  }

  /** Sixteen samples a millisecond, to the nearest one. */
  lemma RoundedTime(ms: real)
    ensures -0.5 < TimestampSample(ms) as real - ms * 16.0 <= 0.5
  {
  }

  /** A cutoff falls into the sample that begins at its floor. */
  lemma FlooredTime(ms: real)
    ensures CutoffSample(ms) as real <= ms * 16.0 < CutoffSample(ms) as real + 1.0
  {
  }

  lemma PlayableIsKept(samples: nat, start: nat, cutoff: Option<real>)
    ensures var count := Playable(samples, start, cutoff);
      && (0 < count ==> KeptUpTo(samples, start, count, cutoff))
      && (count == 0 && 0 < samples ==> cutoff.Some? && cutoff.value < (start + 1) as real / 16.0)
  {
    if cutoff.Some? { FlooredTime(cutoff.value); }
  }

  lemma PlacedIs(frames: seq<Frame>, a: Frame, last: nat, p: Positioned)
    requires a.Audio? && PlaceOne(a, CutoffFor(frames, a), last) == Placed(p)
    ensures p.frame == a && WellPlaced(frames, p) && last <= p.startSample
    ensures p.startSample == last || -0.5 < p.startSample as real - a.at.value * 16.0 <= 0.5
  {
    RoundedTime(a.at.value);
    PlayableIsKept(|a.bytes| / 2, p.startSample, CutoffFor(frames, a));
  }

  ghost predicate AllPlaced(frames: seq<Frame>, todo: seq<Frame>, ends: map<Direction, nat>, ps: seq<Positioned>) {
    forall i :: 0 <= i < |ps| ==>
      && ps[i].frame in todo && WellPlaced(frames, ps[i])
      && LastEnd(ends, ps[i].frame.direction) <= ps[i].startSample
  }

  /** One more frame in front: those behind it on its channel begin after its end. */
  lemma PlacedInFront(
    frames: seq<Frame>, todo: seq<Frame>, ends: map<Direction, nat>, p: Positioned, rest: seq<Positioned>)
    requires todo != [] && p.frame == todo[0] && WellPlaced(frames, p)
    requires LastEnd(ends, p.frame.direction) <= p.startSample
    requires Disjoint(rest) && AllPlaced(frames, todo[1..], ends[p.frame.direction := EndOf(p)], rest)
    ensures Disjoint([p] + rest) && AllPlaced(frames, todo, ends, [p] + rest)
  {
    var ps := [p] + rest;
    forall i | 0 <= i < |ps|
      ensures ps[i].frame in todo && WellPlaced(frames, ps[i])
      ensures LastEnd(ends, ps[i].frame.direction) <= ps[i].startSample
      ensures i > 0 && SameChannel(p, ps[i]) ==> EndOf(p) <= ps[i].startSample
    {
      if i > 0 { assert ps[i] == rest[i - 1] && rest[i - 1].frame in todo[1..]; }
    }
  }

  lemma {:induction false} PlacedFrames(frames: seq<Frame>, todo: seq<Frame>, ends: map<Direction, nat>)
    requires AllAudio(todo) && PlaceAll(frames, todo, ends).Ok?
    ensures var ps := PlaceAll(frames, todo, ends).value; Disjoint(ps) && AllPlaced(frames, todo, ends, ps)
    decreases todo
  {
    if todo != [] {
      var a := todo[0];
      match PlaceOne(a, CutoffFor(frames, a), LastEnd(ends, a.direction))
      case Skipped => PlacedFrames(frames, todo[1..], ends);
      case Placed(p) =>
        var later := ends[a.direction := EndOf(p)];
        PlacedIs(frames, a, LastEnd(ends, a.direction), p);
        PlacedFrames(frames, todo[1..], later);
        PlacedInFront(frames, todo, ends, p, PlaceAll(frames, todo[1..], later).value);
    }
  }

  /** No gap is made: a frame starts at its own time, to the nearest sample, or right behind an earlier one on its
      channel. */
  lemma {:induction false} StartsOnTimeOrBehind(frames: seq<Frame>, todo: seq<Frame>, ends: map<Direction, nat>, i: nat)
    requires AllAudio(todo) && PlaceAll(frames, todo, ends).Ok? && i < |PlaceAll(frames, todo, ends).value|
    ensures var ps := PlaceAll(frames, todo, ends).value; var start := ps[i].startSample;
      && ps[i].frame.Audio? && ps[i].frame.at.Finite?
      && (|| -0.5 < start as real - ps[i].frame.at.value * 16.0 <= 0.5
          || start == LastEnd(ends, ps[i].frame.direction)
          || exists j :: 0 <= j < i && SameChannel(ps[j], ps[i]) && EndOf(ps[j]) == start)
    decreases todo
  {
    var a := todo[0];
    var ps := PlaceAll(frames, todo, ends).value;
    match PlaceOne(a, CutoffFor(frames, a), LastEnd(ends, a.direction))
    case Skipped => StartsOnTimeOrBehind(frames, todo[1..], ends, i);
    case Placed(p) =>
      PlacedIs(frames, a, LastEnd(ends, a.direction), p);
      if i > 0 {
        var later := ends[a.direction := EndOf(p)];
        StartsOnTimeOrBehind(frames, todo[1..], later, i - 1);
        var rest := PlaceAll(frames, todo[1..], later).value;
        assert ps == [p] + rest && ps[0] == p && ps[i] == rest[i - 1];
        if j :| 0 <= j < i - 1 && SameChannel(rest[j], rest[i - 1]) && EndOf(rest[j]) == ps[i].startSample {
          assert ps[j + 1] == rest[j];
        }
      }
  }

  /** Why a frame may be missing: not one sample of it would have ended by its cutoff, be it at its own time, to the
      nearest sample, or at the end of what precedes it on its channel. */
  ghost predicate CutAway(frames: seq<Frame>, a: Frame, ends: map<Direction, nat>, ps: seq<Positioned>)
    requires a.Audio?
  {
    && a.at.Finite? && CutoffFor(frames, a).Some?
    && var cutoff := CutoffFor(frames, a).value;
       || cutoff < a.at.value + 3.0 / 32.0
       || cutoff < (LastEnd(ends, a.direction) + 1) as real / 16.0
       || exists p :: p in ps && p.frame.Audio? && p.frame.direction == a.direction
                      && cutoff < (EndOf(p) + 1) as real / 16.0
  }

  lemma SkippedIsCutAway(frames: seq<Frame>, a: Frame, ends: map<Direction, nat>, ps: seq<Positioned>)
    requires a.Audio? && a.bytes != [] && PlaceOne(a, CutoffFor(frames, a), LastEnd(ends, a.direction)) == Skipped
    ensures CutAway(frames, a, ends, ps)
  {
    RoundedTime(a.at.value);
    PlayableIsKept(|a.bytes| / 2, Max(TimestampSample(a.at.value), LastEnd(ends, a.direction)), CutoffFor(frames, a));
  }

  /** What is wrong with a frame by itself. */
  predicate Malformed(a: Frame)
    requires a.Audio?
  {
    !a.plain || |a.bytes| % 2 == 1 || a.at.NotFinite? || a.at.value < 0.0
  }

  /** The frame is a reason for the failure: the first thing that is wrong with it, or that it lies too far behind. */
  predicate Explains(a: Frame, e: Failure)
    requires a.Audio?
  {
    match e
    case WrongFormat => !a.plain
    case IncompleteSample => a.plain && |a.bytes| % 2 == 1
    case BadTimestamp => a.plain && |a.bytes| % 2 == 0 && (a.at.NotFinite? || a.at.value < 0.0)
    case TooLong => !Malformed(a)
    case PendingTurnsTruncated => false
  }

  /** A recording that is refused has a frame that explains it. */
  lemma {:induction false} RefusalHasAReason(frames: seq<Frame>, todo: seq<Frame>, ends: map<Direction, nat>)
    returns (a: Frame)
    requires AllAudio(todo) && PlaceAll(frames, todo, ends).Err?
    ensures a in todo && Explains(a, PlaceAll(frames, todo, ends).error)
    decreases todo
  {
    a := todo[0];
    match PlaceOne(a, CutoffFor(frames, a), LastEnd(ends, a.direction))
    case Refused(_) =>
    case Skipped => a := RefusalHasAReason(frames, todo[1..], ends);
    case Placed(p) => a := RefusalHasAReason(frames, todo[1..], ends[a.direction := EndOf(p)]);
  }

  /** No recording with such a frame is built. */
  lemma {:induction false} MalformedIsRefused(frames: seq<Frame>, todo: seq<Frame>, ends: map<Direction, nat>, a: Frame)
    requires AllAudio(todo) && a in todo && Malformed(a)
    ensures PlaceAll(frames, todo, ends).Err?
    decreases todo
  {
    var first := todo[0];
    if a != first {
      assert a in todo[1..];
      match PlaceOne(first, CutoffFor(frames, first), LastEnd(ends, first.direction))
      case Refused(_) =>
      case Skipped => MalformedIsRefused(frames, todo[1..], ends, a);
      case Placed(p) => MalformedIsRefused(frames, todo[1..], ends[first.direction := EndOf(p)], a);
    }
  }

  /** Every audio frame with samples is placed, as far as it was heard, or was cut away altogether. */
  lemma {:induction false} EveryFrameIsPlaced(frames: seq<Frame>, todo: seq<Frame>, ends: map<Direction, nat>, a: Frame)
    requires AllAudio(todo) && PlaceAll(frames, todo, ends).Ok? && a in todo && a.bytes != []
    ensures var ps := PlaceAll(frames, todo, ends).value;
      (exists p :: p in ps && p.frame == a) || CutAway(frames, a, ends, ps)
    decreases todo
  {
    var first := todo[0];
    var placement := PlaceOne(first, CutoffFor(frames, first), LastEnd(ends, first.direction));
    var ps := PlaceAll(frames, todo, ends).value;
    if a == first {
      match placement
      case Skipped => SkippedIsCutAway(frames, a, ends, ps);
      case Placed(p) => assert ps[0] == p;
    } else {
      assert a in todo[1..];
      match placement
      case Skipped => EveryFrameIsPlaced(frames, todo[1..], ends, a);
      case Placed(p) =>
        var later := ends[first.direction := EndOf(p)];
        EveryFrameIsPlaced(frames, todo[1..], later, a);
        var rest := PlaceAll(frames, todo[1..], later).value;
        assert ps == [p] + rest && p in ps && forall q :: q in rest ==> q in ps;
    }
  }

  /** Some playout report confirms that this turn was heard through the frame's sequence; a report says -1 at least. */
  ghost predicate Heard(frames: seq<Frame>, a: Frame)
    requires a.Audio?
  {
    && a.turnId != ""
    && exists f :: f in frames && f.Playout? && f.confirmed && f.turnId == a.turnId && f.playedThrough.Some?
                   && (a.sequence <= f.playedThrough.value || a.sequence <= -1)
  }

  lemma ConfirmedIsHeard(frames: seq<Frame>, a: Frame)
    requires a.Audio?
    ensures Confirmed(frames, a) <==> a.direction == Agent && Heard(frames, a)
  {
    if a.direction == Agent && Heard(frames, a) {
      var f :| f in frames && f.Playout? && f.confirmed && f.turnId == a.turnId && f.playedThrough.Some?
               && (a.sequence <= f.playedThrough.value || a.sequence <= -1);
      assert Confirms(f, a.turnId) && a.sequence <= Through(f);
    }
    if Confirmed(frames, a) {
      var f :| f in frames && Confirms(f, a.turnId) && a.sequence <= Through(f);
      assert f.Playout? && f.confirmed;
    }
  }

  /** Only a clear cuts, and only agent audio that was not heard: a frame that lost its end has a clear that concerns
      it, before the end of the first sample lost. */
  lemma OnlyAClearCuts(frames: seq<Frame>, p: Positioned) returns (clear: Frame)
    requires WellPlaced(frames, p) && p.sampleCount < |p.frame.bytes| / 2
    ensures p.frame.direction == Agent && !Heard(frames, p.frame)
    ensures clear in frames && Cuts(clear, p.frame.sequence, p.frame.turnId)
    ensures clear.at.value < (p.startSample + p.sampleCount + 1) as real / 16.0
  {
    ConfirmedIsHeard(frames, p.frame);
    EarliestClearIsEarliest(frames, p.frame.sequence, p.frame.turnId);
    var cutoff := CutoffFor(frames, p.frame).value;
    clear :| clear in frames && Concerns(clear, p.frame.sequence, p.frame.turnId) && clear.at.value == cutoff;
    ConcernsIs(clear, p.frame.sequence, p.frame.turnId);
  }

  function AllSamples(todo: seq<Frame>): nat
    requires AllAudio(todo)
  {
    if todo == [] then 0 else |todo[0].bytes| / 2 + AllSamples(todo[1..])
  }

  /** A recording of well-formed frames is built if their latest time and all their samples together stay within
      16 777 216 samples, 64 MiB on two channels. */
  lemma {:induction false} ShortRecordingIsBuilt(
    frames: seq<Frame>, todo: seq<Frame>, ends: map<Direction, nat>, latest: nat)
    requires AllAudio(todo) && latest + AllSamples(todo) <= 16_777_216
    requires forall a :: a in todo ==> !Malformed(a) && a.at.value * 16.0 + 0.5 <= latest as real
    requires forall d :: d in ends ==> ends[d] <= latest
    ensures PlaceAll(frames, todo, ends).Ok?
    decreases todo
  {
    if todo != [] {
      var a := todo[0];
      match PlaceOne(a, CutoffFor(frames, a), LastEnd(ends, a.direction))
      case Refused(_) => assert false;
      case Skipped => ShortRecordingIsBuilt(frames, todo[1..], ends, latest);
      case Placed(p) =>
        ShortRecordingIsBuilt(frames, todo[1..], ends[a.direction := EndOf(p)], latest + |a.bytes| / 2);
    }
  }

  /** A sample is heard before every clear that concerns its frame, unless its playout was confirmed. */
  lemma NothingAfterAClear(frames: seq<Frame>, p: Positioned, clear: Frame, k: nat)
    requires WellPlaced(frames, p) && p.frame.direction == Agent && !Heard(frames, p.frame) && k < p.sampleCount
    requires clear in frames && Cuts(clear, p.frame.sequence, p.frame.turnId)
    ensures (p.startSample + k + 1) as real / 16.0 <= clear.at.value
  {
    ConfirmedIsHeard(frames, p.frame);
    ConcernsIs(clear, p.frame.sequence, p.frame.turnId);
    EarliestClearIsEarliest(frames, p.frame.sequence, p.frame.turnId);
    assert (p.startSample + k + 1) as real <= EndOf(p) as real;
  }

  // ----- The samples -----

  function Channel(p: Positioned): nat { if p.frame.Audio? && p.frame.direction == Agent then 1 else 0 }

  /** The data byte `k` belongs to this frame's interval on its channel. */
  predicate Covers(p: Positioned, k: nat) {
    p.frame.Audio? && k / 2 % 2 == Channel(p) && p.startSample <= k / 4 < EndOf(p)
  }

  ghost predicate Fits(p: Positioned) { p.frame.Audio? && 2 * p.sampleCount <= |p.frame.bytes| }

  function ByteFrom(p: Positioned, k: nat): Byte
    requires Covers(p, k) && 2 * p.sampleCount <= |p.frame.bytes|
  {
    p.frame.bytes[2 * (k / 4 - p.startSample) + k % 2]
  }

  /** The data byte `k` after all frames have been written, the last writer winning. */
  ghost function ByteAt(ps: seq<Positioned>, k: nat): Byte
    requires forall p :: p in ps ==> Fits(p)
  {
    if ps == [] then 0
    else
      var p := ps[|ps| - 1];
      assert Fits(p);
      if Covers(p, k) then ByteFrom(p, k) else ByteAt(ps[..|ps| - 1], k)
  }

  /** Where byte `j` of a frame goes. */
  function Offset(p: Positioned, j: nat): nat { 4 * (p.startSample + j / 2) + 2 * Channel(p) + j % 2 }

  lemma OffsetIsCovered(p: Positioned, j: nat)
    requires Fits(p) && j < 2 * p.sampleCount
    ensures Covers(p, Offset(p, j)) && ByteFrom(p, Offset(p, j)) == p.frame.bytes[j]
  {
    var k := Offset(p, j);
    assert k / 4 == p.startSample + j / 2 && k % 2 == j % 2 && k / 2 % 2 == Channel(p);
  }

  lemma CoversOnlyOne(ps: seq<Positioned>, i: nat, j: nat, k: nat)
    requires Disjoint(ps) && (forall p :: p in ps ==> Fits(p)) && i < |ps| && j < |ps|
    requires Covers(ps[i], k) && Covers(ps[j], k)
    ensures i == j
  {
    assert SameChannel(ps[i], ps[j]) && SameChannel(ps[j], ps[i]);
  }

  /** Every kept byte is there: nothing is written over. */
  lemma {:induction false} KeptByteIsThere(ps: seq<Positioned>, i: nat, k: nat)
    requires Disjoint(ps) && (forall p :: p in ps ==> Fits(p)) && i < |ps|
    requires Covers(ps[i], k)
    ensures Fits(ps[i]) && ByteAt(ps, k) == ByteFrom(ps[i], k)
  {
    var last := |ps| - 1;
    assert Fits(ps[i]) && Fits(ps[last]);
    if i < last {
      if Covers(ps[last], k) { CoversOnlyOne(ps, i, last, k); }
      KeptByteIsThere(ps[..last], i, k);
    }
  }

  lemma {:induction false} OtherBytesAreZero(ps: seq<Positioned>, k: nat)
    requires forall p :: p in ps ==> Fits(p) && !Covers(p, k)
    ensures ByteAt(ps, k) == 0
  {
    if ps != [] {
      assert ps[|ps| - 1] in ps;
      OtherBytesAreZero(ps[..|ps| - 1], k);
    }
  }

  ghost function TotalSamples(ps: seq<Positioned>): nat {
    if ps == [] then 0 else Max(TotalSamples(ps[..|ps| - 1]), EndOf(ps[|ps| - 1]))
  }

  lemma {:induction false} TotalIsEnough(ps: seq<Positioned>, i: nat)
    requires i < |ps|
    ensures EndOf(ps[i]) <= TotalSamples(ps)
  {
    if i < |ps| - 1 { TotalIsEnough(ps[..|ps| - 1], i); }
  }

  lemma {:induction false} TotalIsBounded(ps: seq<Positioned>, limit: nat)
    requires forall p :: p in ps ==> EndOf(p) <= limit
    ensures TotalSamples(ps) <= limit
  {
    if ps != [] { assert ps[|ps| - 1] in ps; TotalIsBounded(ps[..|ps| - 1], limit); }
  }

  ghost function Samples(ps: seq<Positioned>): (r: seq<Byte>)
    requires forall p :: p in ps ==> Fits(p)
    ensures |r| == 4 * TotalSamples(ps) && forall k :: 0 <= k < |r| ==> r[k] == ByteAt(ps, k)
  {
    seq(4 * TotalSamples(ps), k requires 0 <= k < 4 * TotalSamples(ps) => ByteAt(ps, k))
  }

  ghost predicate AnyTruncated(frames: seq<Frame>) { exists f :: f in frames && f.Cleared? && f.truncated }

  /** What is built: the first reason to refuse, or header and samples. */
  ghost predicate Builds(frames: seq<Frame>, r: Result<seq<Byte>, Failure>) {
    if AnyTruncated(frames) then r == Err(PendingTurnsTruncated)
    else match PlaceAll(frames, InOrder(frames), map[])
      case Err(e) => r == Err(e)
      case Ok(ps) =>
        && (forall p :: p in ps ==> Fits(p)) && 36 + 4 * TotalSamples(ps) < 0x1_0000_0000
        && r == Ok(Header(2, 4 * TotalSamples(ps)) + Samples(ps))
  }

  /** The recording was built, and its frames were placed like this. */
  ghost predicate Records(frames: seq<Frame>, r: Result<seq<Byte>, Failure>, ps: seq<Positioned>) {
    Builds(frames, r) && r.Ok? && PlaceAll(frames, InOrder(frames), map[]) == Ok(ps)
  }

  lemma OnlyFrame(a: Frame)
    requires a.Audio?
    ensures InOrder([a]) == [a]
  {
    assert AudioFrames([a]) == [a] by { assert [a][1..] == []; }
    assert multiset(InOrder([a])) == multiset([a]);
    assert |InOrder([a])| == |multiset(InOrder([a]))| == 1 && a in InOrder([a]);
  }

  /** A single caller frame that fits is recorded, at its own time and in full. */
  lemma OneFrameIsRecorded(a: Frame, n: nat)
    requires a.Audio? && a.direction == Caller && a.plain && |a.bytes| == 2 * n > 0
    requires a.at.Finite? && a.at.value >= 0.0 && TimestampSample(a.at.value) + n <= LIMIT_BYTES / 4
    ensures exists r :: Records([a], r, [Positioned(a, TimestampSample(a.at.value), n)])
  {
    var p := Positioned(a, TimestampSample(a.at.value), n);
    OnlyFrame(a);
    assert PlaceOne(a, CutoffFor([a], a), 0) == Placed(p);
    assert [a][1..] == [] && [p] + [] == [p];
    assert PlaceAll([a], [a], map[]) == Ok([p]);
    assert Fits(p) && [p][..0] == [];
    assert TotalSamples([p]) == EndOf(p);
    var r: Result<seq<Byte>, Failure> := Ok(Header(2, 4 * EndOf(p)) + Samples([p]));
    assert Records([a], r, [p]);
  }

  /** What `Builds` says of a recording that was built, byte by byte. */
  lemma BuiltBytes(frames: seq<Frame>, r: Result<seq<Byte>, Failure>, ps: seq<Positioned>)
    requires Records(frames, r, ps)
    ensures (forall p :: p in ps ==> Fits(p)) && |r.value| == 44 + 4 * TotalSamples(ps)
    ensures forall k :: 0 <= k < 4 * TotalSamples(ps) ==> r.value[44 + k] == ByteAt(ps, k)
  {
    BehindHeader(Header(2, 4 * TotalSamples(ps)), Samples(ps));
  }

  lemma BehindHeader(header: seq<Byte>, data: seq<Byte>)
    requires |header| == 44
    ensures |header + data| == 44 + |data| && forall k :: 0 <= k < |data| ==> (header + data)[44 + k] == data[k]
  {
  }

  lemma KeptByteIsAt(frames: seq<Frame>, r: Result<seq<Byte>, Failure>, ps: seq<Positioned>, i: nat, j: nat)
    requires Records(frames, r, ps) && i < |ps| && j < 2 * ps[i].sampleCount
    ensures Fits(ps[i]) && 44 + Offset(ps[i], j) < |r.value|
    ensures r.value[44 + Offset(ps[i], j)] == ps[i].frame.bytes[j]
  {
    PlacedFrames(frames, InOrder(frames), map[]);
    BuiltBytes(frames, r, ps);
    assert Fits(ps[i]);
    OffsetIsCovered(ps[i], j);
    TotalIsEnough(ps, i);
    KeptByteIsThere(ps, i, Offset(ps[i], j));
  }

  /** In a recording that was built, the intervals on a channel are disjoint and in bounds, and every kept byte is at
      its place: four bytes a sample behind the header, the caller's two first, then the agent's. */
  lemma RecordingHoldsItsFrames(frames: seq<Frame>, r: Result<seq<Byte>, Failure>, ps: seq<Positioned>, i: nat, j: nat)
    requires Records(frames, r, ps) && i < |ps| && j < 2 * ps[i].sampleCount
    ensures Disjoint(ps) && WellPlaced(frames, ps[i]) && ps[i].frame in frames
    ensures
      var side := if ps[i].frame.direction == Agent then 2 else 0;
      var at := 44 + (4 * (ps[i].startSample + j / 2) + side + j % 2);
      j < |ps[i].frame.bytes| && at < |r.value| && r.value[at] == ps[i].frame.bytes[j]
  {
    PlacedFrames(frames, InOrder(frames), map[]);
    KeptByteIsAt(frames, r, ps, i, j);
    assert 2 * Channel(ps[i]) == if ps[i].frame.direction == Agent then 2 else 0;
  }

  /** All other samples are silence: byte `k` of the data belongs to sample `k / 4`, and to the agent if it is one of
      the last two there. */
  lemma TheRestIsSilent(frames: seq<Frame>, r: Result<seq<Byte>, Failure>, ps: seq<Positioned>, k: nat)
    requires Records(frames, r, ps) && 44 + k < |r.value|
    requires forall p :: p in ps && p.frame.Audio? && (p.frame.direction == Agent <==> k % 4 >= 2) ==>
      k / 4 < p.startSample || p.startSample + p.sampleCount <= k / 4
    ensures r.value[44 + k] == 0
  {
    BuiltBytes(frames, r, ps);
    forall p | p in ps ensures !Covers(p, k) { NotCovered(p, k); }
    OtherBytesAreZero(ps, k);
  }

  lemma NotCovered(p: Positioned, k: nat)
    requires p.frame.Audio? && (p.frame.direction == Agent <==> k % 4 >= 2) ==>
      k / 4 < p.startSample || p.startSample + p.sampleCount <= k / 4
    ensures !Covers(p, k)
  {
    assert k / 2 % 2 == 1 <==> k % 4 >= 2;
  }

  /** The file ends with the sample that ends last, and is a bare header if there is none. */
  lemma RecordingEndsWithItsLastSample(frames: seq<Frame>, r: Result<seq<Byte>, Failure>, ps: seq<Positioned>)
    requires Records(frames, r, ps)
    ensures forall p :: p in ps ==> 44 + 4 * (p.startSample + p.sampleCount) <= |r.value|
    ensures if ps == [] then |r.value| == 44
            else exists p :: p in ps && |r.value| == 44 + 4 * (p.startSample + p.sampleCount)
  {
    BuiltBytes(frames, r, ps);
    forall p | p in ps ensures EndOf(p) <= TotalSamples(ps) {
      var i :| 0 <= i < |ps| && ps[i] == p;
      TotalIsEnough(ps, i);
    }
    TotalIsAttained(ps);
  }

  lemma {:induction false} TotalIsAttained(ps: seq<Positioned>)
    ensures if ps == [] then TotalSamples(ps) == 0 else exists p :: p in ps && TotalSamples(ps) == EndOf(p)
  {
    if ps != [] {
      var front, last := ps[..|ps| - 1], ps[|ps| - 1];
      assert ps == front + [last] && last in ps;
      TotalIsAttained(front);
      if TotalSamples(ps) != EndOf(last) {
        var p :| p in front && TotalSamples(front) == EndOf(p);
        assert p in ps;
      }
    }
  }

  // ----- The writer -----

  /** The earliest clear that concerns a frame, unless it is the caller's or its playout was confirmed. */
  method CutoffOf(frames: seq<Frame>, confirmedThrough: map<Turn, int>, lookup: Lookup, a: Frame)
    returns (cutoff: Option<real>)
    requires a.Audio? && IsConfirmedMap(frames, confirmedThrough) && Serves(lookup, frames)
    ensures cutoff == CutoffFor(frames, a)
  {
    ConfirmedByMap(frames, confirmedThrough, a);
    var confirmed :=
      && a.direction == Agent && a.turnId != ""
      && a.turnId in confirmedThrough && a.sequence <= confirmedThrough[a.turnId];
    cutoff := None;
    if a.direction == Agent && !confirmed { cutoff := ClearCutoffAt(lookup, a.sequence, a.turnId, frames); }
  }

  /** Positions for the frames in order of sequence, with the end of each channel so far. */
  method Position(
    frames: seq<Frame>, sorted: seq<Frame>) returns (r: Result<seq<Positioned>, Failure>, sampleCount: nat)
    requires AllAudio(sorted)
    ensures r == PlaceAll(frames, sorted, map[])
    ensures r.Ok? ==> sampleCount == TotalSamples(r.value)
  {
    var confirmedThrough := ConfirmedAgentAudioThrough(frames);
    var lookup := CreateClearCutoffLookup(frames);
    var ends: map<Direction, nat> := map[];
    var positioned: seq<Positioned> := [];
    sampleCount := 0;
    ghost var whole := PlaceAll(frames, sorted, map[]);
    assert sorted[0..] == sorted;
    assert whole == Behind(positioned, whole) by { if whole.Ok? { assert [] + whole.value == whole.value; } }
    for i := 0 to |sorted|
      invariant whole == Behind(positioned, PlaceAll(frames, sorted[i..], ends))
      invariant sampleCount == TotalSamples(positioned)
    {
      var a := sorted[i];
      assert a in sorted && sorted[i..][0] == a && sorted[i..][1..] == sorted[i + 1..];
      var cutoff := CutoffOf(frames, confirmedThrough, lookup, a);
      match PlaceOne(a, cutoff, LastEnd(ends, a.direction)) {
        case Refused(e) => return Err(e), 0;
        case Skipped =>
        case Placed(p) =>
          BehindOne(positioned, p, PlaceAll(frames, sorted[i + 1..], ends[a.direction := EndOf(p)]));
          ends := ends[a.direction := EndOf(p)];
          sampleCount := Max(sampleCount, EndOf(p));
          assert (positioned + [p])[..|positioned|] == positioned;
          positioned := positioned + [p];
      }
    }
    assert positioned + [] == positioned;
    r := Ok(positioned);
  }

  ghost function Behind(
    done: seq<Positioned>, rest: Result<seq<Positioned>, Failure>): Result<seq<Positioned>, Failure>
  {
    match rest case Err(e) => Err(e) case Ok(ps) => Ok(done + ps)
  }

  lemma BehindOne(done: seq<Positioned>, p: Positioned, rest: Result<seq<Positioned>, Failure>)
    ensures Behind(done, match rest case Err(e) => Err(e) case Ok(ps) => Ok([p] + ps)) == Behind(done + [p], rest)
  {
    if rest.Ok? { assert done + ([p] + rest.value) == done + [p] + rest.value; }
  }

  lemma ConfirmedByMap(frames: seq<Frame>, m: map<Turn, int>, a: Frame)
    requires IsConfirmedMap(frames, m) && a.Audio?
    ensures Confirmed(frames, a) <==>
      a.direction == Agent && a.turnId != "" && a.turnId in m && a.sequence <= m[a.turnId]
  {
  }

  /** The two bytes of the sample at `index`. */
  lemma SampleBytes(p: Positioned, index: nat, k: nat)
    requires Fits(p) && index < p.sampleCount
    ensures var o := 4 * (p.startSample + index) + 2 * Channel(p);
      Covers(p, k) && k / 4 == p.startSample + index <==> k == o || k == o + 1
  {
  }

  lemma Quotients(s: nat, c: nat)
    requires c < 2
    ensures (4 * s + 2 * c) / 4 == s && (4 * s + 2 * c) / 2 % 2 == c && (4 * s + 2 * c) % 2 == 0
    ensures (4 * s + 2 * c + 1) / 4 == s && (4 * s + 2 * c + 1) / 2 % 2 == c && (4 * s + 2 * c + 1) % 2 == 1
  {
    assert (4 * s + 2 * c) / 2 == 2 * s + c && (4 * s + 2 * c + 1) / 2 == 2 * s + c;
  }

  lemma SampleByteValues(p: Positioned, index: nat)
    requires Fits(p) && index < p.sampleCount
    ensures var o := 4 * (p.startSample + index) + 2 * Channel(p);
      && Covers(p, o) && ByteFrom(p, o) == p.frame.bytes[2 * index]
      && Covers(p, o + 1) && ByteFrom(p, o + 1) == p.frame.bytes[2 * index + 1]
  {
    Quotients(p.startSample + index, Channel(p));
  }

  /** The data with the first `n` samples of a frame written over it. */
  ghost predicate Written(p: Positioned, n: nat, data: seq<Byte>, before: seq<Byte>)
    requires Fits(p)
  {
    && |data| == |before|
    && forall k :: 0 <= k < |data| ==>
         data[k] == if Covers(p, k) && k / 4 < p.startSample + n then ByteFrom(p, k) else before[k]
  }

  lemma OneMoreSample(p: Positioned, n: nat, data: seq<Byte>, before: seq<Byte>, next: seq<Byte>, o: nat)
    requires Fits(p) && n < p.sampleCount && Written(p, n, data, before)
    requires o == 4 * (p.startSample + n) + 2 * Channel(p)
    requires |next| == |data| && o + 1 < |data| && next[o] == p.frame.bytes[2 * n]
    requires next[o + 1] == p.frame.bytes[2 * n + 1]
    requires forall k :: 0 <= k < |data| && k != o && k != o + 1 ==> next[k] == data[k]
    ensures Written(p, n + 1, next, before)
  {
    SampleByteValues(p, n);
    forall k | 0 <= k < |next|
      ensures next[k] == if Covers(p, k) && k / 4 < p.startSample + (n + 1) then ByteFrom(p, k) else before[k]
    {
      SampleBytes(p, n, k);
    }
  }

  /** One frame's samples, two bytes at a time. */
  method WriteFrame(wav: array<Byte>, p: Positioned)
    requires Fits(p) && 44 + 4 * EndOf(p) <= wav.Length
    modifies wav
    ensures wav[..44] == old(wav[..44]) && Written(p, p.sampleCount, wav[44..], old(wav[44..]))
  {
    var channel := if p.frame.direction == Caller then 0 else 1;
    ghost var before := wav[44..];
    for index := 0 to p.sampleCount
      invariant wav[..44] == old(wav[..44]) && Written(p, index, wav[44..], before)
    {
      ghost var data := wav[44..];
      var sampleIndex := p.startSample + index;
      var byteOffset := 44 + sampleIndex * 4 + channel * 2;
      wav[byteOffset] := p.frame.bytes[index * 2];
      wav[byteOffset + 1] := p.frame.bytes[index * 2 + 1];
      ghost var o := byteOffset - 44;
      OneMoreSample(p, index, data, before, wav[44..], o);
    }
  }

  lemma WrittenAll(ps: seq<Positioned>, i: nat, data: seq<Byte>, before: seq<Byte>)
    requires i < |ps| && (forall p :: p in ps ==> Fits(p))
    requires forall k :: 0 <= k < |before| ==> before[k] == ByteAt(ps[..i], k)
    requires Fits(ps[i]) && Written(ps[i], ps[i].sampleCount, data, before)
    ensures forall k :: 0 <= k < |data| ==> data[k] == ByteAt(ps[..i + 1], k)
  {
    assert ps[..i + 1][..i] == ps[..i] && ps[..i + 1][i] == ps[i];
  }

  /** The frames one after the other over a silent recording. */
  method WriteAll(wav: array<Byte>, positioned: seq<Positioned>)
    requires (forall p :: p in positioned ==> Fits(p)) && wav.Length == 44 + 4 * TotalSamples(positioned)
    requires forall k :: 44 <= k < wav.Length ==> wav[k] == 0
    modifies wav
    ensures wav[..] == old(wav[..44]) + Samples(positioned)
  {
    for i := 0 to |positioned|
      invariant wav[..44] == old(wav[..44])
      invariant forall k :: 0 <= k < |wav[44..]| ==> wav[44..][k] == ByteAt(positioned[..i], k)
    {
      TotalIsEnough(positioned, i);
      assert positioned[i] in positioned;
      ghost var before := wav[44..];
      WriteFrame(wav, positioned[i]);
      WrittenAll(positioned, i, wav[44..], before);
    }
    assert positioned[..|positioned|] == positioned;
    assert wav[44..] == Samples(positioned);
    assert wav[..] == wav[..44] + wav[44..];
  }

  lemma PositionedFits(frames: seq<Frame>, ps: seq<Positioned>)
    requires PlaceAll(frames, InOrder(frames), map[]) == Ok(ps)
    ensures (forall p :: p in ps ==> Fits(p)) && TotalSamples(ps) <= LIMIT_BYTES / 4
  {
    PlacedFrames(frames, InOrder(frames), map[]);
    forall p | p in ps ensures Fits(p) && EndOf(p) <= LIMIT_BYTES / 4 { var i :| 0 <= i < |ps| && ps[i] == p; }
    TotalIsBounded(ps, LIMIT_BYTES / 4);
  }

  /** The limit on the whole file cannot be exceeded here: no single frame ends behind it. */
  method BuildStereoWav(frames: seq<Frame>) returns (r: Result<seq<Byte>, Failure>)
    ensures Builds(frames, r)
  {
    var truncated := exists f :: f in frames && f.Cleared? && f.truncated;
    if truncated { return Err(PendingTurnsTruncated); }
    var placed, sampleCount := Position(frames, InOrder(frames));
    if placed.Err? { return Err(placed.error); }
    PositionedFits(frames, placed.value);
    var dataBytes := sampleCount * 4;
    var wav := new Byte[44 + dataBytes](_ => 0);
    PutHeader(wav, 2, dataBytes);
    WriteAll(wav, placed.value);
    return Ok(wav[..]);
  }
}
