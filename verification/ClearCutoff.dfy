/** The frames of an audio tap, and how early a clear cut an agent's audio off. */
module ClearCutoff {
  import opened Wrappers
  import opened WavCodec
  import opened StableSort

  /** A JavaScript number that need not be finite. */
  datatype Num = NotFinite | Finite(value: real)

  datatype Direction = Caller | Agent

  /** A missing turn is the empty string, which the code treats alike. */
  type Turn = string

  /** `plain` says that the frame's format is mono 16 kHz pcm_s16le. */
  datatype Frame =
    | Audio(direction: Direction, sequence: int, turnId: Turn, at: Num, plain: bool, bytes: seq<Byte>)
    | Cleared(
        at: Num, throughSequence: Option<Num>, hadPendingSends: bool, pendingSendTurnIds: seq<Turn>, turnId: Turn,
        truncated: bool)
    | Playout(turnId: Turn, confirmed: bool, playedThrough: Option<int>)

  const MAX_SAFE := 0x1F_FFFF_FFFF_FFFF

  predicate Timed(f: Frame) { f.Cleared? && f.at.Finite? && f.at.value >= 0.0 }

  /** A sequence number that the code accepts. */
  predicate ValidThrough(n: Option<Num>) {
    && n.Some? && n.value.Finite? && 0.0 <= n.value.value <= MAX_SAFE as real
    && n.value.value == n.value.value.Floor as real
  }

  predicate Bounds(f: Frame) { Timed(f) && ValidThrough(f.throughSequence) }

  function PendingTurns(f: Frame): seq<Turn>
    requires f.Cleared?
  {
    if f.pendingSendTurnIds != [] then f.pendingSendTurnIds else if f.turnId != "" then [f.turnId] else []
  }

  predicate ClearsTurn(f: Frame, turn: Turn) { Timed(f) && f.hadPendingSends && turn in PendingTurns(f) }

  predicate ClearsSequence(f: Frame, sequence: int) { Bounds(f) && f.throughSequence.value.value.Floor >= sequence }

  /** The clear concerns an audio frame with this sequence and turn. */
  predicate Concerns(f: Frame, sequence: int, turn: Turn) {
    ClearsSequence(f, sequence) || (turn != "" && ClearsTurn(f, turn))
  }

  /** The same, spelled out: the clear has a time, and it either reaches the sequence with a bound that is a safe
      integer, or names the turn among its pending sends, by itself if they are not listed. */
  predicate Cuts(f: Frame, sequence: int, turn: Turn) {
    && f.Cleared? && f.at.Finite? && f.at.value >= 0.0
    && (|| (&& f.throughSequence.Some? && f.throughSequence.value.Finite?
            && f.throughSequence.value.value.Floor as real == f.throughSequence.value.value
            && 0 <= f.throughSequence.value.value.Floor <= 9_007_199_254_740_991
            && sequence <= f.throughSequence.value.value.Floor)
        || (&& f.hadPendingSends && turn != ""
            && (turn in f.pendingSendTurnIds || (f.pendingSendTurnIds == [] && turn == f.turnId))))
  }

  lemma ConcernsIs(f: Frame, sequence: int, turn: Turn)
    ensures Concerns(f, sequence, turn) <==> Cuts(f, sequence, turn)
  {
  }

  function Least(a: Option<real>, b: Option<real>): Option<real> {
    if a.None? then b else if b.None? || a.value <= b.value then a else b
  }

  /** The naive minimum over all clears that concern the frame. */
  function EarliestClear(frames: seq<Frame>, sequence: int, turn: Turn): Option<real> {
    if frames == [] then None
    else
      Least(if Concerns(frames[0], sequence, turn) then Some(frames[0].at.value) else None,
            EarliestClear(frames[1..], sequence, turn))
  }

  /** It is a time of such a clear and none is earlier. */
  ghost predicate IsEarliestClear(frames: seq<Frame>, sequence: int, turn: Turn, r: Option<real>) {
    && (forall f :: f in frames && Concerns(f, sequence, turn) ==> r.Some? && r.value <= f.at.value)
    && (r.Some? ==> exists f :: f in frames && Concerns(f, sequence, turn) && f.at.value == r.value)
  }

  lemma {:induction false} EarliestClearIsEarliest(frames: seq<Frame>, sequence: int, turn: Turn)
    ensures IsEarliestClear(frames, sequence, turn, EarliestClear(frames, sequence, turn))
  {
    if frames != [] {
      EarliestClearIsEarliest(frames[1..], sequence, turn);
      assert frames == [frames[0]] + frames[1..];
      var rest := EarliestClear(frames[1..], sequence, turn);
      if rest.Some? {
        var f :| f in frames[1..] && Concerns(f, sequence, turn) && f.at.value == rest.value;
        assert f in frames;
      }
      assert frames[0] in frames;
    }
  }

  lemma EarliestIsUnique(frames: seq<Frame>, sequence: int, turn: Turn, r: Option<real>)
    requires IsEarliestClear(frames, sequence, turn, r)
    ensures r == EarliestClear(frames, sequence, turn)
  {
    EarliestClearIsEarliest(frames, sequence, turn);
  }

  // ----- The lookup -----

  datatype Cutoff = Cutoff(throughSequence: nat, timestampMs: real)

  function CutoffOf(f: Frame): Cutoff
    requires Bounds(f)
  {
    Cutoff(f.throughSequence.value.value.Floor, f.at.value)
  }

  /** The sorted cutoffs with the minimum from each index on, and the minimum per pending turn. */
  datatype Lookup = Lookup(cutoffs: seq<Cutoff>, earliestFrom: seq<real>, byTurn: map<Turn, real>)

  ghost predicate IsCutoffs(frames: seq<Frame>, cutoffs: seq<Cutoff>) {
    && (forall f :: f in frames && Bounds(f) ==> CutoffOf(f) in cutoffs)
    && (forall c :: c in cutoffs ==> exists f :: f in frames && Bounds(f) && CutoffOf(f) == c)
  }

  ghost predicate IsSorted(cutoffs: seq<Cutoff>) {
    forall i, j :: 0 <= i < j < |cutoffs| ==> cutoffs[i].throughSequence <= cutoffs[j].throughSequence
  }

  ghost predicate IsSuffixMinimum(cutoffs: seq<Cutoff>, earliest: seq<real>, from: nat) {
    && |earliest| == |cutoffs|
    && (forall i, j :: from <= i <= j < |cutoffs| ==> earliest[i] <= cutoffs[j].timestampMs)
    && (forall i :: from <= i < |cutoffs| ==> exists j :: i <= j < |cutoffs| && earliest[i] == cutoffs[j].timestampMs)
  }

  ghost predicate IsTurnMinimum(frames: seq<Frame>, byTurn: map<Turn, real>) {
    && (forall f, t :: f in frames && ClearsTurn(f, t) ==> t in byTurn && byTurn[t] <= f.at.value)
    && (forall t :: t in byTurn ==> exists f :: f in frames && ClearsTurn(f, t) && f.at.value == byTurn[t])
  }

  ghost predicate Serves(l: Lookup, frames: seq<Frame>) {
    && IsCutoffs(frames, l.cutoffs) && IsSorted(l.cutoffs)
    && IsSuffixMinimum(l.cutoffs, l.earliestFrom, 0) && IsTurnMinimum(frames, l.byTurn)
  }

  method CollectCutoffs(frames: seq<Frame>) returns (cutoffs: seq<Cutoff>)
    ensures IsCutoffs(frames, cutoffs) && IsSorted(cutoffs)
  {
    var collected: seq<Cutoff> := [];
    for i := 0 to |frames|
      invariant IsCutoffs(frames[..i], collected)
    {
      assert frames[..i + 1] == frames[..i] + [frames[i]];
      if Bounds(frames[i]) { collected := collected + [CutoffOf(frames[i])]; }
    }
    assert frames[..|frames|] == frames;
    var key := (c: Cutoff) => c.throughSequence;
    cutoffs := Sort(collected, key);
    SortSorts(collected, key);
  }

  method SuffixMinimum(cutoffs: seq<Cutoff>) returns (earliest: seq<real>)
    ensures IsSuffixMinimum(cutoffs, earliest, 0)
  {
    var minimum := new real[|cutoffs|];
    var index := |cutoffs|;
    while index > 0
      invariant 0 <= index <= |cutoffs|
      invariant IsSuffixMinimum(cutoffs, minimum[..], index)
    {
      index := index - 1;
      ghost var before := minimum[..];
      var own := cutoffs[index].timestampMs;
      minimum[index] := if index + 1 < |cutoffs| && minimum[index + 1] < own then minimum[index + 1] else own;
      assert forall i :: index < i < |cutoffs| ==> minimum[i] == before[i];
    }
    return minimum[..];
  }

  /** One pending turn of a clear. */
  function Lower(byTurn: map<Turn, real>, turn: Turn, ms: real): map<Turn, real> {
    byTurn[turn := if turn in byTurn && byTurn[turn] <= ms then byTurn[turn] else ms]
  }

  function LowerAll(byTurn: map<Turn, real>, turns: seq<Turn>, ms: real): map<Turn, real>
    decreases turns
  {
    if turns == [] then byTurn else LowerAll(Lower(byTurn, turns[0], ms), turns[1..], ms)
  }

  lemma {:induction false} LowerAllAt(byTurn: map<Turn, real>, turns: seq<Turn>, ms: real)
    ensures var m := LowerAll(byTurn, turns, ms);
      && (forall t :: t in m <==> t in byTurn || t in turns)
      && (forall t :: t in m ==> m[t] == if t in turns then Lower(byTurn, t, ms)[t] else byTurn[t])
    decreases turns
  {
    if turns != [] {
      LowerAllAt(Lower(byTurn, turns[0], ms), turns[1..], ms);
      assert turns == [turns[0]] + turns[1..];
    }
  }

  lemma TurnMinimumGrows(frames: seq<Frame>, f: Frame, byTurn: map<Turn, real>)
    requires IsTurnMinimum(frames, byTurn)
    ensures IsTurnMinimum(
      frames + [f],
      if Timed(f) && f.hadPendingSends then LowerAll(byTurn, PendingTurns(f), f.at.value) else byTurn)
  {
    if Timed(f) && f.hadPendingSends {
      ClearLowers(frames, f, byTurn);
    } else {
      forall t | t in byTurn ensures exists g :: g in frames + [f] && ClearsTurn(g, t) && g.at.value == byTurn[t] {
        StillAttained(frames, f, byTurn, t);
      }
    }
  }

  lemma StillAttained(frames: seq<Frame>, f: Frame, byTurn: map<Turn, real>, t: Turn)
    requires IsTurnMinimum(frames, byTurn) && t in byTurn
    ensures exists g :: g in frames + [f] && ClearsTurn(g, t) && g.at.value == byTurn[t]
  {
    var g :| g in frames && ClearsTurn(g, t) && g.at.value == byTurn[t];
    assert g in frames + [f];
  }

  lemma ClearLowers(frames: seq<Frame>, f: Frame, byTurn: map<Turn, real>)
    requires IsTurnMinimum(frames, byTurn) && Timed(f) && f.hadPendingSends
    ensures IsTurnMinimum(frames + [f], LowerAll(byTurn, PendingTurns(f), f.at.value))
  {
    var all, m := frames + [f], LowerAll(byTurn, PendingTurns(f), f.at.value);
    LowerAllAt(byTurn, PendingTurns(f), f.at.value);
    forall t | t in m ensures exists g :: g in all && ClearsTurn(g, t) && g.at.value == m[t] {
      if t in byTurn && m[t] == byTurn[t] {
        StillAttained(frames, f, byTurn, t);
      } else {
        assert f in all && ClearsTurn(f, t);
      }
    }
    forall g, t | g in all && ClearsTurn(g, t) ensures t in m && m[t] <= g.at.value {
      assert g in frames || g == f;
    }
  }

  method CollectPendingTurns(frames: seq<Frame>) returns (byTurn: map<Turn, real>)
    ensures IsTurnMinimum(frames, byTurn)
  {
    byTurn := map[];
    for i := 0 to |frames|
      invariant IsTurnMinimum(frames[..i], byTurn)
    {
      assert frames[..i + 1] == frames[..i] + [frames[i]];
      TurnMinimumGrows(frames[..i], frames[i], byTurn);
      if Timed(frames[i]) && frames[i].hadPendingSends {
        var turns, ms := PendingTurns(frames[i]), frames[i].at.value;
        ghost var whole := LowerAll(byTurn, turns, ms);
        assert turns[0..] == turns;
        for j := 0 to |turns|
          invariant whole == LowerAll(byTurn, turns[j..], ms)
        {
          assert turns[j..][0] == turns[j] && turns[j..][1..] == turns[j + 1..];
          byTurn := Lower(byTurn, turns[j], ms);
        }
      }
    }
    assert frames[..|frames|] == frames;
  }

  method CreateClearCutoffLookup(frames: seq<Frame>) returns (l: Lookup)
    ensures Serves(l, frames)
  {
    var cutoffs := CollectCutoffs(frames);
    var byTurn := CollectPendingTurns(frames);
    var earliest := SuffixMinimum(cutoffs);
    return Lookup(cutoffs, earliest, byTurn);
  }

  /** Below `low` everything ends before the sequence, from it on nothing does. */
  ghost predicate Splits(cutoffs: seq<Cutoff>, sequence: int, low: nat) {
    && low <= |cutoffs|
    && (forall i :: 0 <= i < low ==> cutoffs[i].throughSequence < sequence)
    && (forall i :: low <= i < |cutoffs| ==> cutoffs[i].throughSequence >= sequence)
  }

  method FindFirst(cutoffs: seq<Cutoff>, sequence: int) returns (low: nat)
    requires IsSorted(cutoffs)
    ensures Splits(cutoffs, sequence, low)
  {
    low := 0;
    var high := |cutoffs|;
    while low < high
      invariant 0 <= low <= high <= |cutoffs|
      invariant forall i :: 0 <= i < low ==> cutoffs[i].throughSequence < sequence
      invariant forall i :: high <= i < |cutoffs| ==> cutoffs[i].throughSequence >= sequence
    {
      var middle := low + (high - low) / 2;
      if cutoffs[middle].throughSequence < sequence { low := middle + 1; } else { high := middle; }
    }
  }

  /** What the two tables answer together. */
  function Answer(l: Lookup, low: nat, turn: Turn): Option<real>
    requires low <= |l.earliestFrom|
  {
    Least(if low < |l.earliestFrom| then Some(l.earliestFrom[low]) else None,
          if turn != "" && turn in l.byTurn then Some(l.byTurn[turn]) else None)
  }

  lemma AnswerIsALowerBound(l: Lookup, frames: seq<Frame>, sequence: int, turn: Turn, low: nat, f: Frame)
    requires Serves(l, frames) && Splits(l.cutoffs, sequence, low) && f in frames && Concerns(f, sequence, turn)
    ensures var r := Answer(l, low, turn); r.Some? && r.value <= f.at.value
  {
    if ClearsSequence(f, sequence) {
      var c := CutoffOf(f);
      var j :| 0 <= j < |l.cutoffs| && l.cutoffs[j] == c;
      assert low <= j && l.earliestFrom[low] <= l.cutoffs[j].timestampMs;
    }
  }

  lemma AnswerIsAttained(l: Lookup, frames: seq<Frame>, sequence: int, turn: Turn, low: nat)
    requires Serves(l, frames) && Splits(l.cutoffs, sequence, low) && Answer(l, low, turn).Some?
    ensures exists f :: f in frames && Concerns(f, sequence, turn) && f.at.value == Answer(l, low, turn).value
  {
    var r := Answer(l, low, turn).value;
    if low < |l.earliestFrom| && l.earliestFrom[low] == r {
      var j :| low <= j < |l.cutoffs| && l.earliestFrom[low] == l.cutoffs[j].timestampMs;
      assert l.cutoffs[j] in l.cutoffs;
      var f :| f in frames && Bounds(f) && CutoffOf(f) == l.cutoffs[j];
      assert Concerns(f, sequence, turn);
    } else {
      var f :| f in frames && ClearsTurn(f, turn) && f.at.value == l.byTurn[turn];
      assert Concerns(f, sequence, turn);
    }
  }

  /** The fast lookup is the naive minimum. */
  method ClearCutoffAt(l: Lookup, sequence: int, turn: Turn, ghost frames: seq<Frame>) returns (r: Option<real>)
    requires Serves(l, frames)
    ensures r == EarliestClear(frames, sequence, turn)
    ensures forall f :: f in frames && Cuts(f, sequence, turn) ==> r.Some? && r.value <= f.at.value
    ensures r.Some? ==> exists f :: f in frames && Cuts(f, sequence, turn) && f.at.value == r.value
  {
    forall f ensures Concerns(f, sequence, turn) <==> Cuts(f, sequence, turn) { ConcernsIs(f, sequence, turn); }
    var low := FindFirst(l.cutoffs, sequence);
    r := Answer(l, low, turn);
    forall f | f in frames && Concerns(f, sequence, turn) ensures r.Some? && r.value <= f.at.value {
      AnswerIsALowerBound(l, frames, sequence, turn, low, f);
    }
    if r.Some? { AnswerIsAttained(l, frames, sequence, turn, low); }
    EarliestIsUnique(frames, sequence, turn, r);
  }
}
