/** Blocks of one fixed length, as an audio worklet feeds them: exactly when the resampling depends on them. */
module ResamplerBlocks {
  import opened Resampler

  /** Output `k - 1` still has both its neighbours among the first `length` samples, and output `k` would lie a whole
      sample behind them: between the two the position leaves the block, and what it was is forgotten. */
  ghost predicate Overshoots(step: real, length: nat, k: nat) {
    k > 0 && (k - 1) as real * step + 1.0 < length as real && k as real * step >= (length + 1) as real
  }

  lemma ReachesIff(blend: Blend, s: seq<real>, step: real)
    requires step > 0.0
    ensures Reaches(blend, s, step) <==> forall k: nat :: !Overshoots(step, |s|, k)
  {
    var n := |Emit(blend, s, 0.0, step).samples|;
    OvershootIsTheEnd(blend, s, step, n);
    forall k: nat | Overshoots(step, |s|, k) ensures k == n {
      EmitsInterpolations(blend, s, 0.0, step, k - 1, (k - 1) as real * step);
      EmitsInterpolations(blend, s, 0.0, step, k, k as real * step);
    }
  }

  lemma OvershootIsTheEnd(blend: Blend, s: seq<real>, step: real, n: nat)
    requires step > 0.0 && n == |Emit(blend, s, 0.0, step).samples|
    ensures Emit(blend, s, 0.0, step).position == n as real * step
    ensures Reaches(blend, s, step) <==> !Overshoots(step, |s|, n)
  {
    EndsAt(blend, s, step, n, n as real * step);
    if n > 0 { LastHasANeighbour(blend, s, step, n, (n - 1) as real * step); }
  }

  lemma EndsAt(blend: Blend, s: seq<real>, step: real, n: nat, at: real)
    requires step > 0.0 && n == |Emit(blend, s, 0.0, step).samples| && at == n as real * step
    ensures Emit(blend, s, 0.0, step).position == at && (n == 0 ==> at == 0.0)
    ensures Reaches(blend, s, step) <==> at < (|s| + 1) as real
  {
    EmitCounts(blend, s, 0.0, step, n, at);
    EmitGrows(blend, s, 0.0, step);
  }

  lemma LastHasANeighbour(blend: Blend, s: seq<real>, step: real, n: nat, last: real)
    requires step > 0.0 && n == |Emit(blend, s, 0.0, step).samples| && 0 < n && last == (n - 1) as real * step
    ensures last + 1.0 < |s| as real
  {
    EmitsInterpolations(blend, s, 0.0, step, n - 1, last);
  }

  // ----- Blocks of one length -----

  function Times(m: nat, n: nat): nat { m * n }

  lemma OneMore(m: nat, n: nat)
    requires m > 0
    ensures Times(m, n) == Times(m - 1, n) + n && Times(0, n) == 0
  {
  }

  ghost predicate EqualBlocks(blocks: seq<seq<real>>, n: nat) {
    forall i :: 0 <= i < |blocks| ==> |blocks[i]| == n
  }

  lemma {:induction false} ConcatLength(blocks: seq<seq<real>>, n: nat)
    requires EqualBlocks(blocks, n)
    ensures |Concat(blocks)| == Times(|blocks|, n)
  {
    if blocks != [] {
      ConcatLength(blocks[..|blocks| - 1], n);
      OneMore(|blocks|, n);
    }
  }

  /** Whatever the samples, blocks of this length give what one block with all of them gives. */
  ghost predicate Harmless(n: nat, step: real)
    requires step > 0.0
  {
    forall blocks: seq<seq<real>> :: EqualBlocks(blocks, n) ==>
      Run(Interpolate, blocks, step).1 == Emit(Interpolate, Concat(blocks), 0.0, step).samples
  }

  lemma NoOvershootIsHarmless(blocks: seq<seq<real>>, n: nat, step: real)
    requires step > 0.0 && EqualBlocks(blocks, n)
    requires forall m: nat, k: nat :: 0 < m < |blocks| ==> !Overshoots(step, Times(m, n), k)
    ensures Run(Interpolate, blocks, step).1 == Emit(Interpolate, Concat(blocks), 0.0, step).samples
    ensures Emit(Interpolate, Concat(blocks), 0.0, step).position >= 0.0
    ensures Run(Interpolate, blocks, step).0 ==
      Rest(Concat(blocks), Emit(Interpolate, Concat(blocks), 0.0, step).position)
  {
    forall i | 0 <= i < |blocks| ensures Reaches(Interpolate, Concat(blocks[..i]), step) {
      var s := Concat(blocks[..i]);
      ConcatLength(blocks[..i], n);
      if i == 0 {
        forall k: nat ensures !Overshoots(step, 0, k) { if k > 0 { NthStep(k - 1, step); } }
      }
      ReachesIff(Interpolate, s, step);
    }
    BlocksInReach(Interpolate, blocks, step);
  }

  // ----- A signal that shows a forgotten position -----

  /** Around sample `l`: the samples there and behind differ, in favour of the heavier neighbour. */
  function Signal(l: nat, late: bool, i: int): real {
    if late then (if i == l || i == l + 1 then 0.0 else 1.0) else if i == l then 1.0 else 0.0
  }

  lemma SignalShows(l: nat, fraction: real, j: int)
    requires 0.0 <= fraction < 1.0 && l < j
    ensures var late := fraction >= 0.5;
      Interpolate(Signal(l, late, l), Signal(l, late, l + 1), fraction) !=
      Interpolate(Signal(l, late, j), Signal(l, late, j + 1), fraction)
  {
    var late := fraction >= 0.5;
    assert Quantize(0.0) == 0;
    if late {
      assert Signal(l, late, j) * (1.0 - fraction) >= 0.0;
      Loud(Signal(l, late, j) * (1.0 - fraction) + 1.0 * fraction);
    } else {
      Loud(1.0 * (1.0 - fraction) + 0.0 * fraction);
    }
  }

  lemma Loud(x: real)
    requires x >= 0.5
    ensures Quantize(x) > 0
  {
  }

  /** The signal in blocks. */
  function Cut(l: nat, late: bool, n: nat, m: nat): seq<seq<real>> {
    if m == 0 then [] else Cut(l, late, n, m - 1) + [CutOne(l, late, n, m - 1)]
  }

  function CutOne(l: nat, late: bool, n: nat, m: nat): seq<real> {
    seq(n, i requires 0 <= i < n => Signal(l, late, Times(m, n) + i))
  }

  lemma {:induction false} CutIs(l: nat, late: bool, n: nat, m: nat)
    ensures var blocks := Cut(l, late, n, m);
      && |blocks| == m && EqualBlocks(blocks, n) && |Concat(blocks)| == Times(m, n)
      && forall i :: 0 <= i < Times(m, n) ==> Concat(blocks)[i] == Signal(l, late, i)
  {
    if m > 0 {
      CutIs(l, late, n, m - 1);
      OneMore(m, n);
      var before := Cut(l, late, n, m - 1);
      assert (before + [CutOne(l, late, n, m - 1)])[..m - 1] == before;
    }
  }

  // ----- After an overshoot -----

  lemma RunOneMore(blend: Blend, blocks: seq<seq<real>>, block: seq<real>, step: real)
    requires step > 0.0
    ensures Run(blend, blocks + [block], step) ==
      (ProcessBlock(blend, Run(blend, blocks, step).0, block, step).0,
       Run(blend, blocks, step).1 + ProcessBlock(blend, Run(blend, blocks, step).0, block, step).1)
  {
    assert (blocks + [block])[..|blocks|] == blocks;
  }

  /** A block that brings a second sample gives an output at the position that was kept. */
  lemma FrontOutput(blend: Blend, c: Capture, block: seq<real>, step: real)
    requires step > 0.0 && 0.0 <= c.position < 1.0 && block != [] && |c.pending + block| >= 2
    ensures var s, out := c.pending + block, ProcessBlock(blend, c, block, step).1;
      |out| > 0 && out[0] == blend(s[0], s[1], c.position)
  {
    assert c.position.Floor == 0;
  }

  lemma NothingFromOne(blend: Blend, fraction: real, one: seq<real>, step: real)
    requires step > 0.0 && 0.0 <= fraction < 1.0 && |one| == 1
    ensures ProcessBlock(blend, Capture([], fraction), one, step) == (Capture(one, fraction), [])
  {
    assert [] + one == one && fraction.Floor == 0;
  }

  /** Two blocks after the position was forgotten: the next output is taken from the front of the first one. */
  lemma NextOutput(
    blend: Blend, blocks: seq<seq<real>>, one: seq<real>, two: seq<real>, step: real, fraction: real, k: nat)
    requires step > 0.0 && 0.0 <= fraction < 1.0 && |one| == |two| > 0
    requires Run(blend, blocks, step).0 == Capture([], fraction) && |Run(blend, blocks, step).1| == k
    ensures var out := Run(blend, blocks + [one] + [two], step).1;
      k < |out| && out[k] == blend((one + two)[0], (one + two)[1], fraction)
  {
    RunOneMore(blend, blocks, one, step);
    RunOneMore(blend, blocks + [one], two, step);
    if |one| == 1 {
      NothingFromOne(blend, fraction, one, step);
      FrontOutput(blend, Capture(one, fraction), two, step);
    } else {
      assert [] + one == one;
      FrontOutput(blend, Capture([], fraction), one, step);
    }
  }

  /** The first overshoot makes itself heard. */
  lemma FirstOvershootShows(n: nat, step: real, m: nat, k: nat)
    requires step > 0.0 && n > 0 && m > 0 && Overshoots(step, Times(m, n), k)
    requires forall j: nat, i: nat :: 0 < j < m ==> !Overshoots(step, Times(j, n), i)
    ensures !Harmless(n, step)
  {
    var l, at := Times(m, n), k as real * step;
    var fraction := at - at.Floor as real;
    var late := fraction >= 0.5;
    var blocks, all := Cut(l, late, n, m), Cut(l, late, n, m + 2);
    CutIs(l, late, n, m);
    CutIs(l, late, n, m + 2);
    OneMore(m + 1, n);
    OneMore(m + 2, n);
    assert all == blocks + [CutOne(l, late, n, m)] + [CutOne(l, late, n, m + 1)];
    NoOvershootIsHarmless(blocks, n, step);
    Forgotten(Interpolate, Concat(blocks), step, k, at);
    NextOutput(Interpolate, blocks, CutOne(l, late, n, m), CutOne(l, late, n, m + 1), step, fraction, k);
    FrontOfTwo(l, late, n, m);
    EmitsInterpolations(Interpolate, Concat(all), 0.0, step, k, at);
    SignalShows(l, fraction, at.Floor);
    assert Run(Interpolate, all, step).1 != Emit(Interpolate, Concat(all), 0.0, step).samples;
  }

  lemma FrontOfTwo(l: nat, late: bool, n: nat, m: nat)
    requires n > 0 && l == Times(m, n)
    ensures var u := CutOne(l, late, n, m) + CutOne(l, late, n, m + 1);
      u[0] == Signal(l, late, l) && u[1] == Signal(l, late, l + 1)
  {
    OneMore(m + 1, n);
  }

  lemma Forgotten(blend: Blend, s: seq<real>, step: real, k: nat, at: real)
    requires step > 0.0 && at == k as real * step && Overshoots(step, |s|, k)
    ensures |Emit(blend, s, 0.0, step).samples| == k && Emit(blend, s, 0.0, step).position == at
    ensures 0.0 <= at && at.Floor > |s| && Rest(s, at) == Capture([], at - at.Floor as real)
  {
    EmitsInterpolations(blend, s, 0.0, step, k - 1, (k - 1) as real * step);
    EmitsInterpolations(blend, s, 0.0, step, k, at);
    EmitCounts(blend, s, 0.0, step, k, at);
  }

  lemma {:induction false} OvershootShows(n: nat, step: real, m: nat, k: nat)
    requires step > 0.0 && n > 0 && m > 0 && Overshoots(step, Times(m, n), k)
    ensures !Harmless(n, step)
    decreases m
  {
    if j: nat, i: nat :| 0 < j < m && Overshoots(step, Times(j, n), i) {
      OvershootShows(n, step, j, i);
    } else {
      FirstOvershootShows(n, step, m, k);
    }
  }

  /** Blocks of a fixed length are harmless if and only if no two neighbouring outputs jump over the end of a block
      from before its last sample to behind the next one. */
  lemma EqualBlocksIff(n: nat, step: real)
    requires step > 0.0 && n > 0
    ensures Harmless(n, step) <==> forall m: nat, k: nat :: 0 < m ==> !Overshoots(step, Times(m, n), k)
  {
    if m: nat, k: nat :| 0 < m && Overshoots(step, Times(m, n), k) {
      OvershootShows(n, step, m, k);
    } else {
      forall blocks: seq<seq<real>> | EqualBlocks(blocks, n)
        ensures Run(Interpolate, blocks, step).1 == Emit(Interpolate, Concat(blocks), 0.0, step).samples
      {
        NoOvershootIsHarmless(blocks, n, step);
      }
    }
  }

  /** The 128-sample blocks of a browser's worklet are not harmless at 44.1 kHz, nor at 48 kHz. */
  lemma CommonRatesLosePhase()
    ensures !Harmless(128, 44100.0 / 16000.0) && !Harmless(128, 48000.0 / 16000.0)
  {
    assert Overshoots(44100.0 / 16000.0, Times(1, 128), 47);
    OvershootShows(128, 44100.0 / 16000.0, 1, 47);
    assert Overshoots(48000.0 / 16000.0, Times(1, 128), 43);
    OvershootShows(128, 48000.0 / 16000.0, 1, 43);
  }

  /** At 48 kHz two of these blocks give 86 samples where one block of both gives 85, whatever the samples. */
  lemma OneSampleTooMany(blend: Blend, first: seq<real>, second: seq<real>)
    requires |first| == |second| == 128
    ensures |Run(blend, [first, second], 3.0).1| == 86 && |Emit(blend, first + second, 0.0, 3.0).samples| == 85
  {
    Counted(blend, first, 43);
    Counted(blend, second, 43);
    Counted(blend, first + second, 85);
    EmitCounts(blend, first, 0.0, 3.0, 43, 129.0);
    TwoBlocks(blend, first, second, 3.0);
    assert Rest(first, 129.0) == START && START.pending + second == second;
  }

  lemma Counted(blend: Blend, s: seq<real>, n: nat)
    requires n > 0 && 3 * n - 2 < |s| <= 3 * n + 1
    ensures |Emit(blend, s, 0.0, 3.0).samples| == n
  {
    EmitsInterpolations(blend, s, 0.0, 3.0, n - 1, (n - 1) as real * 3.0);
    EmitsInterpolations(blend, s, 0.0, 3.0, n, n as real * 3.0);
  }
}
