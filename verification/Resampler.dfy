/** The capture worklet: linear interpolation from the device rate to 16 kHz, block by block, over real arithmetic. */
module Resampler {

  const CHUNK := 320

  /** A sample as a 16-bit integer; `Math.round` is the floor of half more. */
  function Quantize(x: real): int {
    var rounded := (x * 32767.0 + 0.5).Floor;
    if rounded > 32767 then 32767 else if rounded < -32768 then -32768 else rounded
  }

  /** Linear interpolation between two neighbours. */
  function Interpolate(left: real, right: real, fraction: real): int {
    Quantize(left * (1.0 - fraction) + right * fraction)
  }

  /** A sample between two neighbours is the integer nearest to their weighted mean on the scale of 32767, and for
      samples from -1 to 1 no clipping is needed. */
  lemma InterpolatedIsNear(left: real, right: real, fraction: real)
    requires 0.0 <= fraction < 1.0 && -1.0 <= left <= 1.0 && -1.0 <= right <= 1.0
    ensures -0.5 < Interpolate(left, right, fraction) as real - 32767.0 * (left + (right - left) * fraction) <= 0.5
    ensures -32767 <= Interpolate(left, right, fraction) <= 32767
  {
    var mean := left + (right - left) * fraction;
    MeanIsBetween(left, right, fraction, mean);
    assert left * (1.0 - fraction) + right * fraction == mean;
    QuantizedIsNear(mean);
  }

  lemma NotNegative(a: real, b: real, p: real)
    requires 0.0 <= a && 0.0 <= b && p == a * b
    ensures 0.0 <= p
  {
  }

  lemma Part(d: real, fraction: real, part: real)
    requires 0.0 <= d && 0.0 <= fraction < 1.0 && part == fraction * d
    ensures 0.0 <= part <= d
  {
    NotNegative(fraction, d, part);
    if 0.0 < d { Larger(fraction, 1.0, d, part, d); }
  }

  lemma MeanIsBetween(left: real, right: real, fraction: real, mean: real)
    requires 0.0 <= fraction < 1.0 && mean == left + (right - left) * fraction
    ensures left <= right ==> left <= mean <= right
    ensures right <= left ==> right <= mean <= left
  {
    if left <= right {
      Part(right - left, fraction, mean - left);
    } else {
      assert (left - right) * fraction == left - mean;
      Part(left - right, fraction, left - mean);
    }
  }

  lemma QuantizedIsNear(x: real)
    ensures -1.0 <= x <= 1.0 ==> -0.5 < Quantize(x) as real - 32767.0 * x <= 0.5 && -32767 <= Quantize(x) <= 32767
    ensures x > 1.0 ==> Quantize(x) == 32767
    ensures x < -32769.0 / 32767.0 ==> Quantize(x) == -32768
  {
  }

  /** What is made of a pair of neighbours; the processor interpolates. */
  type Blend = (real, real, real) -> int

  function SampleAt(blend: Blend, s: seq<real>, position: real): int
    requires 0.0 <= position && position + 1.0 < |s| as real
  {
    blend(s[position.Floor], s[position.Floor + 1], position - position.Floor as real)
  }

  /** Samples and the position after them. */
  datatype Emission = Emission(samples: seq<int>, position: real)

  /** A bound on how many samples are still to come. */
  function Ahead(length: nat, position: real, step: real): nat
    requires step > 0.0
  {
    if position + 1.0 < length as real then ((length as real - position) / step).Floor + 1 else 0
  }

  lemma Quotient(a: real, b: real, q: real)
    requires b > 0.0 && q * b == a
    ensures a / b == q
  {
    var r := a / b;
    assert r * b == a;
    assert (r - q) * b == 0.0;
  }

  lemma PositiveQuotient(x: real, step: real)
    requires step > 0.0 && x * step > 0.0
    ensures x > 0.0
  {
  }

  lemma StepTakesOne(length: nat, position: real, step: real)
    requires step > 0.0 && position + 1.0 < length as real
    ensures Ahead(length, position + step, step) < Ahead(length, position, step)
  {
    var a := length as real - position;
    var x := a / step;
    assert x * step == a;
    assert (x - 1.0) * step == a - step;
    Quotient(a - step, step, x - 1.0);
    assert length as real - (position + step) == a - step;
    assert x > 0.0 by { PositiveQuotient(x, step); }
  }

  /** Everything that can be interpolated from `position` on. */
  function Emit(blend: Blend, s: seq<real>, position: real, step: real): Emission
    requires 0.0 <= position && step > 0.0
    decreases Ahead(|s|, position, step)
  {
    if position + 1.0 < |s| as real then
      StepTakesOne(|s|, position, step);
      var rest := Emit(blend, s, position + step, step);
      Emission([SampleAt(blend, s, position)] + rest.samples, rest.position)
    else Emission([], position)
  }

  function Behind(done: seq<int>, e: Emission): Emission { Emission(done + e.samples, e.position) }

  /** One turn of the loop. */
  lemma BehindOne(done: seq<int>, blend: Blend, s: seq<real>, position: real, step: real)
    requires 0.0 <= position && step > 0.0 && position + 1.0 < |s| as real
    ensures Behind(done, Emit(blend, s, position, step)) ==
      Behind(done + [SampleAt(blend, s, position)], Emit(blend, s, position + step, step))
    ensures |Emit(blend, s, position, step).samples| > 0
  {
    var rest := Emit(blend, s, position + step, step).samples;
    assert done + ([SampleAt(blend, s, position)] + rest) == done + [SampleAt(blend, s, position)] + rest;
  }

  // ----- One block, many blocks -----

  datatype Capture = Capture(pending: seq<real>, position: real)

  const START := Capture([], 0.0)

  /** `slice` beyond the end gives nothing. */
  function Slice(s: seq<real>, from: nat): seq<real> { if from <= |s| then s[from..] else [] }

  function Rest(s: seq<real>, position: real): Capture
    requires 0.0 <= position
  {
    Capture(Slice(s, position.Floor), position - position.Floor as real)
  }

  function ProcessBlock(blend: Blend, c: Capture, block: seq<real>, step: real): (r: (Capture, seq<int>))
    requires 0.0 <= c.position && step > 0.0
    ensures 0.0 <= r.0.position
  {
    if block == [] then (c, [])
    else
      var e := Emit(blend, c.pending + block, c.position, step);
      EmitGrows(blend, c.pending + block, c.position, step);
      (Rest(c.pending + block, e.position), e.samples)
  }

  function Run(blend: Blend, blocks: seq<seq<real>>, step: real): (r: (Capture, seq<int>))
    requires step > 0.0
    ensures 0.0 <= r.0.position
  {
    if blocks == [] then (START, [])
    else
      var before := Run(blend, blocks[..|blocks| - 1], step);
      var last := ProcessBlock(blend, before.0, blocks[|blocks| - 1], step);
      (last.0, before.1 + last.1)
  }

  function Concat(blocks: seq<seq<real>>): seq<real> {
    if blocks == [] then [] else Concat(blocks[..|blocks| - 1]) + blocks[|blocks| - 1]
  }

  // ----- What is emitted -----

  lemma {:induction false} EmitGrows(blend: Blend, s: seq<real>, position: real, step: real)
    requires 0.0 <= position && step > 0.0
    ensures position <= Emit(blend, s, position, step).position
    decreases |Emit(blend, s, position, step).samples|
  {
    if position + 1.0 < |s| as real {
      EmitGrows(blend, s, position + step, step);
    }
  }

  /** Exactly the interpolations at `position + k * step` that have a right neighbour. */
  lemma {:induction false} EmitsInterpolations(blend: Blend, s: seq<real>, position: real, step: real, k: nat, at: real)
    requires 0.0 <= position && step > 0.0 && at == position + k as real * step
    ensures 0.0 <= at
    ensures k < |Emit(blend, s, position, step).samples| <==> at + 1.0 < |s| as real
    ensures k < |Emit(blend, s, position, step).samples| ==>
      Emit(blend, s, position, step).samples[k] == blend(s[at.Floor], s[at.Floor + 1], at - at.Floor as real)
    decreases k
  {
    NthStep(k, step);
    if k > 0 {
      EmitsInterpolations(blend, s, position + step, step, k - 1, at);
    }
  }

  lemma NthStep(k: nat, step: real)
    requires step > 0.0
    ensures k as real * step >= 0.0 && (k > 0 ==> k as real * step == step + (k - 1) as real * step)
  {
  }

  /** Emission stops at the first position without a right neighbour. */
  lemma {:induction false} EmitStops(blend: Blend, s: seq<real>, position: real, step: real)
    requires 0.0 <= position && step > 0.0
    ensures var end := Emit(blend, s, position, step).position;
      && end + 1.0 >= |s| as real
      && (end == position || end + 1.0 < |s| as real + step)
    decreases |Emit(blend, s, position, step).samples|
  {
    if position + 1.0 < |s| as real { EmitStops(blend, s, position + step, step); }
  }

  /** The position moves by one step per sample. */
  /** At 16 000 samples a second: a block gives the least number of samples that reaches its last sample. */
  lemma SixteenThousandASecond(blend: Blend, s: seq<real>, rate: nat, step: real, n: nat)
    requires 0 < rate && step == rate as real / 16_000.0 && n == |Emit(blend, s, 0.0, step).samples|
    ensures 16_000 * (|s| - 1) <= n * rate && (0 < n ==> (n - 1) * rate < 16_000 * (|s| - 1))
  {
    EmitsInterpolations(blend, s, 0.0, step, n, n as real * step);
    Scaled(n, rate, step);
    if 0 < n {
      EmitsInterpolations(blend, s, 0.0, step, n - 1, (n - 1) as real * step);
      Scaled(n - 1, rate, step);
    }
  }

  lemma Scaled(k: nat, rate: nat, step: real)
    requires step == rate as real / 16_000.0
    ensures k as real * step * 16_000.0 == (k * rate) as real
  {
    assert step * 16_000.0 == rate as real;
    assert k as real * (step * 16_000.0) == k as real * rate as real;
  }

  lemma {:induction false} EmitCounts(blend: Blend, s: seq<real>, position: real, step: real, k: nat, at: real)
    requires 0.0 <= position && step > 0.0 && k == |Emit(blend, s, position, step).samples|
    requires at == position + k as real * step
    ensures Emit(blend, s, position, step).position == at
    decreases k
  {
    NthStep(k, step);
    if k > 0 { EmitCounts(blend, s, position + step, step, k - 1, at); }
  }

  /** More input continues where less input stopped. */
  lemma {:induction false} EmitContinues(blend: Blend, s: seq<real>, more: seq<real>, position: real, step: real)
    requires 0.0 <= position && step > 0.0
    ensures var first := Emit(blend, s, position, step);
      && position <= first.position
      && var second := Emit(blend, s + more, first.position, step);
         Emit(blend, s + more, position, step) == Emission(first.samples + second.samples, second.position)
    decreases |Emit(blend, s, position, step).samples|
  {
    if position + 1.0 < |s| as real {
      EmitContinues(blend, s, more, position + step, step);
      assert (s + more)[position.Floor] == s[position.Floor] && (s + more)[position.Floor + 1] == s[position.Floor + 1];
      var first := Emit(blend, s, position, step);
      var second := Emit(blend, s + more, first.position, step);
      var inner := Emit(blend, s, position + step, step);
      assert [SampleAt(blend, s, position)] + (inner.samples + second.samples) == first.samples + second.samples;
    } else {
      assert [] + Emit(blend, s + more, position, step).samples == Emit(blend, s + more, position, step).samples;
    }
  }

  /** Dropping whole samples from the front and from the position changes nothing else. */
  lemma {:induction false} EmitShifts(blend: Blend, s: seq<real>, n: nat, position: real, step: real)
    requires 0.0 <= position && step > 0.0 && n <= |s|
    ensures var e := Emit(blend, s[n..], position, step);
      Emit(blend, s, position + n as real, step) == Emission(e.samples, e.position + n as real)
    decreases |Emit(blend, s[n..], position, step).samples|
  {
    if position + 1.0 < (|s| - n) as real {
      EmitShifts(blend, s, n, position + step, step);
      var at := position + n as real;
      assert at.Floor == position.Floor + n;
      assert s[n..][position.Floor] == s[at.Floor] && s[n..][position.Floor + 1] == s[at.Floor + 1];
      assert at + step == position + step + n as real;
    }
  }

  // ----- Blocks do not matter while every block's emission ends within reach -----

  /** The position that the next block continues from is a sample of this input, or the next one. */
  ghost predicate Reaches(blend: Blend, s: seq<real>, step: real)
    requires step > 0.0
  {
    0 <= Emit(blend, s, 0.0, step).position.Floor <= |s|
  }

  lemma SmallStepsReach(blend: Blend, s: seq<real>, step: real)
    requires 0.0 < step <= 2.0
    ensures Reaches(blend, s, step)
  {
    EmitStops(blend, s, 0.0, step);
    EmitGrows(blend, s, 0.0, step);
  }

  lemma OneMoreBlock(blend: Blend, s: seq<real>, block: seq<real>, step: real)
    requires step > 0.0 && Reaches(blend, s, step)
    ensures Emit(blend, s, 0.0, step).position >= 0.0 && Emit(blend, s + block, 0.0, step).position >= 0.0
    ensures ProcessBlock(blend, Rest(s, Emit(blend, s, 0.0, step).position), block, step).0 ==
      Rest(s + block, Emit(blend, s + block, 0.0, step).position)
    ensures Emit(blend, s, 0.0, step).samples +
            ProcessBlock(blend, Rest(s, Emit(blend, s, 0.0, step).position), block, step).1
      == Emit(blend, s + block, 0.0, step).samples
  {
    EmitGrows(blend, s, 0.0, step);
    EmitGrows(blend, s + block, 0.0, step);
    if block == [] {
      assert s + block == s;
    } else {
      NextBlock(blend, s, block, step, Emit(blend, s, 0.0, step).position);
    }
  }

  /** A block that is not empty continues at the position of the whole input, moved by whole samples. */
  lemma NextBlock(blend: Blend, s: seq<real>, block: seq<real>, step: real, q: real)
    requires step > 0.0 && block != [] && q == Emit(blend, s, 0.0, step).position && 0.0 <= q && q.Floor <= |s|
    requires 0.0 <= Emit(blend, s + block, 0.0, step).position
    ensures ProcessBlock(blend, Rest(s, q), block, step) ==
      (Rest(s + block, Emit(blend, s + block, 0.0, step).position), Emit(blend, s + block, q, step).samples)
    ensures Emit(blend, s, 0.0, step).samples + Emit(blend, s + block, q, step).samples ==
      Emit(blend, s + block, 0.0, step).samples
  {
    EmitContinues(blend, s, block, 0.0, step);
    assert s[q.Floor..] + block == (s + block)[q.Floor..];
    FromTheRest(blend, s + block, q.Floor, q - q.Floor as real, q, step);
  }

  /** Emitting from a suffix, and what remains of it. */
  lemma FromTheRest(blend: Blend, t: seq<real>, n: nat, position: real, q: real, step: real)
    requires step > 0.0 && n <= |t| && 0.0 <= position && q == position + n as real
    ensures var e := Emit(blend, t[n..], position, step);
      && e.samples == Emit(blend, t, q, step).samples && 0.0 <= e.position && 0.0 <= Emit(blend, t, q, step).position
      && Rest(t[n..], e.position) == Rest(t, Emit(blend, t, q, step).position)
  {
    EmitShifts(blend, t, n, position, step);
    EmitGrows(blend, t[n..], position, step);
    RestShifts(t, n, Emit(blend, t[n..], position, step).position);
  }

  lemma RestShifts(s: seq<real>, n: nat, position: real)
    requires 0.0 <= position && n <= |s|
    ensures Rest(s[n..], position) == Rest(s, position + n as real)
  {
    assert (position + n as real).Floor == position.Floor + n;
    if position.Floor + n <= |s| { assert s[n..][position.Floor..] == s[position.Floor + n..]; }
  }

  /** The whole run equals one block holding everything, if what came before each block ended within reach. */
  lemma {:induction false} BlocksInReach(blend: Blend, blocks: seq<seq<real>>, step: real)
    requires step > 0.0 && forall i :: 0 <= i < |blocks| ==> Reaches(blend, Concat(blocks[..i]), step)
    ensures Emit(blend, Concat(blocks), 0.0, step).position >= 0.0
    ensures Run(blend, blocks, step).1 == Emit(blend, Concat(blocks), 0.0, step).samples
    ensures Run(blend, blocks, step).0 == Rest(Concat(blocks), Emit(blend, Concat(blocks), 0.0, step).position)
  {
    if blocks != [] {
      var before := blocks[..|blocks| - 1];
      assert forall i :: 0 <= i < |before| ==> before[..i] == blocks[..i];
      BlocksInReach(blend, before, step);
      OneMoreBlock(blend, Concat(before), blocks[|blocks| - 1], step);
    }
  }

  /** While the step is at most 2, the blocks do not matter. */
  lemma SplitsDoNotMatter(blend: Blend, blocks: seq<seq<real>>, step: real)
    requires 0.0 < step <= 2.0
    ensures Emit(blend, Concat(blocks), 0.0, step).position >= 0.0
    ensures Run(blend, blocks, step).1 == Emit(blend, Concat(blocks), 0.0, step).samples
    ensures Run(blend, blocks, step).0 == Rest(Concat(blocks), Emit(blend, Concat(blocks), 0.0, step).position)
  {
    forall i | 0 <= i < |blocks| ensures Reaches(blend, Concat(blocks[..i]), step) {
      SmallStepsReach(blend, Concat(blocks[..i]), step);
    }
    BlocksInReach(blend, blocks, step);
  }

  // ----- And they do matter above 2 -----

  function Silence(n: nat): seq<real> { seq(n, _ => 0.0) }

  lemma Larger(a: real, b: real, e: real, p: real, q: real)
    requires e > 0.0 && a < b && p == a * e && q == b * e
    ensures p < q
  {
  }

  lemma Around(x: real, e: real, a: real, b: real)
    requires e > 0.0 && x * e == 1.0 && b < x <= a
    ensures b * e < 1.0 <= a * e
  {
    Larger(b, x, e, b * e, 1.0);
    if x < a { Larger(x, a, e, 1.0, a * e); }
  }

  lemma AroundCount(x: real, e: real, k: nat)
    requires e > 0.0 && x * e == 1.0 && k > 0 && (k - 1) as real < x <= k as real
    ensures (k - 1) as real * e < 1.0 <= k as real * e
  {
    Around(x, e, k as real, (k - 1) as real);
  }

  lemma Ceiling(x: real) returns (k: nat)
    requires x > 0.0
    ensures k > 0 && (k - 1) as real < x <= k as real
  {
    k := x.Floor;
    if k as real < x { k := k + 1; }
  }

  lemma Reciprocal(e: real) returns (x: real)
    requires e > 0.0
    ensures x > 0.0 && x * e == 1.0
  {
    x := 1.0 / e;
    assert x * e == 1.0;
    PositiveQuotient(x, e);
  }

  /** A number of steps after which `e` more per step make a whole sample. */
  lemma Overtakes(e: real) returns (k: nat)
    requires e > 0.0
    ensures k > 0 && (k - 1) as real * e < 1.0 <= k as real * e
  {
    var x := Reciprocal(e);
    k := Ceiling(x);
    AroundCount(x, e, k);
  }

  lemma Distributes(a: real, step: real, e: real, p: real, q: real)
    requires step == e + 2.0 && p == a * step && q == a * e
    ensures p == q + 2.0 * a
  {
  }

  lemma Overtaken(step: real, e: real, k: nat)
    requires k > 0 && step == e + 2.0 && (k - 1) as real * e < 1.0 <= k as real * e
    ensures k as real * step >= (2 * k + 1) as real && (k - 1) as real * step + 1.0 < (2 * k) as real
  {
    Distributes(k as real, step, e, k as real * step, k as real * e);
    Distributes((k - 1) as real, step, e, (k - 1) as real * step, (k - 1) as real * e);
  }

  /** After the first block of this length the position lies a whole sample behind its end, and is forgotten. */
  lemma FirstBlockOvershoots(blend: Blend, step: real, k: nat, s: seq<real>, at: real, before: real)
    requires step > 2.0 && k > 0 && at == k as real * step && before == (k - 1) as real * step
    requires at >= (2 * k + 1) as real && before + 1.0 < (2 * k) as real && |s| == 2 * k
    ensures |Emit(blend, s, 0.0, step).samples| == k && Emit(blend, s, 0.0, step).position == at
    ensures Rest(s, at).pending == [] && 0.0 <= Rest(s, at).position < 1.0
  {
    EmitsInterpolations(blend, s, 0.0, step, k, at);
    EmitsInterpolations(blend, s, 0.0, step, k - 1, before);
    EmitCounts(blend, s, 0.0, step, k, at);
  }

  /** The two blocks give one sample too many. */
  lemma SecondBlockRepeats(
    blend: Blend, step: real, k: nat, first: seq<real>, second: seq<real>, at: real, before: real)
    requires step > 2.0 && k > 0 && at == k as real * step && before == (k - 1) as real * step
    requires at >= (2 * k + 1) as real && before + 1.0 < (2 * k) as real && |first| == 2 * k && |second| == 2
    ensures |Run(blend, [first, second], step).1| > |Emit(blend, first + second, 0.0, step).samples|
  {
    FirstBlockOvershoots(blend, step, k, first, at, before);
    EmitsInterpolations(blend, first + second, 0.0, step, k, at);
    TwoBlocks(blend, first, second, step);
    var c := Rest(first, at);
    assert c.pending + second == second;
    EmitsInterpolations(blend, second, c.position, step, 0, c.position);
  }

  /** For every larger step there are lengths of two blocks that give one sample too many, whatever the samples. */
  lemma LargeStepsLosePhase(blend: Blend, step: real) returns (k: nat)
    requires step > 2.0
    ensures forall first: seq<real>, second: seq<real> :: |first| == 2 * k && |second| == 2 ==>
      |Run(blend, [first, second], step).1| > |Emit(blend, first + second, 0.0, step).samples|
  {
    var e := step - 2.0;
    k := Overtakes(e);
    Overtaken(step, e, k);
    var at, before := k as real * step, (k - 1) as real * step;
    forall first: seq<real>, second: seq<real> | |first| == 2 * k && |second| == 2
      ensures |Run(blend, [first, second], step).1| > |Emit(blend, first + second, 0.0, step).samples|
    {
      SecondBlockRepeats(blend, step, k, first, second, at, before);
    }
  }

  lemma TwoBlocks(blend: Blend, first: seq<real>, second: seq<real>, step: real)
    requires step > 0.0 && first != [] && second != []
    ensures Emit(blend, first, 0.0, step).position >= 0.0
    ensures Run(blend, [first, second], step).1 ==
      Emit(blend, first, 0.0, step).samples +
      ProcessBlock(blend, Rest(first, Emit(blend, first, 0.0, step).position), second, step).1
  {
    EmitGrows(blend, first, 0.0, step);
    assert [first, second][..1] == [first] && [first][..0] == [];
    assert START.pending + first == first;
    assert Run(blend, [first], step).1 == Emit(blend, first, 0.0, step).samples;
    assert Run(blend, [first], step).0 == Rest(first, Emit(blend, first, 0.0, step).position);
  }

  ghost predicate SplitIndependent(blend: Blend, step: real)
    requires step > 0.0
  {
    forall blocks: seq<seq<real>> :: Run(blend, blocks, step).1 == Emit(blend, Concat(blocks), 0.0, step).samples
  }

  /** Exactly the device rates up to twice the output rate are resampled independently of the blocks. */
  lemma SplitIndependentIff(blend: Blend, step: real)
    requires step > 0.0
    ensures SplitIndependent(blend, step) <==> step <= 2.0
  {
    if step <= 2.0 {
      forall blocks: seq<seq<real>>
        ensures Run(blend, blocks, step).1 == Emit(blend, Concat(blocks), 0.0, step).samples
      {
        SplitsDoNotMatter(blend, blocks, step);
      }
    } else {
      var k := LargeStepsLosePhase(blend, step);
      var blocks := [Silence(2 * k), Silence(2)];
      assert blocks[..1] == [Silence(2 * k)] && blocks[..1][..0] == [];
      assert Concat([]) + Silence(2 * k) == Silence(2 * k);
      assert Concat([Silence(2 * k)]) == Silence(2 * k);
      assert Run(blend, blocks, step).1 != Emit(blend, Concat(blocks), 0.0, step).samples;
    }
  }

  // ----- The processor -----

  function Flat(chunks: seq<seq<int>>): seq<int> {
    if chunks == [] then [] else Flat(chunks[..|chunks| - 1]) + chunks[|chunks| - 1]
  }

  lemma NothingYet(whole: Emission, emitted: seq<int>)
    ensures Behind([], whole) == whole && emitted + [] == emitted
  {
    assert [] + whole.samples == whole.samples;
  }

  lemma Regroup(a: seq<int>, b: seq<int>, x: int)
    ensures a + b + [x] == a + (b + [x])
  {
  }

  class PcmCaptureProcessor {
    const step: real
    const blend: Blend
    var pending: seq<real>
    var position: real
    var chunk: array<int>
    var chunkPosition: nat
    var posted: seq<seq<int>>

    ghost predicate Valid()
      reads this, chunk
    {
      && step > 0.0 && 0.0 <= position
      && chunk.Length == CHUNK && chunkPosition < CHUNK
      && forall i :: 0 <= i < |posted| ==> |posted[i]| == CHUNK
    }

    ghost function State(): Capture
      reads this
    {
      Capture(pending, position)
    }

    /** Everything produced so far: full chunks and the partial one. */
    ghost function Emitted(): seq<int>
      requires Valid()
      reads this, chunk
    {
      Flat(posted) + chunk[..chunkPosition]
    }

    constructor (sampleRate: nat)
      requires sampleRate > 0
      ensures Valid() && fresh(chunk) && step == sampleRate as real / 16000.0 && blend == Interpolate
      ensures State() == START && Emitted() == []
    {
      step := sampleRate as real / 16000.0;
      blend := Interpolate;
      pending := [];
      position := 0.0;
      chunk := new int[CHUNK];
      chunkPosition := 0;
      posted := [];
    }

    method Push(sample: int)
      requires Valid()
      modifies this`chunk, this`chunkPosition, this`posted, chunk
      ensures Valid() && (chunk == old(chunk) || fresh(chunk)) && Emitted() == old(Emitted()) + [sample]
    {
      ghost var before := chunk[..chunkPosition];
      chunk[chunkPosition] := sample;
      chunkPosition := chunkPosition + 1;
      assert chunk[..chunkPosition] == before + [sample];
      if chunkPosition == chunk.Length {
        posted := posted + [chunk[..]];
        assert posted[..|posted| - 1] == old(posted) && chunk[..] == chunk[..chunkPosition];
        chunk := new int[CHUNK];
        chunkPosition := 0;
      }
    }

    method TakeSample(combined: seq<real>)
      requires Valid() && position + 1.0 < |combined| as real
      modifies this`position, this`chunk, this`chunkPosition, this`posted, chunk
      ensures Valid() && (chunk == old(chunk) || fresh(chunk))
      ensures position == old(position) + step
      ensures Emitted() == old(Emitted()) + [SampleAt(blend, combined, old(position))]
    {
      var left := position.Floor;
      var fraction := position - left as real;
      var sample := blend(combined[left], combined[left + 1], fraction);
      Push(sample);
      position := position + step;
    }

    /** One turn of the loop, which has added `sofar` to what was emitted at its start. */
    method Turn(combined: seq<real>, ghost start: seq<int>, ghost sofar: seq<int>) returns (ghost more: seq<int>)
      requires Valid() && position + 1.0 < |combined| as real && Emitted() == start + sofar
      modifies this`position, this`chunk, this`chunkPosition, this`posted, chunk
      ensures Valid() && (chunk == old(chunk) || fresh(chunk)) && Emitted() == start + more && |more| > |sofar|
      ensures Behind(more, Emit(blend, combined, position, step)) ==
        Behind(sofar, Emit(blend, combined, old(position), step))
    {
      more := sofar + [SampleAt(blend, combined, position)];
      BehindOne(sofar, blend, combined, position, step);
      Regroup(start, sofar, SampleAt(blend, combined, position));
      TakeSample(combined);
    }

    /** The loop: every sample that has both neighbours. */
    method Drain(combined: seq<real>)
      requires Valid()
      modifies this`position, this`chunk, this`chunkPosition, this`posted, chunk
      ensures Valid() && (chunk == old(chunk) || fresh(chunk))
      ensures Emit(blend, combined, old(position), step).position == position
      ensures Emitted() == old(Emitted()) + Emit(blend, combined, old(position), step).samples
    {
      ghost var whole := Emit(blend, combined, position, step);
      ghost var sofar: seq<int> := [];
      NothingYet(whole, Emitted());
      while position + 1.0 < |combined| as real
        invariant Valid() && (chunk == old(chunk) || fresh(chunk))
        invariant Emitted() == old(Emitted()) + sofar && whole == Behind(sofar, Emit(blend, combined, position, step))
        decreases |whole.samples| - |sofar|
      {
        sofar := Turn(combined, old(Emitted()), sofar);
      }
      assert sofar + [] == sofar;
    }

    method Process(input: seq<real>)
      requires Valid()
      modifies this, chunk
      ensures Valid() && (chunk == old(chunk) || fresh(chunk))
      ensures var r := ProcessBlock(blend, old(State()), input, step);
        State() == r.0 && Emitted() == old(Emitted()) + r.1
      ensures forall i :: 0 <= i < |posted| ==> |posted[i]| == 320
    {
      if input == [] {
        assert Emitted() + [] == Emitted();
        return;
      }
      var combined := pending + input;
      Drain(combined);
      var consumed := position.Floor;
      pending := Slice(combined, consumed);
      position := position - consumed as real;
    }
  }
}
