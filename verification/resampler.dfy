/**
 What the emulator's audio callback does with a block before it is queued: mixing, gain, and block-local linear
 resampling with a carried remainder (`native/src/game_audio.rs`, `write_stereo`).
 */
module Resampler {
  import opened Arithmetic
  import opened AudioRing

  /** Positions inside a block are fixed-point numbers with 32 fractional bits. */
  const ONE: nat := 0x1_0000_0000

  predicate I16(n: int) {
    -32768 <= n <= 32767
  }

  predicate AllI16(s: seq<int>) {
    forall i :: 0 <= i < |s| ==> I16(s[i])
  }

  /** Division that truncates toward zero. */
  function Truncated(n: int, d: nat): int
    requires d > 0
  {
    if n >= 0 then n / d else -((-n) / d)
  }

  function Clamped(n: int): int {
    if n < -32768 then -32768 else if n > 32767 then 32767 else n
  }

  /** A product under a name. */
  function Gained(sample: int, percent: nat): int {
    sample * percent
  }

  function ScaleSample(sample: int, percent: nat): int {
    Clamped(Truncated(Gained(sample, percent), 100))
  }

  function Mixed(left: int, right: int): int {
    Truncated(left + right, 2)
  }

  function MonoAt(samples: seq<int>, frame: nat, percent: nat): int
    requires 2 * frame + 1 < |samples|
  {
    ScaleSample(Mixed(samples[frame * 2], samples[frame * 2 + 1]), percent)
  }

  /** One mono sample for each whole stereo frame. */
  function Mono(samples: seq<int>, percent: nat): (mono: seq<int>)
    ensures |mono| == |samples| / 2
  {
    seq(|samples| / 2, frame requires 0 <= frame < |samples| / 2 => MonoAt(samples, frame, percent))
  }

  // ---- Gain ----

  lemma GainShrinks(sample: int, percent: nat)
    requires percent <= 100
    ensures sample >= 0 ==> 0 <= Truncated(Gained(sample, percent), 100) <= sample
    ensures sample <= 0 ==> sample <= Truncated(Gained(sample, percent), 100) <= 0
  {
    GainIsBounded(sample, percent);
    hide Gained;
  }

  lemma GainIsBounded(sample: int, percent: nat)
    requires percent <= 100
    ensures sample >= 0 ==> 0 <= Gained(sample, percent) <= sample * 100
    ensures sample <= 0 ==> sample * 100 <= Gained(sample, percent) <= 0
  {
  }

  /** Mixing and gain stay inside the sample range, so that the clamp never cuts anything. */
  lemma MixNeverClips(left: int, right: int, percent: nat)
    requires I16(left) && I16(right) && percent <= 100
    ensures I16(Mixed(left, right))
    ensures ScaleSample(Mixed(left, right), percent) == Truncated(Gained(Mixed(left, right), percent), 100)
    ensures I16(ScaleSample(Mixed(left, right), percent))
  {
    GainShrinks(Mixed(left, right), percent);
    hide Truncated, Gained;
    assert I16(Mixed(left, right)) by {
      MixIsBetween(left, right);
    }
  }

  lemma MixIsBetween(left: int, right: int)
    ensures left <= right ==> left <= Mixed(left, right) <= right
    ensures right <= left ==> right <= Mixed(left, right) <= left
  {
  }

  lemma MonoIsI16(samples: seq<int>, percent: nat)
    requires AllI16(samples) && percent <= 100
    ensures AllI16(Mono(samples, percent))
  {
    forall frame | 0 <= frame < |samples| / 2
      ensures I16(MonoAt(samples, frame, percent))
    {
      MixNeverClips(samples[frame * 2], samples[frame * 2 + 1], percent);
    }
  }

  // ---- Positions ----

  /** How far apart the positions of `output` samples over `frames` frames are. */
  function Step(frames: nat, output: nat): nat
    requires frames >= 2 && output >= 2
  {
    Quot(Times(frames - 1, ONE), output - 1)
  }

  function Position(frames: nat, output: nat, k: nat): nat
    requires frames >= 2 && output >= 2
  {
    Times(k, Step(frames, output))
  }

  function First(frames: nat, output: nat, k: nat): nat
    requires frames >= 2 && output >= 2
  {
    Position(frames, output, k) / ONE
  }

  function Fraction(frames: nat, output: nat, k: nat): (f: nat)
    requires frames >= 2 && output >= 2
    ensures f < 0x1_0000
  {
    (Position(frames, output, k) / 0x1_0000) % 0x1_0000
  }

  function Between(start: int, end: int, fraction: nat): int {
    start + ((end - start) * fraction) / 0x1_0000
  }

  function SampleAt(mono: seq<int>, output: nat, k: nat): int
    requires |mono| >= 2 && output >= 2
  {
    var first := First(|mono|, output, k);
    if first >= |mono| - 1 then mono[|mono| - 1]
    else Between(mono[first], mono[first + 1], Fraction(|mono|, output, k))
  }

  function Resample(mono: seq<int>, output: nat): (r: seq<int>)
    requires mono != []
    ensures |r| == output
  {
    if |mono| == 1 || output <= 1 then seq(output, _ => mono[0])
    else seq(output, k requires 0 <= k < output => SampleAt(mono, output, k))
  }

  lemma TimesCommutes(a: nat, b: nat)
    ensures Times(a, b) == Times(b, a)
  {
  }

  /**
   The positions of a block start at its first frame, never pass its last one and end less than one position unit for
   each output sample before it.
   */
  lemma PositionsSpanBlock(frames: nat, output: nat, k: nat)
    requires frames >= 2 && output >= 2 && k < output
    ensures Position(frames, output, 0) == 0
    ensures Position(frames, output, k) <= Position(frames, output, output - 1) <= Times(frames - 1, ONE)
    ensures Times(frames - 1, ONE) < Position(frames, output, output - 1) + (output - 1)
  {
    hide Times, Quot;
    var step := Step(frames, output);
    QuotRange(Times(frames - 1, ONE), output - 1);
    TimesCommutes(step, output - 1);
    TimesMonotone(k, output - 1, step);
    TimesNext(0, step);
  }

  lemma FirstOf(position: nat, frames: nat)
    requires frames >= 2 && position <= Times(frames - 1, ONE)
    ensures position / ONE <= frames - 1
  {
  }

  /** Every index that is read lies inside the block, and the indices never go back. */
  lemma IndicesInRange(frames: nat, output: nat, k: nat)
    requires frames >= 2 && output >= 2 && k < output
    ensures First(frames, output, k) <= frames - 1
    ensures First(frames, output, 0) == 0
    ensures k + 1 < output ==> First(frames, output, k) <= First(frames, output, k + 1)
  {
    PositionsSpanBlock(frames, output, k);
    FirstOf(Position(frames, output, k), frames);
    if k + 1 < output {
      hide Times, Step;
      TimesMonotone(k, k + 1, Step(frames, output));
    }
  }

  lemma BetweenIsBetween(start: int, end: int, fraction: nat)
    requires fraction < 0x1_0000
    ensures start <= end ==> start <= Between(start, end, fraction) <= end
    ensures end <= start ==> end <= Between(start, end, fraction) <= start
  {
    var delta := end - start;
    if delta >= 0 {
      assert 0 <= delta * fraction <= delta * 0x1_0000;
    } else {
      assert delta * 0x1_0000 <= delta * fraction <= 0;
    }
  }

  /** The two samples of the block that an output sample lies between. */
  predicate LiesBetween(v: int, a: int, b: int) {
    a <= v <= b || b <= v <= a
  }

  /** Every output sample lies between the two neighbours it interpolates, so its conversion to 16 bits is exact. */
  lemma SamplesStayInside(mono: seq<int>, output: nat, k: nat)
    requires mono != [] && AllI16(mono) && k < output
    ensures I16(Resample(mono, output)[k])
    ensures |mono| >= 2 && output >= 2 ==>
      (var first := First(|mono|, output, k);
       first < |mono|
       && LiesBetween(Resample(mono, output)[k], mono[first], mono[if first + 1 < |mono| then first + 1 else first]))
  {
    if |mono| >= 2 && output >= 2 {
      IndicesInRange(|mono|, output, k);
      var first := First(|mono|, output, k);
      hide First, Fraction;
      if first < |mono| - 1 {
        BetweenIsBetween(mono[first], mono[first + 1], Fraction(|mono|, output, k));
        assert I16(mono[first]) && I16(mono[first + 1]);
        hide Between;
      }
    }
  }

  /** A block begins with its own first sample. */
  lemma StartsWithFirst(mono: seq<int>, output: nat)
    requires mono != [] && output >= 1
    ensures Resample(mono, output)[0] == mono[0]
  {
    if |mono| >= 2 && output >= 2 {
      PositionsSpanBlock(|mono|, output, 0);
    }
  }

  // ---- Blocks ----

  datatype Rates = Rates(source: nat, output: nat, percent: nat) {
    predicate Valid() {
      source > 0 && 1 <= percent <= 100
    }
  }

  /** What a block becomes, and the remainder it leaves. */
  function Block(rates: Rates, remainder: nat, samples: seq<int>): (r: (seq<int>, nat))
    requires rates.Valid()
  {
    var mono := Mono(samples, rates.percent);
    if mono == [] then ([], remainder)
    else if rates.source == rates.output then (mono, remainder)
    else
      var scaled := Times(|mono|, rates.output) + remainder;
      (Resample(mono, Quot(scaled, rates.source)), Rem(scaled, rates.source))
  }

  function Blocks(rates: Rates, blocks: seq<seq<int>>): (seq<int>, nat)
    requires rates.Valid()
  {
    if blocks == [] then ([], 0)
    else
      var before := Blocks(rates, blocks[..|blocks| - 1]);
      var block := Block(rates, before.1, blocks[|blocks| - 1]);
      (before.0 + block.0, block.1)
  }

  function Frames(blocks: seq<seq<int>>): nat {
    if blocks == [] then 0 else Frames(blocks[..|blocks| - 1]) + |blocks[|blocks| - 1]| / 2
  }

  lemma TimesAdds(a: nat, b: nat, c: nat)
    ensures Times(a + b, c) == Times(a, c) + Times(b, c)
  {
  }

  /** The books balance after every block: nothing is lost but a remainder smaller than one output frame. */
  lemma {:induction false} RemainderCarries(rates: Rates, blocks: seq<seq<int>>)
    requires rates.Valid()
    ensures var (out, rem) := Blocks(rates, blocks);
      rem < rates.source && Times(|out|, rates.source) + rem == Times(Frames(blocks), rates.output)
  {
    hide Times, Quot, Mono, Resample;
    TimesNext(0, rates.source);
    TimesNext(0, rates.output);
    if blocks != [] {
      var earlier, samples := blocks[..|blocks| - 1], blocks[|blocks| - 1];
      RemainderCarries(rates, earlier);
      var (out, rem) := Blocks(rates, earlier);
      var (added, left) := Block(rates, rem, samples);
      TimesAdds(Frames(earlier), |samples| / 2, rates.output);
      TimesAdds(|out|, |added|, rates.source);
    }
  }

  /**
   Resampling does not drift: after any blocks, the frames produced are all the input frames at the output rate, rounded
   down once.
   */
  lemma NoDrift(rates: Rates, blocks: seq<seq<int>>)
    requires rates.Valid()
    ensures |Blocks(rates, blocks).0| == Quot(Times(Frames(blocks), rates.output), rates.source)
  {
    hide Times, Quot;
    RemainderCarries(rates, blocks);
    QuotOf(|Blocks(rates, blocks).0|, Blocks(rates, blocks).1, rates.source);
  }

  /** All that is queued over a run is in the sample range. */
  lemma {:induction false} RunStaysInside(rates: Rates, blocks: seq<seq<int>>)
    requires rates.Valid() && forall i :: 0 <= i < |blocks| ==> AllI16(blocks[i])
    ensures AllI16(Blocks(rates, blocks).0)
  {
    if blocks != [] {
      var samples, rem := blocks[|blocks| - 1], Blocks(rates, blocks[..|blocks| - 1]).1;
      RunStaysInside(rates, blocks[..|blocks| - 1]);
      MonoIsI16(samples, rates.percent);
      var mono, block := Mono(samples, rates.percent), Block(rates, rem, samples).0;
      hide Mono, Resample, Times, Quot;
      forall k | 0 <= k < |block|
        ensures I16(block[k])
      {
        if mono != [] && rates.source != rates.output {
          SamplesStayInside(mono, |block|, k);
        }
      }
    }
  }

  // ---- The player ----

  class Player {
    const ring: Ring
    const rates: Rates
    var rateRemainder: nat

    ghost predicate Valid()
      reads this, ring
    {
      ring.Valid() && rates.Valid()
    }

    constructor (rates: Rates)
      requires rates.Valid()
      ensures Valid() && this.rates == rates && rateRemainder == 0 && fresh(ring) && fresh(ring.queue)
      ensures ring.Contents() == Silence(CUSHION_FRAMES) && ring.queue.Length == QUEUE_FRAMES && ring.Accepting()
    {
      ring := new Ring();
      this.rates := rates;
      rateRemainder := 0;
      new;
      ring.Open();
    }

    method WriteStereo(samples: seq<int>)
      requires Valid()
      modifies this, ring, ring.queue
      ensures Valid() && rateRemainder == Block(rates, old(rateRemainder), samples).1
      ensures ring.queue == old(ring.queue) && ring.Accepting() == old(ring.Accepting())
      ensures ring.Contents() ==
        if ring.Accepting() then
          Newest(old(ring.Contents()) + Block(rates, old(rateRemainder), samples).0, ring.queue.Length)
        else old(ring.Contents())
    {
      var frames := |samples| / 2;
      BlockOf(rates, rateRemainder, samples);
      NothingNew(ring.Contents(), ring.queue.Length);
      hide Block, Mono, Resample, Newest;
      if frames == 0 {
        return;
      }
      var mono := MixedDown(samples, rates.percent);
      if rates.source == rates.output {
        ring.Enqueue(mono);
        return;
      }
      var scaled := frames * rates.output + rateRemainder;
      var outputFrames := scaled / rates.source;
      rateRemainder := scaled % rates.source;
      if outputFrames == 0 {
        return;
      }
      var resampled := Interpolated(mono, outputFrames);
      ring.Enqueue(resampled);
    }
  }

  /** A block by its cases, in the operators of the callback. */
  lemma BlockOf(rates: Rates, remainder: nat, samples: seq<int>)
    requires rates.Valid()
    ensures |samples| / 2 == 0 ==> Block(rates, remainder, samples) == ([], remainder)
    ensures |samples| / 2 > 0 && rates.source == rates.output ==>
      Block(rates, remainder, samples) == (Mono(samples, rates.percent), remainder)
    ensures |samples| / 2 > 0 && rates.source != rates.output ==>
      (var scaled := (|samples| / 2) * rates.output + remainder;
       Block(rates, remainder, samples)
       == (if scaled / rates.source == 0 then [] else Resample(Mono(samples, rates.percent), scaled / rates.source),
           scaled % rates.source))
  {
    var scaled := (|samples| / 2) * rates.output + remainder;
    NamesMeanOperators(scaled, rates.source);
    assert scaled == Times(|samples| / 2, rates.output) + remainder;
    hide Mono, Resample, Quot, Rem, Times;
  }

  lemma NothingNew(queued: seq<int>, limit: nat)
    ensures |queued| <= limit ==> Newest(queued + [], limit) == queued
  {
  }

  method MixedDown(samples: seq<int>, percent: nat) returns (mono: seq<int>)
    ensures mono == Mono(samples, percent)
  {
    var frames := |samples| / 2;
    mono := [];
    var frame := 0;
    while frame < frames
      invariant frame <= frames && mono == Mono(samples, percent)[..frame]
    {
      var mixed := Truncated(samples[frame * 2] + samples[frame * 2 + 1], 2);
      mono := mono + [ScaleSample(mixed, percent)];
      frame := frame + 1;
    }
  }

  method Interpolated(mono: seq<int>, output: nat) returns (resampled: seq<int>)
    requires mono != [] && output > 0
    ensures resampled == Resample(mono, output)
  {
    var frames := |mono|;
    if frames == 1 || output == 1 {
      return seq(output, _ => mono[0]);
    }
    var step := Quot(Times(frames - 1, ONE), output - 1);
    var position := 0;
    resampled := [];
    TimesNext(0, step);
    hide Times, Quot, Between;
    while |resampled| < output
      invariant |resampled| <= output && position == Position(frames, output, |resampled|)
      invariant resampled == Resample(mono, output)[..|resampled|]
      decreases output - |resampled|
    {
      var first, fraction := position / ONE, (position / 0x1_0000) % 0x1_0000;
      var value;
      if first >= frames - 1 {
        value := mono[frames - 1];
      } else {
        value := Between(mono[first], mono[first + 1], fraction);
      }
      TimesNext(|resampled|, step);
      assert value == Resample(mono, output)[|resampled|];
      resampled := resampled + [value];
      position := position + step;
    }
  }
}
