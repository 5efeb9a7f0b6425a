/** The music driver at work: its clock, its batches and its output (`native/doom/opl_retrodeck.c`). */
module OplDriver {
  import opened Arithmetic
  import opened OplClock

  const FRAME: nat := 0x10000

  type Stereo = (int, int)

  function Clamp(n: int): int {
    if n > 32767 then 32767 else if n < -32768 then -32768 else n
  }

  /** What the chip gives for its `k`th frame, clamped to 16 bits; before the first there is silence. */
  function ChipFrame(chip: nat -> Stereo, k: int): Stereo {
    if k < 0 then (0, 0) else (Clamp(chip(k).0), Clamp(chip(k).1))
  }

  function Mix(a: int, b: int, weight: nat): int {
    a + ((b - a) * weight) / FRAME
  }

  function MixFrames(a: Stereo, b: Stereo, weight: nat): Stereo {
    (Mix(a.0, b.0, weight), Mix(a.1, b.1, weight))
  }

  /** Output frame `j` of the whole stream: the chip's stream at `j` steps, between the two frames around it. */
  function Output(chip: nat -> Stereo, step: nat, j: nat): Stereo {
    var at := Times(j, step);
    var whole := Quot(at, FRAME);
    MixFrames(ChipFrame(chip, whole - 1), ChipFrame(chip, whole), Rem(at, FRAME))
  }

  /** Output stays between the two chip frames it lies between. */
  lemma MixStaysBetween(a: int, b: int, weight: nat)
    requires weight < FRAME
    ensures a <= b ==> a <= Mix(a, b, weight) <= b
    ensures b <= a ==> b <= Mix(a, b, weight) <= a
  {
    var delta := b - a;
    if delta >= 0 {
      assert 0 <= delta * weight <= delta * FRAME;
    } else {
      assert delta * FRAME <= delta * weight <= 0;
    }
  }

  /** At the mixer's own rate the output is the chip's stream, one frame late. */
  lemma SameRateIsStraightCopy(chip: nat -> Stereo, j: nat)
    ensures Output(chip, FRAME, j) == ChipFrame(chip, j - 1)
  {
    QuotOf(j, 0, FRAME);
    hide ChipFrame, Times, Quot, Rem, Mix;
    assert Times(j, FRAME) + 0 == Times(j, FRAME);
    var a, b := ChipFrame(chip, j - 1), ChipFrame(chip, j);
    MixIsFirst(a.0, b.0);
    MixIsFirst(a.1, b.1);
  }

  lemma MixIsFirst(a: int, b: int)
    ensures Mix(a, b, 0) == a
  {
    assert (b - a) * 0 == 0;
  }

  class Driver {
    const rate: nat
    const step: nat
    const chip: nat -> Stereo
    const batch: array<Stereo>
    var time: nat
    var offset: nat
    var paused: bool
    var locks: nat
    var queue: seq<nat>
    var script: seq<seq<Request>>
    var calls: seq<Call>
    var available: nat
    var consumed: nat
    var position: nat
    var previous: Stereo
    var current: Stereo
    var pulled: nat
    ghost var emitted: nat

    ghost function Value(): Music
      reads this`time, this`offset, this`paused, this`locks, this`queue, this`script, this`calls
      reads this`available, this`consumed
    {
      Music(time, offset, paused, locks, queue, script, calls, available, consumed)
    }

    /** The batch in hand is the piece of the chip's stream that comes next. */
    ghost predicate InHand()
      reads this`available, this`consumed, this`pulled, batch
    {
      && batch.Length == CHIP_BATCH_FRAMES && consumed <= available <= CHIP_BATCH_FRAMES
      && forall i :: consumed <= i < available ==> batch[i] == chip(pulled + (i - consumed))
    }

    ghost predicate Coherent()
      reads this`time, this`offset, this`paused, this`locks, this`queue, this`script, this`calls
      reads this`available, this`consumed, this`pulled, this`previous, this`current, batch
    {
      && rate > 0 && OplClock.Valid(Value()) && InHand()
      && previous == ChipFrame(chip, pulled - 2) && current == ChipFrame(chip, pulled - 1)
    }

    /** The read position says how far the output has come within the chip frames pulled so far. */
    ghost predicate Valid()
      reads this, batch
    {
      Coherent() && position + pulled * FRAME == FRAME + Times(emitted, step)
    }

    constructor (rate: nat, mixerRate: nat, chip: nat -> Stereo, script: seq<seq<Request>>)
      requires 0 < rate <= mixerRate
      ensures Valid() && Value() == Start(script) && pulled == 0 && emitted == 0 && fresh(batch)
      ensures this.rate == rate && this.chip == chip && this.step == rate * FRAME / mixerRate
    {
      this.rate, this.chip, this.step := rate, chip, rate * FRAME / mixerRate;
      batch := new Stereo[CHIP_BATCH_FRAMES](_ => (0, 0));
      time, offset, paused, locks := 0, 0, false, 0;
      queue, this.script, calls := [], script, [];
      available, consumed := 0, 0;
      position, previous, current := FRAME, (0, 0), (0, 0);
      pulled, emitted := 0, 0;
    }

    /** What the game may do to the driver between frames. */
    method Handle(request: Request)
      requires offset <= time
      modifies this`paused, this`locks, this`queue
      ensures Value() == Apply(old(Value()), request)
    {
      match request {
        case Schedule(us) => queue := Insert(queue, time - offset + us);
        case ClearCallbacks => queue := [];
        case Lock => locks := locks + 1;
        case Unlock =>
          if locks > 0 {
            locks := locks - 1;
          }
        case SetPaused(pause) => paused := pause;
      }
    }

    method RunCallback(requests: seq<Request>)
      requires offset <= time
      modifies this`paused, this`locks, this`queue
      ensures Value() == ApplyAll(old(Value()), requests)
    {
      var n := 0;
      while n < |requests|
        invariant n <= |requests|
        invariant ApplyAll(old(Value()), requests) == ApplyAll(Value(), requests[n..])
      {
        assert requests[n..][1..] == requests[n + 1..];
        Handle(requests[n]);
        n := n + 1;
      }
    }

    /** The first callback is taken from the queue and runs. */
    method CallNext()
      requires offset <= time && queue != []
      modifies this`paused, this`locks, this`queue, this`script, this`calls
      ensures Value() == CallFirst(old(Value()))
      ensures |script| < |old(script)| || (script == old(script) && |queue| < |old(queue)|)
    {
      calls := calls + [Call(queue[0] + offset, time)];
      queue := queue[1..];
      if script != [] {
        var requests := script[0];
        script := script[1..];
        RunCallback(requests);
      }
    }

    method AdvanceTime(samples: nat)
      requires offset <= time && rate > 0
      modifies this`time, this`offset, this`paused, this`locks, this`queue, this`script, this`calls
      ensures Value() == Advance(old(Value()), Quot(Times(samples, OPL_SECOND), rate))
    {
      var us := Quot(Times(samples, OPL_SECOND), rate);
      time := time + us;
      if paused {
        offset := offset + us;
        return;
      }
      while locks == 0 && queue != [] && queue[0] + offset <= time
        invariant offset == old(offset) && time == old(time) + us && !old(paused)
        invariant RunDue(Value()) == Advance(old(Value()), us)
        invariant available == old(available) && consumed == old(consumed)
        decreases |script|, |queue|
      {
        assert Due(Value());
        CallNext();
      }
    }

    method RefillChipBatch()
      requires rate > 0 && OplClock.Valid(Value()) && batch.Length == CHIP_BATCH_FRAMES
      modifies this`time, this`offset, this`paused, this`locks, this`queue, this`script, this`calls
      modifies this`available, this`consumed, batch
      ensures Value() == Refill(old(Value()), rate)
      ensures InHand() && consumed == 0 < available
    {
      SpanIsSmall(Value(), rate);
      ghost var before := Value();
      var span := CHIP_BATCH_FRAMES;
      if !paused && queue != [] {
        var next := queue[0] + offset;
        if next <= time {
          TimesNext(0, OPL_SECOND);
          assert Quot(0, rate) == 0;
          AdvanceTime(0);
          span := 1;
        } else {
          var frames := FramesUntil(next - time, rate);
          if frames < span {
            span := if frames == 0 then 1 else frames;
          }
        }
      }
      assert span == Span(before, rate);
      forall i | 0 <= i < span {
        batch[i] := chip(pulled + i);
      }
      available, consumed := span, 0;
    }

    /** Takes the next frame of the batch in hand. */
    method TakeFrame()
      requires InHand() && consumed < available
      modifies this`previous, this`current, this`consumed, this`pulled
      ensures InHand() && Value() == old(Value()).(consumed := old(Value()).consumed + 1)
      ensures pulled == old(pulled) + 1 && previous == old(current) && current == ChipFrame(chip, old(pulled))
    {
      var frame := batch[consumed];
      consumed := consumed + 1;
      pulled := pulled + 1;
      previous, current := current, (Clamp(frame.0), Clamp(frame.1));
    }

    /** Begins a new batch when the last one is spent. */
    method EnsureBatch()
      requires rate > 0 && OplClock.Valid(Value()) && InHand()
      modifies this`time, this`offset, this`paused, this`locks, this`queue, this`script, this`calls
      modifies this`available, this`consumed, batch
      ensures Value() == Ready(old(Value()), rate)
      ensures InHand() && consumed < available && offset <= time
    {
      if consumed >= available {
        RefillChipBatch();
      }
    }

    method NextChipFrame()
      requires Coherent()
      modifies this`time, this`offset, this`paused, this`locks, this`queue, this`script, this`calls
      modifies this`available, this`consumed, this`pulled, this`previous, this`current, batch
      ensures Coherent() && Value() == Frame(old(Value()), rate) && pulled == old(pulled) + 1
    {
      FrameIsValid(Value(), rate);
      TimesOne();
      hide Advance, Ready, InHand, Times, Quot, ChipFrame, Sorted;
      EnsureBatch();
      TakeFrame();
      AdvanceTime(1);
    }

    /** Consumes whole chip frames until the read position lies between the last two. */
    method PullFrames()
      requires Valid()
      modifies this, batch
      ensures Valid() && emitted == old(emitted) && position < FRAME
      ensures old(pulled) <= pulled && Value() == Frames(old(Value()), rate, pulled - old(pulled))
    {
      hide Frame, InHand, ChipFrame, Times;
      while position >= FRAME
        invariant Valid() && emitted == old(emitted)
        invariant old(pulled) <= pulled && Value() == Frames(old(Value()), rate, pulled - old(pulled))
        decreases position
      {
        NextChipFrame();
        position := position - FRAME;
      }
    }

    /** The first `n` stereo frames of the buffer are the stream from output frame `from` on. */
    ghost predicate Filled(buffer: array<int>, from: nat, n: nat)
      requires buffer.Length >= 2 * n
      reads buffer
    {
      forall i :: 0 <= i < n ==> (buffer[i * 2], buffer[i * 2 + 1]) == Output(chip, step, from + i)
    }

    /** Writes the next output frame and steps past it. */
    method Emit(buffer: array<int>, index: nat)
      requires Valid() && position < FRAME && 2 * index + 1 < buffer.Length
      modifies this`position, this`emitted, buffer
      ensures Valid() && emitted == old(emitted) + 1
      ensures (buffer[index * 2], buffer[index * 2 + 1]) == Output(chip, step, old(emitted))
      ensures forall i :: 0 <= i < buffer.Length && i != index * 2 && i != index * 2 + 1 ==> buffer[i] == old(buffer[i])
    {
      OutputIs(chip, step, emitted, pulled, position);
      TimesNext(emitted, step);
      hide InHand, ChipFrame, Output, Times, Mix, OplClock.Valid;
      var weight := position;
      buffer[index * 2] := Mix(previous.0, current.0, weight);
      buffer[index * 2 + 1] := Mix(previous.1, current.1, weight);
      position := position + step;
      emitted := emitted + 1;
    }

    method Generate(buffer: array<int>, frames: nat)
      requires Valid() && buffer.Length >= 2 * frames
      modifies this, batch, buffer
      ensures Valid() && emitted == old(emitted) + frames && Filled(buffer, old(emitted), frames)
      ensures old(pulled) <= pulled && Value() == Frames(old(Value()), rate, pulled - old(pulled))
    {
      hide Frame, Output, Frames, OplClock.Valid, InHand, ChipFrame, Times;
      FramesNone(Value(), rate);
      var index := 0;
      while index < frames
        invariant index <= frames && Valid() && emitted == old(emitted) + index && Filled(buffer, old(emitted), index)
        invariant old(pulled) <= pulled && Value() == Frames(old(Value()), rate, pulled - old(pulled))
      {
        ghost var from := pulled;
        PullFrames();
        FramesAdd(old(Value()), rate, from - old(pulled), pulled - from);
        Emit(buffer, index);
        index := index + 1;
      }
    }
  }

  lemma FramesNone(m: Music, rate: nat)
    requires OplClock.Valid(m) && rate > 0
    ensures Frames(m, rate, 0) == m
  {
  }

  lemma {:induction false} FramesAdd(m: Music, rate: nat, a: nat, b: nat)
    requires OplClock.Valid(m) && rate > 0
    ensures Frames(m, rate, a + b) == Frames(Frames(m, rate, a), rate, b)
  {
    hide Frame, OplClock.Valid;
    if b > 0 {
      FramesAdd(m, rate, a, b - 1);
    }
  }

  lemma OutputIs(chip: nat -> Stereo, step: nat, emitted: nat, pulled: nat, weight: nat)
    requires weight < FRAME && weight + pulled * FRAME == FRAME + Times(emitted, step)
    ensures Output(chip, step, emitted) == MixFrames(ChipFrame(chip, pulled - 2), ChipFrame(chip, pulled - 1), weight)
  {
    assert Times(emitted, step) == Times(pulled - 1, FRAME) + weight;
    QuotOf(pulled - 1, weight, FRAME);
  }

  lemma TimesOne()
    ensures Times(1, OPL_SECOND) == OPL_SECOND
  {
  }
}
