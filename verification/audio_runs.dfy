/**
 Whole runs of the audio queue: any interleaving of the producer, the writer thread, a dormant widget's discard, a
 failing device and a closing player (`native/src/game_audio.rs`).
 */
module AudioRuns {
  import opened AudioRing

  /** The atomic steps after the queue was opened. */
  datatype Op = Offer(samples: seq<int>) | Draw | FailTrigger | FailWrite | Discard | BeginClose

  /** The open queue as the threads see it; `writing` while the writer thread has not returned. */
  datatype Sound = Sound(queued: seq<int>, dropped: nat, stopping: bool, failed: bool, writing: bool) {
    predicate Accepting() {
      !stopping && !failed
    }

    function NextChunk(): seq<int> {
      queued[..Min(|queued|, WRITE_CHUNK_FRAMES)]
    }

    predicate Draws() {
      writing && !stopping && queued != []
    }
  }

  function Opened(): Sound {
    Sound(Silence(CUSHION_FRAMES), 0, false, false, true)
  }

  function Step(s: Sound, op: Op): Sound {
    match op
    case Offer(samples) =>
      if !s.Accepting() then s
      else s.(queued := Newest(s.queued + samples, QUEUE_FRAMES),
              dropped := s.dropped + Excess(|s.queued| + |samples|, QUEUE_FRAMES))
    case Draw =>
      if !s.writing then s
      else if s.stopping then s.(writing := false)
      else s.(queued := s.queued[Min(|s.queued|, WRITE_CHUNK_FRAMES)..])
    case FailTrigger => if s.writing then s.(failed := true, writing := false) else s
    case FailWrite => if s.writing then s.(queued := [], failed := true, writing := false) else s
    case Discard => s.(queued := [])
    case BeginClose => s.(stopping := true)
  }

  // ---- The machine ----

  class Device {
    const ring: Ring
    var writing: bool

    ghost predicate Valid()
      reads this, ring
    {
      ring.Valid() && ring.queue.Length == QUEUE_FRAMES
    }

    ghost function Now(): Sound
      requires Valid()
      reads this, ring, ring.queue
    {
      Sound(ring.Contents(), ring.dropped, ring.stopping, ring.workerFailed, writing)
    }

    constructor ()
      ensures Valid() && Now() == Opened() && fresh(ring) && fresh(ring.queue)
    {
      ring := new Ring();
      writing := true;
      new;
      ring.Open();
    }

    method Apply(op: Op)
      requires Valid()
      modifies this, ring, ring.queue
      ensures Valid() && Now() == Step(old(Now()), op) && ring.queue == old(ring.queue)
    {
      match op {
        case Offer(samples) => ring.Enqueue(samples);
        case Draw =>
          if writing {
            var r := ring.Take();
            writing := !r.Stopped?;
          }
        case FailTrigger =>
          if writing {
            ring.FailTrigger();
            writing := false;
          }
        case FailWrite =>
          if writing {
            ring.FailWrite();
            writing := false;
          }
        case Discard => ring.DiscardPending();
        case BeginClose => ring.BeginClose();
      }
    }
  }

  method Perform(ops: seq<Op>) returns (d: Device)
    ensures d.Valid() && d.Now() == Run(ops).0
  {
    d := new Device();
    var n := 0;
    while n < |ops|
      invariant n <= |ops| && fresh(d) && fresh(d.ring) && fresh(d.ring.queue)
      invariant d.Valid() && d.Now() == Run(ops[..n]).0
    {
      assert ops[..n + 1][..n] == ops[..n];
      d.Apply(ops[n]);
      n := n + 1;
    }
    assert ops[..n] == ops;
  }

  // ---- The books ----

  /**
   Everything ever accepted, the opening silence first; the chunks the writer has taken, and where in it each of them
   starts; how many samples were thrown away unheard on purpose.
   */
  datatype Books = Books(history: seq<int>, played: seq<seq<int>>, starts: seq<nat>, discarded: nat)

  function Record(b: Books, s: Sound, op: Op): Books {
    match op
    case Offer(samples) => if s.Accepting() then b.(history := b.history + samples) else b
    case Draw =>
      if s.Draws() && |s.queued| <= |b.history| then
        b.(played := b.played + [s.NextChunk()], starts := b.starts + [|b.history| - |s.queued|])
      else b
    case FailWrite => if s.writing then b.(discarded := b.discarded + |s.queued|) else b
    case Discard => b.(discarded := b.discarded + |s.queued|)
    case FailTrigger => b
    case BeginClose => b
  }

  function Run(ops: seq<Op>): (Sound, Books) {
    if ops == [] then (Opened(), Books(Silence(CUSHION_FRAMES), [], [], 0))
    else
      var before := Run(ops[..|ops| - 1]);
      var op := ops[|ops| - 1];
      (Step(before.0, op), Record(before.1, before.0, op))
  }

  function Flat(chunks: seq<seq<int>>): seq<int> {
    if chunks == [] then [] else Flat(chunks[..|chunks| - 1]) + chunks[|chunks| - 1]
  }

  /** Chunk `i` is what the history holds where it is said to start; it ends before the next one and before the queue. */
  predicate Heard(s: Sound, b: Books, i: nat)
    requires i < |b.played| == |b.starts| && |s.queued| <= |b.history|
  {
    var start, end := b.starts[i], b.starts[i] + |b.played[i]|;
    && end <= |b.history| - |s.queued| && b.history[start..end] == b.played[i]
    && (i + 1 < |b.starts| ==> end <= b.starts[i + 1])
  }

  /** The queue is the newest part of the history. */
  predicate NewestKept(s: Sound, b: Books) {
    |s.queued| <= QUEUE_FRAMES && |s.queued| <= |b.history| && s.queued == b.history[|b.history| - |s.queued|..]
  }

  /** Every sample ever accepted was taken, dropped or discarded, or is queued. */
  predicate Conserved(s: Sound, b: Books) {
    |b.history| == |Flat(b.played)| + s.dropped + b.discarded + |s.queued|
  }

  /** The chunks were played in the order of the history, and no sample twice. */
  predicate PlayedInOrder(s: Sound, b: Books) {
    && |b.played| == |b.starts| && |s.queued| <= |b.history|
    && forall i :: 0 <= i < |b.played| ==> Heard(s, b, i)
  }

  /** When nothing was lost, the writer got exactly the history so far, without a gap. */
  predicate Gapless(s: Sound, b: Books) {
    s.dropped == 0 && b.discarded == 0 ==> Flat(b.played) + s.queued == b.history
  }

  predicate Kept(s: Sound, b: Books) {
    NewestKept(s, b) && Conserved(s, b) && PlayedInOrder(s, b) && Gapless(s, b)
  }

  lemma FlatLast(chunks: seq<seq<int>>, chunk: seq<int>)
    ensures Flat(chunks + [chunk]) == Flat(chunks) + chunk
  {
    assert (chunks + [chunk])[..|chunks|] == chunks;
  }

  /** Neither a longer history nor a later queue disturbs a chunk. */
  lemma StillHeard(s: Sound, b: Books, s': Sound, b': Books, i: nat)
    requires i < |b.played| == |b.starts| && |s.queued| <= |b.history| && Heard(s, b, i)
    requires b'.played == b.played && b'.starts == b.starts && b.history <= b'.history && |s'.queued| <= |b'.history|
    requires |b.history| - |s.queued| <= |b'.history| - |s'.queued|
    ensures Heard(s', b', i)
  {
    assert b'.history[..|b.history|] == b.history;
  }

  lemma OfferKeeps(s: Sound, b: Books, samples: seq<int>)
    requires Kept(s, b)
    ensures Kept(Step(s, Offer(samples)), Record(b, s, Offer(samples)))
  {
    if s.Accepting() {
      var s', b' := Step(s, Offer(samples)), Record(b, s, Offer(samples));
      NewestOfSuffix(b.history, s.queued, samples);
      hide Flat, Newest;
      forall i | 0 <= i < |b.played|
        ensures Heard(s', b', i)
      {
        StillHeard(s, b, s', b', i);
      }
      if s'.dropped == 0 && b'.discarded == 0 {
        Regroup(Flat(b.played), s.queued, samples);
      }
    }
  }

  lemma Regroup(a: seq<int>, b: seq<int>, c: seq<int>)
    ensures a + (b + c) == a + b + c
  {
  }

  /** The newest of a suffix with something appended is a suffix of the whole with the same appended. */
  lemma NewestOfSuffix(history: seq<int>, queued: seq<int>, samples: seq<int>)
    requires |queued| <= |history| && queued == history[|history| - |queued|..] && |queued| <= QUEUE_FRAMES
    ensures var now, all := Newest(queued + samples, QUEUE_FRAMES), history + samples;
      && |now| <= QUEUE_FRAMES && |now| <= |all| && now == all[|all| - |now|..]
      && |now| + Excess(|queued| + |samples|, QUEUE_FRAMES) == |queued| + |samples|
      && (Excess(|queued| + |samples|, QUEUE_FRAMES) == 0 ==> now == queued + samples)
      && |history| - |queued| <= |all| - |now|
  {
    var now, all := Newest(queued + samples, QUEUE_FRAMES), history + samples;
    assert queued + samples == all[|history| - |queued|..];
  }

  lemma ChunkIsHeard(s: Sound, b: Books, s': Sound, b': Books)
    requires NewestKept(s, b) && PlayedInOrder(s, b) && s.Draws()
    requires s' == Step(s, Draw) && b' == Record(b, s, Draw)
    ensures PlayedInOrder(s', b')
  {
    var chunk, start := s.NextChunk(), |b.history| - |s.queued|;
    assert b.history[start..start + |chunk|] == chunk;
    forall i | 0 <= i < |b'.played|
      ensures Heard(s', b', i)
    {
      if i < |b.played| {
        assert Heard(s, b, i);
      }
    }
  }

  lemma DrawKeeps(s: Sound, b: Books)
    requires Kept(s, b)
    ensures Kept(Step(s, Draw), Record(b, s, Draw))
  {
    var s', b' := Step(s, Draw), Record(b, s, Draw);
    if s.Draws() {
      var chunk := s.NextChunk();
      ChunkIsHeard(s, b, s', b');
      FlatLast(b.played, chunk);
      assert s.queued == chunk + s'.queued;
      assert Flat(b.played) + (chunk + s'.queued) == Flat(b.played) + chunk + s'.queued;
      hide PlayedInOrder, Flat;
    } else {
      assert s'.queued == s.queued;
      forall i | 0 <= i < |b.played|
        ensures Heard(s', b', i)
      {
        StillHeard(s, b, s', b', i);
      }
    }
  }

  lemma LosingKeeps(s: Sound, b: Books, op: Op)
    requires Kept(s, b) && !op.Offer? && !op.Draw?
    ensures Kept(Step(s, op), Record(b, s, op))
  {
    var s', b' := Step(s, op), Record(b, s, op);
    assert b'.played == b.played && b'.starts == b.starts && b'.history == b.history;
    forall i | 0 <= i < |b.played|
      ensures Heard(s', b', i)
    {
      StillHeard(s, b, s', b', i);
    }
    if s'.dropped == 0 && b'.discarded == 0 {
      assert s'.queued == s.queued;
    }
  }

  /**
   After any interleaving: the queue holds the newest samples in order, every sample is accounted for, and what was
   played is the history in order, without repetition, and without a gap unless samples were dropped or discarded.
   */
  lemma {:induction false} RunKeepsBooks(ops: seq<Op>)
    ensures Kept(Run(ops).0, Run(ops).1)
  {
    if ops == [] {
      assert Flat([]) == [];
    } else {
      RunKeepsBooks(ops[..|ops| - 1]);
      var before := Run(ops[..|ops| - 1]);
      match ops[|ops| - 1]
      case Offer(samples) => OfferKeeps(before.0, before.1, samples);
      case Draw => DrawKeeps(before.0, before.1);
      case _ => LosingKeeps(before.0, before.1, ops[|ops| - 1]);
    }
  }

  predicate NoLoss(op: Op) {
    op.Offer? || op.Draw?
  }

  function Offered(ops: seq<Op>): seq<int> {
    if ops == [] then []
    else
      Offered(ops[..|ops| - 1]) + match ops[|ops| - 1] case Offer(samples) => samples case _ => []
  }

  /**
   While the device works and nobody discards, the writer has received the silence and then exactly what was offered, up
   to what is queued, unless the queue overflowed.
   */
  lemma {:induction false} LosslessRun(ops: seq<Op>)
    requires forall i :: 0 <= i < |ops| ==> NoLoss(ops[i])
    ensures var (s, b) := Run(ops);
      s.dropped == 0 ==> Flat(b.played) + s.queued == Silence(CUSHION_FRAMES) + Offered(ops)
  {
    RunKeepsBooks(ops);
    LosslessHistory(ops);
  }

  lemma {:induction false} LosslessHistory(ops: seq<Op>)
    requires forall i :: 0 <= i < |ops| ==> NoLoss(ops[i])
    ensures var (s, b) := Run(ops);
      s.Accepting() && b.discarded == 0 && b.history == Silence(CUSHION_FRAMES) + Offered(ops)
  {
    if ops == [] {
      assert Silence(CUSHION_FRAMES) + [] == Silence(CUSHION_FRAMES);
    } else {
      var before := ops[..|ops| - 1];
      LosslessHistory(before);
      assert NoLoss(ops[|ops| - 1]);
      match ops[|ops| - 1]
      case Offer(samples) =>
        assert Silence(CUSHION_FRAMES) + Offered(before) + samples == Silence(CUSHION_FRAMES) + (Offered(before) + samples);
      case Draw =>
        assert Offered(before) + [] == Offered(before);
    }
  }
}
