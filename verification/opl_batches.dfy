/**
 Batches of chip frames and the callbacks that change the chip (`native/doom/opl_retrodeck.c`): no callback runs while a
 frame that was generated before it still waits to be heard, although the clock moves by a rounded-down step.
 */
module OplBatches {
  import opened Arithmetic
  import opened OplClock

  // ---- The rounded clock ----

  lemma TimesAssociates(a: nat, b: nat, c: nat)
    ensures Times(Times(a, b), c) == Times(a, Times(b, c))
  {
  }

  lemma TimesCancels(a: nat, b: nat, c: nat)
    requires Times(a, c) < Times(b, c)
    ensures a < b
  {
    if b <= a {
      TimesMonotone(b, a, c);
    }
  }

  lemma TimesMonotoneRight(a: nat, b: nat, c: nat)
    requires b <= c
    ensures Times(a, b) <= Times(a, c)
  {
  }

  /** Frames that end before the one a callback falls into end before it on the rounded clock too. */
  lemma RoundedClockIsEarly(k: nat, d: nat, rate: nat)
    requires rate > 0 && k < FramesUntil(d, rate)
    ensures Times(k, Tick(rate)) < d
  {
    hide Times, Quot;
    var n := Times(d, rate) + (OPL_SECOND - 1);
    QuotRange(n, OPL_SECOND);
    TimesNext(k, OPL_SECOND);
    TimesMonotone(k + 1, FramesUntil(d, rate), OPL_SECOND);
    assert Times(k, OPL_SECOND) < Times(d, rate);
    QuotRange(OPL_SECOND, rate);
    TimesMonotoneRight(k, Times(Tick(rate), rate), OPL_SECOND);
    TimesAssociates(k, Tick(rate), rate);
    TimesCancels(Times(k, Tick(rate)), d, rate);
  }

  lemma {:induction false} ClockAfter(m: Music, rate: nat, n: nat)
    requires Valid(m) && rate > 0
    ensures Frames(m, rate, n).time == m.time + Times(n, Tick(rate))
  {
    hide Frame, Times;
    TimesNext(0, Tick(rate));
    if n > 0 {
      ClockAfter(m, rate, n - 1);
      FrameIsValid(Frames(m, rate, n - 1), rate);
      TimesNext(n - 1, Tick(rate));
    }
  }

  /** The clock runs true exactly when the rate divides a second; otherwise every frame loses a part of a microsecond. */
  lemma ClockIsExactWhenRateDivides(m: Music, rate: nat, n: nat)
    requires Valid(m) && rate > 0 && n > 0
    ensures var elapsed := Times(n, Tick(rate));
      && Frames(m, rate, n).time == m.time + elapsed
      && Times(elapsed, rate) <= Times(n, OPL_SECOND)
      && (Times(elapsed, rate) == Times(n, OPL_SECOND) <==> OPL_SECOND % rate == 0)
  {
    hide Frames, Times, Quot;
    ClockAfter(m, rate, n);
    TimesAssociates(n, Tick(rate), rate);
    DivMeans(OPL_SECOND, rate);
    TickIsQuotient(rate);
    var whole := Times(Tick(rate), rate);
    TimesMonotoneRight(n, whole, OPL_SECOND);
    if OPL_SECOND % rate != 0 {
      TimesMonotoneRight(n, whole + 1, OPL_SECOND);
      TimesGrows(n, whole);
    }
  }

  lemma TickIsQuotient(rate: nat)
    requires rate > 0
    ensures Tick(rate) == OPL_SECOND / rate
  {
  }

  lemma TimesGrows(a: nat, b: nat)
    requires a > 0
    ensures Times(a, b) < Times(a, b + 1)
  {
  }

  // ---- Batches ----

  /** How far a queued callback is from being due. */
  function Distance(m: Music, due: nat): int {
    due + m.offset - m.time
  }

  /** The clock cannot reach a callback while more than one frame of the batch is left. */
  predicate Clear(m: Music, due: nat, tick: nat)
    requires m.consumed <= m.available
  {
    m.consumed + 1 < m.available ==> Times(m.available - m.consumed - 1, tick) < Distance(m, due)
  }

  predicate Held(m: Music, tick: nat)
    requires m.consumed <= m.available
  {
    forall i :: 0 <= i < |m.queue| ==> Clear(m, m.queue[i], tick)
  }

  /** The frame to come is the last one in hand, or there is none in hand. */
  predicate LastInHand(m: Music) {
    m.consumed + 1 >= m.available
  }

  lemma NotYetDue(m: Music, tick: nat)
    requires Valid(m) && Held(m, tick) && !LastInHand(m)
    ensures var moved := m.(consumed := m.consumed + 1, time := m.time + tick);
      !Due(moved) && Held(moved, tick)
    ensures var both := m.(consumed := m.consumed + 1, time := m.time + tick, offset := m.offset + tick);
      Held(both, tick)
  {
    var left := m.available - m.consumed - 1;
    TimesNext(left - 1, tick);
    TimesNext(0, tick);
    hide Times;
    var moved := m.(consumed := m.consumed + 1, time := m.time + tick);
    var both := moved.(offset := m.offset + tick);
    forall i | 0 <= i < |m.queue|
      ensures Distance(moved, m.queue[i]) > 0 && Clear(moved, m.queue[i], tick) && Clear(both, m.queue[i], tick)
    {
      assert Clear(m, m.queue[i], tick);
      TimesMonotone(1, left, tick);
      TimesNext(1 - 1, tick);
    }
    if m.queue != [] {
      assert Distance(moved, m.queue[0]) > 0;
    }
  }

  /** While more than one frame is in hand, a frame runs no callback, and the batch stays held. */
  lemma FrameInsideBatch(m: Music, rate: nat)
    requires Valid(m) && rate > 0 && Held(m, Tick(rate)) && !LastInHand(m)
    ensures var after := Frame(m, rate);
      after.calls == m.calls && after.queue == m.queue && after.consumed == m.consumed + 1
      && after.available == m.available && Held(after, Tick(rate))
  {
    NotYetDue(m, Tick(rate));
    hide Held, Tick;
  }

  lemma LastFrameHolds(m: Music, tick: nat)
    requires m.consumed <= m.available && m.consumed + 1 >= m.available
    ensures Held(m, tick)
  {
    forall i | 0 <= i < |m.queue|
      ensures Clear(m, m.queue[i], tick)
    {
    }
  }

  /** A batch that is begun unpaused stops before the first callback. */
  lemma RefillHolds(m: Music, rate: nat)
    requires Valid(m) && rate > 0 && (m.paused ==> m.queue == [])
    ensures Valid(Refill(m, rate)) && Held(Refill(m, rate), Tick(rate))
    ensures Refill(m, rate).calls != m.calls ==> Refill(m, rate).available == 1
  {
    SpanIsSmall(m, rate);
    RunDueIsValid(m);
    RunDueKeepsTime(m);
    assert m.(time := m.time + 0) == m;
    var r := Refill(m, rate);
    if !m.paused && Due(m) {
      LastFrameHolds(r, Tick(rate));
    } else if m.queue != [] && r.available >= 2 {
      var d := m.queue[0] + m.offset - m.time;
      assert r.available <= FramesUntil(d, rate);
      RoundedClockIsEarly(r.available - 1, d, rate);
      hide FramesUntil, Times, Tick;
      forall i | 0 <= i < |r.queue|
        ensures Clear(r, r.queue[i], Tick(rate))
      {
        assert m.queue[0] <= m.queue[i];
      }
    }
  }

  // ---- Runs ----

  /** One thing that happens to the driver: a chip frame is pulled, or the game asks for something. */
  datatype Op = Pull | Game(request: Request)

  function Next(m: Music, op: Op, rate: nat): Music
    requires Valid(m) && rate > 0
  {
    match op
    case Pull => Frame(m, rate)
    case Game(request) => Apply(m, request)
  }

  /** A whole batch, but for its first two frames, ends before the first callback. */
  predicate FarAway(m: Music, rate: nat)
    requires rate > 0
  {
    m.queue == [] || Times(CHIP_BATCH_FRAMES - 2, Tick(rate)) < Distance(m, m.queue[0])
  }

  /**
   A batch is begun on a paused clock only when the first callback is far away, and nothing is scheduled inside the batch in
   hand.
   */
  predicate Considerate(m: Music, op: Op, rate: nat)
    requires Valid(m) && rate > 0
  {
    match op
    case Pull => m.consumed >= m.available && m.paused ==> FarAway(m, rate)
    case Game(Schedule(us)) => !LastInHand(m) ==> Times(m.available - m.consumed - 1, Tick(rate)) < us
    case Game(_) => true
  }

  lemma ScheduleHolds(m: Music, us: nat, rate: nat)
    requires Valid(m) && rate > 0 && Held(m, Tick(rate)) && Considerate(m, Game(Schedule(us)), rate)
    ensures Held(Apply(m, Schedule(us)), Tick(rate))
  {
    var after := Apply(m, Schedule(us));
    var due := m.time - m.offset + us;
    InsertHolds(m.queue, due);
    hide Times, Tick, Insert, Quot;
    forall i | 0 <= i < |after.queue|
      ensures Clear(after, after.queue[i], Tick(rate))
    {
      if after.queue[i] != due {
        var j :| 0 <= j < |m.queue| && m.queue[j] == after.queue[i];
        assert Clear(m, m.queue[j], Tick(rate));
      }
    }
  }

  lemma GameHolds(m: Music, request: Request, rate: nat)
    requires Valid(m) && rate > 0 && Held(m, Tick(rate)) && Considerate(m, Game(request), rate)
    ensures Held(Apply(m, request), Tick(rate)) && Valid(Apply(m, request))
  {
    ApplyIsValid(m, request);
    hide Times, Tick, Insert, Quot;
    if request.Schedule? {
      ScheduleHolds(m, request.us, rate);
    } else {
      var after := Apply(m, request);
      forall i | 0 <= i < |after.queue|
        ensures Clear(after, after.queue[i], Tick(rate))
      {
        assert Clear(m, m.queue[i], Tick(rate));
      }
    }
  }

  /** On a paused clock a new batch is a whole one; its first frame runs nothing and brings no callback nearer. */
  lemma PausedFrame(m: Music, rate: nat)
    requires Valid(m) && rate > 0 && m.consumed >= m.available && m.paused
    ensures Frame(m, rate) == m.(time := m.time + Tick(rate), offset := m.offset + Tick(rate),
                                 available := CHIP_BATCH_FRAMES, consumed := 1)
  {
    hide Tick;
  }

  /** It holds exactly when the first callback is far away. */
  lemma PausedBatchHolds(m: Music, rate: nat)
    requires Valid(m) && rate > 0 && m.consumed >= m.available && m.paused
    ensures Held(Frame(m, rate), Tick(rate)) <==> FarAway(m, rate)
  {
    PausedFrame(m, rate);
    hide Times, Tick, Frame;
    var after := Frame(m, rate);
    assert Held(after, Tick(rate)) && m.queue != [] ==> Clear(after, after.queue[0], Tick(rate));
    if FarAway(m, rate) {
      forall i | 0 <= i < |after.queue|
        ensures Clear(after, after.queue[i], Tick(rate))
      {
        assert m.queue[0] <= m.queue[i];
      }
    }
  }

  /** The first frame of a new batch of one frame spends it. */
  lemma PullHolds(m: Music, rate: nat)
    requires Valid(m) && rate > 0 && Held(m, Tick(rate)) && Considerate(m, Pull, rate)
    ensures Valid(Frame(m, rate)) && Held(Frame(m, rate), Tick(rate))
    ensures Frame(m, rate).calls != m.calls ==> Frame(m, rate).consumed == Frame(m, rate).available
  {
    FrameIsValid(m, rate);
    if m.consumed >= m.available && m.paused {
      PausedBatchHolds(m, rate);
      PausedFrame(m, rate);
    } else if m.consumed >= m.available {
      RefillHolds(m, rate);
      SpanIsSmall(m, rate);
      RefilledFrame(m, rate);
      PullInHand(Refill(m, rate), rate);
    } else {
      PullInHand(m, rate);
    }
  }

  lemma RefilledFrame(m: Music, rate: nat)
    requires Valid(m) && rate > 0 && m.consumed >= m.available && Valid(Refill(m, rate))
    ensures Refill(m, rate).consumed < Refill(m, rate).available
    ensures Frame(m, rate) == Frame(Refill(m, rate), rate)
  {
    SpanIsSmall(m, rate);
    RefillKeepsTime(m, rate);
    hide Span, RunDue;
  }

  lemma PullInHand(m: Music, rate: nat)
    requires Valid(m) && rate > 0 && Held(m, Tick(rate)) && m.consumed < m.available
    ensures Valid(Frame(m, rate)) && Held(Frame(m, rate), Tick(rate)) && Frame(m, rate).available == m.available
    ensures Frame(m, rate).consumed == m.consumed + 1
    ensures Frame(m, rate).calls != m.calls ==> Frame(m, rate).consumed == Frame(m, rate).available
  {
    FrameIsValid(m, rate);
    if LastInHand(m) {
      var moved := m.(consumed := m.consumed + 1, time := m.time + Tick(rate));
      RunDueKeepsTime(moved);
      LastFrameHolds(Frame(m, rate), Tick(rate));
    } else {
      FrameInsideBatch(m, rate);
    }
  }

  ghost predicate RunOf(states: seq<Music>, ops: seq<Op>, rate: nat)
    requires rate > 0
  {
    && |states| == |ops| + 1
    && (forall i :: 0 <= i < |states| ==> Valid(states[i]))
    && forall i :: 0 <= i < |ops| ==> StepOf(states, ops, rate, i)
  }

  ghost predicate StepOf(states: seq<Music>, ops: seq<Op>, rate: nat, i: nat)
    requires rate > 0 && i < |ops| < |states|
  {
    Valid(states[i]) && Considerate(states[i], ops[i], rate) && states[i + 1] == Next(states[i], ops[i], rate)
  }

  /** A callback ran in step `i`. */
  predicate Called(states: seq<Music>, i: nat)
    requires i + 1 < |states|
  {
    states[i + 1].calls != states[i].calls
  }

  lemma {:induction false} RunHolds(states: seq<Music>, ops: seq<Op>, rate: nat, n: nat)
    requires rate > 0 && RunOf(states, ops, rate) && n <= |ops|
    requires states[0].available == states[0].consumed
    ensures Held(states[n], Tick(rate))
  {
    if n == 0 {
      LastFrameHolds(states[0], Tick(rate));
    } else {
      RunHolds(states, ops, rate, n - 1);
      assert StepOf(states, ops, rate, n - 1);
      hide Held, Frame, Tick, Considerate;
      match ops[n - 1]
      case Pull => PullHolds(states[n - 1], rate);
      case Game(request) => GameHolds(states[n - 1], request, rate);
    }
  }

  /**
   Over every considerate run, whenever a callback runs, every chip frame generated so far has been consumed: no frame
   is heard after a change that came too late for it.
   */
  lemma CallbacksRunBetweenBatches(states: seq<Music>, ops: seq<Op>, rate: nat, i: nat)
    requires rate > 0 && RunOf(states, ops, rate) && i < |ops|
    requires states[0].available == states[0].consumed
    ensures Called(states, i) ==> states[i + 1].consumed == states[i + 1].available
  {
    RunHolds(states, ops, rate, i);
    assert StepOf(states, ops, rate, i);
    hide Held, Frame, Tick;
    if ops[i].Pull? {
      PullHolds(states[i], rate);
    }
  }

  // ---- What happens otherwise ----

  lemma {:induction false} DueIsCalled(m: Music)
    requires Valid(m)
    ensures |m.calls| <= |RunDue(m).calls|
    ensures m.locks == 0 && Due(m) ==> |m.calls| < |RunDue(m).calls|
    decreases |m.script|, |m.queue|
  {
    if m.locks == 0 && Due(m) {
      CallFirstIsValid(m);
      DueIsCalled(CallFirst(m));
    }
  }

  lemma {:induction false} FramesFromFirst(m: Music, rate: nat, n: nat)
    requires Valid(m) && rate > 0 && Valid(Frame(m, rate))
    ensures Frames(m, rate, n + 1) == Frames(Frame(m, rate), rate, n)
  {
    hide Frame;
    if n > 0 {
      FramesFromFirst(m, rate, n - 1);
    } else {
      assert Frames(m, rate, 0) == m;
    }
  }

  /** A frame that runs no callback has not reached any. */
  lemma QuietFrame(m: Music, due: nat, rate: nat)
    requires Valid(m) && rate > 0 && !m.paused && m.locks == 0 && due in m.queue && m.consumed < m.available
    requires |Frame(m, rate).calls| <= |m.calls|
    ensures Frame(m, rate) == m.(consumed := m.consumed + 1, time := m.time + Tick(rate))
    ensures Distance(m, due) > Tick(rate)
  {
    var moved := m.(consumed := m.consumed + 1, time := m.time + Tick(rate));
    DueIsCalled(moved);
    var j :| 0 <= j < |m.queue| && m.queue[j] == due;
    assert m.queue[0] <= due;
  }

  /** A callback the clock reaches within `n` frames of the batch in hand runs within them. */
  lemma {:induction false} ReachedInsideBatch(m: Music, due: nat, rate: nat, n: nat) returns (k: nat)
    requires Valid(m) && rate > 0 && !m.paused && m.locks == 0 && due in m.queue
    requires 1 <= n && m.consumed + n <= m.available && Distance(m, due) <= Times(n, Tick(rate))
    ensures 1 <= k <= n && |Frames(m, rate, k).calls| > |m.calls|
    decreases n
  {
    FrameIsValid(m, rate);
    FramesFromFirst(m, rate, 0);
    assert Frames(Frame(m, rate), rate, 0) == Frame(m, rate);
    k := 1;
    if |Frame(m, rate).calls| <= |m.calls| {
      QuietFrame(m, due, rate);
      TimesNext(n - 1, Tick(rate));
      TimesNext(0, Tick(rate));
      hide Frame, Frames, Times, Tick, Sorted;
      assert n != 1;
      k := ReachedInsideBatch(Frame(m, rate), due, rate, n - 1);
      FramesFromFirst(m, rate, k);
      k := k + 1;
    }
  }

  /** The game lets the clock run on: it gives back every lock and ends the pause. */
  function LetRun(m: Music): Music {
    m.(locks := 0, paused := false)
  }

  lemma {:induction false} LetRunIsAsked(m: Music) returns (rs: seq<Request>)
    requires m.offset <= m.time
    ensures ApplyAll(m, rs) == LetRun(m) && forall i :: 0 <= i < |rs| ==> rs[i] in [Unlock, SetPaused(false)]
    decreases m.locks
  {
    if m.locks == 0 {
      rs := [SetPaused(false)];
      assert ApplyAll(m, rs) == ApplyAll(Apply(m, SetPaused(false)), []);
    } else {
      rs := LetRunIsAsked(Apply(m, Unlock));
      assert ([Unlock] + rs)[1..] == rs;
      rs := [Unlock] + rs;
    }
  }

  /**
   The condition on scheduling is exact: a callback scheduled inside the batch in hand has some callback run while a frame
   generated before it is still to be heard, when the game lets the clock run on.
   */
  lemma ScheduleInsideBatchOverruns(m: Music, us: nat, rate: nat) returns (k: nat)
    requires Valid(m) && rate > 0
    requires !Considerate(m, Game(Schedule(us)), rate)
    ensures var after := LetRun(Apply(m, Schedule(us)));
      && Valid(after) && 1 <= k && after.consumed + k < after.available
      && |Frames(after, rate, k).calls| > |m.calls|
  {
    var due := m.time - m.offset + us;
    ApplyIsValid(m, Schedule(us));
    var after := LetRun(Apply(m, Schedule(us)));
    InsertHolds(m.queue, due);
    assert due in multiset(after.queue);
    k := ReachedInsideBatch(after, due, rate, m.available - m.consumed - 1);
  }

  /**
   So is the condition on a paused clock: a batch begun there with the first callback not far away overruns it, when the
   game lets the clock run on after the first frame.
   */
  lemma PausedBatchOverruns(m: Music, rate: nat) returns (k: nat)
    requires Valid(m) && rate > 0
    requires !Considerate(m, Pull, rate)
    ensures var after := LetRun(Frame(m, rate));
      && Valid(after) && 1 <= k && after.consumed + k < after.available
      && |Frames(after, rate, k).calls| > |m.calls|
  {
    PausedFrame(m, rate);
    FrameIsValid(m, rate);
    var after := LetRun(Frame(m, rate));
    hide Times, Tick, Frame, Frames;
    assert m.queue[0] in after.queue;
    k := ReachedInsideBatch(after, m.queue[0], rate, CHIP_BATCH_FRAMES - 2);
  }

  // ---- Punctuality ----

  /** No queued callback is later than `slack` behind the clock. */
  predicate Recent(m: Music, slack: nat) {
    forall i :: 0 <= i < |m.queue| ==> m.time < m.queue[i] + m.offset + slack
  }

  /** The calls from `from` on ran when they were due or less than `slack` later. */
  predicate Punctual(m: Music, from: nat, slack: nat) {
    forall i :: from <= i < |m.calls| ==> m.calls[i].due <= m.calls[i].at < m.calls[i].due + slack
  }

  lemma {:induction false} RequestsStayRecent(m: Music, rs: seq<Request>, slack: nat)
    requires Valid(m) && Recent(m, slack) && slack > 0
    ensures Recent(ApplyAll(m, rs), slack)
    decreases |rs|
  {
    if rs != [] {
      ApplyIsValid(m, rs[0]);
      if rs[0].Schedule? {
        InsertHolds(m.queue, m.time - m.offset + rs[0].us);
        forall i | 0 <= i < |Apply(m, rs[0]).queue|
          ensures m.time < Apply(m, rs[0]).queue[i] + m.offset + slack
        {
          if Apply(m, rs[0]).queue[i] in m.queue {
            var j :| 0 <= j < |m.queue| && m.queue[j] == Apply(m, rs[0]).queue[i];
          }
        }
      }
      RequestsStayRecent(Apply(m, rs[0]), rs[1..], slack);
    }
  }

  lemma {:induction false} RunDueIsPunctual(m: Music, from: nat, slack: nat)
    requires Valid(m) && Recent(m, slack) && slack > 0 && Punctual(m, from, slack)
    ensures Punctual(RunDue(m), from, slack)
    ensures RunDue(m).locks == 0 ==> !Due(RunDue(m))
    decreases |m.script|, |m.queue|
  {
    if m.locks == 0 && Due(m) {
      var called := m.(queue := m.queue[1..], calls := m.calls + [Call(m.queue[0] + m.offset, m.time)]);
      assert Recent(called, slack);
      if m.script != [] {
        RequestsStayRecent(called.(script := m.script[1..]), m.script[0], slack);
      }
      CallFirstIsValid(m);
      var next := CallFirst(m);
      assert next.calls == called.calls;
      RunDueIsPunctual(next, from, slack);
    }
  }

  /**
   From a state in which nothing is overdue, every callback a frame runs is due within that frame, and afterwards nothing
   is overdue unless the callbacks were locked out.
   */
  lemma FrameIsPunctual(m: Music, rate: nat)
    requires Valid(m) && rate > 0 && !m.paused && !Due(m)
    ensures var after := Frame(m, rate);
      Punctual(after, |m.calls|, Tick(rate) + 1) && (after.locks == 0 ==> !Due(after))
  {
    assert m.(time := m.time + 0) == m;
    SpanIsSmall(m, rate);
    var ready := Ready(m, rate);
    assert ready.queue == m.queue && ready.calls == m.calls && ready.time == m.time && ready.offset == m.offset;
    assert ready.paused == m.paused && Valid(ready);
    var moved := ready.(consumed := ready.consumed + 1, time := ready.time + Tick(rate));
    forall i | 0 <= i < |moved.queue|
      ensures moved.time < moved.queue[i] + moved.offset + (Tick(rate) + 1)
    {
      assert m.queue[0] <= m.queue[i];
    }
    RunDueIsPunctual(moved, |m.calls|, Tick(rate) + 1);
  }
}
