/**
 The music driver's clock and callback queue (`native/doom/opl_retrodeck.c`): what every operation does to them, as
 functions of a value. The priority queue itself (`opl_queue.c`) is not part of this model: it is a sorted sequence of
 due times. Music callbacks are a finite script of what they do to the driver.
 */
module OplClock {
  import opened Arithmetic

  const OPL_SECOND: nat := 1_000_000
  const CHIP_BATCH_FRAMES: nat := 256

  /** What the game, or a music callback, does to the driver. */
  datatype Request = Schedule(us: nat) | ClearCallbacks | Lock | Unlock | SetPaused(paused: bool)

  /** A callback that ran: when it was due and when it ran, on the emulated clock. */
  datatype Call = Call(due: nat, at: nat)

  datatype Music = Music(time: nat, offset: nat, paused: bool, locks: nat, queue: seq<nat>, script: seq<seq<Request>>,
                         calls: seq<Call>, available: nat, consumed: nat)

  predicate Sorted(q: seq<nat>) {
    forall i, j :: 0 <= i < j < |q| ==> q[i] <= q[j]
  }

  predicate Valid(m: Music) {
    m.offset <= m.time && Sorted(m.queue) && m.consumed <= m.available <= CHIP_BATCH_FRAMES
  }

  function Insert(q: seq<nat>, due: nat): seq<nat> {
    if q == [] || due < q[0] then [due] + q else [q[0]] + Insert(q[1..], due)
  }

  lemma {:induction false} InsertHolds(q: seq<nat>, due: nat)
    ensures multiset(Insert(q, due)) == multiset(q) + multiset{due}
    ensures forall i :: 0 <= i < |Insert(q, due)| ==> Insert(q, due)[i] == due || Insert(q, due)[i] in q
  {
    if q != [] && q[0] <= due {
      InsertHolds(q[1..], due);
      assert q == [q[0]] + q[1..];
    } else {
      assert Insert(q, due) == [due] + q;
    }
  }

  lemma {:induction false} InsertSorts(q: seq<nat>, due: nat)
    requires Sorted(q)
    ensures Sorted(Insert(q, due))
  {
    if q != [] && q[0] <= due {
      InsertSorts(q[1..], due);
      InsertHolds(q[1..], due);
      forall i | 0 <= i < |Insert(q[1..], due)|
        ensures q[0] <= Insert(q[1..], due)[i]
      {
        if Insert(q[1..], due)[i] in q[1..] {
          var j :| 0 <= j < |q[1..]| && q[1..][j] == Insert(q[1..], due)[i];
        }
      }
    }
  }

  function Apply(m: Music, r: Request): Music
    requires m.offset <= m.time
  {
    match r
    case Schedule(us) => m.(queue := Insert(m.queue, m.time - m.offset + us))
    case ClearCallbacks => m.(queue := [])
    case Lock => m.(locks := m.locks + 1)
    case Unlock => if m.locks > 0 then m.(locks := m.locks - 1) else m
    case SetPaused(paused) => m.(paused := paused)
  }

  function ApplyAll(m: Music, rs: seq<Request>): (r: Music)
    requires m.offset <= m.time
    ensures r.offset == m.offset && r.time == m.time && r.script == m.script && r.calls == m.calls
    ensures r.available == m.available && r.consumed == m.consumed
    decreases |rs|
  {
    if rs == [] then m else ApplyAll(Apply(m, rs[0]), rs[1..])
  }

  predicate Due(m: Music) {
    m.queue != [] && m.queue[0] + m.offset <= m.time
  }

  /** The first callback is taken from the queue and runs. */
  function CallFirst(m: Music): Music
    requires m.offset <= m.time && m.queue != []
  {
    var called := m.(queue := m.queue[1..], calls := m.calls + [Call(m.queue[0] + m.offset, m.time)]);
    if m.script == [] then called else ApplyAll(called.(script := m.script[1..]), m.script[0])
  }

  function RunDue(m: Music): Music
    requires m.offset <= m.time
    decreases |m.script|, |m.queue|
  {
    if m.locks == 0 && Due(m) then RunDue(CallFirst(m)) else m
  }

  /** How far one chip frame moves the clock: the quotient is rounded down. */
  function Tick(rate: nat): nat
    requires rate > 0
  {
    Quot(OPL_SECOND, rate)
  }

  function Advance(m: Music, us: nat): Music
    requires m.offset <= m.time
  {
    var moved := m.(time := m.time + us);
    if m.paused then moved.(offset := m.offset + us) else RunDue(moved)
  }

  /** The chip frames up to the time a callback is due, rounded up. */
  function FramesUntil(us: nat, rate: nat): nat {
    Quot(Times(us, rate) + (OPL_SECOND - 1), OPL_SECOND)
  }

  function Span(m: Music, rate: nat): nat {
    if m.paused || m.queue == [] then CHIP_BATCH_FRAMES
    else if m.queue[0] + m.offset <= m.time then 1
    else
      var frames := FramesUntil(m.queue[0] + m.offset - m.time, rate);
      if frames < CHIP_BATCH_FRAMES then (if frames == 0 then 1 else frames) else CHIP_BATCH_FRAMES
  }

  function Refill(m: Music, rate: nat): Music
    requires m.offset <= m.time
  {
    var ready := if !m.paused && Due(m) then Advance(m, 0) else m;
    ready.(available := Span(m, rate), consumed := 0)
  }

  /** A frame comes out of the batch in hand, or of a new one. */
  function Ready(m: Music, rate: nat): (r: Music)
    requires m.offset <= m.time
    ensures r.offset <= r.time
  {
    RefillKeepsTime(m, rate);
    if m.consumed >= m.available then Refill(m, rate) else m
  }

  function Frame(m: Music, rate: nat): Music
    requires m.offset <= m.time && rate > 0
  {
    var ready := Ready(m, rate);
    Advance(ready.(consumed := ready.consumed + 1), Tick(rate))
  }

  function Frames(m: Music, rate: nat, n: nat): Music
    requires Valid(m) && rate > 0
    ensures Valid(Frames(m, rate, n))
    decreases n
  {
    if n == 0 then m
    else
      var before := Frames(m, rate, n - 1);
      FrameIsValid(before, rate);
      Frame(before, rate)
  }

  function Start(script: seq<seq<Request>>): Music {
    Music(0, 0, false, 0, [], script, [], 0, 0)
  }

  // ---- What every operation keeps ----

  lemma ApplyIsValid(m: Music, r: Request)
    requires Valid(m)
    ensures Valid(Apply(m, r))
  {
    if r.Schedule? {
      InsertSorts(m.queue, m.time - m.offset + r.us);
    }
  }

  lemma {:induction false} ApplyAllIsValid(m: Music, rs: seq<Request>)
    requires Valid(m)
    ensures Valid(ApplyAll(m, rs))
    decreases |rs|
  {
    if rs != [] {
      ApplyIsValid(m, rs[0]);
      ApplyAllIsValid(Apply(m, rs[0]), rs[1..]);
    }
  }

  lemma CallFirstIsValid(m: Music)
    requires Valid(m) && m.queue != []
    ensures Valid(CallFirst(m))
  {
    var called := m.(queue := m.queue[1..], calls := m.calls + [Call(m.queue[0] + m.offset, m.time)]);
    if m.script != [] {
      ApplyAllIsValid(called.(script := m.script[1..]), m.script[0]);
    }
  }

  lemma {:induction false} RunDueKeepsTime(m: Music)
    requires m.offset <= m.time
    ensures var r := RunDue(m); r.time == m.time && r.offset == m.offset && r.available == m.available
                                && r.consumed == m.consumed
    decreases |m.script|, |m.queue|
  {
    if m.locks == 0 && Due(m) {
      RunDueKeepsTime(CallFirst(m));
    }
  }

  lemma {:induction false} RunDueIsValid(m: Music)
    requires Valid(m)
    ensures Valid(RunDue(m))
    decreases |m.script|, |m.queue|
  {
    if m.locks == 0 && Due(m) {
      CallFirstIsValid(m);
      RunDueIsValid(CallFirst(m));
    }
  }

  lemma RefillKeepsTime(m: Music, rate: nat)
    requires m.offset <= m.time
    ensures Refill(m, rate).offset <= Refill(m, rate).time
    ensures Refill(m, rate).offset == m.offset && Refill(m, rate).time == m.time
  {
    RunDueKeepsTime(m);
    assert m.(time := m.time + 0) == m;
  }

  lemma SpanIsSmall(m: Music, rate: nat)
    ensures 1 <= Span(m, rate) <= CHIP_BATCH_FRAMES
  {
  }

  lemma FrameIsValid(m: Music, rate: nat)
    requires Valid(m) && rate > 0
    ensures Valid(Frame(m, rate)) && Frame(m, rate).time == m.time + Tick(rate)
  {
    RefillKeepsTime(m, rate);
    RunDueIsValid(m);
    assert m.(time := m.time + 0) == m;
    SpanIsSmall(m, rate);
    var ready := Ready(m, rate);
    assert Valid(ready) && ready.consumed < ready.available;
    var moved := ready.(consumed := ready.consumed + 1, time := ready.time + Tick(rate));
    RunDueIsValid(moved);
    RunDueKeepsTime(moved);
  }
}
