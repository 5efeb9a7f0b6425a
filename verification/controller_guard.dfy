/**
 The gamepad burst guard of `native/src/dashboard/policy.rs`: a controller that floods the dashboard with edges is
 suspended until it has been quiet for a second.
 */
module ControllerGuard {
  import opened Wrappers

  const BURST_LIMIT := 12
  const WINDOW_MS := 1000

  datatype Guard = Guard(edgeTimes: seq<nat>, suspended: bool, lastEdgeAt: Option<nat>)

  const Fresh := Guard([], false, None)

  function SaturatingSub(a: nat, b: nat): nat {
    if a < b then 0 else a - b
  }

  /** The times that are still inside the window that ends at `now`, in their old order. */
  function Retain(times: seq<nat>, now: nat): seq<nat> {
    if times == [] then []
    else if SaturatingSub(now, times[0]) < WINDOW_MS then [times[0]] + Retain(times[1..], now)
    else Retain(times[1..], now)
  }

  /** One edge: the next guard, and whether the edge is accepted. */
  function Accept(g: Guard, now: nat): (Guard, bool) {
    if g.suspended then
      (g.(lastEdgeAt := Some(now)), false)
    else
      var times := Retain(g.edgeTimes, now) + [now];
      (Guard(times, |times| > BURST_LIMIT, Some(now)), |times| <= BURST_LIMIT)
  }

  /** One quiet check: the next guard, and whether the guard recovered. */
  function Recover(g: Guard, now: nat): (Guard, bool) {
    if g.suspended && g.lastEdgeAt.Some? && SaturatingSub(now, g.lastEdgeAt.value) >= WINDOW_MS
    then (Fresh, true)
    else (g, false)
  }

  /** The guard as the dashboard holds it: one record updated in place. */
  class Cell {
    var edgeTimes: seq<nat>
    var suspended: bool
    var lastEdgeAt: Option<nat>

    constructor ()
      ensures Value() == Fresh
    {
      edgeTimes, suspended, lastEdgeAt := [], false, None;
    }

    function Value(): Guard
      reads this
    {
      Guard(edgeTimes, suspended, lastEdgeAt)
    }

    method AcceptEdge(now: nat) returns (accepted: bool)
      modifies this
      ensures (Value(), accepted) == Accept(old(Value()), now)
    {
      lastEdgeAt := Some(now);
      if suspended {
        return false;
      }
      edgeTimes := Retain(edgeTimes, now);
      edgeTimes := edgeTimes + [now];
      if |edgeTimes| <= BURST_LIMIT {
        return true;
      }
      suspended := true;
      return false;
    }

    method RecoverIfQuiet(now: nat) returns (recovered: bool)
      modifies this
      ensures (Value(), recovered) == Recover(old(Value()), now)
    {
      if suspended && lastEdgeAt.Some? && SaturatingSub(now, lastEdgeAt.value) >= WINDOW_MS {
        edgeTimes, suspended, lastEdgeAt := [], false, None;
        return true;
      }
      return false;
    }
  }

  // ---- Runs ----

  datatype Action = Edge(at: nat) | Check(at: nat)

  /** What a run leaves behind: the guard, and the times of all accepted edges, oldest first. */
  datatype History = History(guard: Guard, accepted: seq<nat>)

  function Apply(h: History, action: Action): History {
    match action
    case Edge(now) =>
      var (g, ok) := Accept(h.guard, now);
      History(g, if ok then h.accepted + [now] else h.accepted)
    case Check(now) =>
      History(Recover(h.guard, now).0, h.accepted)
  }

  function Run(actions: seq<Action>): History {
    if actions == [] then History(Fresh, [])
    else Apply(Run(actions[..|actions| - 1]), actions[|actions| - 1])
  }

  ghost predicate Chronological(actions: seq<Action>) {
    forall i, j :: 0 <= i < j < |actions| ==> actions[i].at <= actions[j].at
  }

  /** How many of `times` lie in the half-open window of one second that starts at `low`. */
  function CountIn(times: seq<nat>, low: int): nat {
    if times == [] then 0
    else CountIn(times[..|times| - 1], low)
         + (if low <= times[|times| - 1] < low + WINDOW_MS then 1 else 0)
  }

  lemma {:induction false} CountAppend(times: seq<nat>, t: nat, low: int)
    ensures CountIn(times + [t], low) == CountIn(times, low) + (if low <= t < low + WINDOW_MS then 1 else 0)
  {
    assert (times + [t])[..|times|] == times;
  }

  lemma {:induction false} CountConcat(a: seq<nat>, b: seq<nat>, low: int)
    ensures CountIn(a + b, low) == CountIn(a, low) + CountIn(b, low)
  {
    if b == [] {
      assert a + b == a;
    } else {
      var front := b[..|b| - 1];
      assert a + b == (a + front) + [b[|b| - 1]];
      assert b == front + [b[|b| - 1]];
      CountAppend(a + front, b[|b| - 1], low);
      CountConcat(a, front, low);
    }
  }

  lemma {:induction false} CountBound(times: seq<nat>, low: int)
    ensures CountIn(times, low) <= |times|
  {
    if times != [] {
      CountBound(times[..|times| - 1], low);
    }
  }

  /** Dropping the stale times keeps the count of every window that starts after they went stale. */
  lemma {:induction false} RetainKeepsCount(times: seq<nat>, now: nat, low: int)
    requires low > now - WINDOW_MS
    ensures CountIn(Retain(times, now), low) == CountIn(times, low)
  {
    if times != [] {
      RetainKeepsCount(times[1..], now, low);
      assert times == [times[0]] + times[1..];
      CountConcat([times[0]], times[1..], low);
      assert [times[0]][..0] == [];
      CountConcat([times[0]], Retain(times[1..], now), low);
    }
  }

  /** A window that starts after every time is empty. */
  lemma {:induction false} CountLater(times: seq<nat>, low: int)
    requires forall i :: 0 <= i < |times| ==> times[i] < low
    ensures CountIn(times, low) == 0
  {
    if times != [] {
      CountLater(times[..|times| - 1], low);
    }
  }

  /**
   The state every chronological run keeps, where `last` is the latest time seen: no window is overfull, and while the
   guard is open its stored times account for every accepted edge a window still open at `last` could hold.
   */
  ghost predicate Kept(h: History, last: nat) {
    && (forall i :: 0 <= i < |h.accepted| ==> h.accepted[i] <= last)
    && (forall low: int :: CountIn(h.accepted, low) <= BURST_LIMIT)
    && |h.guard.edgeTimes| <= BURST_LIMIT + (if h.guard.suspended then 1 else 0)
    && (h.guard.suspended ==> h.guard.lastEdgeAt.Some?)
    && (h.guard.lastEdgeAt.Some? ==> h.guard.lastEdgeAt.value <= last)
    && (h.guard.lastEdgeAt.Some? ==> forall i :: 0 <= i < |h.accepted| ==> h.accepted[i] <= h.guard.lastEdgeAt.value)
    && (!h.guard.suspended ==>
          forall low: int :: low > last - WINDOW_MS ==>
            CountIn(h.accepted, low) == CountIn(h.guard.edgeTimes, low))
  }

  lemma {:induction false} EdgeKeeps(h: History, last: nat, now: nat)
    requires Kept(h, last) && last <= now
    ensures Kept(Apply(h, Edge(now)), now)
  {
    var next := Apply(h, Edge(now));
    if !h.guard.suspended {
      var times := Retain(h.guard.edgeTimes, now);
      RetainBound(h.guard.edgeTimes, now);
      forall low: int | low > now - WINDOW_MS
        ensures CountIn(h.accepted + [now], low) == CountIn(times + [now], low)
      {
        RetainKeepsCount(h.guard.edgeTimes, now, low);
        CountAppend(h.accepted, now, low);
        CountAppend(times, now, low);
      }
      forall low: int
        ensures CountIn(next.accepted, low) <= BURST_LIMIT
      {
        CountAppend(h.accepted, now, low);
        if next.accepted != h.accepted && low <= now < low + WINDOW_MS {
          CountBound(times + [now], low);
        }
      }
    }
  }

  lemma {:induction false} RetainBound(times: seq<nat>, now: nat)
    ensures |Retain(times, now)| <= |times|
  {
    if times != [] {
      RetainBound(times[1..], now);
    }
  }

  lemma {:induction false} CheckKeeps(h: History, last: nat, now: nat)
    requires Kept(h, last) && last <= now
    ensures Kept(Apply(h, Check(now)), now)
  {
    if Recover(h.guard, now).1 {
      forall low: int | low > now - WINDOW_MS
        ensures CountIn(h.accepted, low) == 0
      {
        CountLater(h.accepted, low);
      }
    }
  }

  /** Over every run with nondecreasing time, through any number of suspensions and recoveries. */
  lemma {:induction false} RunKeeps(actions: seq<Action>)
    requires Chronological(actions)
    ensures Kept(Run(actions), if actions == [] then 0 else actions[|actions| - 1].at)
  {
    if actions != [] {
      var front := actions[..|actions| - 1];
      RunKeeps(front);
      var last := if front == [] then 0 else front[|front| - 1].at;
      match actions[|actions| - 1]
      case Edge(now) => EdgeKeeps(Run(front), last, now);
      case Check(now) => CheckKeeps(Run(front), last, now);
    }
  }

  /** At most twelve edges are accepted in any second, and at most thirteen times are stored. */
  lemma BurstBound(actions: seq<Action>, low: int)
    requires Chronological(actions)
    ensures CountIn(Run(actions).accepted, low) <= BURST_LIMIT
    ensures |Run(actions).guard.edgeTimes| <= BURST_LIMIT + 1
  {
    RunKeeps(actions);
  }

  /** The time of the newest edge of a run, accepted or not, that no recovery has erased. */
  function LastEdge(actions: seq<Action>): Option<nat> {
    if actions == [] then None
    else
      var front := actions[..|actions| - 1];
      match actions[|actions| - 1]
      case Edge(now) => Some(now)
      case Check(now) => if Recover(Run(front).guard, now).1 then None else LastEdge(front)
  }

  lemma {:induction false} LastEdgeIsStored(actions: seq<Action>)
    ensures Run(actions).guard.lastEdgeAt == LastEdge(actions)
    ensures Run(actions).guard.suspended ==> LastEdge(actions).Some?
  {
    if actions != [] {
      LastEdgeIsStored(actions[..|actions| - 1]);
    }
  }

  /** A suspended guard comes back exactly at a check at least a second after its newest edge, and then as new. */
  lemma {:induction false} RecoversExactlyWhenQuiet(actions: seq<Action>, now: nat)
    requires Run(actions).guard.suspended
    ensures LastEdge(actions).Some?
    ensures var (g, recovered) := Recover(Run(actions).guard, now);
      (recovered <==> now >= LastEdge(actions).value + WINDOW_MS) && (recovered ==> g == Fresh)
      && (!recovered ==> g == Run(actions).guard)
  {
    LastEdgeIsStored(actions);
  }
}
