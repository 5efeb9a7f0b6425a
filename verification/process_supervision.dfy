/**
 Stopping a launched program (`native/src/process.rs`): TERM first, KILL only after a grace period, and what is reported.
 Everything the system answers is given in advance: the turns of the polling loop, in the order of the clock.
 */
module ProcessSupervision {
  import opened Wrappers

  datatype StopRequest = Nothing | Touch | Shutdown

  datatype Signal = Term | Kill

  /** A signal that was sent, and when. */
  datatype Sent = Sent(signal: Signal, at: nat)

  /** One turn of the loop: whether waiting for the child failed, what the user asked for, and when the turn ended. */
  datatype Turn = Turn(waitFailed: bool, request: StopRequest, now: nat)

  /** One look at the child's group after the child has ended. */
  datatype Look = Look(there: bool, now: nat, request: StopRequest)

  datatype Status = Status(code: Option<int>, signal: Option<int>)

  datatype ChildResult = ChildResult(exitedForTouch: bool, shutdownRequested: bool, status: Option<Status>, waitError: bool)

  predicate InOrder(turns: seq<Turn>) {
    forall i, j :: 0 <= i < j < |turns| ==> turns[i].now <= turns[j].now
  }

  /** The clock does not go back, and a group that is gone stays gone. */
  predicate GroupInOrder(looks: seq<Look>) {
    && (forall i, j :: 0 <= i < j < |looks| ==> looks[i].now <= looks[j].now)
    && (forall i, j :: 0 <= i < j < |looks| && looks[j].there ==> looks[i].there)
  }

  /** At most one TERM, and no KILL before the grace has passed since it. */
  predicate Graceful(sent: seq<Sent>, grace: nat) {
    && (forall i :: 0 <= i < |sent| ==> (sent[i].signal == Term <==> i == 0))
    && (forall i :: 0 < i < |sent| ==> sent[i].at >= sent[0].at + grace)
  }

  /** The first look that finds the group gone or the grace over. */
  function StopsLooking(looks: seq<Look>, termAt: nat, grace: nat, from: nat): (n: nat)
    requires from <= |looks|
    ensures from <= n <= |looks|
    ensures forall i :: from <= i < n ==> looks[i].there && looks[i].now < termAt + grace
    ensures n < |looks| ==> !looks[n].there || looks[n].now >= termAt + grace
    decreases |looks| - from
  {
    if from == |looks| || !looks[from].there || looks[from].now >= termAt + grace then from
    else StopsLooking(looks, termAt, grace, from + 1)
  }

  /** The device was told to shut down while the rest of the group was given its time. */
  predicate ShutdownMeanwhile(looks: seq<Look>, termAt: nat, grace: nat) {
    exists i :: 0 <= i < StopsLooking(looks, termAt, grace, 0) && looks[i].request == Shutdown
  }

  /**
   After the child has ended: the rest of its group gets what is left of the grace. The last look, after the loop, finds
   the group at `end`.
   */
  method FinishStoppedGroup(looks: seq<Look>, end: Look, termAt: nat, grace: nat) returns (shutdown: bool, sent: seq<Sent>)
    requires GroupInOrder(looks + [end])
    requires looks != [] && (!looks[|looks| - 1].there || looks[|looks| - 1].now >= termAt + grace)
    ensures sent == if end.there then [Sent(Kill, end.now)] else []
    ensures end.there ==> end.now >= termAt + grace
    ensures shutdown <==> ShutdownMeanwhile(looks, termAt, grace)
  {
    shutdown := false;
    var n := 0;
    while looks[n].there && looks[n].now < termAt + grace
      invariant n < |looks|
      invariant StopsLooking(looks, termAt, grace, 0) == StopsLooking(looks, termAt, grace, n)
      invariant shutdown <==> exists i :: 0 <= i < n && looks[i].request == Shutdown
      decreases |looks| - n
    {
      if looks[n].request == Shutdown {
        shutdown := true;
      }
      n := n + 1;
    }
    sent := [];
    var all := looks + [end];
    assert all[n] == looks[n] && all[|looks|] == end;
    if end.there {
      sent := [Sent(Kill, end.now)];
    }
  }

  /** What the group is seen to do after the child has ended. */
  datatype Aftermath = Aftermath(looks: seq<Look>, end: Look)

  predicate Lasts(a: Aftermath, termAt: nat, grace: nat) {
    && GroupInOrder(a.looks + [a.end]) && a.looks != []
    && (!a.looks[|a.looks| - 1].there || a.looks[|a.looks| - 1].now >= termAt + grace)
  }

  /** The first request to stop, if there is one before waiting fails or the child ends. */
  function FirstRequest(turns: seq<Turn>, from: nat): (r: Option<nat>)
    requires from <= |turns|
    ensures r.Some? ==> from <= r.value < |turns| && turns[r.value].request != Nothing
                        && forall i :: from <= i < r.value ==> turns[i].request == Nothing && !turns[i].waitFailed
    ensures r.None? && (forall i :: from <= i < |turns| ==> !turns[i].waitFailed) ==>
              forall i :: from <= i < |turns| ==> turns[i].request == Nothing
    decreases |turns| - from
  {
    if from == |turns| || turns[from].waitFailed then None
    else if turns[from].request != Nothing then Some(from)
    else FirstRequest(turns, from + 1)
  }

  predicate NoWaitError(turns: seq<Turn>) {
    forall i :: 0 <= i < |turns| ==> !turns[i].waitFailed
  }

  /**
   The polling loop. The child ends after `turns`, unless waiting for it fails in one of them.
   */
  method Supervise(turns: seq<Turn>, status: Status, reaped: Option<Status>, after: Aftermath, grace: nat)
    returns (result: ChildResult, sent: seq<Sent>)
    requires InOrder(turns)
    requires FirstRequest(turns, 0).Some? ==> Lasts(after, turns[FirstRequest(turns, 0).value].now, grace)
    ensures result.waitError <==> !NoWaitError(turns)
    ensures !(result.exitedForTouch && result.shutdownRequested)
    ensures NoWaitError(turns) ==> Graceful(sent, grace) && result.status == Some(status)
    ensures (sent != [] && sent[0].signal == Term) <==> FirstRequest(turns, 0).Some?
    ensures FirstRequest(turns, 0).None? ==> !result.exitedForTouch && !result.shutdownRequested
    ensures FirstRequest(turns, 0).None? && NoWaitError(turns) ==> sent == []
    ensures FirstRequest(turns, 0).Some? ==>
      && sent[0] == Sent(Term, turns[FirstRequest(turns, 0).value].now)
      && (result.exitedForTouch || result.shutdownRequested)
      && (result.exitedForTouch <==>
            turns[FirstRequest(turns, 0).value].request == Touch
            && !(NoWaitError(turns)
                 && ShutdownMeanwhile(after.looks, turns[FirstRequest(turns, 0).value].now, grace)))
      && (NoWaitError(turns) ==> after.end.there ==> sent[|sent| - 1] == Sent(Kill, after.end.now))
  {
    sent := [];
    result := ChildResult(false, false, None, false);
    var termSentAt: Option<nat> := None;
    var killSent := false;
    var n := 0;
    while n < |turns|
      invariant n <= |turns| && forall i :: 0 <= i < n ==> !turns[i].waitFailed
      invariant FirstRequest(turns, 0) == if termSentAt.Some? then FirstRequest(turns, 0) else FirstRequest(turns, n)
      invariant termSentAt.Some? ==> FirstRequest(turns, 0).Some?
      invariant Progress(turns, n, termSentAt, result, sent, grace)
      invariant !killSent && termSentAt.Some? ==> |sent| == 1
      invariant result.status == None && !result.waitError
    {
      if turns[n].waitFailed {
        result := result.(waitError := true, status := reaped);
        sent := sent + [Sent(Kill, turns[n].now)];
        return;
      }
      var request := turns[n].request;
      if termSentAt.None? && request != Nothing {
        sent := sent + [Sent(Term, turns[n].now)];
        termSentAt := Some(turns[n].now);
        result := result.(exitedForTouch := request == Touch, shutdownRequested := request == Shutdown);
      }
      if !killSent && termSentAt.Some? && turns[n].now >= termSentAt.value + grace {
        sent := sent + [Sent(Kill, turns[n].now)];
        killSent := true;
      }
      n := n + 1;
    }
    result := result.(status := Some(status));
    if termSentAt.Some? {
      var shutdown, last := FinishStoppedGroup(after.looks, after.end, termSentAt.value, grace);
      sent := sent + last;
      if shutdown {
        result := result.(exitedForTouch := false, shutdownRequested := true);
      }
    }
  }

  /** What the loop has done by turn `n`. */
  ghost predicate Progress(turns: seq<Turn>, n: nat, termSentAt: Option<nat>, result: ChildResult, sent: seq<Sent>, grace: nat)
    requires n <= |turns|
  {
    if termSentAt.None? then
      sent == [] && !result.exitedForTouch && !result.shutdownRequested
    else
      && Graceful(sent, grace) && sent != [] && FirstRequest(turns, 0).Some? && FirstRequest(turns, 0).value < n
      && sent[0] == Sent(Term, termSentAt.value) && termSentAt.value == turns[FirstRequest(turns, 0).value].now
      && result.exitedForTouch == (turns[FirstRequest(turns, 0).value].request == Touch)
      && result.shutdownRequested == (turns[FirstRequest(turns, 0).value].request == Shutdown)
  }

  // ---- Helpers with input ----

  /** What one attempt to write does. */
  datatype Write = Wrote(count: nat) | Interrupted | WouldBlock | WriteError

  /** One turn of writing: whether time is up before it, and how the write goes. */
  datatype WriteTurn = WriteTurn(timeUp: bool, write: Write)

  datatype WaitTurn = Running(timeUp: bool) | Exited(code: Option<int>) | WaitError

  datatype Phase = Complete | Start | Input | Wait

  datatype HelperResult = HelperResult(phase: Phase, code: Option<int>, failed: bool)

  /**
   The bytes written before writing stops, and whether it stopped for good. The system never takes more bytes than it is
   offered; a count that says so would stop the writing.
   */
  function Written(length: nat, written: nat, turns: seq<WriteTurn>): (r: (nat, bool))
    requires written <= length
    ensures written <= r.0 <= length
    decreases |turns|
  {
    if written == length then (written, false)
    else if turns == [] || turns[0].timeUp then (written, true)
    else
      match turns[0].write
      case Wrote(count) =>
        if count == 0 || count > length - written then (written, true) else Written(length, written + count, turns[1..])
      case Interrupted => Written(length, written, turns[1..])
      case WouldBlock => Written(length, written, turns[1..])
      case WriteError => (written, true)
  }

  /** How waiting ends: with the helper's exit, with an error, or with time up. */
  function Ending(turns: seq<WaitTurn>): WaitTurn {
    if turns == [] then Running(true)
    else if turns[0] == Running(false) then Ending(turns[1..])
    else turns[0]
  }

  /**
   A helper is fed its input and waited for. It is reported complete exactly when every byte was written and it exited in
   time; unless it exited, its whole group is killed.
   */
  method RunHelper(spawned: bool, nonblocking: bool, length: nat, writes: seq<WriteTurn>, waits: seq<WaitTurn>)
    returns (result: HelperResult, written: nat, killed: bool)
    ensures written <= length
    ensures result.phase == Complete <==>
      spawned && nonblocking && Written(length, 0, writes) == (length, false) && Ending(waits).Exited?
    ensures result.phase == Complete ==> written == length && !result.failed && result.code == Ending(waits).code
    ensures result.phase == Start <==> !spawned
    ensures spawned ==> (killed <==> !Ending(waits).Exited?)
    ensures result.phase == Input ==> !nonblocking || Written(length, 0, writes).1
    ensures result.phase != Complete ==> result.failed
  {
    written, killed := 0, false;
    if !spawned {
      return HelperResult(Start, None, true), written, killed;
    }
    var inputError := !nonblocking;
    var n := 0;
    while written < length && !inputError
      invariant n <= |writes| && written <= length
      invariant !inputError ==> Written(length, 0, writes) == Written(length, written, writes[n..])
      invariant inputError && nonblocking ==> Written(length, 0, writes) == (written, true)
      invariant inputError || nonblocking
      decreases |writes| - n, !inputError
    {
      if n == |writes| || writes[n].timeUp {
        inputError := true;
        break;
      }
      assert writes[n..][1..] == writes[n + 1..];
      match writes[n].write {
        case Wrote(count) =>
          if count == 0 || count > length - written {
            inputError := true;
          } else {
            written := written + count;
          }
        case Interrupted =>
        case WouldBlock =>
        case WriteError => inputError := true;
      }
      n := n + 1;
    }
    var phase, code := WaitFor(waits);
    killed := phase != Complete;
    if phase == Complete {
      return HelperResult(if inputError then Input else Complete, code, inputError), written, killed;
    }
    var failed := if Ending(waits).WaitError? then Wait else if inputError then Input else Wait;
    return HelperResult(failed, None, true), written, killed;
  }

  /** Complete when the helper exits before time is up. */
  method WaitFor(waits: seq<WaitTurn>) returns (phase: Phase, code: Option<int>)
    ensures phase == if Ending(waits).Exited? then Complete else Wait
    ensures phase == Complete ==> code == Ending(waits).code
  {
    var n := 0;
    while n < |waits|
      invariant n <= |waits| && Ending(waits) == Ending(waits[n..])
    {
      assert waits[n..][1..] == waits[n + 1..];
      match waits[n] {
        case Exited(c) => return Complete, c;
        case WaitError => return Wait, None;
        case Running(timeUp) =>
          if timeUp {
            return Wait, None;
          }
      }
      n := n + 1;
    }
    return Wait, None;
  }

  /** Whatever the pieces are, a helper that was fed without an error got all its input. */
  lemma {:induction false} FedMeansAll(length: nat, written: nat, turns: seq<WriteTurn>)
    requires written <= length
    ensures !Written(length, written, turns).1 ==> Written(length, written, turns).0 == length
    decreases |turns|
  {
    if written < length && turns != [] && !turns[0].timeUp {
      match turns[0].write
      case Wrote(count) =>
        if 0 < count <= length - written {
          FedMeansAll(length, written + count, turns[1..]);
        }
      case Interrupted => FedMeansAll(length, written, turns[1..]);
      case WouldBlock => FedMeansAll(length, written, turns[1..]);
      case WriteError =>
    }
  }
}
