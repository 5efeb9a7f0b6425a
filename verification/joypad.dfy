/** Which controller belongs to which player (`native/src/joypad.rs`): three passes over the controllers that were found. */
module Joypad {
  import opened Wrappers
  import opened TextOrder

  const PLAYER_COUNT: nat := 2

  /** A player's place: whether a device is open, its path, and the port it is, or was last, plugged into. */
  datatype Pad = Pad(connected: bool, path: string, port: string)

  datatype Candidate = Candidate(path: string, port: string)

  type Left = seq<Option<Candidate>>

  datatype Room = Room(pads: seq<Pad>, left: Left)

  datatype Pass = Remembered | NeverUsed | Leftover

  function Attached(c: Candidate): Pad {
    Pad(true, c.path, c.port)
  }

  /** The device is gone; the port is remembered unless the program ends. */
  function Closed(pad: Pad, remember: bool): Pad {
    Pad(false, "", if remember then pad.port else "")
  }

  function FindPort(left: Left, port: string): (r: Option<nat>)
    ensures r.Some? ==> r.value < |left| && left[r.value].Some? && left[r.value].value.port == port
    ensures r.None? ==> forall i :: 0 <= i < |left| && left[i].Some? ==> left[i].value.port != port
  {
    FindFrom(left, 0, Some(port))
  }

  function FindAny(left: Left): (r: Option<nat>)
    ensures r.Some? ==> r.value < |left| && left[r.value].Some?
    ensures r.None? ==> forall i :: 0 <= i < |left| ==> left[i].None?
  {
    FindFrom(left, 0, None)
  }

  /** The first candidate from `at` on that has the port asked for, if one is. */
  function FindFrom(left: Left, at: nat, port: Option<string>): (r: Option<nat>)
    requires at <= |left|
    ensures r.Some? ==> at <= r.value < |left| && left[r.value].Some?
                        && (port.Some? ==> left[r.value].value.port == port.value)
    ensures r.None? ==> forall i :: at <= i < |left| && left[i].Some? ==> port.Some? && left[i].value.port != port.value
    decreases |left| - at
  {
    if at == |left| then None
    else if left[at].Some? && (port.None? || left[at].value.port == port.value) then Some(at)
    else FindFrom(left, at + 1, port)
  }

  /** The candidate one player takes in a pass, if any. */
  function Wanted(room: Room, player: nat, pass: Pass): (r: Option<nat>)
    requires player < |room.pads|
    ensures r.Some? ==> r.value < |room.left| && room.left[r.value].Some?
  {
    var pad := room.pads[player];
    if pad.connected then None
    else
      match pass
      case Remembered => if pad.port == "" then None else FindPort(room.left, pad.port)
      case NeverUsed => if pad.port != "" then None else FindAny(room.left)
      case Leftover => FindAny(room.left)
  }

  function Step(room: Room, player: nat, pass: Pass): (r: Room)
    requires player < |room.pads|
    ensures |r.pads| == |room.pads| && |r.left| == |room.left|
  {
    match Wanted(room, player, pass)
    case None => room
    case Some(index) =>
      Room(room.pads[player := Attached(room.left[index].value)], room.left[index := None])
  }

  /** The first `n` players in turn. */
  function Sweep(room: Room, pass: Pass, n: nat): (r: Room)
    requires n <= |room.pads|
    ensures |r.pads| == |room.pads| && |r.left| == |room.left|
  {
    if n == 0 then room else Step(Sweep(room, pass, n - 1), n - 1, pass)
  }

  function Pass1(room: Room): Room { Sweep(room, Remembered, |room.pads|) }
  function Pass2(room: Room): Room { Sweep(room, NeverUsed, |room.pads|) }
  function Pass3(room: Room): Room { Sweep(room, Leftover, |room.pads|) }

  // ---- Order ----

  /** By port, then by path. */
  predicate NotAfter(a: Candidate, b: Candidate) {
    if a.port == b.port then AtMost(a.path, b.path) else AtMost(a.port, b.port)
  }

  predicate Sorted(cs: seq<Candidate>) {
    forall i, j :: 0 <= i < j < |cs| ==> NotAfter(cs[i], cs[j])
  }

  function Insert(c: Candidate, cs: seq<Candidate>): seq<Candidate> {
    if cs == [] || NotAfter(c, cs[0]) then [c] + cs else [cs[0]] + Insert(c, cs[1..])
  }

  function Sort(cs: seq<Candidate>): seq<Candidate> {
    if cs == [] then [] else Insert(cs[0], Sort(cs[1..]))
  }

  function AllThere(cs: seq<Candidate>): (left: Left)
    ensures |left| == |cs| && forall i :: 0 <= i < |cs| ==> left[i] == Some(cs[i])
  {
    seq(|cs|, i requires 0 <= i < |cs| => Some(cs[i]))
  }

  /** What a scan that found these candidates makes of the players' places. */
  function Scan(pads: seq<Pad>, found: seq<Candidate>): (r: seq<Pad>)
    ensures |r| == |pads|
  {
    Pass3(Pass2(Pass1(Room(pads, AllThere(Sort(found)))))).pads
  }

  lemma NotAfterOrders(a: Candidate, b: Candidate, c: Candidate)
    ensures NotAfter(a, b) || NotAfter(b, a)
    ensures NotAfter(a, b) && NotAfter(b, a) ==> a == b
    ensures NotAfter(a, b) && NotAfter(b, c) ==> NotAfter(a, c)
  {
    AtMostTotal(a.port, b.port);
    AtMostTotal(a.path, b.path);
    if NotAfter(a, b) && NotAfter(b, c) {
      if a.port == b.port && b.port == c.port {
        AtMostTransitive(a.path, b.path, c.path);
      } else if a.port != b.port && b.port != c.port {
        AtMostTransitive(a.port, b.port, c.port);
      }
    }
  }

  lemma {:induction false} InsertHolds(c: Candidate, cs: seq<Candidate>)
    ensures multiset(Insert(c, cs)) == multiset(cs) + multiset{c}
    ensures Sorted(cs) ==> Sorted(Insert(c, cs))
  {
    hide NotAfter;
    if cs != [] {
      assert cs == [cs[0]] + cs[1..];
      if NotAfter(c, cs[0]) {
        forall j | Sorted(cs) && 0 <= j < |cs|
          ensures NotAfter(c, cs[j])
        {
          NotAfterOrders(c, cs[0], cs[j]);
        }
      } else {
        NotAfterOrders(c, cs[0], c);
        var rest := cs[1..];
        InsertHolds(c, rest);
        var inserted := Insert(c, rest);
        forall j | Sorted(cs) && 0 <= j < |inserted|
          ensures NotAfter(cs[0], inserted[j])
        {
          assert inserted[j] in multiset(inserted);
          if inserted[j] != c {
            assert inserted[j] in rest;
          }
        }
      }
    }
  }

  lemma {:induction false} SortHolds(cs: seq<Candidate>)
    ensures multiset(Sort(cs)) == multiset(cs) && Sorted(Sort(cs)) && |Sort(cs)| == |cs|
  {
    if cs != [] {
      SortHolds(cs[1..]);
      InsertHolds(cs[0], Sort(cs[1..]));
      assert cs == [cs[0]] + cs[1..];
      assert |multiset(Sort(cs))| == |cs|;
    }
  }

  lemma SameFirst(a: seq<Candidate>, b: seq<Candidate>)
    requires Sorted(a) && Sorted(b) && multiset(a) == multiset(b) && a != []
    ensures b != [] && a[0] == b[0] && multiset(a[1..]) == multiset(b[1..])
  {
    assert a[0] in multiset(b);
    assert b[0] in multiset(a);
    var i :| 0 <= i < |b| && b[i] == a[0];
    var j :| 0 <= j < |a| && a[j] == b[0];
    FirstIsLeast(a, b, i);
    FirstIsLeast(b, a, j);
    NotAfterOrders(a[0], b[0], a[0]);
    hide NotAfter, Sorted;
    WithoutFirst(a);
    WithoutFirst(b);
  }

  lemma FirstIsLeast(a: seq<Candidate>, b: seq<Candidate>, i: nat)
    requires Sorted(b) && a != [] && i < |b| && b[i] == a[0]
    ensures b[0] == a[0] || NotAfter(b[0], a[0])
  {
  }

  lemma WithoutFirst(s: seq<Candidate>)
    requires s != []
    ensures multiset(s[1..]) == multiset(s) - multiset{s[0]}
  {
    assert s == [s[0]] + s[1..];
  }

  lemma {:induction false} SortedUnique(a: seq<Candidate>, b: seq<Candidate>)
    requires Sorted(a) && Sorted(b) && multiset(a) == multiset(b)
    ensures a == b
    decreases |a|
  {
    if a == [] {
      assert |multiset(a)| == |a| && |multiset(b)| == |b|;
    } else {
      SameFirst(a, b);
      hide NotAfter;
      SortedUnique(a[1..], b[1..]);
      assert a == [a[0]] + a[1..] && b == [b[0]] + b[1..];
    }
  }

  /** The order in which the directory lists the devices does not matter. */
  lemma OrderDoesNotMatter(pads: seq<Pad>, a: seq<Candidate>, b: seq<Candidate>)
    requires multiset(a) == multiset(b)
    ensures Scan(pads, a) == Scan(pads, b)
  {
    SortHolds(a);
    SortHolds(b);
    SortedUnique(Sort(a), Sort(b));
  }

  // ---- Ports ----

  /** No port is remembered by two players; no candidate is in the port of a connected player; no two share a port. */
  predicate Apart(room: Room) {
    && (forall p, q :: 0 <= p < q < |room.pads| && room.pads[p].port != "" ==> room.pads[p].port != room.pads[q].port)
    && (forall p, i :: 0 <= p < |room.pads| && 0 <= i < |room.left| && room.pads[p].connected && room.left[i].Some? ==>
          room.left[i].value.port != room.pads[p].port)
    && (forall i, j :: 0 <= i < j < |room.left| && room.left[i].Some? && room.left[j].Some? ==>
          room.left[i].value.port != room.left[j].value.port)
    && (forall i :: 0 <= i < |room.left| && room.left[i].Some? ==> room.left[i].value.port != "")
    && (forall p :: 0 <= p < |room.pads| && room.pads[p].connected ==> room.pads[p].port != "")
  }

  /** The port an absent player remembers is not among the candidates. */
  predicate Missed(room: Room, player: nat)
    requires player < |room.pads|
  {
    !room.pads[player].connected && room.pads[player].port != "" ==>
      forall i :: 0 <= i < |room.left| && room.left[i].Some? ==> room.left[i].value.port != room.pads[player].port
  }

  predicate AllMissed(room: Room, n: nat)
    requires n <= |room.pads|
  {
    forall p :: 0 <= p < n ==> Missed(room, p)
  }

  lemma StepKeepsApart(room: Room, player: nat, pass: Pass)
    requires Apart(room) && player < |room.pads| && (pass != Remembered ==> AllMissed(room, |room.pads|))
    ensures Apart(Step(room, player, pass))
    ensures pass != Remembered ==> AllMissed(Step(room, player, pass), |room.pads|)
  {
    var r := Wanted(room, player, pass);
    if r.Some? {
      var c, after := room.left[r.value].value, Step(room, player, pass);
      forall q | 0 <= q < |room.pads| && q != player
        ensures room.pads[q].port != c.port
      {
        if pass != Remembered {
          assert Missed(room, q);
        }
      }
      forall p | pass != Remembered && 0 <= p < |room.pads|
        ensures Missed(after, p)
      {
        assert Missed(room, p);
      }
    }
  }

  predicate SamePorts(a: seq<Pad>, b: seq<Pad>) {
    |a| == |b| && forall p :: 0 <= p < |a| ==> a[p].port == b[p].port
  }

  lemma PortsChain(a: seq<Pad>, b: seq<Pad>, c: seq<Pad>)
    requires SamePorts(a, b) && SamePorts(b, c)
    ensures SamePorts(a, c)
  {
  }

  lemma RememberedStep(room: Room, player: nat)
    requires Apart(room) && player < |room.pads| && AllMissed(room, player)
    ensures var after := Step(room, player, Remembered);
      Apart(after) && AllMissed(after, player + 1) && SamePorts(after.pads, room.pads)
  {
    StepKeepsApart(room, player, Remembered);
    hide Apart;
    var after := Step(room, player, Remembered);
    forall p | 0 <= p < player + 1
      ensures Missed(after, p)
    {
      if p < player {
        assert Missed(room, p);
      }
    }
  }

  lemma {:induction false} RememberedPass(room: Room, n: nat)
    requires Apart(room) && n <= |room.pads|
    ensures var r := Sweep(room, Remembered, n);
      Apart(r) && AllMissed(r, n) && SamePorts(r.pads, room.pads)
  {
    if n > 0 {
      hide Apart, AllMissed, Step, SamePorts;
      RememberedPass(room, n - 1);
      var before := Sweep(room, Remembered, n - 1);
      RememberedStep(before, n - 1);
      PortsChain(Sweep(room, Remembered, n).pads, before.pads, room.pads);
    }
  }

  lemma {:induction false} LaterPass(room: Room, pass: Pass, n: nat)
    requires Apart(room) && AllMissed(room, |room.pads|) && pass != Remembered && n <= |room.pads|
    ensures Apart(Sweep(room, pass, n)) && AllMissed(Sweep(room, pass, n), |room.pads|)
  {
    if n > 0 {
      LaterPass(room, pass, n - 1);
      StepKeepsApart(Sweep(room, pass, n - 1), n - 1, pass);
      hide Apart, AllMissed, Wanted;
    }
  }

  // ---- What a scan does ----

  lemma {:induction false} SweepKeepsConnected(room: Room, pass: Pass, n: nat, player: nat)
    requires n <= |room.pads| && player < |room.pads| && room.pads[player].connected
    ensures Sweep(room, pass, n).pads[player] == room.pads[player]
  {
    if n > 0 {
      SweepKeepsConnected(room, pass, n - 1, player);
    }
  }

  function Connected(pads: seq<Pad>): nat {
    if pads == [] then 0 else (if pads[|pads| - 1].connected then 1 else 0) + Connected(pads[..|pads| - 1])
  }

  function Waiting(left: Left): nat {
    if left == [] then 0 else (if left[|left| - 1].Some? then 1 else 0) + Waiting(left[..|left| - 1])
  }

  lemma {:induction false} ConnectOne(pads: seq<Pad>, player: nat, pad: Pad)
    requires player < |pads| && !pads[player].connected && pad.connected
    ensures Connected(pads[player := pad]) == Connected(pads) + 1
  {
    var now := pads[player := pad];
    if player == |pads| - 1 {
      assert now[..|pads| - 1] == pads[..|pads| - 1];
    } else {
      ConnectOne(pads[..|pads| - 1], player, pad);
      assert now[..|pads| - 1] == pads[..|pads| - 1][player := pad];
    }
  }

  lemma {:induction false} TakeOne(left: Left, index: nat)
    requires index < |left| && left[index].Some?
    ensures Waiting(left) == Waiting(left[index := None]) + 1
  {
    var now := left[index := None];
    if index == |left| - 1 {
      assert now[..|left| - 1] == left[..|left| - 1];
    } else {
      TakeOne(left[..|left| - 1], index);
      assert now[..|left| - 1] == left[..|left| - 1][index := None];
    }
  }

  lemma {:induction false} NoneWaiting(left: Left)
    requires forall i :: 0 <= i < |left| ==> left[i].None?
    ensures Waiting(left) == 0
  {
    if left != [] {
      NoneWaiting(left[..|left| - 1]);
    }
  }

  lemma {:induction false} AllWaiting(cs: seq<Candidate>)
    ensures Waiting(AllThere(cs)) == |cs|
  {
    if cs != [] {
      AllWaiting(cs[..|cs| - 1]);
      assert AllThere(cs)[..|cs| - 1] == AllThere(cs[..|cs| - 1]);
    }
  }

  lemma {:induction false} AllConnected(pads: seq<Pad>)
    ensures Connected(pads) <= |pads|
    ensures (forall p :: 0 <= p < |pads| ==> pads[p].connected) ==> Connected(pads) == |pads|
  {
    if pads != [] {
      AllConnected(pads[..|pads| - 1]);
    }
  }

  /** A player who connects takes exactly one candidate. */
  lemma {:induction false} SweepConserves(room: Room, pass: Pass, n: nat)
    requires n <= |room.pads|
    ensures var r := Sweep(room, pass, n);
      Connected(r.pads) + Waiting(r.left) == Connected(room.pads) + Waiting(room.left)
  {
    if n > 0 {
      SweepConserves(room, pass, n - 1);
      var before := Sweep(room, pass, n - 1);
      var r := Wanted(before, n - 1, pass);
      if r.Some? {
        ConnectOne(before.pads, n - 1, Attached(before.left[r.value].value));
        TakeOne(before.left, r.value);
      }
      hide Wanted;
    }
  }

  /** After the last pass, a player without a controller means that no candidate is left. */
  lemma {:induction false} LeftoverPassIsFull(room: Room, n: nat, player: nat)
    requires player < n <= |room.pads|
    ensures var r := Sweep(room, Leftover, n);
      r.pads[player].connected || forall i :: 0 <= i < |r.left| ==> r.left[i].None?
  {
    if player < n - 1 {
      LeftoverPassIsFull(room, n - 1, player);
    }
  }

  predicate AllPresent(pads: seq<Pad>) {
    forall p :: 0 <= p < |pads| ==> pads[p].connected
  }

  /** A scan connects as many players as there are controllers for. */
  lemma ScanConnectsAll(pads: seq<Pad>, found: seq<Candidate>)
    ensures Connected(Scan(pads, found))
         == if Connected(pads) + |found| < |pads| then Connected(pads) + |found| else |pads|
  {
    var room := Room(pads, AllThere(Sort(found)));
    SortHolds(found);
    AllWaiting(Sort(found));
    SweepConserves(room, Remembered, |pads|);
    SweepConserves(Pass1(room), NeverUsed, |pads|);
    var last := Pass2(Pass1(room));
    SweepConserves(last, Leftover, |pads|);
    var end := Pass3(last);
    AllConnected(end.pads);
    AllConnected(pads);
    hide Sweep;
    if !AllPresent(end.pads) {
      var p :| 0 <= p < |end.pads| && !end.pads[p].connected;
      LeftoverPassIsFull(last, |pads|, p);
      NoneWaiting(end.left);
    }
  }

  /** A scan never moves a connected player. */
  lemma ScanKeepsConnected(pads: seq<Pad>, found: seq<Candidate>, player: nat)
    requires player < |pads| && pads[player].connected
    ensures Scan(pads, found)[player] == pads[player]
  {
    var room := Room(pads, AllThere(Sort(found)));
    SweepKeepsConnected(room, Remembered, |pads|, player);
    SweepKeepsConnected(Pass1(room), NeverUsed, |pads|, player);
    SweepKeepsConnected(Pass2(Pass1(room)), Leftover, |pads|, player);
    hide Sweep;
  }

  /** The controllers found are distinct, and none is in the port of a connected player. */
  predicate DistinctPorts(pads: seq<Pad>, found: seq<Candidate>) {
    && (forall i, j :: 0 <= i < j < |found| ==> found[i].port != found[j].port)
    && (forall i :: 0 <= i < |found| ==> found[i].port != "")
    && forall p, i :: 0 <= p < |pads| && 0 <= i < |found| && pads[p].connected ==> found[i].port != pads[p].port
  }

  /** No two players remember, or are in, the same port. */
  predicate PortsApart(pads: seq<Pad>) {
    && (forall p, q :: 0 <= p < q < |pads| && pads[p].port != "" ==> pads[p].port != pads[q].port)
    && forall p :: 0 <= p < |pads| && pads[p].connected ==> pads[p].port != ""
  }

  lemma StartsApart(pads: seq<Pad>, found: seq<Candidate>)
    requires PortsApart(pads) && DistinctPorts(pads, found)
    ensures Apart(Room(pads, AllThere(Sort(found))))
  {
    SortHolds(found);
    SortedDistinct(found);
    var sorted := Sort(found);
    forall i | 0 <= i < |sorted|
      ensures sorted[i] in found
    {
      assert sorted[i] in multiset(sorted);
    }
  }

  lemma SortedDistinct(found: seq<Candidate>)
    requires forall i, j :: 0 <= i < j < |found| ==> found[i].port != found[j].port
    ensures var s := Sort(found); forall i, j :: 0 <= i < j < |s| ==> s[i].port != s[j].port
  {
    SortHolds(found);
    var s := Sort(found);
    forall i, j | 0 <= i < j < |s|
      ensures s[i].port != s[j].port
    {
      assert s[i] in multiset(found) && s[j] in multiset(found);
      var k :| 0 <= k < |found| && found[k] == s[i];
      if s[i] == s[j] {
        Twice(s, i, j);
        Once(found, k);
      } else {
        var l :| 0 <= l < |found| && found[l] == s[j];
        assert k < l || l < k;
      }
    }
  }

  lemma Twice(s: seq<Candidate>, i: nat, j: nat)
    requires i < j < |s| && s[i] == s[j]
    ensures multiset(s)[s[i]] >= 2
  {
    assert s == s[..j] + [s[j]] + s[j + 1..];
    assert s[i] == s[..j][i];
    assert s[i] in multiset(s[..j]);
  }

  lemma Once(s: seq<Candidate>, k: nat)
    requires k < |s| && forall i, j :: 0 <= i < j < |s| ==> s[i].port != s[j].port
    ensures multiset(s)[s[k]] == 1
  {
    assert s == s[..k] + [s[k]] + s[k + 1..];
    assert s[k] !in s[..k] && s[k] !in s[k + 1..];
    assert multiset(s) == multiset(s[..k]) + multiset{s[k]} + multiset(s[k + 1..]);
  }

  /** No device goes to two players, and no port is remembered twice. */
  lemma ScanKeepsPortsApart(pads: seq<Pad>, found: seq<Candidate>)
    requires PortsApart(pads) && DistinctPorts(pads, found)
    ensures PortsApart(Scan(pads, found))
  {
    var room := Room(pads, AllThere(Sort(found)));
    StartsApart(pads, found);
    hide Sweep;
    RememberedPass(room, |pads|);
    LaterPass(Pass1(room), NeverUsed, |pads|);
    LaterPass(Pass2(Pass1(room)), Leftover, |pads|);
  }

  /** A controller that comes back to the port a player remembers goes to that player. */
  lemma RememberedPortReturns(pads: seq<Pad>, found: seq<Candidate>, player: nat, index: nat)
    requires PortsApart(pads) && DistinctPorts(pads, found) && player < |pads| && index < |found|
    requires !pads[player].connected && pads[player].port == found[index].port
    ensures Scan(pads, found)[player] == Attached(found[index])
  {
    var sorted := Sort(found);
    var room := Room(pads, AllThere(sorted));
    StartsApart(pads, found);
    SortHolds(found);
    assert found[index] in multiset(sorted);
    var at :| 0 <= at < |sorted| && sorted[at] == found[index];
    ReturnsInFirstPass(room, |pads|, player, at);
    SweepKeepsConnected(Pass1(room), NeverUsed, |pads|, player);
    SweepKeepsConnected(Pass2(Pass1(room)), Leftover, |pads|, player);
    hide Sweep;
  }

  lemma {:induction false} ReturnsInFirstPass(room: Room, n: nat, player: nat, at: nat)
    requires Apart(room) && n <= |room.pads| && player < |room.pads| && at < |room.left| && room.left[at].Some?
    requires !room.pads[player].connected && room.pads[player].port == room.left[at].value.port
    ensures var r := Sweep(room, Remembered, n);
      if player < n then r.pads[player] == Attached(room.left[at].value)
      else r.pads[player] == room.pads[player] && r.left[at] == room.left[at]
  {
    if n > 0 {
      ReturnsInFirstPass(room, n - 1, player, at);
      RememberedPass(room, n - 1);
      var before := Sweep(room, Remembered, n - 1);
      var r := Wanted(before, n - 1, Remembered);
      if r.Some? && n - 1 == player {
        assert before.left[r.value].value.port == before.left[at].value.port;
      }
    }
  }

  // ---- The machine ----

  class Controllers {
    const gamepads: array<Pad>

    ghost predicate Valid()
      reads this, gamepads
    {
      gamepads.Length == PLAYER_COUNT && PortsApart(gamepads[..])
    }

    constructor ()
      ensures Valid() && fresh(gamepads) && forall p :: 0 <= p < gamepads.Length ==> gamepads[p] == Pad(false, "", "")
    {
      gamepads := new Pad[PLAYER_COUNT](_ => Pad(false, "", ""));
    }

    /** One pass over the players. */
    method Sweeps(pass: Pass, left: Left) returns (rest: Left)
      modifies gamepads
      ensures Room(gamepads[..], rest) == Sweep(Room(old(gamepads[..]), left), pass, gamepads.Length)
    {
      rest := left;
      ghost var room := Room(gamepads[..], left);
      var player := 0;
      while player < gamepads.Length
        invariant player <= gamepads.Length
        invariant Room(gamepads[..], rest) == Sweep(room, pass, player)
      {
        var pad := gamepads[player];
        var slot: Option<nat> := None;
        if !pad.connected {
          match pass {
            case Remembered =>
              if pad.port != "" {
                slot := FindPort(rest, pad.port);
              }
            case NeverUsed =>
              if pad.port == "" {
                slot := FindAny(rest);
              }
            case Leftover => slot := FindAny(rest);
          }
        }
        if slot.Some? {
          ghost var was := gamepads[..];
          gamepads[player] := Attached(rest[slot.value].value);
          rest := rest[slot.value := None];
          assert gamepads[..] == was[player := gamepads[player]];
        }
        player := player + 1;
      }
    }

    method ScanGamepads(found: seq<Candidate>)
      requires Valid() && DistinctPorts(gamepads[..], found)
      modifies gamepads
      ensures Valid() && gamepads[..] == Scan(old(gamepads[..]), found)
    {
      ScanKeepsPortsApart(gamepads[..], found);
      var left := AllThere(Sort(found));
      left := Sweeps(Remembered, left);
      left := Sweeps(NeverUsed, left);
      left := Sweeps(Leftover, left);
    }

    method Disconnect(player: nat)
      requires Valid() && player < gamepads.Length
      modifies gamepads
      ensures Valid() && gamepads[..] == old(gamepads[..])[player := Closed(old(gamepads[player]), true)]
    {
      ghost var was := gamepads[..];
      gamepads[player] := Closed(gamepads[player], true);
      assert gamepads[..] == was[player := gamepads[player]];
    }
  }

  // ---- Runs ----

  datatype Happening = Found(candidates: seq<Candidate>) | Lost(player: nat)

  function After(pads: seq<Pad>, h: Happening): (r: seq<Pad>)
    ensures |r| == |pads|
  {
    match h
    case Found(candidates) => Scan(pads, candidates)
    case Lost(player) => if player < |pads| then pads[player := Closed(pads[player], true)] else pads
  }

  /** The controllers of a scan are distinct, and not those that are connected. */
  predicate Possible(pads: seq<Pad>, h: Happening) {
    h.Found? ==> DistinctPorts(pads, h.candidates)
  }

  function Course(pads: seq<Pad>, hs: seq<Happening>): (r: seq<Pad>)
    ensures |r| == |pads|
  {
    if hs == [] then pads else After(Course(pads, hs[..|hs| - 1]), hs[|hs| - 1])
  }

  predicate PossibleCourse(pads: seq<Pad>, hs: seq<Happening>) {
    hs == [] || (PossibleCourse(pads, hs[..|hs| - 1]) && Possible(Course(pads, hs[..|hs| - 1]), hs[|hs| - 1]))
  }

  /** In no run of scans and disconnections do two players remember the same port. */
  lemma {:induction false} PortsStayApart(pads: seq<Pad>, hs: seq<Happening>)
    requires PortsApart(pads) && PossibleCourse(pads, hs)
    ensures PortsApart(Course(pads, hs))
  {
    if hs != [] {
      PortsStayApart(pads, hs[..|hs| - 1]);
      var before := Course(pads, hs[..|hs| - 1]);
      match hs[|hs| - 1]
      case Found(candidates) => ScanKeepsPortsApart(before, candidates);
      case Lost(player) =>
    }
  }

  /** A player whose controller is unplugged and plugged into the same port again is that player again. */
  lemma {:induction false} UnplugAndReplug(pads: seq<Pad>, player: nat, found: seq<Candidate>, index: nat)
    requires PortsApart(pads) && player < |pads| && pads[player].connected && index < |found|
    requires DistinctPorts(After(pads, Lost(player)), found) && found[index].port == pads[player].port
    ensures Course(pads, [Lost(player), Found(found)])[player] == Attached(found[index])
  {
    var hs := [Lost(player), Found(found)];
    assert hs[..1] == [Lost(player)] && hs[..1][..0] == [];
    var lost := After(pads, Lost(player));
    assert Course(pads, hs[..1]) == After(Course(pads, []), Lost(player));
    RememberedPortReturns(lost, found, player, index);
    hide Scan;
  }
}
