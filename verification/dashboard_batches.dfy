/**
 Launches asked for inside a batch of touches (`native/src/dashboard/app.rs`, `native/src/dashboard/runtime.rs`): which
 touch asks for one, which touch loses one, and so which launch a batch ends with.
 */
module DashboardBatches {
  import opened Wrappers
  import opened DashboardState
  import opened DashboardReduce
  import opened DashboardRuntime
  import opened DashboardProtocol
  import opened DashboardRuns

  // ---- One touch ----

  /** The touch is lifted from the target it went down on. */
  predicate TapsMenu(a: AppState, r: TouchReport, t: MenuTarget) {
    r.released && r.menu == Some(t) && (r.pressed || a.pressed == Some(t))
  }

  predicate TapsSettings(a: AppState, r: TouchReport, t: SettingsTarget) {
    r.released && r.settings == Some(t) && (r.pressed || a.settings.pressed == Some(t))
  }

  predicate TapsWifi(a: AppState, r: TouchReport, t: WifiTarget) {
    r.released && r.wifi == Some(t) && (r.pressed || a.wifi.pressed == Some(t))
  }

  predicate Armed(a: AppState, now: nat) {
    0 < a.rebootDeadline && now < a.rebootDeadline
  }

  /** The launch a touch asks for: that of a tapped card, a reboot card only when it is armed, or the terminal. */
  function Asked(a: AppState, now: nat, r: TouchReport): Option<LaunchRequest> {
    match a.view
    case Dashboard =>
      if r.menu.Some? && r.menu.value.Game? && TapsMenu(a, r, r.menu.value) && r.menu.value.index < |a.games|
         && (IsReboot(a, r.menu.value.index) ==> Armed(a, now))
      then Some(LaunchRequest(Catalog(r.menu.value.index), None, true)) else None
    case Settings =>
      if TapsSettings(a, r, SettingsTarget.Terminal)
      then Some(LaunchRequest(GameIndex.Terminal, Some(SHELL), true)) else None
    case _ => None
  }

  /** The touch starts a change that is saved at once, and with that a launch that was asked for before is forgotten. */
  predicate Drops(a: AppState, r: TouchReport) {
    match a.view
    case Settings =>
      r.settings.Some? && TapsSettings(a, r, r.settings.value)
      && !r.settings.value.Close? && !r.settings.value.Terminal? && !r.settings.value.Wifi?
    case Wifi => TapsWifi(a, r, WifiTarget.Save) && WifiProblem(a.wifi).None?
    case _ => false
  }

  /** What is pending after a touch and everything it sets off. */
  function Settled(a: AppState, now: nat, r: TouchReport): Option<Pending> {
    if Asked(a, now, r).Some? then Some(Pending.Launch(Asked(a, now, r).value))
    else if Drops(a, r) then None
    else a.pending
  }

  ghost predicate Settles(a: AppState, now: nat, r: TouchReport, out: Reduced) {
    out.Reduced? && LeftPending(out.app.pending, out.effects) == Settled(a, now, r)
  }

  lemma MenuSettles(a: AppState, target: Option<MenuTarget>, now: nat)
    requires Coherent(a) && a.view.Dashboard? && (a.rebootDeadline > 0 ==> OnRebootCard(a, target))
    ensures var out := OpenMenuTarget(a, target, now);
      out.Reduced? && out.app.pending ==
        if target.Some? && target.value.Game? && target.value.index < |a.games|
           && (IsReboot(a, target.value.index) ==> Armed(a, now))
        then Some(Pending.Launch(LaunchRequest(Catalog(target.value.index), None, true))) else a.pending
  {
    if target.Some? && (target.value.Previous? || target.value.Next?) {
      MoveIsPlain(a, target.value.Previous?);
    }
  }

  lemma DashboardSettles(a: AppState, now: nat, r: TouchReport)
    requires Coherent(a) && a.view.Dashboard?
    ensures Settles(a, now, r, DashboardTouch(a, r, now))
  {
    hide LeftPending, Expected;
    var out := DashboardTouch(a, r, now);
    DashboardTouchIsPlain(a, r, now);
    SilentList(out.app.pending, out.effects);
    if r.released {
      var lifted := (if r.pressed then a.(pressed := r.menu) else a).(pressed := None);
      assert lifted == a.(pressed := None);
      var b := if lifted.rebootDeadline > 0 && !OnRebootCard(lifted, r.menu) then CancelReboot(lifted) else lifted;
      CancelIsCoherent(lifted);
      MenuSettles(b, r.menu, now);
      hide OpenMenuTarget;
    }
  }

  lemma SettingsKeySettles(a: AppState, t: SettingsTarget)
    ensures var out := SettingsPlan(a, Activate(a.settings, t), true);
      out.Reduced? && LeftPending(out.app.pending, out.effects) ==
        if t.Terminal? then Some(Pending.Launch(LaunchRequest(GameIndex.Terminal, Some(SHELL), true)))
        else if t.Close? || t.Wifi? then a.pending
        else None
  {
    hide LeftPending, Expected;
    var plan := Activate(a.settings, t);
    var out := SettingsPlan(a, plan, true);
    if t.Close? || t.Terminal? || t.Wifi? {
      SilentList(out.app.pending, out.effects);
    } else {
      OneAnswer(out.app.pending, Effect.SettingsAction(plan));
    }
  }

  lemma OneAnswer(p: Option<Pending>, e: Effect)
    ensures LeftPending(p, [e]) == After(p, e)
  {
    assert [e][1..] == [];
  }

  lemma SettingsSettle(a: AppState, now: nat, r: TouchReport)
    requires Coherent(a) && a.view.Settings?
    ensures Settles(a, now, r, SettingsTouch(a, r))
  {
    var (s, plan) := TouchSettings(a.settings, r);
    if plan.Some? {
      SettingsKeySettles(a.(settings := s), r.settings.value);
    } else {
      SilentList(a.pending, []);
    }
    hide LeftPending, SettingsPlan, Activate;
  }

  lemma WifiKeySettles(a: AppState, t: WifiTarget)
    ensures var out := PressWifiKey(a, t);
      out.Reduced? && LeftPending(out.app.pending, out.effects) ==
        if t.Save? && WifiProblem(a.wifi).None? then None else a.pending
  {
    hide LeftPending, Expected, WifiProblem, EditWifi;
    var out := PressWifiKey(a, t);
    if t.Save? && WifiProblem(a.wifi).None? {
      OneAnswer(out.app.pending, WifiAction);
    } else {
      SilentList(out.app.pending, out.effects);
    }
  }

  lemma WifiSettles(a: AppState, now: nat, r: TouchReport)
    requires Coherent(a) && a.view.Wifi?
    ensures Settles(a, now, r, WifiTouch(a, r))
  {
    var b := a.(wifi := a.wifi.(pressed := None));
    assert WifiProblem(b.wifi) == WifiProblem(a.wifi);
    if r.wifi.Some? {
      WifiKeySettles(b, r.wifi.value);
    }
    SilentList(a.pending, []);
    hide LeftPending, PressWifiKey, WifiProblem;
  }

  /** A touch settles what is pending: the launch it asks for, none when it drops one, and otherwise what was pending. */
  lemma TouchSettles(a: AppState, now: nat, r: TouchReport, layout: bool)
    requires Coherent(a) && InTurn(a.pending, Touch(now, r)) && (a.view.Dashboard? ==> layout)
    ensures Settles(a, now, r, Reduce(a, Touch(now, r), layout))
  {
    hide DashboardTouch, WifiTouch, SettingsTouch;
    assert Reduce(a, Touch(now, r), layout) == OnTouch(a, now, r, layout);
    match a.view
    case Dashboard => DashboardSettles(a, now, r);
    case Settings => SettingsSettle(a, now, r);
    case Credits => SilentList(CreditsTouch(a, r).app.pending, CreditsTouch(a, r).effects);
    case Wifi => WifiSettles(a, now, r);
  }

  /** So a launch that a touch asked for survives a later touch exactly when that touch does not drop it. */
  lemma LaunchSurvivesTouch(a: AppState, now: nat, r: TouchReport, layout: bool)
    requires Coherent(a) && IsLaunch(a.pending, true) && (a.view.Dashboard? ==> layout)
    ensures var out := Reduce(a, Touch(now, r), layout);
      out.Reduced? && (IsLaunch(LeftPending(out.app.pending, out.effects), true) <==> !Drops(a, r))
  {
    TouchSettles(a, now, r, layout);
  }

  // ---- A batch ----

  lemma {:induction false} StepSettles(w: World, now: nat, r: TouchReport, o: Oracle)
    requires Coherent(w.app) && InTurn(w.app.pending, Touch(now, r)) && (w.app.view.Dashboard? ==> w.rt.layout)
    ensures var p := Step(w, Touch(now, r), o); p.Stepped? ==> p.world.app.pending == Settled(w.app, now, r)
  {
    var e := Touch(now, r);
    var out := Reduce(w.app, e, w.rt.layout);
    ReductionIsSound(w.app, e, w.rt.layout);
    CompletionsDescend(w.app, e, w.rt.layout);
    TouchSettles(w.app, now, r, w.rt.layout);
    EffectsAreSafe(w.(app := out.app), out.effects, Rank(e), o);
  }

  lemma {:induction false} StepLast(p: Progress, now: nat, touches: seq<TouchReport>, r: TouchReport, o: Oracle)
    ensures var q := StepTouches(p, now, touches, o);
      StepTouches(p, now, touches + [r], o) == if q.Halted? then q else Step(q.world, Touch(now, r), o)
    decreases |touches|
  {
    hide Step;
    var all := touches + [r];
    if touches == [] {
      assert all[1..] == [] && all[0] == r;
    } else if p.Stepped? {
      assert all[1..] == touches[1..] + [r] && all[0] == touches[0];
      StepLast(Step(p.world, Touch(now, touches[0]), o), now, touches[1..], r, o);
    }
  }

  /** The state the touch with number `i` of a batch finds. */
  function Found(p: Progress, now: nat, touches: seq<TouchReport>, o: Oracle, i: nat): AppState
    requires p.Stepped? && i <= |touches|
  {
    var q := StepTouches(p, now, touches[..i], o);
    if q.Stepped? then q.world.app else p.world.app
  }

  /** The launch was pending before the batch, when `n` is 0, or the touch before the one with number `n` asked for it. */
  predicate AskedBefore(p: Progress, now: nat, touches: seq<TouchReport>, o: Oracle, n: nat, request: LaunchRequest)
    requires p.Stepped? && n <= |touches|
  {
    if n == 0 then p.world.app.pending == Some(Pending.Launch(request))
    else Asked(Found(p, now, touches, o, n - 1), now, touches[n - 1]) == Some(request)
  }

  predicate Passes(p: Progress, now: nat, touches: seq<TouchReport>, o: Oracle, i: nat)
    requires p.Stepped? && i < |touches|
  {
    var a := Found(p, now, touches, o, i);
    Asked(a, now, touches[i]).None? && !Drops(a, touches[i])
  }

  /** The launch was asked for there, and no later touch asks for another one or drops it. */
  predicate LastAsked(p: Progress, now: nat, touches: seq<TouchReport>, o: Oracle, n: nat, request: LaunchRequest)
    requires p.Stepped?
  {
    && n <= |touches| && AskedBefore(p, now, touches, o, n, request)
    && forall i :: n <= i < |touches| ==> Passes(p, now, touches, o, i)
  }

  /** The touches of a batch are the same for a shorter one. */
  lemma EarlierTouches(p: Progress, now: nat, touches: seq<TouchReport>, o: Oracle, m: nat)
    requires p.Stepped? && m <= |touches|
    ensures forall i :: 0 <= i <= m ==> Found(p, now, touches[..m], o, i) == Found(p, now, touches, o, i)
    ensures forall i :: 0 <= i < m ==> Passes(p, now, touches[..m], o, i) == Passes(p, now, touches, o, i)
    ensures forall n, request :: 0 <= n <= m ==>
      AskedBefore(p, now, touches[..m], o, n, request) == AskedBefore(p, now, touches, o, n, request)
  {
    hide StepTouches, Asked, Drops;
    forall i | 0 <= i <= m
      ensures Found(p, now, touches[..m], o, i) == Found(p, now, touches, o, i)
    {
      assert touches[..m][..i] == touches[..i];
    }
  }

  /**
   A batch whose effects did not fail ends with a launch pending exactly when that launch was asked for last, before the
   batch or by one of its touches, and no touch after that dropped it.
   */
  lemma {:induction false} BatchEndsWithLastAsked(p: Progress, now: nat, touches: seq<TouchReport>, o: Oracle,
                                                  games: seq<Game>, request: LaunchRequest)
    requires p.Stepped? && TouchReady(p, games)
    ensures var q := StepTouches(p, now, touches, o);
      q.Stepped? ==>
        (q.world.app.pending == Some(Pending.Launch(request)) <==> exists n :: LastAsked(p, now, touches, o, n, request))
    decreases |touches|
  {
    var q := StepTouches(p, now, touches, o);
    if touches == [] {
      assert AskedBefore(p, now, touches, o, 0, request) ==> LastAsked(p, now, touches, o, 0, request);
    } else if q.Stepped? {
      var last := |touches| - 1;
      var before, r := touches[..last], touches[last];
      assert before + [r] == touches;
      StepLast(p, now, before, r, o);
      BatchEndsWithLastAsked(p, now, before, o, games, request);
      TouchesAreSafe(p, now, before, o, games);
      var w := StepTouches(p, now, before, o).world;
      StepSettles(w, now, r, o);
      EarlierTouches(p, now, touches, o, last);
      assert Found(p, now, touches, o, last) == w.app;
      OneMore(p, now, touches, o, request);
    }
  }

  lemma OneMore(p: Progress, now: nat, touches: seq<TouchReport>, o: Oracle, request: LaunchRequest)
    requires p.Stepped? && touches != []
    ensures var last := |touches| - 1;
      (exists n :: LastAsked(p, now, touches, o, n, request))
      <==> AskedBefore(p, now, touches, o, |touches|, request)
           || (Passes(p, now, touches, o, last) && exists n :: LastAsked(p, now, touches[..last], o, n, request))
  {
    var last := |touches| - 1;
    EarlierTouches(p, now, touches, o, last);
    hide AskedBefore, Passes;
    if AskedBefore(p, now, touches, o, |touches|, request) {
      assert LastAsked(p, now, touches, o, |touches|, request);
    }
    forall n: nat | LastAsked(p, now, touches, o, n, request) && n <= last
      ensures LastAsked(p, now, touches[..last], o, n, request) && Passes(p, now, touches, o, last)
    {
    }
    forall n: nat | LastAsked(p, now, touches[..last], o, n, request) && Passes(p, now, touches, o, last)
      ensures LastAsked(p, now, touches, o, n, request)
    {
    }
  }
}
