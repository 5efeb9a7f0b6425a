/**
 The pending-completion protocol of the dashboard: driven by its runtime, the reducer never sees a completion out of
 order, never reaches a panic, always has a menu layout when a touch needs one, and ends every iteration at rest.
 */
module DashboardProtocol {
  import opened Wrappers
  import opened DashboardState
  import opened DashboardReduce
  import opened DashboardRuntime
  import ControllerGuard

  /** A settings change that is saved to a device. */
  predicate Savable(plan: Plan) {
    plan.action.Volume? || plan.action.Keymap? || (plan.action.Brightness? && BrightnessValid(plan.action.percent))
  }

  predicate PendingSane(a: AppState) {
    a.pending.Some? ==>
      match a.pending.value
      case Settings(plan) => Savable(plan)
      case VolumeTone(plan) => plan.action.Volume?
      case Launch(request) => request.game.Catalog? ==> request.game.index < |a.games|
      case _ => true
  }

  /** The open flags match the view, the brightness is a step, and a reboot is only armed on the dashboard. */
  predicate Coherent(a: AppState) {
    && a.settings.open == (a.view.Settings? || a.view.Wifi?)
    && a.wifi.open == a.view.Wifi?
    && BrightnessValid(a.settings.brightness)
    && (a.rebootDeadline > 0 ==> a.view.Dashboard?)
    && PendingSane(a)
  }

  predicate IsLaunch(p: Option<Pending>, touchBatch: bool) {
    p.Some? && p.value.Launch? && p.value.request.touchBatch == touchBatch
  }

  predicate IsChild(p: Option<Pending>, stage: Option<Recovery>) {
    p.Some? && p.value.Child? && p.value.active.recovery == stage && (stage.Some? ==> p.value.active.result.Some?)
  }

  /** The pending action an event finds when it comes in its turn. */
  predicate InTurn(p: Option<Pending>, e: Event) {
    match e
    case Touch(_, _) => p.None? || IsLaunch(p, true)
    case SettingsResult(_) => p.Some? && p.value.Settings?
    case VolumeToneResult(_) => p.Some? && p.value.VolumeTone?
    case WifiResult(_, _) => p.Some? && p.value.Wifi?
    case NetworkResult(_) => p.Some? && p.value.Network?
    case Prepared(_, _) => p.Some? && p.value.Launch?
    case ChildReturned(_, _) => IsChild(p, None)
    case ControlsRescanned(_) => p.None? || IsChild(p, Some(Recovery.Controls))
    case PresentationOpened => IsChild(p, Some(Presentation))
    case ChildComplete(_) => IsChild(p, Some(Recovery.Volume))
    case _ => p.None?
  }

  /** The pending action under which an effect may be carried out. */
  predicate Answerable(p: Option<Pending>, e: Effect) {
    match e
    case SettingsAction(plan) => p == Some(Pending.Settings(plan)) && Savable(plan)
    case VolumeCue => p.Some? && p.value.VolumeTone?
    case WifiAction => p.Some? && p.value.Wifi?
    case NetworkAction => p.Some? && p.value.Network?
    case ScanControls => p.None? || IsChild(p, Some(Recovery.Controls))
    case ReconnectTouch => p.None?
    case OpenPresentation => IsChild(p, Some(Presentation))
    case ReloadVolume => IsChild(p, Some(Recovery.Volume))
    case Launch => IsChild(p, None)
    case PrepareLaunch => p.Some? && p.value.Launch?
    case _ => true
  }

  function After(p: Option<Pending>, e: Effect): Option<Pending> {
    if AnswerRank(e) > 0 then None else p
  }

  /** Every effect of the list is carried out under a pending action that waits for its answer. */
  predicate Expected(p: Option<Pending>, effects: seq<Effect>)
    decreases |effects|
  {
    effects == [] || (Answerable(p, effects[0]) && Expected(After(p, effects[0]), effects[1..]))
  }

  /** What is pending once the list has been carried out. */
  function LeftPending(p: Option<Pending>, effects: seq<Effect>): Option<Pending>
    decreases |effects|
  {
    if effects == [] then p else LeftPending(After(p, effects[0]), effects[1..])
  }

  predicate Silent(effects: seq<Effect>) {
    forall i :: 0 <= i < |effects| ==> AnswerRank(effects[i]) == 0 && !effects[i].StopLoop?
  }

  lemma {:induction false} SilentPrefix(p: Option<Pending>, quiet: seq<Effect>, rest: seq<Effect>)
    requires Silent(quiet)
    ensures Expected(p, quiet + rest) == Expected(p, rest)
    ensures LeftPending(p, quiet + rest) == LeftPending(p, rest)
  {
    if quiet == [] {
      assert quiet + rest == rest;
    } else {
      assert (quiet + rest)[1..] == quiet[1..] + rest;
      SilentPrefix(p, quiet[1..], rest);
    }
  }

  lemma SilentList(p: Option<Pending>, quiet: seq<Effect>)
    requires Silent(quiet)
    ensures Expected(p, quiet) && LeftPending(p, quiet) == p
  {
    SilentPrefix(p, quiet, []);
    assert quiet + [] == quiet;
  }

  /** What is left pending when an event and everything it set off is done. */
  predicate Rests(e: Event, p: Option<Pending>, effects: seq<Effect>) {
    p.None? || (e.Touch? && IsLaunch(p, true)) || (e.Controls? && IsLaunch(p, false) && DiscardTouch in effects)
  }

  /** What the protocol needs from one reduction. */
  predicate Sound(a: AppState, e: Event, r: Reduced) {
    && r.Reduced?
    && Coherent(r.app)
    && r.app.games == a.games
    && Expected(r.app.pending, r.effects)
    && Rests(e, LeftPending(r.app.pending, r.effects), r.effects)
    && (r.app.view.Dashboard? ==> a.view.Dashboard? || Render in r.effects)
    && (StopLoop in r.effects ==> e.ChildReturned?)
    && (!e.Touch? && !e.Controls? ==> r.app.view == a.view)
  }

  // ---- The reductions, one by one ----

  lemma ScreenIsSilent(cue: Option<Cue>)
    ensures Silent(Screen(cue)) && Render in Screen(cue)
  {
    assert Screen(cue)[0] == Render;
  }

  lemma RequestIsCoherent(a: AppState, index: nat, now: nat, touchBatch: bool)
    requires Coherent(a) && a.view.Dashboard?
    ensures var r := RequestGame(a, index, now, touchBatch);
      r.Reduced? && Coherent(r.app) && r.app.games == a.games && r.app.view == a.view
      && (r.app.pending == a.pending || IsLaunch(r.app.pending, touchBatch))
  {
    if index < |a.games| && !IsReboot(a, index) {
      CancelIsCoherent(a);
      LaunchIsCoherent(CancelReboot(a), index, touchBatch);
    } else if index < |a.games| {
      LaunchIsCoherent(a.(rebootDeadline := 0), index, touchBatch);
    }
  }

  lemma LaunchIsCoherent(a: AppState, index: nat, touchBatch: bool)
    requires Coherent(a) && index < |a.games|
    ensures Coherent(AskLaunch(a, Catalog(index), None, touchBatch))
  {
  }

  lemma CancelIsCoherent(a: AppState)
    requires Coherent(a)
    ensures var b := CancelReboot(a);
      Coherent(b) && b.games == a.games && b.view == a.view && b.pending == a.pending && b.rebootDeadline == 0
  {
  }

  lemma ViewIsCoherent(a: AppState, v: View, m: Message)
    requires Coherent(a) && (a.rebootDeadline == 0 || v.Dashboard?)
    ensures var b := SetStatus(SetView(a, v), m);
      Coherent(b) && b.games == a.games && b.view == v && b.pending == a.pending
  {
  }

  /** A reduction that asks no device anything. */
  predicate Plain(a: AppState, r: Reduced) {
    && r.Reduced? && Silent(r.effects) && Coherent(r.app) && r.app.games == a.games
    && (r.app.view.Dashboard? ==> a.view.Dashboard? || Render in r.effects)
  }

  lemma RequestIsPlain(a: AppState, index: nat, now: nat, touchBatch: bool)
    requires Coherent(a) && a.view.Dashboard?
    ensures var r := RequestGame(a, index, now, touchBatch);
      Plain(a, r) && (r.app.pending == a.pending || IsLaunch(r.app.pending, touchBatch))
  {
    RequestIsCoherent(a, index, now, touchBatch);
    ScreenIsSilent(Some(Cue.Confirm));
  }

  lemma MoveIsPlain(a: AppState, previous: bool)
    requires Coherent(a)
    ensures var r := MoveCommand(a, previous); Plain(a, r) && r.app.pending == a.pending
  {
    CancelIsCoherent(a);
    StepIsCoherent(CancelReboot(a), previous);
    ScreenIsSilent(Some(if previous then Cue.Previous else Cue.Next));
    ScreenIsSilent(None);
  }

  lemma StepIsCoherent(a: AppState, previous: bool)
    requires Coherent(a)
    ensures var b := StepPosition(a, previous).0;
      Coherent(b) && b.games == a.games && b.view == a.view && b.pending == a.pending
  {
  }

  lemma BackIsPlain(a: AppState)
    requires Coherent(a)
    ensures var r := Obey(a, Command.Back, 0); Plain(a, r) && r.app.pending == a.pending
  {
    CancelIsCoherent(a);
    ViewIsCoherent(CancelReboot(a), View.Dashboard, Blank);
    ViewIsCoherent(CancelReboot(a), View.Settings, WifiEditorClosed);
    ScreenIsSilent(Some(Cue.Back));
  }

  lemma SettingsKeyIsPlain(a: AppState)
    requires Coherent(a)
    ensures var r := Obey(a, Command.Settings, 0); Plain(a, r) && r.app.pending == a.pending
  {
    var b := CancelReboot(a);
    CancelIsCoherent(a);
    ViewIsCoherent(b, View.Dashboard, Blank);
    ViewIsCoherent(b.(settings := b.settings.(selected := SettingsTarget.VolumeDown)), View.Settings, Blank);
    ScreenIsSilent(Some(if a.view.Settings? then Cue.Back else Cue.Confirm));
  }

  lemma SystemKeyIsPlain(a: AppState, previous: bool)
    requires Coherent(a)
    ensures var b := SystemCommand(a, previous);
      Coherent(b) && b.games == a.games && b.view == a.view && b.pending == a.pending
  {
    CancelIsCoherent(a);
  }

  /** A settings key leads to a view, a launch, or a saved change that waits for its result. */
  lemma PlanIsSound(a: AppState, target: SettingsTarget, touchBatch: bool)
    requires Coherent(a) && a.view.Settings?
    ensures var r := SettingsPlan(a, Activate(a.settings, target), touchBatch);
      (Plain(a, r) && (r.app.pending == a.pending || IsLaunch(r.app.pending, touchBatch)))
      || (exists plan :: Savable(plan) && r.app == a.(pending := Some(Pending.Settings(plan)))
                         && r.effects == [Effect.SettingsAction(plan)])
  {
    var plan := Activate(a.settings, target);
    var r := SettingsPlan(a, plan, touchBatch);
    if plan.action.Volume? || plan.action.Brightness? || plan.action.Keymap? {
      assert Savable(plan);
    }
  }

  lemma SavedChange(p: Option<Pending>, plan: Plan)
    requires Savable(plan) && p == Some(Pending.Settings(plan))
    ensures Expected(p, [Effect.SettingsAction(plan)]) && LeftPending(p, [Effect.SettingsAction(plan)]).None?
  {
    var effects := [Effect.SettingsAction(plan)];
    assert effects[1..] == [];
  }

  /** What the protocol needs from a command. */
  predicate CommandSound(a: AppState, r: Reduced) {
    && r.Reduced? && Coherent(r.app) && r.app.games == a.games && StopLoop !in r.effects
    && Expected(r.app.pending, r.effects)
    && (LeftPending(r.app.pending, r.effects).None? || IsLaunch(LeftPending(r.app.pending, r.effects), false))
    && (r.app.view.Dashboard? ==> a.view.Dashboard? || Render in r.effects)
  }

  lemma ConfirmIsSound(a: AppState, now: nat)
    requires Coherent(a) && a.pending.None? && (a.view.Dashboard? || a.view.Settings?)
    ensures CommandSound(a, ConfirmCommand(a, now))
  {
    var r := ConfirmCommand(a, now);
    if a.view.Settings? {
      PlanIsSound(a, a.settings.selected, false);
      if Plain(a, r) {
        SilentList(r.app.pending, r.effects);
      } else {
        SavedChange(r.app.pending, Activate(a.settings, a.settings.selected));
      }
    } else if SelectedGame(a).Some? {
      RequestIsPlain(a, SelectedGame(a).value, now, false);
      SilentList(r.app.pending, r.effects);
    }
  }

  lemma ObeyIsSound(a: AppState, command: Command, now: nat)
    requires Coherent(a) && a.pending.None?
    requires command.Confirm? ==> a.view.Dashboard? || a.view.Settings?
    ensures CommandSound(a, Obey(a, command, now))
  {
    var r := Obey(a, command, now);
    match command
    case Confirm => ConfirmIsSound(a, now);
    case Previous => MoveIsPlain(a, true); SilentList(r.app.pending, r.effects);
    case Next => MoveIsPlain(a, false); SilentList(r.app.pending, r.effects);
    case Back => BackIsPlain(a); SilentList(r.app.pending, r.effects);
    case Settings => SettingsKeyIsPlain(a); SilentList(r.app.pending, r.effects);
    case SystemPrevious =>
      SystemKeyIsPlain(a, true);
      ScreenIsSilent(Some(Cue.Previous));
      SilentList(r.app.pending, r.effects);
    case SystemNext =>
      SystemKeyIsPlain(a, false);
      ScreenIsSilent(Some(Cue.Next));
      SilentList(r.app.pending, r.effects);
  }

  /** A command stays sound behind the guard's report and the order to drop the touches. */
  lemma PrefixIsSound(a: AppState, prefix: seq<Effect>, done: Reduced)
    requires CommandSound(a, done) && Silent(prefix)
    ensures var effects := prefix + [DiscardTouch] + done.effects;
      && Expected(done.app.pending, effects) && LeftPending(done.app.pending, effects) == LeftPending(done.app.pending, done.effects)
      && DiscardTouch in effects && StopLoop !in effects && (Render in done.effects ==> Render in effects)
  {
    var quiet := prefix + [DiscardTouch];
    assert quiet[|prefix|] == DiscardTouch;
    SilentPrefix(done.app.pending, quiet, done.effects);
  }

  lemma GuardIsCoherent(a: AppState, guard: ControllerGuard.Guard)
    requires Coherent(a)
    ensures var b := a.(guard := guard);
      Coherent(b) && Coherent(ClearPressed(b)) && ClearPressed(b).games == a.games && ClearPressed(b).view == a.view
      && ClearPressed(b).pending == a.pending
  {
  }

  lemma PrefixedCommandIsSound(a: AppState, b: AppState, e: Event, prefix: seq<Effect>, command: Command, now: nat)
    requires Coherent(b) && b.pending.None? && b.games == a.games && b.view == a.view && e.Controls? && Silent(prefix)
    requires command.Confirm? ==> b.view.Dashboard? || b.view.Settings?
    ensures var done := Obey(b, command, now);
      Sound(a, e, Reduced(done.app, prefix + [DiscardTouch] + done.effects))
  {
    ObeyIsSound(b, command, now);
    PrefixIsSound(b, prefix, Obey(b, command, now));
  }

  lemma ControlsIsSound(a: AppState, now: nat, gamepad: seq<Action>, keyboard: seq<Action>, quarantined: bool)
    requires Coherent(a) && a.pending.None?
    ensures Sound(a, Event.Controls(now, gamepad, keyboard, quarantined), OnControls(a, now, gamepad, keyboard, quarantined))
  {
    hide Obey, MergeActions;
    var e := Event.Controls(now, gamepad, keyboard, quarantined);
    var b := if gamepad == [] then a else a.(guard := ControllerGuard.Accept(a.guard, now).0);
    var prefix := if !a.guard.suspended && b.guard.suspended then [ControllerSuspended] else [];
    var command := SelectCommand(AdmittedActions(a, now, gamepad, keyboard, quarantined), b.view);
    assert b == a.(guard := b.guard);
    GuardIsCoherent(a, b.guard);
    if command.Some? {
      PrefixedCommandIsSound(a, ClearPressed(b), e, prefix, command.value, now);
    } else {
      QuietIsSound(a, e, Reduced(b, prefix));
    }
  }

  lemma MenuIsPlain(a: AppState, target: Option<MenuTarget>, now: nat)
    requires Coherent(a) && a.view.Dashboard?
    requires a.rebootDeadline > 0 ==> OnRebootCard(a, target)
    ensures var r := OpenMenuTarget(a, target, now);
      Plain(a, r) && (r.app.pending == a.pending || IsLaunch(r.app.pending, true))
  {
    if target.Some? {
      match target.value
      case Game(index) => RequestIsPlain(a, index, now, true);
      case Previous => MoveIsPlain(a, true);
      case Next => MoveIsPlain(a, false);
      case _ =>
    }
  }

  lemma DashboardTouchIsPlain(a: AppState, r: TouchReport, now: nat)
    requires Coherent(a) && a.view.Dashboard?
    ensures var out := DashboardTouch(a, r, now);
      Plain(a, out) && (out.app.pending == a.pending || IsLaunch(out.app.pending, true))
  {
    if r.released {
      var lifted := (if r.pressed then a.(pressed := r.menu) else a).(pressed := None);
      assert lifted == a.(pressed := None);
      var b := if lifted.rebootDeadline > 0 && !OnRebootCard(lifted, r.menu) then CancelReboot(lifted) else lifted;
      CancelIsCoherent(lifted);
      MenuIsPlain(b, r.menu, now);
    }
  }

  lemma WifiKeyIsSound(a: AppState, t: WifiTarget)
    requires Coherent(a) && a.view.Wifi?
    ensures var out := PressWifiKey(a, t);
      (Plain(a, out) && out.app.pending == a.pending)
      || out == Reduced(a.(pending := Some(Pending.Wifi)), [WifiAction])
  {
  }

  lemma WifiTouchIsSound(a: AppState, r: TouchReport, now: nat)
    requires Coherent(a) && a.view.Wifi? && InTurn(a.pending, Touch(now, r))
    ensures Sound(a, Touch(now, r), WifiTouch(a, r))
  {
    hide PressWifiKey;
    var out := WifiTouch(a, r);
    SilentList(a.pending, []);
    OneEffect(Some(Pending.Wifi), WifiAction);
    var held := if r.pressed then a.(wifi := a.wifi.(pressed := r.wifi)) else a;
    var b := held.(wifi := held.wifi.(pressed := None));
    if r.released && held.wifi.pressed == r.wifi && r.wifi.Some? {
      WifiKeyIsSound(b, r.wifi.value);
      if out.effects != [WifiAction] {
        SilentList(out.app.pending, out.effects);
      }
    }
  }

  lemma SettingsTouchIsSound(a: AppState, r: TouchReport, now: nat)
    requires Coherent(a) && a.view.Settings? && InTurn(a.pending, Touch(now, r))
    ensures Sound(a, Touch(now, r), SettingsTouch(a, r))
  {
    var out := SettingsTouch(a, r);
    var (s, plan) := TouchSettings(a.settings, r);
    var b := a.(settings := s);
    if plan.Some? {
      PlanIsSound(b, r.settings.value, true);
      if Plain(b, out) {
        SilentList(out.app.pending, out.effects);
      } else {
        SavedChange(out.app.pending, plan.value);
      }
    }
  }

  lemma TouchIsSound(a: AppState, now: nat, r: TouchReport, layout: bool)
    requires Coherent(a) && InTurn(a.pending, Touch(now, r)) && (a.view.Dashboard? ==> layout)
    ensures Sound(a, Touch(now, r), OnTouch(a, now, r, layout))
  {
    hide DashboardTouch, WifiTouch, SettingsTouch;
    var out := OnTouch(a, now, r, layout);
    match a.view
    case Dashboard => DashboardTouchIsPlain(a, r, now); SilentList(out.app.pending, out.effects);
    case Settings => SettingsTouchIsSound(a, r, now);
    case Credits => SilentList(out.app.pending, out.effects);
    case Wifi => WifiTouchIsSound(a, r, now);
  }

  lemma BeginIsSound(a: AppState, now: nat, wayland: bool, rescan: bool)
    requires Coherent(a) && a.pending.None?
    ensures Sound(a, Begin(now, wayland, rescan), OnBegin(a, now, wayland, rescan))
  {
    var r := OnBegin(a, now, wayland, rescan);
    RestingList(r.effects);
  }

  /** With nothing pending, device scans and reconnections may be asked for in any number. */
  lemma {:induction false} RestingList(effects: seq<Effect>)
    requires forall i :: 0 <= i < |effects| ==>
      AnswerRank(effects[i]) == 0 || effects[i].ReconnectTouch? || effects[i].ScanControls?
    ensures Expected(None, effects) && LeftPending(None, effects).None?
  {
    if effects != [] {
      RestingList(effects[1..]);
    }
  }

  /** A reduction that stays in its view, asks nothing, and leaves nothing pending. */
  lemma QuietIsSound(a: AppState, e: Event, r: Reduced)
    requires r.Reduced? && Silent(r.effects) && Coherent(r.app) && r.app.games == a.games
    requires r.app.pending.None? && r.app.view == a.view
    ensures Sound(a, e, r)
  {
    SilentList(None, r.effects);
  }

  /** A reduction that stays in its view and ends by asking for one answer. */
  lemma AskingIsSound(a: AppState, e: Event, app: AppState, quiet: seq<Effect>, last: Effect)
    requires Silent(quiet) && Coherent(app) && app.games == a.games && app.view == a.view
    requires Answerable(app.pending, last) && AnswerRank(last) > 0
    ensures Sound(a, e, Reduced(app, quiet + [last]))
  {
    LastEffect(app.pending, quiet, last);
    assert StopLoop !in quiet + [last];
  }

  lemma ExpiryIsPlain(a: AppState, now: nat)
    requires Coherent(a)
    ensures var r := ExpireReboot(a, now);
      r.Reduced? && Silent(r.effects) && Coherent(r.app) && r.app.games == a.games && r.app.view == a.view
      && r.app.pending == a.pending
  {
    ScreenIsSilent(None);
  }

  lemma TickIsSound(a: AppState, now: nat)
    requires Coherent(a) && a.pending.None?
    ensures Sound(a, Tick(now), OnTick(a, now))
  {
    var r := OnTick(a, now);
    ExpiryIsPlain(a, now);
    ScreenIsSilent(None);
    if r.app.pending.Some? {
      AskingIsSound(a, Tick(now), r.app, ExpireReboot(a, now).effects, NetworkAction);
    } else {
      QuietIsSound(a, Tick(now), r);
    }
  }

  lemma LastEffect(p: Option<Pending>, quiet: seq<Effect>, e: Effect)
    requires Silent(quiet) && Answerable(p, e)
    ensures Expected(p, quiet + [e]) && LeftPending(p, quiet + [e]) == After(p, e)
  {
    SilentPrefix(p, quiet, [e]);
    assert [e][1..] == [];
  }

  lemma CompletionIsCoherent(s: SettingsState, plan: Plan, ok: bool, toneOk: bool)
    requires BrightnessValid(s.brightness) && (Savable(plan) || plan.action.Volume?)
    ensures var t := CompleteSettings(s, plan, ok, toneOk); BrightnessValid(t.brightness) && t.open == s.open
  {
  }

  lemma SettingsResultIsSound(a: AppState, ok: bool)
    requires Coherent(a) && InTurn(a.pending, SettingsResult(ok))
    ensures Sound(a, SettingsResult(ok), OnSettingsResult(a, ok))
  {
    var r := OnSettingsResult(a, ok);
    ScreenIsSilent(None);
    CompletionIsCoherent(a.settings, a.pending.value.plan, ok, true);
    if r.app.pending.Some? {
      AskingIsSound(a, SettingsResult(ok), r.app, Screen(None), VolumeCue);
    } else {
      QuietIsSound(a, SettingsResult(ok), r);
    }
  }

  lemma PreparedIsSound(a: AppState, game: Game, plan: LaunchPlan)
    requires Coherent(a) && InTurn(a.pending, Prepared(game, plan))
    ensures Sound(a, Prepared(game, plan), OnPrepared(a, game, plan))
  {
    var quiet := [Render, Present, FinishSound, CloseControls];
    AskingIsSound(a, Prepared(game, plan), OnPrepared(a, game, plan).app, quiet, Effect.Launch);
    assert OnPrepared(a, game, plan).effects == quiet + [Effect.Launch];
  }

  lemma OneEffect(p: Option<Pending>, e: Effect)
    requires Answerable(p, e)
    ensures Expected(p, [e]) && LeftPending(p, [e]) == After(p, e)
  {
    assert [e][1..] == [];
  }

  lemma ChildReturnedIsSound(a: AppState, result: ChildResult, touchDisconnected: bool)
    requires Coherent(a) && InTurn(a.pending, ChildReturned(result, touchDisconnected))
    ensures Sound(a, ChildReturned(result, touchDisconnected), OnChildReturned(a, result, touchDisconnected))
  {
    OneEffect(OnChildReturned(a, result, touchDisconnected).app.pending,
              if result.shutdownRequested then StopLoop else ScanControls);
  }

  lemma RescannedIsSound(a: AppState, now: nat)
    requires Coherent(a) && InTurn(a.pending, ControlsRescanned(now))
    ensures Sound(a, ControlsRescanned(now), OnControlsRescanned(a, now))
  {
    if a.pending.Some? {
      OneEffect(OnControlsRescanned(a, now).app.pending, OpenPresentation);
    }
  }

  lemma OpenedIsSound(a: AppState)
    requires Coherent(a) && InTurn(a.pending, PresentationOpened)
    ensures Sound(a, PresentationOpened, OnPresentationOpened(a))
  {
    OneEffect(OnPresentationOpened(a).app.pending, ReloadVolume);
  }

  lemma ChildCompleteIsSound(a: AppState, volume: Option<Percent>)
    requires Coherent(a) && InTurn(a.pending, ChildComplete(volume))
    ensures Sound(a, ChildComplete(volume), OnChildComplete(a, volume))
  {
    ScreenIsSilent(None);
    QuietIsSound(a, ChildComplete(volume), OnChildComplete(a, volume));
  }

  lemma TouchLinkIsSound(a: AppState, connected: bool)
    requires Coherent(a) && a.pending.None?
    ensures Sound(a, if connected then Event.TouchReconnected else TouchLost, OnTouchLink(a, connected))
  {
    ScreenIsSilent(None);
    QuietIsSound(a, if connected then Event.TouchReconnected else TouchLost, OnTouchLink(a, connected));
  }

  lemma ToneIsSound(a: AppState, ok: bool)
    requires Coherent(a) && InTurn(a.pending, VolumeToneResult(ok))
    ensures Sound(a, VolumeToneResult(ok), OnVolumeTone(a, ok))
  {
    ScreenIsSilent(None);
    CompletionIsCoherent(a.settings, a.pending.value.plan, true, false);
    QuietIsSound(a, VolumeToneResult(ok), OnVolumeTone(a, ok));
  }

  lemma SavedNetworkIsSound(a: AppState, e: Event)
    requires Coherent(a) && InTurn(a.pending, e) && (e.WifiResult? || e.NetworkResult?)
    ensures Sound(a, e, Reduce(a, e, true))
  {
    ScreenIsSilent(None);
    QuietIsSound(a, e, Reduce(a, e, true));
  }

  /** An event in its turn is reduced without an error, and what it asks for can be answered in order. */
  lemma ReductionIsSound(a: AppState, e: Event, layout: bool)
    requires Coherent(a) && InTurn(a.pending, e) && (e.Touch? && a.view.Dashboard? ==> layout)
    ensures Sound(a, e, Reduce(a, e, layout))
  {
    assert Admits(a.pending, e);
    match e
    case Begin(now, wayland, rescan) => BeginIsSound(a, now, wayland, rescan);
    case Tick(now) => TickIsSound(a, now);
    case Controls(now, gamepad, keyboard, quarantined) => ControlsIsSound(a, now, gamepad, keyboard, quarantined);
    case Touch(now, report) => TouchIsSound(a, now, report, layout);
    case SettingsResult(ok) => SettingsResultIsSound(a, ok);
    case Prepared(game, plan) => PreparedIsSound(a, game, plan);
    case ChildReturned(result, touchDisconnected) => ChildReturnedIsSound(a, result, touchDisconnected);
    case ControlsRescanned(now) => RescannedIsSound(a, now);
    case PresentationOpened => OpenedIsSound(a);
    case ChildComplete(volume) => ChildCompleteIsSound(a, volume);
    case TouchLost => TouchLinkIsSound(a, false);
    case TouchReconnected => TouchLinkIsSound(a, true);
    case VolumeToneResult(ok) => ToneIsSound(a, ok);
    case _ => SavedNetworkIsSound(a, e);
  }
}
