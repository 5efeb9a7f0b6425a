/**
 What each dashboard event does, as functions on the dashboard's state (`native/src/dashboard/app.rs`). The class `App`
 in the file beside this one is the reducer that updates its fields; every method of it computes one of these functions.
 */
module DashboardReduce {
  import opened Wrappers
  import opened CatalogMetadata
  import opened DashboardState
  import ControllerGuard

  datatype Reduced = Reduced(app: AppState, effects: seq<Effect>) | Refused(fault: Fault)

  const CLOSED_SETTINGS :=
    SettingsState(false, SettingsTarget.VolumeDown, None, 42, 42, 100, Us, Blank)
  const CLOSED_WIFI := WifiState(false, "", "", WifiField.Ssid, Alphabet, false, None, Blank)
  const NO_NETWORK := NetworkStatus("", "", "", "")

  function InitialState(games: seq<Game>, reducedMotion: bool): AppState {
    AppState(games, View.Dashboard, if PopulatedSystems(games) == [] then Deck else PopulatedSystems(games)[0],
             0, Blank, None, CLOSED_SETTINGS, CLOSED_WIFI, false, NO_NETWORK, reducedMotion, 0, 0,
             ControllerGuard.Fresh, None, true, 0, 0, 0, None)
  }

  function Screen(cue: Option<Cue>): seq<Effect> {
    [Render, Present] + (if cue.Some? then [PlayCue(cue.value)] else [])
  }

  function SetStatus(a: AppState, m: Message): AppState {
    a.(status := m, settings := a.settings.(status := m))
  }

  function ClearPressed(a: AppState): AppState {
    a.(pressed := None, settings := a.settings.(pressed := None), wifi := a.wifi.(pressed := None),
       creditsPressed := false)
  }

  function SetView(a: AppState, v: View): AppState {
    var b := ClearPressed(a);
    b.(view := v, settings := b.settings.(open := v.Settings? || v.Wifi?), wifi := b.wifi.(open := v.Wifi?))
  }

  function CancelReboot(a: AppState): AppState {
    var b := a.(rebootDeadline := 0);
    if b.status == RebootConfirmation then SetStatus(b, Blank) else b
  }

  predicate IsReboot(a: AppState, index: nat) {
    index < |a.games| && a.games[index].id == REBOOT_ID
  }

  function AskLaunch(a: AppState, game: GameIndex, mode: Option<string>, touchBatch: bool): AppState {
    a.(pending := Some(Pending.Launch(LaunchRequest(game, mode, touchBatch))))
  }

  function RequestGame(a: AppState, index: nat, now: nat, touchBatch: bool): Reduced {
    if index >= |a.games| then Reduced(a, [])
    else if IsReboot(a, index) then
      if a.rebootDeadline > 0 && now < a.rebootDeadline
      then Reduced(AskLaunch(a.(rebootDeadline := 0), Catalog(index), None, touchBatch), [])
      else Reduced(SetStatus(a.(rebootDeadline := SaturatingAdd(now, 4000)), RebootConfirmation),
                   Screen(Some(Cue.Confirm)))
    else Reduced(AskLaunch(CancelReboot(a), Catalog(index), None, touchBatch), [])
  }

  function SettingsPlan(a: AppState, plan: Plan, touchBatch: bool): Reduced {
    match plan.action
    case Close => Reduced(SetStatus(SetView(a, View.Dashboard), Blank), Screen(plan.cue))
    case Terminal =>
      Reduced(AskLaunch(a, GameIndex.Terminal, Some(SHELL), touchBatch),
              if plan.cue.Some? then [PlayCue(plan.cue.value)] else [])
    case Wifi =>
      Reduced(SetView(a.(wifi := a.wifi.(open := true, status := Blank, pressed := None)), View.Wifi), Screen(plan.cue))
    case Volume(_) => Reduced(a.(pending := Some(Pending.Settings(plan))), [Effect.SettingsAction(plan)])
    case Brightness(_) => Reduced(a.(pending := Some(Pending.Settings(plan))), [Effect.SettingsAction(plan)])
    case Keymap(_) => Reduced(a.(pending := Some(Pending.Settings(plan))), [Effect.SettingsAction(plan)])
  }

  function BackCommand(a: AppState): AppState {
    var b := CancelReboot(a);
    match b.view
    case Credits => SetStatus(SetView(b, View.Dashboard), Blank)
    case Settings => SetStatus(SetView(b, View.Dashboard), Blank)
    case Wifi => SetStatus(SetView(b, View.Settings), WifiEditorClosed)
    case Dashboard => b
  }

  function SettingsCommand(a: AppState): AppState {
    var b := CancelReboot(a);
    SetStatus(if b.view.Settings? then SetView(b, View.Dashboard)
              else SetView(b.(settings := b.settings.(selected := SettingsTarget.VolumeDown)), View.Settings), Blank)
  }

  function SystemCommand(a: AppState, previous: bool): AppState {
    var b := CancelReboot(a);
    SetStatus(b.(system := NeighbourSystem(b, previous), position := 0), Blank)
  }

  function StepPosition(a: AppState, previous: bool): (AppState, bool) {
    var count := |Indices(a)|;
    var b := if count == 0 then a
             else a.(position := if previous then (a.position + count - 1) % count else (a.position + 1) % count);
    (SetStatus(b, Blank), count > 0)
  }

  function MoveCommand(a: AppState, previous: bool): Reduced {
    var b := CancelReboot(a);
    var cue := if previous then Cue.Previous else Cue.Next;
    if b.view.Settings? then
      var c := b.(settings := MoveSelection(b.settings, previous));
      Reduced(SetStatus(c, c.settings.status), Screen(Some(cue)))
    else
      var (c, moved) := StepPosition(b, previous);
      Reduced(c, Screen(if moved then Some(cue) else None))
  }

  function ConfirmCommand(a: AppState, now: nat): Reduced {
    if a.view.Settings? then SettingsPlan(a, Activate(a.settings, a.settings.selected), false)
    else
      var selected := SelectedGame(a);
      if selected.None? then Reduced(a, [])
      else
        var r := RequestGame(a, selected.value, now, false);
        Reduced(r.app, r.effects + [PlayCue(Cue.Confirm)])
  }

  function Obey(a: AppState, command: Command, now: nat): Reduced {
    match command
    case Back => Reduced(BackCommand(a), Screen(Some(Cue.Back)))
    case Settings => Reduced(SettingsCommand(a), Screen(Some(if a.view.Settings? then Cue.Back else Cue.Confirm)))
    case SystemPrevious => Reduced(SystemCommand(a, true), Screen(Some(Cue.Previous)))
    case SystemNext => Reduced(SystemCommand(a, false), Screen(Some(Cue.Next)))
    case Previous => MoveCommand(a, true)
    case Next => MoveCommand(a, false)
    case Confirm => ConfirmCommand(a, now)
  }

  predicate OnRebootCard(a: AppState, target: Option<MenuTarget>) {
    target.Some? && target.value.Game? && IsReboot(a, target.value.index)
  }

  function OpenMenuTarget(a: AppState, target: Option<MenuTarget>, now: nat): Reduced {
    if target.None? then Reduced(a, [])
    else
      match target.value
      case Credits =>
        Reduced(SetStatus(SetView(a.(creditsStartedAt := now), View.Credits), Blank), Screen(Some(Cue.Confirm)))
      case Settings =>
        var b := a.(settings := a.settings.(selected := SettingsTarget.VolumeDown));
        Reduced(SetStatus(SetView(b, View.Settings), Blank), Screen(Some(Cue.Confirm)))
      case Game(index) =>
        var r := RequestGame(a, index, now, true);
        Reduced(r.app, r.effects + [PlayCue(Cue.Confirm)])
      case System(system) =>
        Reduced(SetStatus(a.(system := system, position := 0), Blank),
                Screen(if a.system != system then Some(Cue.Next) else None))
      case Previous => MoveCommand(a, true)
      case Next => MoveCommand(a, false)
  }

  function DashboardTouch(a: AppState, r: TouchReport, now: nat): Reduced {
    var held := if r.pressed then a.(pressed := r.menu) else a;
    if !r.released then Reduced(held, [])
    else
      var lifted := held.(pressed := None);
      var b := if lifted.rebootDeadline > 0 && !OnRebootCard(lifted, r.menu) then CancelReboot(lifted) else lifted;
      if r.menu != held.pressed then Reduced(b, []) else OpenMenuTarget(b, r.menu, now)
  }

  function PressWifiKey(a: AppState, t: WifiTarget): Reduced {
    match t
    case Back => Reduced(SetStatus(SetView(a, View.Settings), WifiEditorClosed), [Render, PlayCue(Cue.Back), Present])
    case Save =>
      var problem := WifiProblem(a.wifi);
      if problem.Some?
      then Reduced(a.(wifi := a.wifi.(status := problem.value)), [Render, PlayCue(Cue.Confirm), Present])
      else Reduced(a.(pending := Some(Pending.Wifi)), [WifiAction])
    case _ =>
      if t.Shift? && a.wifi.mode.Symbols? then Reduced(a, [Present])
      else Reduced(a.(wifi := EditWifi(a.wifi, t).(status := Blank)), [Render, PlayCue(Cue.Next), Present])
  }

  function WifiTouch(a: AppState, r: TouchReport): Reduced {
    var held := if r.pressed then a.(wifi := a.wifi.(pressed := r.wifi)) else a;
    if !r.released then Reduced(held, [])
    else
      var b := held.(wifi := held.wifi.(pressed := None));
      if held.wifi.pressed != r.wifi || r.wifi.None? then Reduced(b, []) else PressWifiKey(b, r.wifi.value)
  }

  function SettingsTouch(a: AppState, r: TouchReport): Reduced {
    var (s, plan) := TouchSettings(a.settings, r);
    if plan.None? then Reduced(a.(settings := s), []) else SettingsPlan(a.(settings := s), plan.value, true)
  }

  function CreditsTouch(a: AppState, r: TouchReport): Reduced {
    var held := if r.pressed then a.(creditsPressed := r.close) else a;
    if !r.released then Reduced(held, [])
    else
      var b := held.(creditsPressed := false);
      if held.creditsPressed && r.close
      then Reduced(SetStatus(SetView(b, View.Dashboard), Blank), Screen(Some(Cue.Back)))
      else Reduced(b, [])
  }

  function OnTouch(a: AppState, now: nat, r: TouchReport, layout: bool): Reduced {
    match a.view
    case Dashboard => if layout then DashboardTouch(a, r, now) else Refused(NoLayout)
    case Settings => SettingsTouch(a, r)
    case Credits => CreditsTouch(a, r)
    case Wifi => WifiTouch(a, r)
  }

  function OnBegin(a: AppState, now: nat, wayland: bool, rescan: bool): Reduced {
    var (guard, resumed) := ControllerGuard.Recover(a.guard, now);
    var reconnect := !wayland && !a.touchConnected && Minus(now, a.lastTouchReconnect) >= 1000;
    var scan := rescan || a.lastScan.None? || a.lastScan.value == 0 || Minus(now, a.lastScan.value) >= 1000;
    var woken := if resumed then [ReapSound, ControllerResumed] else [ReapSound];
    var linked := if reconnect then woken + [ReconnectTouch] else woken;
    Reduced(a.(guard := guard, lastTouchReconnect := if reconnect then now else a.lastTouchReconnect,
               lastScan := if scan then Some(now) else a.lastScan),
            if scan then linked + [ScanControls] else linked)
  }

  function ExpireReboot(a: AppState, now: nat): Reduced {
    if a.rebootDeadline > 0 && now >= a.rebootDeadline then
      var b := a.(rebootDeadline := 0);
      if b.status == RebootConfirmation then Reduced(SetStatus(b, Blank), Screen(None)) else Reduced(b, [])
    else Reduced(a, [])
  }

  function OnTick(a: AppState, now: nat): Reduced {
    var r := ExpireReboot(a, now);
    var b := r.app;
    if (b.view.Settings? || b.view.Wifi?) && Minus(now, b.networkRefreshedAt) >= 2000 then
      Reduced(b.(networkRefreshedAt := now, pending := Some(Network)), r.effects + [NetworkAction])
    else if b.view.Credits? && !b.reducedMotion && Minus(now, b.creditsRenderedAt) >= 66 then
      Reduced(b.(creditsRenderedAt := now), r.effects + Screen(None))
    else Reduced(b, r.effects)
  }

  /** The actions that are left of a report once the burst guard and the sound quarantine have had their say. */
  function AdmittedActions(a: AppState, now: nat, gamepad: seq<Action>, keyboard: seq<Action>, quarantined: bool)
    : seq<Action>
  {
    var admitted := gamepad != [] && !quarantined && ControllerGuard.Accept(a.guard, now).1;
    MergeActions(if admitted then gamepad else [], keyboard)
  }

  function OnControls(a: AppState, now: nat, gamepad: seq<Action>, keyboard: seq<Action>, quarantined: bool): Reduced {
    var b := if gamepad == [] then a else a.(guard := ControllerGuard.Accept(a.guard, now).0);
    var prefix := if !a.guard.suspended && b.guard.suspended then [ControllerSuspended] else [];
    var command := SelectCommand(AdmittedActions(a, now, gamepad, keyboard, quarantined), b.view);
    if command.None? then Reduced(b, prefix)
    else
      var r := Obey(ClearPressed(b), command.value, now);
      Reduced(r.app, prefix + [DiscardTouch] + r.effects)
  }

  function OnTouchLink(a: AppState, connected: bool): Reduced {
    var b := ClearPressed(a).(touchConnected := connected);
    var m := if connected then Message.TouchReconnected else WaitingForTouch;
    Reduced(if b.view.Wifi? then b.(wifi := b.wifi.(status := m)) else SetStatus(b, m), Screen(None))
  }

  function OnSettingsResult(a: AppState, ok: bool): Reduced {
    if a.pending.None? || !a.pending.value.Settings? then Refused(Panicked)
    else
      var plan := a.pending.value.plan;
      var b := a.(pending := None, settings := CompleteSettings(a.settings, plan, ok, true));
      var c := SetStatus(b, b.settings.status);
      if plan.action.Volume? then
        if !ok then Reduced(c, Screen(None))
        else if plan.action.volume == 0 then Reduced(c, Screen(None) + [StopSound])
        else Reduced(c.(pending := Some(VolumeTone(plan))), Screen(None) + [VolumeCue])
      else Reduced(c, Screen(None) + (if plan.cue.Some? then [PlayCue(plan.cue.value)] else []))
  }

  function OnVolumeTone(a: AppState, ok: bool): Reduced {
    if a.pending.None? || !a.pending.value.VolumeTone? then Refused(Panicked)
    else
      var b := a.(pending := None);
      if ok then Reduced(b, [])
      else
        var c := b.(settings := CompleteSettings(b.settings, a.pending.value.plan, true, false));
        Reduced(SetStatus(c, c.settings.status), Screen(None))
  }

  function OnPrepared(a: AppState, game: Game, plan: LaunchPlan): Reduced {
    if a.pending.None? || !a.pending.value.Launch? then Refused(Panicked)
    else
      var m := match plan.kind
               case Reboot => Rebooting
               case Terminal => Starting(TerminalTitle(plan.mode))
               case Game => Starting(game.title);
      Reduced(SetStatus(a, m).(pending := Some(Child(ActiveLaunch(game, plan, None, None)))),
              [Render, Present, FinishSound, CloseControls, Effect.Launch])
  }

  function OnChildReturned(a: AppState, result: ChildResult, touchDisconnected: bool): Reduced {
    var b := ClearPressed(a);
    if result.shutdownRequested then Reduced(b.(pending := None), [StopLoop])
    else if b.pending.None? || !b.pending.value.Child? then Refused(Panicked)
    else
      var active := b.pending.value.active;
      Reduced(b.(touchConnected := b.touchConnected && !touchDisconnected,
                 pending := Some(Child(active.(result := Some(result), recovery := Some(Recovery.Controls))))),
              [ScanControls])
  }

  function OnControlsRescanned(a: AppState, now: nat): Reduced {
    var b := a.(lastScan := Some(now));
    if b.pending.Some? && b.pending.value.Child? then
      Reduced(b.(pending := Some(Child(b.pending.value.active.(recovery := Some(Presentation))))), [OpenPresentation])
    else Reduced(b, [])
  }

  function OnPresentationOpened(a: AppState): Reduced {
    if a.pending.None? || !a.pending.value.Child? then Refused(Panicked)
    else
      Reduced(a.(pending := Some(Child(a.pending.value.active.(recovery := Some(Recovery.Volume))))), [ReloadVolume])
  }

  function OnChildComplete(a: AppState, volume: Option<Percent>): Reduced {
    if a.pending.None? || !a.pending.value.Child? || a.pending.value.active.result.None? then Refused(Panicked)
    else
      var b := a.(pending := None,
                  settings := if volume.None? then a.settings
                              else if volume.value > 0
                              then a.settings.(volume := volume.value, lastAudibleVolume := volume.value)
                              else a.settings.(volume := volume.value));
      Reduced(SetStatus(b, DescribeChild(a.pending.value.active)), Screen(None))
  }

  /** The events a pending action lets through. */
  predicate Admits(pending: Option<Pending>, e: Event) {
    pending.None? ||
    match pending.value
    case Launch(request) => e.Prepared? || (e.Touch? && request.touchBatch)
    case Settings(_) => e.SettingsResult?
    case VolumeTone(_) => e.VolumeToneResult?
    case Wifi => e.WifiResult?
    case Network => e.NetworkResult?
    case Child(active) =>
      if active.recovery.None? then e.ChildReturned?
      else match active.recovery.value
           case Controls => e.ControlsRescanned?
           case Presentation => e.PresentationOpened?
           case Volume => e.ChildComplete?
  }

  function Reduce(a: AppState, e: Event, layout: bool): Reduced {
    if !Admits(a.pending, e) then Refused(OutOfOrder)
    else
      match e
      case Begin(now, wayland, rescan) => OnBegin(a, now, wayland, rescan)
      case Tick(now) => OnTick(a, now)
      case Controls(now, gamepad, keyboard, quarantined) => OnControls(a, now, gamepad, keyboard, quarantined)
      case Touch(now, report) => OnTouch(a, now, report, layout)
      case TouchLost => OnTouchLink(a, false)
      case TouchReconnected => OnTouchLink(a, true)
      case SettingsResult(ok) => OnSettingsResult(a, ok)
      case VolumeToneResult(ok) => OnVolumeTone(a, ok)
      case WifiResult(succeeded, failure) =>
        Reduced(a.(pending := None, wifi := CompleteWifi(a.wifi, succeeded, failure)),
                [Render, PlayCue(Cue.Confirm), Present])
      case NetworkResult(network) =>
        Reduced(a.(pending := None, network := network), if a.network != network then Screen(None) else [])
      case Prepared(game, plan) => OnPrepared(a, game, plan)
      case ChildReturned(result, touchDisconnected) => OnChildReturned(a, result, touchDisconnected)
      case ControlsRescanned(now) => OnControlsRescanned(a, now)
      case PresentationOpened => OnPresentationOpened(a)
      case ChildComplete(volume) => OnChildComplete(a, volume)
  }
}
