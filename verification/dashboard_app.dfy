/** The dashboard reducer: an object whose fields the event handlers update (`native/src/dashboard/app.rs`). */
module DashboardApp {
  import opened Wrappers
  import opened DashboardState
  import opened DashboardReduce
  import CatalogMetadata
  import ControllerGuard

  datatype Outcome = Effects(effects: seq<Effect>) | Stopped(fault: Fault)

  function OutcomeOf(r: Reduced): Outcome {
    if r.Reduced? then Effects(r.effects) else Outcome.Stopped(r.fault)
  }

  class App {
    const games: seq<Game>
    var view: View
    var system: CatalogMetadata.System
    var position: nat
    var status: Message
    var pressed: Option<MenuTarget>
    var settings: SettingsState
    var wifi: WifiState
    var creditsPressed: bool
    var network: NetworkStatus
    const reducedMotion: bool
    var creditsStartedAt: nat
    var creditsRenderedAt: nat
    const guard: ControllerGuard.Cell
    var lastScan: Option<nat>
    var touchConnected: bool
    var lastTouchReconnect: nat
    var networkRefreshedAt: nat
    var rebootDeadline: nat
    var pending: Option<Pending>

    function Value(): AppState
      reads this, guard
    {
      AppState(games, view, system, position, status, pressed, settings, wifi, creditsPressed, network, reducedMotion,
               creditsStartedAt, creditsRenderedAt, guard.Value(), lastScan, touchConnected, lastTouchReconnect,
               networkRefreshedAt, rebootDeadline, pending)
    }

    constructor (games: seq<Game>, reducedMotion: bool)
      ensures fresh(guard) && Value() == InitialState(games, reducedMotion)
    {
      this.games, this.reducedMotion := games, reducedMotion;
      view, position, status, pressed := View.Dashboard, 0, Blank, None;
      system := if PopulatedSystems(games) == [] then CatalogMetadata.Deck else PopulatedSystems(games)[0];
      settings, wifi, creditsPressed, network := CLOSED_SETTINGS, CLOSED_WIFI, false, NO_NETWORK;
      creditsStartedAt, creditsRenderedAt, lastScan := 0, 0, None;
      guard := new ControllerGuard.Cell();
      touchConnected, lastTouchReconnect, networkRefreshedAt, rebootDeadline, pending := true, 0, 0, 0, None;
    }

    method SetStatus(m: Message)
      modifies this
      ensures Value() == DashboardReduce.SetStatus(old(Value()), m)
    {
      status := m;
      settings := settings.(status := m);
    }

    method ClearPressed()
      modifies this
      ensures Value() == DashboardReduce.ClearPressed(old(Value()))
    {
      pressed := None;
      settings := settings.(pressed := None);
      wifi := wifi.(pressed := None);
      creditsPressed := false;
    }

    method SetView(v: View)
      modifies this
      ensures Value() == DashboardReduce.SetView(old(Value()), v)
    {
      ClearPressed();
      view := v;
      settings := settings.(open := v.Settings? || v.Wifi?);
      wifi := wifi.(open := v.Wifi?);
    }

    method CancelReboot()
      modifies this
      ensures Value() == DashboardReduce.CancelReboot(old(Value()))
    {
      rebootDeadline := 0;
      if status == RebootConfirmation {
        SetStatus(Blank);
      }
    }

    method RequestGame(index: nat, now: nat, touchBatch: bool) returns (effects: seq<Effect>)
      modifies this
      ensures Reduced(Value(), effects) == DashboardReduce.RequestGame(old(Value()), index, now, touchBatch)
    {
      if index >= |games| {
        return [];
      }
      if games[index].id == REBOOT_ID {
        if rebootDeadline > 0 && now < rebootDeadline {
          rebootDeadline := 0;
        } else {
          rebootDeadline := SaturatingAdd(now, 4000);
          SetStatus(RebootConfirmation);
          return Screen(Some(Cue.Confirm));
        }
      } else {
        CancelReboot();
      }
      pending := Some(Pending.Launch(LaunchRequest(Catalog(index), None, touchBatch)));
      return [];
    }

    method SettingsPlan(plan: Plan, touchBatch: bool) returns (effects: seq<Effect>)
      modifies this
      ensures Reduced(Value(), effects) == DashboardReduce.SettingsPlan(old(Value()), plan, touchBatch)
    {
      match plan.action {
        case Close =>
          SetView(View.Dashboard);
          SetStatus(Blank);
          return Screen(plan.cue);
        case Terminal =>
          pending := Some(Pending.Launch(LaunchRequest(GameIndex.Terminal, Some(SHELL), touchBatch)));
          return if plan.cue.Some? then [PlayCue(plan.cue.value)] else [];
        case Wifi =>
          wifi := wifi.(open := true, status := Blank, pressed := None);
          SetView(View.Wifi);
          return Screen(plan.cue);
        case _ =>
          pending := Some(Pending.Settings(plan));
          return [Effect.SettingsAction(plan)];
      }
    }

    method Obey(command: Command, now: nat) returns (effects: seq<Effect>)
      modifies this
      ensures Reduced(Value(), effects) == DashboardReduce.Obey(old(Value()), command, now)
    {
      match command {
        case Back =>
          GoBack();
          return Screen(Some(Cue.Back));
        case Settings =>
          var opening := !view.Settings?;
          ToggleSettings();
          return Screen(Some(if opening then Cue.Confirm else Cue.Back));
        case SystemPrevious =>
          effects := MoveSystem(true);
        case SystemNext =>
          effects := MoveSystem(false);
        case Previous =>
          effects := MovePosition(true);
        case Next =>
          effects := MovePosition(false);
        case Confirm =>
          effects := Confirm(now);
      }
    }

    method GoBack()
      modifies this
      ensures Value() == BackCommand(old(Value()))
    {
      CancelReboot();
      match view {
        case Credits =>
          SetView(View.Dashboard);
          SetStatus(Blank);
        case Settings =>
          SetView(View.Dashboard);
          SetStatus(Blank);
        case Wifi =>
          SetView(View.Settings);
          SetStatus(WifiEditorClosed);
        case Dashboard =>
      }
    }

    method ToggleSettings()
      modifies this
      ensures Value() == SettingsCommand(old(Value()))
    {
      CancelReboot();
      if view.Settings? {
        SetView(View.Dashboard);
      } else {
        settings := settings.(selected := SettingsTarget.VolumeDown);
        SetView(View.Settings);
      }
      SetStatus(Blank);
    }

    method Confirm(now: nat) returns (effects: seq<Effect>)
      modifies this
      ensures Reduced(Value(), effects) == ConfirmCommand(old(Value()), now)
    {
      if view.Settings? {
        effects := SettingsPlan(Activate(settings, settings.selected), false);
        return;
      }
      var selected := SelectedGame(Value());
      if selected.None? {
        return [];
      }
      effects := RequestGame(selected.value, now, false);
      effects := effects + [PlayCue(Cue.Confirm)];
    }

    method MoveSystem(previous: bool) returns (effects: seq<Effect>)
      modifies this
      ensures Reduced(Value(), effects)
           == Reduced(SystemCommand(old(Value()), previous), Screen(Some(if previous then Cue.Previous else Cue.Next)))
    {
      CancelReboot();
      system := NeighbourSystem(Value(), previous);
      position := 0;
      SetStatus(Blank);
      return Screen(Some(if previous then Cue.Previous else Cue.Next));
    }

    method MovePosition(previous: bool) returns (effects: seq<Effect>)
      modifies this
      ensures Reduced(Value(), effects) == MoveCommand(old(Value()), previous)
    {
      CancelReboot();
      var cue := if previous then Cue.Previous else Cue.Next;
      if view.Settings? {
        settings := MoveSelection(settings, previous);
        SetStatus(settings.status);
        return Screen(Some(cue));
      }
      var moved := MoveInSystem(previous);
      return Screen(if moved then Some(cue) else None);
    }

    method MoveInSystem(previous: bool) returns (moved: bool)
      modifies this
      ensures (Value(), moved) == StepPosition(old(Value()), previous)
    {
      var count := |Indices(Value())|;
      if count > 0 {
        position := if previous then (position + count - 1) % count else (position + 1) % count;
      }
      SetStatus(Blank);
      return count > 0;
    }

    method DashboardTouch(r: TouchReport, now: nat) returns (effects: seq<Effect>)
      modifies this
      ensures Reduced(Value(), effects) == DashboardReduce.DashboardTouch(old(Value()), r, now)
    {
      if r.pressed {
        pressed := r.menu;
      }
      if !r.released {
        return [];
      }
      var held := pressed;
      pressed := None;
      if rebootDeadline > 0 && !OnRebootCard(Value(), r.menu) {
        CancelReboot();
      }
      if r.menu != held {
        return [];
      }
      effects := OpenMenuTarget(r.menu, now);
    }

    method OpenMenuTarget(target: Option<MenuTarget>, now: nat) returns (effects: seq<Effect>)
      modifies this
      ensures Reduced(Value(), effects) == DashboardReduce.OpenMenuTarget(old(Value()), target, now)
    {
      hide DashboardReduce.RequestGame, DashboardReduce.MoveCommand, Screen;
      if target.None? {
        return [];
      }
      match target.value {
        case Credits =>
          creditsStartedAt := now;
          SetView(View.Credits);
          SetStatus(Blank);
          return Screen(Some(Cue.Confirm));
        case Settings =>
          settings := settings.(selected := SettingsTarget.VolumeDown);
          SetView(View.Settings);
          SetStatus(Blank);
          return Screen(Some(Cue.Confirm));
        case Game(index) =>
          effects := RequestGame(index, now, true);
          effects := effects + [PlayCue(Cue.Confirm)];
        case System(s) =>
          var moved := system != s;
          system := s;
          position := 0;
          SetStatus(Blank);
          return Screen(if moved then Some(Cue.Next) else None);
        case Previous =>
          effects := MovePosition(true);
        case Next =>
          effects := MovePosition(false);
      }
    }

    method WifiTouch(r: TouchReport) returns (effects: seq<Effect>)
      modifies this
      ensures Reduced(Value(), effects) == DashboardReduce.WifiTouch(old(Value()), r)
    {
      if r.pressed {
        wifi := wifi.(pressed := r.wifi);
      }
      if !r.released {
        return [];
      }
      var held := wifi.pressed;
      wifi := wifi.(pressed := None);
      if held != r.wifi || r.wifi.None? {
        return [];
      }
      effects := PressWifiKey(r.wifi.value);
    }

    method PressWifiKey(t: WifiTarget) returns (effects: seq<Effect>)
      modifies this
      ensures Reduced(Value(), effects) == DashboardReduce.PressWifiKey(old(Value()), t)
    {
      match t {
        case Back =>
          SetView(View.Settings);
          SetStatus(WifiEditorClosed);
          return [Render, PlayCue(Cue.Back), Present];
        case Save =>
          var problem := WifiProblem(wifi);
          if problem.Some? {
            wifi := wifi.(status := problem.value);
            return [Render, PlayCue(Cue.Confirm), Present];
          }
          pending := Some(Pending.Wifi);
          return [WifiAction];
        case _ =>
          if t.Shift? && wifi.mode.Symbols? {
            return [Present];
          }
          wifi := EditWifi(wifi, t);
          wifi := wifi.(status := Blank);
          return [Render, PlayCue(Cue.Next), Present];
      }
    }

    method SettingsTouch(r: TouchReport) returns (effects: seq<Effect>)
      modifies this
      ensures Reduced(Value(), effects) == DashboardReduce.SettingsTouch(old(Value()), r)
    {
      var (s, plan) := TouchSettings(settings, r);
      settings := s;
      if plan.None? {
        return [];
      }
      effects := SettingsPlan(plan.value, true);
    }

    method CreditsTouch(r: TouchReport) returns (effects: seq<Effect>)
      modifies this
      ensures Reduced(Value(), effects) == DashboardReduce.CreditsTouch(old(Value()), r)
    {
      if r.pressed {
        creditsPressed := r.close;
      }
      if !r.released {
        return [];
      }
      var held := creditsPressed;
      creditsPressed := false;
      if !(held && r.close) {
        return [];
      }
      SetView(View.Dashboard);
      SetStatus(Blank);
      return Screen(Some(Cue.Back));
    }

    method Touch(now: nat, r: TouchReport, layout: bool) returns (out: Outcome)
      modifies this
      ensures out == OutcomeOf(OnTouch(old(Value()), now, r, layout))
      ensures out.Effects? ==> Value() == OnTouch(old(Value()), now, r, layout).app
    {
      var effects;
      match view {
        case Dashboard =>
          if !layout {
            return Outcome.Stopped(NoLayout);
          }
          effects := DashboardTouch(r, now);
        case Settings =>
          effects := SettingsTouch(r);
        case Credits =>
          effects := CreditsTouch(r);
        case Wifi =>
          effects := WifiTouch(r);
      }
      return Effects(effects);
    }

    method Begin(now: nat, wayland: bool, rescan: bool) returns (effects: seq<Effect>)
      modifies this, guard
      ensures Reduced(Value(), effects) == OnBegin(old(Value()), now, wayland, rescan)
    {
      var resumed := guard.RecoverIfQuiet(now);
      effects := if resumed then [ReapSound, ControllerResumed] else [ReapSound];
      if !wayland && !touchConnected && Minus(now, lastTouchReconnect) >= 1000 {
        lastTouchReconnect := now;
        effects := effects + [ReconnectTouch];
      }
      if rescan || lastScan.None? || lastScan.value == 0 || Minus(now, lastScan.value) >= 1000 {
        lastScan := Some(now);
        effects := effects + [ScanControls];
      }
    }

    method ExpireReboot(now: nat) returns (effects: seq<Effect>)
      modifies this
      ensures Reduced(Value(), effects) == DashboardReduce.ExpireReboot(old(Value()), now)
    {
      if rebootDeadline > 0 && now >= rebootDeadline {
        rebootDeadline := 0;
        if status == RebootConfirmation {
          SetStatus(Blank);
          return Screen(None);
        }
      }
      return [];
    }

    method Tick(now: nat) returns (effects: seq<Effect>)
      modifies this
      ensures Reduced(Value(), effects) == OnTick(old(Value()), now)
    {
      effects := ExpireReboot(now);
      if (view.Settings? || view.Wifi?) && Minus(now, networkRefreshedAt) >= 2000 {
        networkRefreshedAt := now;
        pending := Some(Network);
        effects := effects + [NetworkAction];
      }
      if view.Credits? && !reducedMotion && Minus(now, creditsRenderedAt) >= 66 {
        creditsRenderedAt := now;
        effects := effects + Screen(None);
      }
    }

    method Controls(now: nat, gamepad: seq<Action>, keyboard: seq<Action>, quarantined: bool)
      returns (effects: seq<Effect>)
      modifies this, guard
      ensures Reduced(Value(), effects) == OnControls(old(Value()), now, gamepad, keyboard, quarantined)
    {
      var actions, wasSuspended := gamepad, guard.suspended;
      if gamepad != [] {
        var accepted := guard.AcceptEdge(now);
        if !accepted {
          actions := [];
        }
      }
      effects := if !wasSuspended && guard.suspended then [ControllerSuspended] else [];
      if quarantined {
        actions := [];
      }
      actions := MergeActions(actions, keyboard);
      var command := SelectCommand(actions, view);
      if command.Some? {
        ClearPressed();
        var more := Obey(command.value, now);
        effects := effects + [DiscardTouch] + more;
      }
    }

    method SettingsDone(ok: bool) returns (out: Outcome)
      modifies this
      ensures out == OutcomeOf(OnSettingsResult(old(Value()), ok))
      ensures out.Effects? ==> Value() == OnSettingsResult(old(Value()), ok).app
    {
      if pending.None? || !pending.value.Settings? {
        return Outcome.Stopped(Panicked);
      }
      var plan := pending.value.plan;
      pending := None;
      settings := CompleteSettings(settings, plan, ok, true);
      SetStatus(settings.status);
      if plan.action.Volume? {
        if !ok {
          return Effects(Screen(None));
        }
        if plan.action.volume == 0 {
          return Effects(Screen(None) + [StopSound]);
        }
        pending := Some(VolumeTone(plan));
        return Effects(Screen(None) + [VolumeCue]);
      }
      return Effects(Screen(None) + (if plan.cue.Some? then [PlayCue(plan.cue.value)] else []));
    }

    method ToneDone(ok: bool) returns (out: Outcome)
      modifies this
      ensures out == OutcomeOf(OnVolumeTone(old(Value()), ok))
      ensures out.Effects? ==> Value() == OnVolumeTone(old(Value()), ok).app
    {
      if pending.None? || !pending.value.VolumeTone? {
        return Outcome.Stopped(Panicked);
      }
      var plan := pending.value.plan;
      pending := None;
      if ok {
        return Effects([]);
      }
      settings := CompleteSettings(settings, plan, true, false);
      SetStatus(settings.status);
      return Effects(Screen(None));
    }

    method LaunchPrepared(game: Game, plan: LaunchPlan) returns (out: Outcome)
      modifies this
      ensures out == OutcomeOf(OnPrepared(old(Value()), game, plan))
      ensures out.Effects? ==> Value() == OnPrepared(old(Value()), game, plan).app
    {
      if pending.None? || !pending.value.Launch? {
        return Outcome.Stopped(Panicked);
      }
      SetStatus(match plan.kind
                case Reboot => Rebooting
                case Terminal => Starting(TerminalTitle(plan.mode))
                case Game => Starting(game.title));
      pending := Some(Child(ActiveLaunch(game, plan, None, None)));
      return Effects([Render, Present, FinishSound, CloseControls, Effect.Launch]);
    }

    method TouchLink(connected: bool) returns (effects: seq<Effect>)
      modifies this
      ensures Reduced(Value(), effects) == OnTouchLink(old(Value()), connected)
    {
      ClearPressed();
      touchConnected := connected;
      var m := if connected then Message.TouchReconnected else WaitingForTouch;
      if view.Wifi? {
        wifi := wifi.(status := m);
      } else {
        SetStatus(m);
      }
      return Screen(None);
    }

    method ChildBack(result: ChildResult, touchDisconnected: bool) returns (out: Outcome)
      modifies this
      ensures out == OutcomeOf(OnChildReturned(old(Value()), result, touchDisconnected))
      ensures out.Effects? ==> Value() == OnChildReturned(old(Value()), result, touchDisconnected).app
    {
      ClearPressed();
      if result.shutdownRequested {
        pending := None;
        return Effects([StopLoop]);
      }
      if touchDisconnected {
        touchConnected := false;
      }
      if pending.None? || !pending.value.Child? {
        return Outcome.Stopped(Panicked);
      }
      pending := Some(Child(pending.value.active.(result := Some(result), recovery := Some(Recovery.Controls))));
      return Effects([ScanControls]);
    }

    method Rescanned(now: nat) returns (effects: seq<Effect>)
      modifies this
      ensures Reduced(Value(), effects) == OnControlsRescanned(old(Value()), now)
    {
      lastScan := Some(now);
      if pending.None? || !pending.value.Child? {
        return [];
      }
      pending := Some(Child(pending.value.active.(recovery := Some(Presentation))));
      return [OpenPresentation];
    }

    method Opened() returns (out: Outcome)
      modifies this
      ensures out == OutcomeOf(OnPresentationOpened(old(Value())))
      ensures out.Effects? ==> Value() == OnPresentationOpened(old(Value())).app
    {
      if pending.None? || !pending.value.Child? {
        return Outcome.Stopped(Panicked);
      }
      pending := Some(Child(pending.value.active.(recovery := Some(Recovery.Volume))));
      return Effects([ReloadVolume]);
    }

    method ChildDone(volume: Option<Percent>) returns (out: Outcome)
      modifies this
      ensures out == OutcomeOf(OnChildComplete(old(Value()), volume))
      ensures out.Effects? ==> Value() == OnChildComplete(old(Value()), volume).app
    {
      if pending.None? || !pending.value.Child? || pending.value.active.result.None? {
        return Outcome.Stopped(Panicked);
      }
      var active := pending.value.active;
      pending := None;
      if volume.Some? {
        settings := settings.(volume := volume.value);
        if volume.value > 0 {
          settings := settings.(lastAudibleVolume := volume.value);
        }
      }
      SetStatus(DescribeChild(active));
      return Effects(Screen(None));
    }

    method WifiDone(succeeded: bool, failure: Option<Message>) returns (effects: seq<Effect>)
      modifies this
      ensures Value() == old(Value()).(pending := None, wifi := CompleteWifi(old(wifi), succeeded, failure))
      ensures effects == [Render, PlayCue(Cue.Confirm), Present]
    {
      pending := None;
      wifi := CompleteWifi(wifi, succeeded, failure);
      return [Render, PlayCue(Cue.Confirm), Present];
    }

    method NetworkDone(found: NetworkStatus) returns (effects: seq<Effect>)
      modifies this
      ensures Value() == old(Value()).(pending := None, network := found)
      ensures effects == if old(network) != found then Screen(None) else []
    {
      var changed := network != found;
      network := found;
      pending := None;
      return if changed then Screen(None) else [];
    }

    /** The events that answer an effect. */
    method Complete(e: Event) returns (out: Outcome)
      requires !e.Begin? && !e.Tick? && !e.Controls? && !e.Touch? && !e.TouchLost?
      requires Admits(pending, e)
      modifies this
      ensures out == OutcomeOf(DashboardReduce.Reduce(old(Value()), e, true))
      ensures out.Effects? ==> Value() == DashboardReduce.Reduce(old(Value()), e, true).app
    {
      var effects;
      match e {
        case TouchReconnected =>
          effects := TouchLink(true);
        case SettingsResult(ok) =>
          out := SettingsDone(ok);
          return;
        case VolumeToneResult(ok) =>
          out := ToneDone(ok);
          return;
        case WifiResult(succeeded, failure) =>
          effects := WifiDone(succeeded, failure);
        case NetworkResult(found) =>
          effects := NetworkDone(found);
        case Prepared(game, plan) =>
          out := LaunchPrepared(game, plan);
          return;
        case ChildReturned(result, touchDisconnected) =>
          out := ChildBack(result, touchDisconnected);
          return;
        case ControlsRescanned(now) =>
          effects := Rescanned(now);
        case PresentationOpened =>
          out := Opened();
          return;
        case ChildComplete(volume) =>
          out := ChildDone(volume);
          return;
      }
      return Effects(effects);
    }

    method Reduce(e: Event, layout: bool) returns (out: Outcome)
      modifies this, guard
      ensures out == OutcomeOf(DashboardReduce.Reduce(old(Value()), e, layout))
      ensures out.Effects? ==> Value() == DashboardReduce.Reduce(old(Value()), e, layout).app
    {
      if !Admits(pending, e) {
        return Outcome.Stopped(OutOfOrder);
      }
      var effects;
      match e {
        case Begin(now, wayland, rescan) =>
          effects := Begin(now, wayland, rescan);
        case Tick(now) =>
          effects := Tick(now);
        case Controls(now, gamepad, keyboard, quarantined) =>
          effects := Controls(now, gamepad, keyboard, quarantined);
        case Touch(now, report) =>
          out := Touch(now, report, layout);
          return;
        case TouchLost =>
          effects := TouchLink(false);
        case _ =>
          out := Complete(e);
          return;
      }
      return Effects(effects);
    }
  }
}
