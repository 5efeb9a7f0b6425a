/** A reboot takes two confirmations within four seconds and nothing else between them, in every run of events. */
module DashboardReboot {
  import opened Wrappers
  import opened DashboardState
  import opened DashboardReduce
  import ControllerGuard

  datatype Input = Input(event: Event, layout: bool)

  /** The event takes the dashboard from one state to the next. */
  predicate Follows(a: AppState, input: Input, b: AppState) {
    Reduce(a, input.event, input.layout).Reduced? && b == Reduce(a, input.event, input.layout).app
  }

  function IssuedCommand(a: AppState, e: Event): Option<Command>
    requires e.Controls?
  {
    SelectCommand(AdmittedActions(a, e.now, e.gamepad, e.keyboard, e.quarantined), a.view)
  }

  /** The event confirms an entry with the id of the reboot command. */
  predicate Confirms(a: AppState, e: Event) {
    && a.view.Dashboard?
    && ((e.Controls? && IssuedCommand(a, e) == Some(Command.Confirm)
         && SelectedGame(a).Some? && IsReboot(a, SelectedGame(a).value))
        || (e.Touch? && e.report.released && OnRebootCard(a, e.report.menu)
            && (e.report.pressed || a.pressed == e.report.menu)))
  }

  /** A navigation command, the launch of another game, or a touch that ends off the reboot card. */
  predicate Disturbs(a: AppState, e: Event) {
    || (e.Controls? && IssuedCommand(a, e).Some?
        && (!IssuedCommand(a, e).value.Confirm?
            || (SelectedGame(a).Some? && !IsReboot(a, SelectedGame(a).value))))
    || (e.Touch? && a.view.Dashboard? && e.report.released && !OnRebootCard(a, e.report.menu))
  }

  predicate RebootPending(a: AppState) {
    a.pending.Some? && a.pending.value.Launch? && a.pending.value.request.game.Catalog?
    && IsReboot(a, a.pending.value.request.game.index)
  }

  predicate ArmedOnDashboard(a: AppState) {
    a.rebootDeadline > 0 ==> a.view.Dashboard?
  }

  /** What one event may do to the armed reboot. */
  ghost predicate Fuse(a: AppState, e: Event, b: AppState) {
    && ArmedOnDashboard(b) && b.games == a.games
    && (b.rebootDeadline > 0 ==>
          (Confirms(a, e) && b.rebootDeadline == SaturatingAdd(e.now, 4000))
          || (b.rebootDeadline == a.rebootDeadline && !Disturbs(a, e)))
    && (RebootPending(b) && b.pending != a.pending ==>
          Confirms(a, e) && 0 < a.rebootDeadline && e.now < a.rebootDeadline)
  }

  lemma RequestFuse(a: AppState, index: nat, now: nat, touchBatch: bool)
    requires a.view.Dashboard?
    ensures var b := RequestGame(a, index, now, touchBatch).app;
      && b.games == a.games && b.view == a.view
      && (b.rebootDeadline > 0 ==> (IsReboot(a, index) && b.rebootDeadline == SaturatingAdd(now, 4000))
                                   || (b.rebootDeadline == a.rebootDeadline && index >= |a.games|))
      && (RebootPending(b) && b.pending != a.pending ==>
            IsReboot(a, index) && 0 < a.rebootDeadline && now < a.rebootDeadline)
  {
    CancelDisarms(a);
    hide CancelReboot, REBOOT_ID;
    if index < |a.games| && IsReboot(a, index) {
      if a.rebootDeadline > 0 && now < a.rebootDeadline {
      } else {
      }
    }
  }

  lemma CancelDisarms(a: AppState)
    ensures var b := CancelReboot(a);
      b.rebootDeadline == 0 && b.pending == a.pending && b.games == a.games && b.view == a.view
  {
  }

  lemma MoveDisarms(a: AppState, previous: bool)
    ensures var b := MoveCommand(a, previous).app;
      b.rebootDeadline == 0 && b.pending == a.pending && b.games == a.games
  {
    hide CancelReboot, StepPosition, MoveSelection;
    CancelDisarms(a);
    StepKeeps(CancelReboot(a), previous);
  }

  lemma StepKeeps(a: AppState, previous: bool)
    ensures var b := StepPosition(a, previous).0;
      b.rebootDeadline == a.rebootDeadline && b.pending == a.pending && b.games == a.games
  {
  }

  lemma ViewKeeps(a: AppState, v: View, m: Message)
    ensures var b := SetStatus(SetView(a, v), m);
      b.rebootDeadline == a.rebootDeadline && b.pending == a.pending && b.games == a.games
  {
  }

  lemma BackDisarms(a: AppState)
    ensures var b := BackCommand(a); b.rebootDeadline == 0 && b.pending == a.pending && b.games == a.games
  {
    hide CancelReboot, SetStatus, SetView;
    var b := CancelReboot(a);
    CancelDisarms(a);
    ViewKeeps(b, View.Dashboard, Blank);
    ViewKeeps(b, View.Settings, WifiEditorClosed);
  }

  lemma SettingsDisarms(a: AppState)
    ensures var b := SettingsCommand(a); b.rebootDeadline == 0 && b.pending == a.pending && b.games == a.games
  {
    hide CancelReboot, SetStatus, SetView;
    var b := CancelReboot(a);
    CancelDisarms(a);
    ViewKeeps(b, View.Dashboard, Blank);
    ViewKeeps(b.(settings := b.settings.(selected := SettingsTarget.VolumeDown)), View.Settings, Blank);
  }

  lemma SystemDisarms(a: AppState, previous: bool)
    ensures var b := SystemCommand(a, previous); b.rebootDeadline == 0 && b.pending == a.pending && b.games == a.games
  {
    hide CancelReboot, NeighbourSystem;
    CancelDisarms(a);
  }

  lemma NavigationDisarms(a: AppState, command: Command, now: nat)
    requires !command.Confirm?
    ensures var b := Obey(a, command, now).app; b.rebootDeadline == 0 && b.pending == a.pending && b.games == a.games
  {
    hide BackCommand, SettingsCommand, SystemCommand, MoveCommand;
    match command
    case Previous => MoveDisarms(a, true);
    case Next => MoveDisarms(a, false);
    case Back => BackDisarms(a);
    case Settings => SettingsDisarms(a);
    case SystemPrevious => SystemDisarms(a, true);
    case SystemNext => SystemDisarms(a, false);
  }

  lemma ConfirmFuse(a: AppState, now: nat)
    requires ArmedOnDashboard(a) && (a.view.Dashboard? || a.view.Settings?)
    ensures var b := ConfirmCommand(a, now).app;
      && b.games == a.games && ArmedOnDashboard(b)
      && (b.rebootDeadline > 0 ==>
            a.view.Dashboard? &&
            ((SelectedGame(a).Some? && IsReboot(a, SelectedGame(a).value) && b.rebootDeadline == SaturatingAdd(now, 4000))
             || (b.rebootDeadline == a.rebootDeadline && SelectedGame(a).None?)))
      && (RebootPending(b) && b.pending != a.pending ==>
            a.view.Dashboard? && SelectedGame(a).Some? && IsReboot(a, SelectedGame(a).value)
            && 0 < a.rebootDeadline && now < a.rebootDeadline)
  {
    if a.view.Dashboard? && SelectedGame(a).Some? {
      RequestFuse(a, SelectedGame(a).value, now, false);
    }
  }

  lemma ControlsFuse(a: AppState, e: Event)
    requires ArmedOnDashboard(a) && e.Controls?
    ensures Fuse(a, e, OnControls(a, e.now, e.gamepad, e.keyboard, e.quarantined).app)
  {
    hide MergeActions, ConfirmCommand, MoveCommand, BackCommand, SettingsCommand, SystemCommand;
    var command := IssuedCommand(a, e);
    var b := if e.gamepad == [] then a else a.(guard := ControllerGuard.Accept(a.guard, e.now).0);
    var c := ClearPressed(b);
    assert b.view == a.view && c.view == a.view && SelectedGame(c) == SelectedGame(a);
    if command.Some? {
      if command.value.Confirm? {
        ConfirmFuse(c, e.now);
      } else {
        NavigationDisarms(c, command.value, e.now);
      }
    }
  }

  lemma MenuFuse(a: AppState, target: Option<MenuTarget>, now: nat)
    requires a.view.Dashboard? && (a.rebootDeadline > 0 ==> OnRebootCard(a, target))
    ensures var b := OpenMenuTarget(a, target, now).app;
      && b.games == a.games && ArmedOnDashboard(b)
      && (b.rebootDeadline > 0 ==> OnRebootCard(a, target) && b.rebootDeadline == SaturatingAdd(now, 4000))
      && (RebootPending(b) && b.pending != a.pending ==>
            OnRebootCard(a, target) && 0 < a.rebootDeadline && now < a.rebootDeadline)
  {
    if target.Some? {
      match target.value
      case Game(index) => RequestFuse(a, index, now, true);
      case Previous => MoveDisarms(a, true);
      case Next => MoveDisarms(a, false);
      case _ =>
    }
  }

  lemma TouchFuse(a: AppState, e: Event, layout: bool)
    requires ArmedOnDashboard(a) && e.Touch?
    ensures var r := OnTouch(a, e.now, e.report, layout); r.Reduced? ==> Fuse(a, e, r.app)
  {
    hide DashboardTouch, WifiTouch, SettingsTouch;
    if a.view.Dashboard? {
      DashboardTouchFuse(a, e);
    } else if a.view.Wifi? {
      WifiTouchFuse(a, e.report);
    } else if a.view.Settings? {
      SettingsTouchFuse(a, e.report);
    }
  }

  lemma SettingsTouchFuse(a: AppState, r: TouchReport)
    requires a.rebootDeadline == 0
    ensures var b := SettingsTouch(a, r).app;
      b.rebootDeadline == 0 && b.games == a.games && (RebootPending(b) ==> b.pending == a.pending)
  {
  }

  lemma WifiTouchFuse(a: AppState, r: TouchReport)
    requires a.rebootDeadline == 0 && a.view.Wifi?
    ensures var b := WifiTouch(a, r).app;
      b.rebootDeadline == 0 && b.games == a.games && (RebootPending(b) ==> b.pending == a.pending)
  {
    var held := if r.pressed then a.(wifi := a.wifi.(pressed := r.wifi)) else a;
    if r.released && r.wifi.Some? {
      WifiKeyFuse(held.(wifi := held.wifi.(pressed := None)), r.wifi.value);
    }
  }

  lemma WifiKeyFuse(a: AppState, t: WifiTarget)
    requires a.rebootDeadline == 0
    ensures var b := PressWifiKey(a, t).app;
      b.rebootDeadline == 0 && b.games == a.games && (RebootPending(b) ==> b.pending == a.pending)
  {
  }

  lemma DashboardTouchFuse(a: AppState, e: Event)
    requires a.view.Dashboard? && e.Touch?
    ensures Fuse(a, e, DashboardTouch(a, e.report, e.now).app)
  {
    var r := e.report;
    if r.released {
      var lifted := (if r.pressed then a.(pressed := r.menu) else a).(pressed := None);
      var b := if lifted.rebootDeadline > 0 && !OnRebootCard(lifted, r.menu) then CancelReboot(lifted) else lifted;
      MenuFuse(b, r.menu, e.now);
    }
  }

  lemma BeginFuse(a: AppState, e: Event)
    requires ArmedOnDashboard(a) && (e.Begin? || e.Tick?)
    ensures var r := Reduce(a, e, true); r.Reduced? ==> Fuse(a, e, r.app)
  {
    if e.Tick? {
      ExpiryFuse(a, e.now);
    }
  }

  lemma ExpiryFuse(a: AppState, now: nat)
    ensures var b := ExpireReboot(a, now).app;
      b.view == a.view && b.games == a.games && b.pending == a.pending
      && (b.rebootDeadline == 0 || b.rebootDeadline == a.rebootDeadline)
  {
  }

  lemma AnswerFuse(a: AppState, e: Event)
    requires ArmedOnDashboard(a) && !e.Touch? && !e.Controls? && !e.Begin? && !e.Tick?
    ensures var r := Reduce(a, e, true);
      r.Reduced? ==> && r.app.view == a.view && r.app.games == a.games && r.app.rebootDeadline == a.rebootDeadline
                     && !RebootPending(r.app)
  {
  }

  lemma StepFuse(a: AppState, input: Input, b: AppState)
    requires ArmedOnDashboard(a) && Follows(a, input, b)
    ensures Fuse(a, input.event, b)
  {
    var e := input.event;
    if e.Touch? {
      TouchFuse(a, e, input.layout);
    } else if e.Controls? {
      ControlsFuse(a, e);
    } else if e.Begin? || e.Tick? {
      BeginFuse(a, e);
    } else {
      AnswerFuse(a, e);
    }
  }

  // ---- Runs ----

  /** A run that starts with no reboot armed: each event of the log leads from one state to the next. */
  ghost predicate Run(states: seq<AppState>, log: seq<Input>) {
    && |states| == |log| + 1
    && states[0].rebootDeadline == 0
    && forall i :: 0 <= i < |log| ==> Linked(states, log, i)
  }

  predicate Linked(states: seq<AppState>, log: seq<Input>, i: nat)
    requires |states| == |log| + 1 && i < |log|
  {
    Follows(states[i], log[i], states[i + 1])
  }

  function Time(e: Event): nat {
    if e.Controls? || e.Touch? then e.now else 0
  }

  /** The j-th event confirmed a reboot, and no event from there to the n-th disturbed that. */
  ghost predicate ConfirmedAt(states: seq<AppState>, log: seq<Input>, j: nat, n: nat)
    requires |states| == |log| + 1 && n <= |log|
  {
    && j < n
    && Confirms(states[j], log[j].event)
    && forall m :: j < m < n ==> !Disturbs(states[m], log[m].event)
  }

  lemma {:induction false} ArmedHistory(states: seq<AppState>, log: seq<Input>, n: nat)
    requires Run(states, log) && n <= |log|
    ensures ArmedOnDashboard(states[n])
    ensures states[n].rebootDeadline > 0 ==>
      exists j: nat :: ConfirmedAt(states, log, j, n)
                       && states[n].rebootDeadline == SaturatingAdd(Time(log[j].event), 4000)
  {
    hide DashboardReduce.Reduce, Confirms, Disturbs;
    if n > 0 {
      var k := n - 1;
      ArmedHistory(states, log, k);
      assert Linked(states, log, k);
      StepFuse(states[k], log[k], states[n]);
      if states[n].rebootDeadline > 0 {
        ArmedStep(states, log, k);
      }
    }
  }

  lemma ArmedStep(states: seq<AppState>, log: seq<Input>, k: nat)
    requires |states| == |log| + 1 && k < |log|
    requires states[k].rebootDeadline > 0 ==>
      exists j: nat :: ConfirmedAt(states, log, j, k)
                       && states[k].rebootDeadline == SaturatingAdd(Time(log[j].event), 4000)
    requires Fuse(states[k], log[k].event, states[k + 1]) && states[k + 1].rebootDeadline > 0
    ensures exists j: nat :: ConfirmedAt(states, log, j, k + 1)
                             && states[k + 1].rebootDeadline == SaturatingAdd(Time(log[j].event), 4000)
  {
    hide DashboardReduce.Reduce, Disturbs;
    if Disturbs(states[k], log[k].event) || states[k].rebootDeadline != states[k + 1].rebootDeadline {
      assert ConfirmedAt(states, log, k, k + 1);
    } else {
      var j: nat :| ConfirmedAt(states, log, j, k)
                    && states[k].rebootDeadline == SaturatingAdd(Time(log[j].event), 4000);
      assert ConfirmedAt(states, log, j, k + 1);
    }
  }

  /**
   Whenever the launch of a reboot becomes pending, the event that did it confirmed the reboot, and an earlier event, less
   than four seconds before, had confirmed it too with nothing in between to call it off.
   */
  lemma RebootNeedsTwoConfirmations(states: seq<AppState>, log: seq<Input>, n: nat)
    requires Run(states, log) && n < |log|
    requires RebootPending(states[n + 1]) && states[n + 1].pending != states[n].pending
    ensures Confirms(states[n], log[n].event)
    ensures exists j: nat :: ConfirmedAt(states, log, j, n) && Time(log[n].event) - Time(log[j].event) < 4000
  {
    hide DashboardReduce.Reduce, Confirms, Disturbs;
    ArmedHistory(states, log, n);
    assert Linked(states, log, n);
    StepFuse(states[n], log[n], states[n + 1]);
    var j: nat :| ConfirmedAt(states, log, j, n)
                  && states[n].rebootDeadline == SaturatingAdd(Time(log[j].event), 4000);
    assert Time(log[n].event) - Time(log[j].event) < 4000;
  }
}
