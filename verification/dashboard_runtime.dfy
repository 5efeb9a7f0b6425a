/**
 The driver that carries effects out and feeds their completions back (`native/src/dashboard/runtime.rs`).

 Devices answer through an oracle: the n-th effect of a run gets the n-th answer, and every answer is possible.
 */
module DashboardRuntime {
  import opened Wrappers
  import opened DashboardState
  import opened DashboardReduce
  import ControllerGuard
  import DashboardApp

  datatype Tone = Started | Busy | Silent
  datatype HelperPhase = Complete | Start | Input | Wait

  /** What the devices do when one effect is carried out; each effect looks at the fields it needs. */
  datatype Native = Native(fails: bool, clock: nat, tone: Tone, audible: bool, touchOpened: bool, widget: bool,
                           acquired: bool, saved: bool, phase: HelperPhase, exitedZero: bool, network: NetworkStatus,
                           child: ChildResult, volume: Option<Percent>)

  type Oracle = nat -> Native

  datatype RuntimeState = RuntimeState(widget: bool, presentationOwned: bool, touchOwned: bool, controlsOwned: bool,
                                       audioOwned: bool, soundActive: bool, inputUntil: nat, layout: bool,
                                       running: bool, rescan: bool, now: nat)

  datatype Performed = Performed(rt: RuntimeState, completion: Option<Event>) | Broken(fault: Fault)

  function ToneLength(cue: Cue): nat {
    match cue
    case Volume => 120
    case Previous => 35
    case Next => 35
    case Confirm => 55
    case Back => 55
  }

  function Sound(rt: RuntimeState, cue: Cue, volume: Percent, n: Native): (RuntimeState, bool) {
    if volume == 0 then (rt, true)
    else
      match n.tone
      case Started =>
        (rt.(audioOwned := true, soundActive := true,
             inputUntil := SaturatingAdd(SaturatingAdd(n.clock, ToneLength(cue)), 60)), true)
      case Busy => (rt.(soundActive := true), true)
      case Silent => (rt, false)
  }

  function StopSound(rt: RuntimeState): RuntimeState {
    if rt.audioOwned then rt.(audioOwned := false, soundActive := false, inputUntil := 0) else rt
  }

  function Shutdown(rt: RuntimeState): RuntimeState {
    StopSound(rt).(controlsOwned := false, touchOwned := false, presentationOwned := false, widget := false,
                   layout := false, running := false)
  }

  function PendingApplication(a: AppState): Option<Game> {
    if a.pending.None? || !a.pending.value.Launch? then None
    else
      var request := a.pending.value.request;
      match request.game
      case Terminal => Some(TERMINAL_GAME.(terminalMode := if request.mode.Some? then request.mode else Some(SHELL)))
      case Catalog(index) =>
        if index >= |a.games| then None
        else Some(if request.mode.Some? then a.games[index].(terminalMode := request.mode) else a.games[index])
  }

  function Perform(rt: RuntimeState, a: AppState, e: Effect, n: Native): Performed {
    match e
    case Render => if a.view.Credits? && n.fails then Broken(NativeFailure) else Performed(rt.(layout := a.view.Dashboard?), None)
    case Present => if n.fails then Broken(NativeFailure) else Performed(rt, None)
    case PlayCue(cue) => Performed(Sound(rt, cue, a.settings.volume, n).0, None)
    case VolumeCue =>
      var (next, ok) := Sound(rt, Cue.Volume, a.settings.volume, n);
      Performed(next, Some(VolumeToneResult(ok)))
    case StopSound => Performed(StopSound(rt), None)
    case FinishSound => Performed(StopSound(rt), None)
    case ReapSound =>
      Performed(rt.(soundActive := n.audible,
                    audioOwned := rt.audioOwned && (n.audible || rt.now < rt.inputUntil)), None)
    case ScanControls =>
      if n.fails then Broken(NativeFailure)
      else Performed(rt.(controlsOwned := true), Some(ControlsRescanned(rt.now)))
    case CloseControls => Performed(rt.(controlsOwned := false), None)
    case ReconnectTouch =>
      if n.touchOpened then Performed(rt.(touchOwned := true), Some(Event.TouchReconnected)) else Performed(rt, None)
    case OpenPresentation =>
      if n.fails then Broken(NativeFailure)
      else Performed(rt.(widget := n.widget, presentationOwned := rt.presentationOwned || n.acquired),
                     Some(PresentationOpened))
    case DiscardTouch => Performed(rt, None)
    case ControllerSuspended => Performed(rt, None)
    case ControllerResumed => Performed(rt, None)
    case SettingsAction(plan) =>
      Performed(rt, Some(SettingsResult(n.saved && (plan.action.Volume? || plan.action.Keymap?
                                                    || (plan.action.Brightness? && BrightnessValid(plan.action.percent))))))
    case WifiAction =>
      Performed(rt, Some(WifiResult(n.phase.Complete? && n.exitedZero,
                                    if n.phase.Input? then Some(WifiWriteFailed) else None)))
    case NetworkAction => Performed(rt, Some(NetworkResult(n.network)))
    case PrepareLaunch =>
      var game := PendingApplication(a);
      if game.None? then Broken(NoPendingLaunch)
      else Performed(rt, Some(Prepared(game.value, PlanLaunch(game.value, a.settings.volume, rt.widget))))
    case Launch =>
      if a.pending.None? || !a.pending.value.Child? then Broken(NoActiveLaunch)
      else if !rt.widget && !rt.presentationOwned then Broken(BorrowedDisplay)
      else Performed(rt.(now := n.clock), Some(ChildReturned(n.child, !a.pending.value.active.plan.touchSupervision)))
    case ReloadVolume => Performed(rt, Some(ChildComplete(n.volume)))
    case StopLoop => Performed(Shutdown(rt), None)
  }

  // ---- The recursion of step ----

  /** How many completions can still follow an event. */
  function Rank(e: Event): nat {
    match e
    case Begin(_, _, _) => 4
    case Tick(_) => 2
    case Controls(_, _, _, _) => 3
    case Touch(_, _) => 3
    case SettingsResult(_) => 2
    case Prepared(_, _) => 5
    case ChildReturned(_, _) => 4
    case ControlsRescanned(_) => 3
    case PresentationOpened => 2
    case _ => 1
  }

  /** The rank of the event an effect may be answered with, or 0 when it has no answer. */
  function AnswerRank(e: Effect): nat {
    match e
    case VolumeCue => 1
    case ScanControls => 3
    case ReconnectTouch => 1
    case OpenPresentation => 2
    case SettingsAction(_) => 2
    case WifiAction => 1
    case NetworkAction => 1
    case PrepareLaunch => 5
    case Launch => 4
    case ReloadVolume => 1
    case _ => 0
  }

  ghost predicate RanksBelow(effects: seq<Effect>, rank: nat) {
    forall i :: 0 <= i < |effects| ==> AnswerRank(effects[i]) < rank
  }

  lemma ObeyDescends(a: AppState, command: Command, now: nat)
    ensures RanksBelow(Obey(a, command, now).effects, 3)
  {
    match command
    case Confirm =>
      if a.view.Settings? {
        SettingsPlanDescends(a, Activate(a.settings, a.settings.selected), false);
      } else if SelectedGame(a).Some? {
        RequestDescends(a, SelectedGame(a).value, now, false);
      }
    case _ =>
  }

  lemma RequestDescends(a: AppState, index: nat, now: nat, touchBatch: bool)
    ensures RanksBelow(RequestGame(a, index, now, touchBatch).effects, 1)
  {
  }

  lemma SettingsPlanDescends(a: AppState, plan: Plan, touchBatch: bool)
    ensures RanksBelow(SettingsPlan(a, plan, touchBatch).effects, 3)
  {
  }

  lemma MenuDescends(a: AppState, target: Option<MenuTarget>, now: nat)
    ensures RanksBelow(OpenMenuTarget(a, target, now).effects, 1)
  {
    if target.Some? && target.value.Game? {
      RequestDescends(a, target.value.index, now, true);
    }
  }

  lemma TouchDescends(a: AppState, now: nat, r: TouchReport, layout: bool)
    ensures var out := OnTouch(a, now, r, layout); out.Reduced? ==> RanksBelow(out.effects, 3)
  {
    match a.view
    case Dashboard =>
      if layout && r.released {
        var lifted := (if r.pressed then a.(pressed := r.menu) else a).(pressed := None);
        var b := if lifted.rebootDeadline > 0 && !OnRebootCard(lifted, r.menu) then CancelReboot(lifted) else lifted;
        MenuDescends(b, r.menu, now);
      }
    case Settings =>
      var (s, plan) := TouchSettings(a.settings, r);
      if plan.Some? {
        SettingsPlanDescends(a.(settings := s), plan.value, true);
      }
    case Credits =>
    case Wifi =>
  }

  lemma ControlsDescend(a: AppState, now: nat, gamepad: seq<Action>, keyboard: seq<Action>, quarantined: bool)
    ensures RanksBelow(OnControls(a, now, gamepad, keyboard, quarantined).effects, 3)
  {
    var b := if gamepad == [] then a else a.(guard := ControllerGuard.Accept(a.guard, now).0);
    var command := SelectCommand(AdmittedActions(a, now, gamepad, keyboard, quarantined), b.view);
    if command.Some? {
      ObeyDescends(ClearPressed(b), command.value, now);
    }
  }

  lemma AnswersDescend(a: AppState, e: Event)
    requires !e.Touch? && !e.Controls? && !e.Begin? && !e.Tick?
    ensures var r := Reduce(a, e, true); r.Reduced? ==> RanksBelow(r.effects, Rank(e))
  {
  }

  /** The chain of completions an event sets off goes down in rank, so it ends. */
  lemma CompletionsDescend(a: AppState, e: Event, layout: bool)
    ensures var r := Reduce(a, e, layout); r.Reduced? ==> RanksBelow(r.effects, Rank(e))
  {
    match e
    case Touch(now, report) => TouchDescends(a, now, report, layout);
    case Controls(now, gamepad, keyboard, quarantined) => ControlsDescend(a, now, gamepad, keyboard, quarantined);
    case Begin(now, wayland, rescan) =>
    case Tick(now) =>
    case _ => AnswersDescend(a, e);
  }

  datatype World = World(rt: RuntimeState, app: AppState, calls: nat, discard: bool)
  datatype Progress = Stepped(world: World) | Halted(fault: Fault)

  function Step(w: World, e: Event, o: Oracle): Progress
    decreases Rank(e), 1, 0
  {
    var r := Reduce(w.app, e, w.rt.layout);
    match r
    case Refused(fault) => Halted(fault)
    case Reduced(app, effects) =>
      CompletionsDescend(w.app, e, w.rt.layout);
      RunEffects(w.(app := app), effects, Rank(e), o)
  }

  /** One effect and everything its completion sets off. */
  function RunEffect(w: World, effect: Effect, rank: nat, o: Oracle): Progress
    requires AnswerRank(effect) < rank
    decreases rank, 0, 0
  {
    var next := w.(calls := w.calls + 1, discard := w.discard || effect.DiscardTouch?);
    match Perform(w.rt, w.app, effect, o(w.calls))
    case Broken(fault) => Halted(fault)
    case Performed(rt, completion) =>
      if completion.None? then Stepped(next.(rt := rt)) else Step(next.(rt := rt), completion.value, o)
  }

  function RunEffects(w: World, effects: seq<Effect>, rank: nat, o: Oracle): Progress
    requires RanksBelow(effects, rank)
    decreases rank, 0, |effects|
  {
    if effects == [] then Stepped(w)
    else
      match RunEffect(w, effects[0], rank, o)
      case Halted(fault) => Halted(fault)
      case Stepped(next) => RunEffects(next, effects[1..], rank, o)
  }

  // ---- One iteration of the loop ----

  /** What the outside brings to one iteration. */
  datatype Input = Input(clock: nat, pollFails: bool, polledAt: nat, touches: seq<TouchReport>, queueFault: bool,
                         gamepad: seq<Action>, keyboard: seq<Action>, refresh: bool, refreshFails: bool, rescan: bool,
                         ready: bool, touchLost: bool, shutdown: bool, oracle: Oracle)

  function StepTouches(p: Progress, now: nat, touches: seq<TouchReport>, o: Oracle): Progress
    decreases |touches|
  {
    if touches == [] || p.Halted? then p
    else StepTouches(Step(p.world, Touch(now, touches[0]), o), now, touches[1..], o)
  }

  function LaunchIfAsked(p: Progress, o: Oracle): Progress {
    if p.Stepped? && p.world.app.pending.Some? && p.world.app.pending.value.Launch?
    then RunEffect(p.world, PrepareLaunch, 6, o) else p
  }

  /** The part of an iteration that runs when the poll found something. */
  function HandleInput(w: World, input: Input): Progress {
    var lost := if input.touchLost then Step(w.(rt := w.rt.(touchOwned := false)), TouchLost, input.oracle)
                else Stepped(w);
    if lost.Halted? then lost
    else
      var rt := lost.world.rt;
      var controls := Step(lost.world, Event.Controls(rt.now, input.gamepad, input.keyboard,
                                                rt.soundActive || rt.now < rt.inputUntil), input.oracle);
      var touched := if controls.Stepped? && !input.touchLost && !controls.world.discard
                     then StepTouches(controls, controls.world.rt.now, input.touches, input.oracle) else controls;
      LaunchIfAsked(touched, input.oracle)
  }

  function Begun(rt: RuntimeState, a: AppState, input: Input): Progress {
    Step(World(rt.(now := input.clock, rescan := false), a, 0, false), Begin(input.clock, rt.widget, rt.rescan),
         input.oracle)
  }

  function Ticked(p: Progress, input: Input): Progress
    requires p.Stepped?
  {
    var rt := p.world.rt.(now := input.polledAt, rescan := p.world.rt.rescan || input.rescan);
    Step(p.world.(rt := rt), Tick(input.polledAt), input.oracle)
  }

  function Iterate(rt: RuntimeState, a: AppState, input: Input): Progress {
    var begun := Begun(rt, a, input);
    if begun.Halted? then begun
    else if input.pollFails || input.queueFault || (input.refresh && input.refreshFails) then Halted(NativeFailure)
    else
      var ticked := Ticked(begun, input);
      var handled := if ticked.Stepped? && input.ready then HandleInput(ticked.world, input) else ticked;
      if handled.Stepped? && input.shutdown
      then Stepped(handled.world.(rt := Shutdown(handled.world.rt))) else handled
  }

  /** The loop: iterations until one of them stops it or fails. */
  function RunLoop(rt: RuntimeState, a: AppState, inputs: seq<Input>): Progress
    decreases |inputs|
  {
    if inputs == [] || !rt.running then Stepped(World(rt, a, 0, false))
    else
      match Iterate(rt, a, inputs[0])
      case Halted(fault) => Halted(fault)
      case Stepped(w) => RunLoop(w.rt, w.app, inputs[1..])
  }
}
