/**
 Data the dashboard reducer works on (`native/src/dashboard/app.rs`, and the parts of `settings.rs`, `wifi.rs`,
 `credits.rs` and `policy.rs` the reducer calls).

 Status texts are values of `Message`, one constructor a text. Hit tests are screen geometry: a touch report carries the
 target that lies under the point on each screen.
 */
module DashboardState {
  import opened Wrappers
  import opened CatalogMetadata
  import ControllerGuard

  type Percent = n: nat | n <= 100

  const MAX_U64: nat := 0xffff_ffff_ffff_ffff

  function SaturatingAdd(a: nat, b: nat): nat {
    if a + b > MAX_U64 then MAX_U64 else a + b
  }

  datatype View = Dashboard | Settings | Wifi | Credits
  datatype Cue = Volume | Previous | Next | Confirm | Back
  datatype Action = Back | Settings | SystemPrevious | SystemNext | Left | Right | Up | Down | Confirm
  datatype Command = Back | Settings | SystemPrevious | SystemNext | Previous | Next | Confirm

  datatype Game = Game(id: string, title: string, system: System, rom: string, terminalMode: Option<string>)
  datatype GameIndex = Catalog(index: nat) | Terminal
  datatype LaunchRequest = LaunchRequest(game: GameIndex, mode: Option<string>, touchBatch: bool)
  datatype LaunchKind = Game | Terminal | Reboot
  datatype LaunchPlan = LaunchPlan(kind: LaunchKind, mode: string, touchSupervision: bool)
  datatype ChildResult = ChildResult(started: bool, exitedForTouch: bool, shutdownRequested: bool,
                                     exitCode: Option<int>, signal: Option<int>, error: Option<string>)
  datatype Recovery = Controls | Presentation | Volume
  datatype ActiveLaunch = ActiveLaunch(game: Game, plan: LaunchPlan, result: Option<ChildResult>,
                                       recovery: Option<Recovery>)

  datatype ChildOutcome = Failed | NotStarted | ReturnedForTouch | Exited | ExitedWith(code: int)
                        | StoppedBy(signal: int) | Stopped
  datatype Message = Blank | RebootConfirmation | WifiEditorClosed | WaitingForTouch | TouchReconnected
                   | Rebooting | Starting(title: string) | ChildStatus(kind: LaunchKind, title: string, outcome: ChildOutcome)
                   | VolumeMuted | VolumeToneFailed | GameVolume(value: Percent) | VolumeError
                   | BrightnessSet(percent: nat) | BrightnessError | KeymapSet(keymap: Keymap) | KeymapError
                   | SsidInvalid | PasswordInvalid | WifiSaved | WifiNotSaved | WifiWriteFailed

  datatype Keymap = Us | Cz
  datatype SettingsTarget = Close | VolumeDown | VolumeUp | BrightnessDown | BrightnessUp | Terminal | Keymap | Wifi
  datatype SettingsAction = Close | Volume(volume: Percent) | Brightness(percent: nat) | Keymap(keymap: Keymap)
                          | Terminal | Wifi
  datatype Plan = Plan(action: SettingsAction, cue: Option<Cue>)
  datatype SettingsState = SettingsState(open: bool, selected: SettingsTarget, pressed: Option<SettingsTarget>,
                                         volume: Percent, lastAudibleVolume: Percent, brightness: nat,
                                         keymap: Keymap, status: Message)

  datatype WifiField = Ssid | Password
  datatype WifiMode = Alphabet | Symbols
  datatype WifiTarget = Back | Ssid | Password | Save | Mode | Shift | Space | Delete | Key(key: char)
  datatype WifiState = WifiState(open: bool, ssid: string, passphrase: string, field: WifiField, mode: WifiMode,
                                 uppercase: bool, pressed: Option<WifiTarget>, status: Message)

  datatype NetworkStatus = NetworkStatus(ssid: string, wlanIpv4: string, wireguardIpv4: string, selector: string)

  datatype Pending = Launch(request: LaunchRequest) | Settings(plan: Plan) | VolumeTone(plan: Plan) | Wifi | Network
                   | Child(active: ActiveLaunch)

  datatype Effect = Render | Present | PlayCue(cue: Cue) | VolumeCue | StopSound | FinishSound | ReapSound
                  | ScanControls | CloseControls | ReconnectTouch | OpenPresentation | DiscardTouch
                  | ControllerSuspended | ControllerResumed | SettingsAction(plan: Plan) | WifiAction | NetworkAction
                  | PrepareLaunch | Launch | ReloadVolume | StopLoop

  datatype MenuTarget = Credits | Settings | Previous | Next | System(system: System) | Game(index: nat)
  datatype TouchReport = TouchReport(pressed: bool, released: bool, menu: Option<MenuTarget>,
                                     settings: Option<SettingsTarget>, wifi: Option<WifiTarget>, close: bool)

  datatype Event = Begin(now: nat, wayland: bool, rescan: bool)
                 | Tick(now: nat)
                 | Controls(now: nat, gamepad: seq<Action>, keyboard: seq<Action>, quarantined: bool)
                 | Touch(now: nat, report: TouchReport)
                 | TouchLost
                 | TouchReconnected
                 | SettingsResult(ok: bool)
                 | VolumeToneResult(ok: bool)
                 | WifiResult(succeeded: bool, failureStatus: Option<Message>)
                 | NetworkResult(network: NetworkStatus)
                 | Prepared(game: Game, plan: LaunchPlan)
                 | ChildReturned(result: ChildResult, touchDisconnected: bool)
                 | ControlsRescanned(now: nat)
                 | PresentationOpened
                 | ChildComplete(volume: Option<Percent>)

  datatype AppState = AppState(games: seq<Game>, view: View, system: System, position: nat, status: Message,
                               pressed: Option<MenuTarget>, settings: SettingsState, wifi: WifiState,
                               creditsPressed: bool, network: NetworkStatus, reducedMotion: bool,
                               creditsStartedAt: nat, creditsRenderedAt: nat, guard: ControllerGuard.Guard,
                               lastScan: Option<nat>, touchConnected: bool, lastTouchReconnect: nat,
                               networkRefreshedAt: nat, rebootDeadline: nat, pending: Option<Pending>)

  /** Why the reducer or its driver gives up. `Panicked` stands for the reducer's `unreachable!` and `expect`. */
  datatype Fault = OutOfOrder | NoLayout | Panicked | NoPendingLaunch | NoActiveLaunch | BorrowedDisplay | NativeFailure

  // ---- settings.rs ----

  function Min(a: nat, b: nat): nat { if a < b then a else b }
  function Max(a: nat, b: nat): nat { if a < b then b else a }
  function Minus(a: nat, b: nat): nat { if a < b then 0 else a - b }

  predicate BrightnessValid(v: nat) {
    10 <= v <= 100 && v % 10 == 0
  }

  function Activate(s: SettingsState, t: SettingsTarget): Plan {
    match t
    case Close => Plan(SettingsAction.Close, Some(Cue.Back))
    case VolumeDown => Plan(SettingsAction.Volume(Minus(s.volume, 5)), Some(Cue.Previous))
    case VolumeUp =>
      Plan(SettingsAction.Volume(if s.volume == 0 then Max(s.lastAudibleVolume, 5) else Min(s.volume + 5, 100)),
           Some(Cue.Next))
    case BrightnessDown => Plan(Brightness(Max(Minus(s.brightness, 10), 10)), Some(Cue.Previous))
    case BrightnessUp => Plan(Brightness(Min(s.brightness + 10, 100)), Some(Cue.Next))
    case Terminal => Plan(SettingsAction.Terminal, Some(Cue.Confirm))
    case Keymap => Plan(SettingsAction.Keymap(if s.keymap.Cz? then Us else Cz), Some(Cue.Confirm))
    case Wifi => Plan(SettingsAction.Wifi, Some(Cue.Confirm))
  }

  function CompleteSettings(s: SettingsState, plan: Plan, ok: bool, toneOk: bool): SettingsState {
    match plan.action
    case Close => s.(open := false, status := Blank)
    case Volume(v) =>
      if ok then
        s.(volume := v, lastAudibleVolume := if v > 0 then v else s.lastAudibleVolume,
           status := if v == 0 then VolumeMuted else if !toneOk then VolumeToneFailed else GameVolume(v))
      else s.(status := VolumeError)
    case Brightness(v) => if ok then s.(brightness := v, status := BrightnessSet(v)) else s.(status := BrightnessError)
    case Keymap(k) => if ok then s.(keymap := k, status := KeymapSet(k)) else s.(status := KeymapError)
    case Terminal => s
    case Wifi => s
  }

  const SETTINGS_ORDER: seq<SettingsTarget> :=
    [SettingsTarget.VolumeDown, SettingsTarget.VolumeUp, SettingsTarget.BrightnessDown, SettingsTarget.BrightnessUp,
     SettingsTarget.Terminal, SettingsTarget.Keymap, SettingsTarget.Wifi]

  function SettingsIndex(t: SettingsTarget): (i: nat)
    ensures i < 7
  {
    match t
    case Close => 0
    case VolumeDown => 0
    case VolumeUp => 1
    case BrightnessDown => 2
    case BrightnessUp => 3
    case Terminal => 4
    case Keymap => 5
    case Wifi => 6
  }

  function MoveSelection(s: SettingsState, previous: bool): SettingsState {
    var i := SettingsIndex(s.selected);
    s.(selected := SETTINGS_ORDER[if previous then (i + 6) % 7 else (i + 1) % 7], status := Blank)
  }

  function TouchSettings(s: SettingsState, r: TouchReport): (SettingsState, Option<Plan>) {
    var held := if r.pressed then s.(pressed := r.settings) else s;
    if !r.released then (held, None)
    else
      var lifted := held.(pressed := None);
      if held.pressed.Some? && held.pressed == r.settings
      then (lifted, Some(Activate(lifted, r.settings.value)))
      else (lifted, None)
  }

  // ---- wifi.rs ----

  predicate Printable(s: string, low: nat, high: nat) {
    low <= |s| <= high && forall i :: 0 <= i < |s| ==> ' ' <= s[i] <= '~'
  }

  function WifiProblem(s: WifiState): Option<Message> {
    if !Printable(s.ssid, 1, 32) then Some(SsidInvalid)
    else if !Printable(s.passphrase, 8, 63) then Some(PasswordInvalid)
    else None
  }

  function ToUpper(c: char): char {
    if 'a' <= c <= 'z' then (c as int - 32) as char else c
  }

  function TypeKey(s: WifiState, c: char): WifiState {
    match s.field
    case Ssid => if |s.ssid| < 32 then s.(ssid := s.ssid + [c]) else s
    case Password => if |s.passphrase| < 63 then s.(passphrase := s.passphrase + [c]) else s
  }

  function DropLast(s: string): string {
    if s == "" then "" else s[..|s| - 1]
  }

  /** An editing key. The caller handles the back and save buttons itself. */
  function EditWifi(s: WifiState, t: WifiTarget): WifiState {
    match t
    case Back => s.(open := false)
    case Ssid => s.(field := WifiField.Ssid, status := Blank)
    case Password => s.(field := WifiField.Password, status := Blank)
    case Mode => s.(mode := if s.mode.Alphabet? then Symbols else Alphabet, status := Blank)
    case Shift => if s.mode.Alphabet? then s.(uppercase := !s.uppercase, status := Blank) else s
    case Space => TypeKey(s, ' ').(status := Blank)
    case Delete =>
      (if s.field.Ssid? then s.(ssid := DropLast(s.ssid)) else s.(passphrase := DropLast(s.passphrase))).(status := Blank)
    case Key(c) => TypeKey(s, if s.uppercase then ToUpper(c) else c).(status := Blank)
    case Save => s
  }

  function CompleteWifi(s: WifiState, succeeded: bool, failure: Option<Message>): WifiState {
    if succeeded then s.(passphrase := "", status := WifiSaved)
    else s.(status := if failure.Some? then failure.value else WifiNotSaved)
  }

  // ---- policy.rs ----

  const SHELL := "shell"
  const TERMINAL_GAME := Game.Game("terminal", "TERMINAL", Deck, "/mnt/data/nes-deck/terminal/retro-terminal", Some(SHELL))
  const REBOOT_ID := "reboot"

  predicate WadApplication(g: Game) {
    g.system.Deck? && |g.rom| > 4 &&
    var tail := g.rom[|g.rom| - 4..];
    tail[0] == '.' && ToUpper(tail[1]) == 'W' && ToUpper(tail[2]) == 'A' && ToUpper(tail[3]) == 'D'
  }

  /** The part of the launch contract the dashboard acts on. A volume is at most 100 by its type. */
  function PlanLaunch(g: Game, volume: Percent, wayland: bool): LaunchPlan {
    if g.terminalMode.Some? then LaunchPlan(LaunchKind.Terminal, g.terminalMode.value, true)
    else if g.system.Deck? && g.id == REBOOT_ID then LaunchPlan(Reboot, "", true)
    else
      var routed := g.id != "node-mode" && g.id != "chiptunes" && (g.id == "tamagotchi" || WadApplication(g));
      LaunchPlan(LaunchKind.Game, "", wayland || !g.system.Deck? || routed)
  }

  function TerminalTitle(mode: string): string {
    if mode == "lua" then "LUA REPL"
    else if mode == "lisp" then "LISP REPL"
    else if mode == "python" then "PYTHON REPL"
    else if mode == "scheme" then "SCHEME REPL"
    else "TERMINAL"
  }

  function DescribeChild(active: ActiveLaunch): Message
    requires active.result.Some?
  {
    var r := active.result.value;
    ChildStatus(active.plan.kind,
                if active.plan.kind.Terminal? then TerminalTitle(active.plan.mode) else active.game.title,
                if r.error.Some? && r.error.value != "" then Failed
                else if !r.started then NotStarted
                else if r.exitedForTouch then ReturnedForTouch
                else if r.exitCode == Some(0) then Exited
                else if r.exitCode.Some? then ExitedWith(r.exitCode.value)
                else if r.signal.Some? then StoppedBy(r.signal.value)
                else Stopped)
  }

  // ---- app.rs, the pure functions ----

  function SelectCommand(actions: seq<Action>, view: View): Option<Command> {
    if !view.Dashboard? && Action.Back in actions then Some(Command.Back)
    else if view.Wifi? || view.Credits? then None
    else if Action.Settings in actions then Some(Command.Settings)
    else if !view.Settings? && Action.SystemPrevious in actions then Some(Command.SystemPrevious)
    else if !view.Settings? && Action.SystemNext in actions then Some(Command.SystemNext)
    else if Left in actions || Up in actions then Some(Command.Previous)
    else if Right in actions || Down in actions then Some(Command.Next)
    else if Action.Confirm in actions then Some(Command.Confirm)
    else None
  }

  /** Keyboard actions join the gamepad's, each once. */
  function MergeActions(gamepad: seq<Action>, keyboard: seq<Action>): seq<Action>
    decreases |keyboard|
  {
    if keyboard == [] then gamepad
    else MergeActions(if keyboard[0] in gamepad then gamepad else gamepad + [keyboard[0]], keyboard[1..])
  }

  function IndicesFrom(games: seq<Game>, system: System, from: nat): (r: seq<nat>)
    requires from <= |games|
    ensures forall i :: i in r ==> from <= i < |games| && games[i].system == system
    decreases |games| - from
  {
    if from == |games| then []
    else (if games[from].system == system then [from] else []) + IndicesFrom(games, system, from + 1)
  }

  function Indices(a: AppState): (r: seq<nat>)
    ensures forall i :: i in r ==> i < |a.games|
  {
    IndicesFrom(a.games, a.system, 0)
  }

  function SelectedGame(a: AppState): (r: Option<nat>)
    ensures r.Some? ==> r.value < |a.games|
  {
    var indices := Indices(a);
    if indices == [] then None
    else
      var i := a.position % |indices|;
      assert indices[i] in indices;
      Some(indices[i])
  }

  function Populated(games: seq<Game>, systems: seq<System>): seq<System> {
    if systems == [] then []
    else (if exists g :: g in games && g.system == systems[0] then [systems[0]] else []) + Populated(games, systems[1..])
  }

  function PopulatedSystems(games: seq<Game>): seq<System> {
    Populated(games, [Nes, Gb, Gbc, Gba, Zx, Deck])
  }

  function PositionOf(systems: seq<System>, s: System): (i: nat)
    ensures systems != [] ==> i < |systems|
  {
    if systems == [] || s !in systems then 0
    else if systems[0] == s then 0
    else 1 + PositionOf(systems[1..], s)
  }

  function NeighbourSystem(a: AppState, previous: bool): System {
    var systems := PopulatedSystems(a.games);
    if systems == [] then a.system
    else
      var p := PositionOf(systems, a.system);
      systems[if previous then (p + |systems| - 1) % |systems| else (p + 1) % |systems|]
  }
}
