/** The protocol over whole runs of the dashboard: one event and its completions, one iteration, the loop. */
module DashboardRuns {
  import opened Wrappers
  import opened DashboardState
  import opened DashboardReduce
  import opened DashboardRuntime
  import opened DashboardProtocol

  /** The only ways a run fails: a device failed, or the display belongs to somebody else. */
  predicate NativeOnly(f: Fault) {
    f.NativeFailure? || f.BorrowedDisplay?
  }

  /** Touch targets exist whenever the dashboard view is the one on screen. */
  predicate Shown(w: World) {
    w.app.view.Dashboard? ==> w.rt.layout
  }

  predicate Ends(e: Event) {
    e.Prepared? || e.ChildReturned?
  }

  ghost predicate Carried(w: World, effects: seq<Effect>, rank: nat, p: Progress) {
    match p
    case Halted(fault) => NativeOnly(fault)
    case Stepped(v) =>
      && Coherent(v.app) && v.app.games == w.app.games && v.app.view == w.app.view
      && v.app.pending == LeftPending(w.app.pending, effects)
      && (w.discard || DiscardTouch in effects ==> v.discard)
      && (v.rt.running ==> w.rt.running)
      && (StopLoop !in effects && rank <= 4 ==> v.rt.running == w.rt.running)
      && (v.rt.running && (Shown(w) || Render in effects) ==> Shown(v))
  }

  ghost predicate Answered(w: World, e: Event, p: Progress) {
    match p
    case Halted(fault) => NativeOnly(fault)
    case Stepped(v) =>
      && Coherent(v.app) && v.app.games == w.app.games
      && (v.app.pending.None? || (e.Touch? && IsLaunch(v.app.pending, true))
          || (e.Controls? && IsLaunch(v.app.pending, false) && v.discard))
      && (!e.Touch? && !e.Controls? ==> v.app.view == w.app.view)
      && (w.discard ==> v.discard)
      && (v.rt.running ==> w.rt.running)
      && (!Ends(e) ==> v.rt.running == w.rt.running)
      && (v.rt.running && Shown(w) ==> Shown(v))
  }

  lemma {:induction false} StepIsSafe(w: World, e: Event, o: Oracle)
    requires Coherent(w.app) && InTurn(w.app.pending, e) && (e.Touch? && w.app.view.Dashboard? ==> w.rt.layout)
    ensures Answered(w, e, Step(w, e, o))
    decreases Rank(e), 1, 0
  {
    var r := Reduce(w.app, e, w.rt.layout);
    ReductionIsSound(w.app, e, w.rt.layout);
    CompletionsDescend(w.app, e, w.rt.layout);
    EffectsAreSafe(w.(app := r.app), r.effects, Rank(e), o);
  }

  /** One effect: carried out in turn, it leaves what its answer leaves. */
  lemma {:induction false} EffectIsSafe(w: World, effect: Effect, rank: nat, o: Oracle)
    requires Coherent(w.app) && Answerable(w.app.pending, effect) && AnswerRank(effect) < rank
    ensures Carried(w, [effect], rank, RunEffect(w, effect, rank, o))
    decreases rank, 0, 0
  {
    OneEffect(w.app.pending, effect);
    var next := w.(calls := w.calls + 1, discard := w.discard || effect.DiscardTouch?);
    var done := Perform(w.rt, w.app, effect, o(w.calls));
    AnswerIsInTurn(w.rt, w.app, effect, o(w.calls));
    PerformKeeps(w.rt, w.app, effect, o(w.calls));
    if done.Performed? && done.completion.Some? {
      StepIsSafe(next.(rt := done.rt), done.completion.value, o);
    }
  }

  /** An effect fails only with its device, and its answer comes in turn. */
  lemma AnswerIsInTurn(rt: RuntimeState, a: AppState, effect: Effect, n: Native)
    requires Coherent(a) && Answerable(a.pending, effect)
    ensures match Perform(rt, a, effect, n)
      case Broken(fault) => NativeOnly(fault)
      case Performed(next, completion) =>
        && (AnswerRank(effect) == 0 ==> completion.None?)
        && (completion.None? && AnswerRank(effect) > 0 ==> a.pending.None?)
        && (completion.Some? ==> Rank(completion.value) == AnswerRank(effect) && InTurn(a.pending, completion.value)
                                 && !completion.value.Touch? && !completion.value.Controls?)
  {
    if effect.PrepareLaunch? {
      assert PendingApplication(a).Some?;
    }
  }

  /** Only the end of the loop stops the runtime, and only rendering changes the layout. */
  lemma PerformKeeps(rt: RuntimeState, a: AppState, effect: Effect, n: Native)
    ensures match Perform(rt, a, effect, n)
      case Broken(_) => true
      case Performed(next, _) =>
        && next.running == (rt.running && !effect.StopLoop?)
        && (next.layout == if effect.Render? then a.view.Dashboard? else rt.layout && !effect.StopLoop?)
  {
    match effect
    case PlayCue(cue) => SoundKeeps(rt, cue, a.settings.volume, n);
    case VolumeCue => SoundKeeps(rt, Cue.Volume, a.settings.volume, n);
    case PrepareLaunch => assert Perform(rt, a, effect, n).Performed? ==> Perform(rt, a, effect, n).rt == rt;
    case Launch =>
    case Render =>
    case StopLoop =>
    case _ =>
  }

  lemma SoundKeeps(rt: RuntimeState, cue: Cue, volume: Percent, n: Native)
    ensures var next := DashboardRuntime.Sound(rt, cue, volume, n).0;
      next.running == rt.running && next.layout == rt.layout
  {
  }

  lemma {:induction false} EffectsAreSafe(w: World, effects: seq<Effect>, rank: nat, o: Oracle)
    requires Coherent(w.app) && Expected(w.app.pending, effects) && RanksBelow(effects, rank)
    ensures Carried(w, effects, rank, RunEffects(w, effects, rank, o))
    decreases rank, 0, |effects|
  {
    if effects != [] {
      EffectIsSafe(w, effects[0], rank, o);
      var first := RunEffect(w, effects[0], rank, o);
      if first.Stepped? {
        OneEffect(w.app.pending, effects[0]);
        assert effects == [effects[0]] + effects[1..];
        EffectsAreSafe(first.world, effects[1..], rank, o);
      }
    }
  }

  // ---- Iterations and the loop ----

  ghost predicate AtRest(p: Progress, games: seq<Game>) {
    match p
    case Halted(fault) => NativeOnly(fault)
    case Stepped(v) =>
      Coherent(v.app) && v.app.pending.None? && v.app.games == games && (v.rt.running ==> Shown(v))
  }

  ghost predicate TouchReady(p: Progress, games: seq<Game>) {
    match p
    case Halted(fault) => NativeOnly(fault)
    case Stepped(v) =>
      Coherent(v.app) && v.app.games == games && v.rt.running && Shown(v)
      && (v.app.pending.None? || IsLaunch(v.app.pending, true))
  }

  lemma {:induction false} TouchesAreSafe(p: Progress, now: nat, touches: seq<TouchReport>, o: Oracle, games: seq<Game>)
    requires TouchReady(p, games)
    ensures TouchReady(StepTouches(p, now, touches, o), games)
    decreases |touches|
  {
    if touches != [] && p.Stepped? {
      StepIsSafe(p.world, Touch(now, touches[0]), o);
      TouchesAreSafe(Step(p.world, Touch(now, touches[0]), o), now, touches[1..], o, games);
    }
  }

  lemma LaunchIsSafe(p: Progress, o: Oracle, games: seq<Game>)
    requires match p
      case Halted(fault) => NativeOnly(fault)
      case Stepped(v) =>
        Coherent(v.app) && v.app.games == games && Shown(v) && (v.app.pending.None? || v.app.pending.value.Launch?)
    ensures AtRest(LaunchIfAsked(p, o), games)
  {
    if p.Stepped? && p.world.app.pending.Some? {
      EffectIsSafe(p.world, PrepareLaunch, 6, o);
      OneEffect(p.world.app.pending, PrepareLaunch);
    }
  }

  lemma InputIsSafe(w: World, input: Input)
    requires Coherent(w.app) && w.app.pending.None? && w.rt.running && Shown(w)
    ensures AtRest(HandleInput(w, input), w.app.games)
  {
    hide Step, StepTouches, LaunchIfAsked;
    var unplugged := w.(rt := w.rt.(touchOwned := false));
    StepIsSafe(unplugged, TouchLost, input.oracle);
    var lost := if input.touchLost then Step(unplugged, TouchLost, input.oracle) else Stepped(w);
    if lost.Stepped? {
      var v := lost.world;
      var e := Event.Controls(v.rt.now, input.gamepad, input.keyboard, v.rt.soundActive || v.rt.now < v.rt.inputUntil);
      StepIsSafe(v, e, input.oracle);
      var controls := Step(v, e, input.oracle);
      if controls.Stepped? && !input.touchLost && !controls.world.discard {
        TouchesAreSafe(controls, controls.world.rt.now, input.touches, input.oracle, w.app.games);
        LaunchIsSafe(StepTouches(controls, controls.world.rt.now, input.touches, input.oracle), input.oracle, w.app.games);
      } else {
        LaunchIsSafe(controls, input.oracle, w.app.games);
      }
    }
  }

  /** Every iteration ends at rest, and only a device can make it fail. */
  lemma IterationIsSafe(rt: RuntimeState, a: AppState, input: Input)
    requires Coherent(a) && a.pending.None? && rt.running && (a.view.Dashboard? ==> rt.layout)
    ensures AtRest(Iterate(rt, a, input), a.games)
  {
    hide Step, HandleInput;
    var w := World(rt.(now := input.clock, rescan := false), a, 0, false);
    StepIsSafe(w, Begin(input.clock, rt.widget, rt.rescan), input.oracle);
    var begun := Begun(rt, a, input);
    if begun.Stepped? {
      var b := begun.world;
      var ready := b.(rt := b.rt.(now := input.polledAt, rescan := b.rt.rescan || input.rescan));
      StepIsSafe(ready, Tick(input.polledAt), input.oracle);
      var ticked := Ticked(begun, input);
      if ticked.Stepped? && input.ready {
        InputIsSafe(ticked.world, input);
      }
    }
  }

  /**
   Over every run of the loop, whatever the devices answer: no completion is out of order, nothing panics, no touch finds
   the layout missing, and the run is at rest between iterations.
   */
  lemma {:induction false} RunIsSafe(rt: RuntimeState, a: AppState, inputs: seq<Input>)
    requires Coherent(a) && a.pending.None? && (rt.running && a.view.Dashboard? ==> rt.layout)
    ensures AtRest(RunLoop(rt, a, inputs), a.games)
    decreases |inputs|
  {
    if inputs != [] && rt.running {
      IterationIsSafe(rt, a, inputs[0]);
      var p := Iterate(rt, a, inputs[0]);
      if p.Stepped? {
        RunIsSafe(p.world.rt, p.world.app, inputs[1..]);
      }
    }
  }

  lemma InitialIsCoherent(games: seq<Game>, reducedMotion: bool)
    ensures var a := InitialState(games, reducedMotion);
      Coherent(a) && a.pending.None? && a.view.Dashboard? && a.rebootDeadline == 0
  {
  }

  /** Only a launch asked for by a touch leaves room for another input event, and only for a touch. */
  lemma OnlyTouchLaunchesYield(p: Pending, e: Event)
    requires e.Begin? || e.Tick? || e.Controls? || e.Touch? || e.TouchLost? || e.TouchReconnected?
    ensures Admits(Some(p), e) <==> e.Touch? && IsLaunch(Some(p), true)
  {
  }

  /**
   And a later touch of the same batch can indeed make such a launch be forgotten: here a tap on the keymap. Which touches
   do is said in `DashboardBatches`.
   */
  lemma TouchReplacesLaunch(a: AppState, now: nat)
    requires Coherent(a) && a.view.Settings? && IsLaunch(a.pending, true)
    ensures var r := TouchReport(true, true, None, Some(SettingsTarget.Keymap), None, false);
      var reduced := Reduce(a, Touch(now, r), false);
      reduced.Reduced? && reduced.app.pending.Some? && reduced.app.pending.value.Settings?
      && LeftPending(reduced.app.pending, reduced.effects).None?
  {
    var r := TouchReport(true, true, None, Some(SettingsTarget.Keymap), None, false);
    var reduced := Reduce(a, Touch(now, r), false);
    OneEffect(reduced.app.pending, reduced.effects[0]);
    assert reduced.effects == [reduced.effects[0]];
  }
}
