/** The dashboard's driver as the object it is: `Runtime` carries effects out and calls itself for their completions. */
module DashboardDriver {
  import opened Wrappers
  import opened DashboardState
  import opened DashboardReduce
  import opened DashboardRuntime
  import opened DashboardApp
  import DashboardProtocol
  import DashboardRuns

  class Runtime {
    var rt: RuntimeState
    var calls: nat
    var discard: bool

    function World(app: App): World
      reads this, app, app.guard
    {
      DashboardRuntime.World(rt, app.Value(), calls, discard)
    }

    constructor (initial: RuntimeState)
      ensures rt == initial && calls == 0 && !discard
    {
      rt, calls, discard := initial, 0, false;
    }

    /** Reduces one event and carries out what the reducer asks for, completions first. */
    method Step(app: App, e: Event, o: Oracle) returns (fault: Option<Fault>)
      modifies this, app, app.guard
      ensures fault.None? ==> DashboardRuntime.Step(old(World(app)), e, o) == Stepped(World(app))
      ensures fault.Some? ==> DashboardRuntime.Step(old(World(app)), e, o) == Halted(fault.value)
      decreases Rank(e), 1, 0
    {
      hide DashboardReduce.Reduce;
      CompletionsDescend(app.Value(), e, rt.layout);
      var out := app.Reduce(e, rt.layout);
      if out.Stopped? {
        return Some(out.fault);
      }
      fault := CarryAll(app, out.effects, Rank(e), o);
    }

    method CarryAll(app: App, effects: seq<Effect>, ghost rank: nat, o: Oracle) returns (fault: Option<Fault>)
      requires RanksBelow(effects, rank)
      modifies this, app, app.guard
      ensures fault.None? ==> RunEffects(old(World(app)), effects, rank, o) == Stepped(World(app))
      ensures fault.Some? ==> RunEffects(old(World(app)), effects, rank, o) == Halted(fault.value)
      decreases rank, 0, 1
    {
      var i := 0;
      while i < |effects|
        invariant 0 <= i <= |effects|
        invariant RunEffects(old(World(app)), effects, rank, o) == RunEffects(World(app), effects[i..], rank, o)
      {
        var failed := Carry(app, effects[i], rank, o);
        assert effects[i..][1..] == effects[i + 1..];
        if failed.Some? {
          return failed;
        }
        i := i + 1;
      }
      return None;
    }

    method Carry(app: App, effect: Effect, ghost rank: nat, o: Oracle) returns (fault: Option<Fault>)
      requires AnswerRank(effect) < rank
      modifies this, app, app.guard
      ensures fault.None? ==> RunEffect(old(World(app)), effect, rank, o) == Stepped(World(app))
      ensures fault.Some? ==> RunEffect(old(World(app)), effect, rank, o) == Halted(fault.value)
      decreases rank, 0, 0
    {
      hide DashboardReduce.Reduce, DashboardRuntime.Perform;
      var done := Perform(rt, app.Value(), effect, o(calls));
      if done.Broken? {
        return Some(done.fault);
      }
      calls, discard := calls + 1, discard || effect.DiscardTouch?;
      rt := done.rt;
      if done.completion.None? {
        return None;
      }
      AnswerHasRank(old(rt), old(app.Value()), effect, o(old(calls)));
      fault := Step(app, done.completion.value, o);
    }

    /** One turn of the main loop. */
    method Iteration(app: App, input: Input) returns (fault: Option<Fault>)
      modifies this, app, app.guard
      ensures fault.None? ==> Iterate(old(rt), old(app.Value()), input) == Stepped(World(app))
      ensures fault.Some? ==> Iterate(old(rt), old(app.Value()), input) == Halted(fault.value)
    {
      hide DashboardRuntime.Step, HandleInput, Shutdown;
      fault := Start(app, input);
      if fault.Some? {
        return;
      }
      if input.pollFails || input.queueFault || (input.refresh && input.refreshFails) {
        return Some(NativeFailure);
      }
      rt := rt.(now := input.polledAt, rescan := rt.rescan || input.rescan);
      fault := Step(app, Tick(input.polledAt), input.oracle);
      if fault.Some? {
        return;
      }
      if input.ready {
        fault := Handle(app, input);
        if fault.Some? {
          return;
        }
      }
      if input.shutdown {
        rt := Shutdown(rt);
      }
    }

    /** Nothing is pending, the flags match the view, and the dashboard has its layout while the loop runs. */
    ghost predicate AtRest(app: App)
      reads this, app, app.guard
    {
      DashboardProtocol.Coherent(app.Value()) && app.pending.None? && (rt.running && app.view.Dashboard? ==> rt.layout)
    }

    /**
     The main loop over any inputs. From rest it comes back to rest, unless a device failed or the display belongs to
     somebody else; it never fails for an event out of order, a missing layout or a broken assumption.
     */
    method Loop(app: App, inputs: seq<Input>) returns (fault: Option<Fault>)
      modifies this, app, app.guard
      ensures fault.None? ==>
        RunLoop(old(rt), old(app.Value()), inputs) == Stepped(DashboardRuntime.World(rt, app.Value(), 0, false))
      ensures fault.Some? ==> RunLoop(old(rt), old(app.Value()), inputs) == Halted(fault.value)
      ensures old(AtRest(app)) ==> if fault.None? then AtRest(app) else DashboardRuns.NativeOnly(fault.value)
    {
      hide Iterate;
      var i := 0;
      fault := None;
      while i < |inputs| && rt.running
        invariant 0 <= i <= |inputs| && (old(AtRest(app)) ==> AtRest(app))
        invariant RunLoop(old(rt), old(app.Value()), inputs) == RunLoop(rt, app.Value(), inputs[i..])
        invariant fault.None?
      {
        if old(AtRest(app)) {
          DashboardRuns.IterationIsSafe(rt, app.Value(), inputs[i]);
        }
        fault := Iteration(app, inputs[i]);
        assert inputs[i..][1..] == inputs[i + 1..];
        if fault.Some? {
          return;
        }
        i := i + 1;
      }
    }

    method Start(app: App, input: Input) returns (fault: Option<Fault>)
      modifies this, app, app.guard
      ensures fault.None? ==> Begun(old(rt), old(app.Value()), input) == Stepped(World(app))
      ensures fault.Some? ==> Begun(old(rt), old(app.Value()), input) == Halted(fault.value)
    {
      var wanted := rt.rescan;
      rt, calls, discard := rt.(now := input.clock, rescan := false), 0, false;
      fault := Step(app, Begin(input.clock, rt.widget, wanted), input.oracle);
    }

    method Handle(app: App, input: Input) returns (fault: Option<Fault>)
      modifies this, app, app.guard
      ensures fault.None? ==> HandleInput(old(World(app)), input) == Stepped(World(app))
      ensures fault.Some? ==> HandleInput(old(World(app)), input) == Halted(fault.value)
    {
      hide DashboardRuntime.Step, StepTouches, RunEffect;
      if input.touchLost {
        rt := rt.(touchOwned := false);
        fault := Step(app, TouchLost, input.oracle);
        if fault.Some? {
          return;
        }
      }
      var quarantined := rt.soundActive || rt.now < rt.inputUntil;
      fault := Step(app, Event.Controls(rt.now, input.gamepad, input.keyboard, quarantined), input.oracle);
      if fault.Some? {
        return;
      }
      if !input.touchLost && !discard {
        fault := Touches(app, input);
        if fault.Some? {
          return;
        }
      }
      if app.pending.Some? && app.pending.value.Launch? {
        fault := Carry(app, PrepareLaunch, 6, input.oracle);
      }
    }

    method Touches(app: App, input: Input) returns (fault: Option<Fault>)
      modifies this, app, app.guard
      ensures fault.None? ==>
        StepTouches(Stepped(old(World(app))), old(rt.now), input.touches, input.oracle) == Stepped(World(app))
      ensures fault.Some? ==>
        StepTouches(Stepped(old(World(app))), old(rt.now), input.touches, input.oracle) == Halted(fault.value)
    {
      var at, i := rt.now, 0;
      while i < |input.touches|
        invariant 0 <= i <= |input.touches|
        invariant StepTouches(Stepped(old(World(app))), at, input.touches, input.oracle)
               == StepTouches(Stepped(World(app)), at, input.touches[i..], input.oracle)
      {
        var failed := Step(app, Touch(at, input.touches[i]), input.oracle);
        assert input.touches[i..][1..] == input.touches[i + 1..];
        if failed.Some? {
          return failed;
        }
        i := i + 1;
      }
      return None;
    }
  }

  lemma AnswerHasRank(rt: RuntimeState, a: AppState, effect: Effect, n: Native)
    ensures var done := Perform(rt, a, effect, n);
      done.Performed? && done.completion.Some? ==> Rank(done.completion.value) == AnswerRank(effect)
  {
  }
}
