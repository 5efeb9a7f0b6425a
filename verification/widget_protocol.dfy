/**
 The widget's side of the frame protocol (`native/src/wayland.rs`): which buffers the compositor holds, and when a frame may
 be committed.
 */
module WidgetProtocol {
  import opened Wrappers

  const BUFFER_COUNT: nat := 3
  const I32_MAX: nat := 0x7fff_ffff

  datatype Life = Dormant | Prepared | Entering | Visible | Leaving | Unknown {
    predicate Shown() {
      Prepared? || Entering? || Visible? || Leaving?
    }
  }

  datatype Event = Configure(width: nat, height: nat) | ConfigureDone | Lifecycle(life: Life) | TransitionIncoming
                 | Shutdown | Release(index: nat) | Other

  /** What the client saw and did, in order. */
  datatype Deed = Saw(life: Life) | Committed(index: nat)

  datatype WidgetError = NotConfigured | BadSize | SizeInUse | NoBuffer | FlushFailed

  /** The bytes of a frame, when the surface has a usable size. */
  function FrameSize(width: nat, height: nat): Option<nat> {
    if width == 0 || height == 0 || width > I32_MAX / 4 || height > I32_MAX then None
    else if width * height * 4 <= I32_MAX then Some(width * height * 4) else None
  }

  // ---- What a run of deeds may look like ----

  /** The last lifecycle state that was announced. */
  function LastLife(deeds: seq<Deed>): Life {
    if deeds == [] then Dormant
    else
      match deeds[|deeds| - 1]
      case Saw(life) => life
      case Committed(_) => LastLife(deeds[..|deeds| - 1])
  }

  /** The frames committed since then. */
  function FramesSince(deeds: seq<Deed>): nat {
    if deeds == [] || deeds[|deeds| - 1].Saw? then 0 else 1 + FramesSince(deeds[..|deeds| - 1])
  }

  /** A shown widget may render; one that is only prepared may render one frame. */
  predicate MayCommit(deeds: seq<Deed>) {
    LastLife(deeds).Shown() && (LastLife(deeds) == Prepared ==> FramesSince(deeds) == 0)
  }

  predicate Proper(deeds: seq<Deed>) {
    forall i :: 0 <= i < |deeds| && deeds[i].Committed? ==> MayCommit(deeds[..i])
  }

  lemma ProperGrows(deeds: seq<Deed>, deed: Deed)
    requires Proper(deeds) && (deed.Committed? ==> MayCommit(deeds))
    ensures Proper(deeds + [deed])
  {
    var now := deeds + [deed];
    forall i | 0 <= i < |now| && now[i].Committed?
      ensures MayCommit(now[..i])
    {
      assert now[..i] == deeds[..i];
      if i == |deeds| {
        assert deeds[..i] == deeds;
      }
    }
  }

  lemma {:induction false} LifeAt(deeds: seq<Deed>, at: nat, n: nat)
    requires at < n <= |deeds| && deeds[at].Saw? && forall i :: at < i < n ==> deeds[i].Committed?
    ensures LastLife(deeds[..n]) == deeds[at].life && FramesSince(deeds[..n]) == n - at - 1
  {
    assert deeds[..n][..n - 1] == deeds[..n - 1];
    if at + 1 < n {
      LifeAt(deeds, at, n - 1);
    }
  }

  /** After each announcement that the widget is prepared, at most one frame is committed before the next announcement. */
  lemma OneFramePerPreparation(deeds: seq<Deed>, at: nat, n: nat)
    requires Proper(deeds) && at < n <= |deeds| && deeds[at] == Saw(Prepared)
    requires forall i :: at < i < n ==> deeds[i].Committed?
    ensures n - at - 1 <= 1
  {
    if n - at - 1 >= 2 {
      assert deeds[n - 1].Committed?;
      LifeAt(deeds, at, n - 1);
    }
  }

  lemma {:induction false} HiddenLife(deeds: seq<Deed>, n: nat)
    requires n <= |deeds| && forall i :: 0 <= i < n && deeds[i].Saw? ==> !deeds[i].life.Shown()
    ensures !LastLife(deeds[..n]).Shown()
  {
    if n > 0 {
      assert deeds[..n][..n - 1] == deeds[..n - 1];
      HiddenLife(deeds, n - 1);
    }
  }

  /** No frame follows an announcement that the widget is not shown, nor precedes all announcements. */
  lemma NoFrameWhileHidden(deeds: seq<Deed>, at: nat, n: nat)
    requires Proper(deeds) && n < |deeds| && deeds[n].Committed?
    ensures at < n && deeds[at].Saw? && (forall i :: at < i < n ==> deeds[i].Committed?) ==> deeds[at].life.Shown()
    ensures exists i :: 0 <= i < n && deeds[i].Saw? && deeds[i].life.Shown()
  {
    if at < n && deeds[at].Saw? && forall i :: at < i < n ==> deeds[i].Committed? {
      LifeAt(deeds, at, n);
    }
    if forall i :: 0 <= i < n && deeds[i].Saw? ==> !deeds[i].life.Shown() {
      HiddenLife(deeds, n);
    }
  }

  // ---- The widget ----

  class Widget {
    var configured: bool
    var width: nat
    var height: nat
    var visible: bool
    var active: bool
    var framePending: bool
    var refreshRequested: bool
    var shutdown: bool
    /** Whether each buffer is busy, and how many bytes each has. */
    var busy: seq<bool>
    var slotSize: nat
    /** The events on their way to the client. */
    var inbox: seq<Event>
    /** The buffers the compositor reads from; only it knows. */
    var held: set<nat>
    ghost var deeds: seq<Deed>
    /** The width and height the buffers were made for. */
    ghost var shape: (nat, nat)

    /** Whatever the compositor holds, or has just given back, is marked busy; nothing is given back twice. */
    ghost predicate Owned()
      reads this`busy, this`inbox, this`held
    {
      && (|busy| == 0 || |busy| == BUFFER_COUNT)
      && (forall i :: i in held ==> i < |busy| && busy[i])
      && (forall j :: 0 <= j < |inbox| && inbox[j].Release? ==>
            inbox[j].index < |busy| && busy[inbox[j].index] && inbox[j].index !in held)
      && (forall j, k :: 0 <= j < k < |inbox| && inbox[j].Release? && inbox[k].Release? ==> inbox[j].index != inbox[k].index)
    }

    /** The flags follow what was announced and committed. */
    ghost predicate Told()
      reads this`visible, this`active, this`framePending, this`deeds
    {
      && visible == LastLife(deeds).Shown()
      && active == (visible && LastLife(deeds) != Prepared)
      && (framePending ==> visible)
      && (LastLife(deeds) == Prepared ==> (framePending <==> FramesSince(deeds) == 0))
    }

    /** The buffers there are were made together, for one size. */
    ghost predicate Sized()
      reads this`busy, this`slotSize, this`shape
    {
      (|busy| == 0 || |busy| == BUFFER_COUNT) && (busy != [] ==> FrameSize(shape.0, shape.1) == Some(slotSize))
    }

    /** What the flags and the record have to say of one another, whatever the buffers do. */
    ghost predicate Honest()
      reads this`visible, this`active, this`framePending, this`deeds
    {
      Told() && Proper(deeds)
    }

    ghost predicate Valid()
      reads this
    {
      Owned() && Honest() && Sized()
    }

    constructor ()
      ensures Valid() && !configured && !shutdown && inbox == [] && held == {} && deeds == [] && busy == []
    {
      configured, width, height := false, 0, 0;
      visible, active, framePending, refreshRequested, shutdown := false, false, false, false, false;
      busy, slotSize, inbox, held, deeds, shape := [], 0, [], {}, [], (0, 0);
    }

    predicate Renderable()
      reads this`visible, this`active, this`framePending
    {
      visible && (active || framePending)
    }

    /** The compositor sends an event; it may give back any buffer it holds. */
    method Send(event: Event)
      requires Valid() && (event.Release? ==> event.index in held)
      modifies this`inbox, this`held
      ensures Valid() && inbox == old(inbox) + [event]
      ensures held == if event.Release? then old(held) - {event.index} else old(held)
    {
      inbox := inbox + [event];
      if event.Release? {
        held := held - {event.index};
      }
    }

    method WidgetEvent(event: Event)
      requires !event.Release?
      modifies this`configured, this`width, this`height, this`visible, this`active, this`framePending
      modifies this`refreshRequested, this`shutdown, this`deeds
      ensures old(Honest()) ==> Honest()
      ensures deeds == if event.Lifecycle? then old(deeds) + [Saw(event.life)] else old(deeds)
      ensures configured == if event.ConfigureDone? then FrameSize(width, height).Some? else old(configured)
      ensures (width, height) == if event.Configure? then (event.width, event.height) else (old(width), old(height))
      ensures refreshRequested == (old(refreshRequested) || event.TransitionIncoming? || (event.Lifecycle? && event.life.Shown()))
      ensures visible == if event.Lifecycle? then event.life.Shown() else old(visible)
      ensures active == if event.Lifecycle? then event.life.Shown() && event.life != Prepared else old(active)
      ensures framePending == if event.Lifecycle? then event.life.Shown() else old(framePending)
      ensures shutdown == (old(shutdown) || event.Shutdown?)
    {
      match event {
        case Configure(w, h) => width, height := w, h;
        case ConfigureDone => configured := FrameSize(width, height).Some?;
        case Lifecycle(life) =>
          visible := life.Shown();
          active := visible && life != Prepared;
          framePending := visible;
          if visible {
            refreshRequested := true;
          }
          if Proper(deeds) {
            ProperGrows(deeds, Saw(life));
          }
          deeds := deeds + [Saw(life)];
        case TransitionIncoming => refreshRequested := true;
        case Shutdown => shutdown := true;
        case Release(_) =>
        case Other =>
      }
    }

    /** The client handles the first event on its way; a buffer that is no longer there is not released. */
    method HandleFirst()
      requires Sized() && inbox != []
      modifies this
      ensures Sized() && (old(Valid()) ==> Valid())
      ensures inbox == old(inbox)[1..] && held == old(held) && shape == old(shape)
      ensures deeds == if old(inbox)[0].Lifecycle? then old(deeds) + [Saw(old(inbox)[0].life)] else old(deeds)
      ensures old(shutdown) ==> shutdown
      ensures |busy| == |old(busy)|
      ensures busy ==
        if old(inbox)[0].Release? && old(inbox)[0].index < |old(busy)| then old(busy)[old(inbox)[0].index := false]
        else old(busy)
    {
      var event := inbox[0];
      inbox := inbox[1..];
      if event.Release? {
        if event.index < |busy| {
          busy := busy[event.index := false];
        }
      } else {
        hide LastLife, FramesSince, Proper, MayCommit, FrameSize;
        WidgetEvent(event);
      }
    }

    method Dispatch(count: nat)
      requires Sized() && count <= |inbox|
      modifies this
      ensures Sized() && (old(Valid()) ==> Valid())
      ensures inbox == old(inbox)[count..] && held == old(held)
      ensures old(deeds) <= deeds && forall i :: |old(deeds)| <= i < |deeds| ==> deeds[i].Saw?
      ensures old(shutdown) ==> shutdown
      ensures count == 0 ==> unchanged(this)
    {
      var n := 0;
      while n < count
        invariant n <= count && Sized() && (old(Valid()) ==> Valid()) && inbox == old(inbox)[n..] && held == old(held)
        invariant old(deeds) <= deeds && forall i :: |old(deeds)| <= i < |deeds| ==> deeds[i].Saw?
        invariant old(shutdown) ==> shutdown
        invariant n == 0 ==> unchanged(this)
      {
        HandleFirst();
        n := n + 1;
      }
    }

    predicate AnyBusy()
      reads this`busy
    {
      exists i :: 0 <= i < |busy| && busy[i]
    }

    /**
     Buffers of the surface's size; old ones are only given up when none is in use. Buffers of the right number of bytes
     stay, and exactly then can they have another width and height than the surface.
     */
    method EnsureSlots(possible: bool) returns (r: Result<(), WidgetError>)
      requires Sized()
      modifies this`busy, this`slotSize, this`shape
      ensures Sized() && (old(Owned()) ==> Owned())
      ensures r == Err(BadSize) <==> FrameSize(width, height).None?
      ensures r == Err(SizeInUse) <==> FrameSize(width, height).Some? && !old(Fitting()) && old(AnyBusy())
      ensures r == Err(NoBuffer) <==> FrameSize(width, height).Some? && !old(Fitting()) && !old(AnyBusy()) && !possible
      ensures r.Ok? ==> |busy| == BUFFER_COUNT && Some(slotSize) == FrameSize(width, height)
      ensures r.Ok? ==> (shape != (width, height) <==> old(Fitting()) && old(shape) != (width, height))
      ensures r.Err? ==> r.error in {BadSize, SizeInUse, NoBuffer}
      ensures r.Err? && r.error != NoBuffer ==> busy == old(busy)
      ensures !old(Fitting()) && r.Ok? ==> busy == [false, false, false]
      ensures old(Fitting()) && r.Ok? ==> busy == old(busy) && shape == old(shape) && slotSize == old(slotSize)
      ensures old(Owned()) && held != {} ==> busy == old(busy)
    {
      var size := FrameSize(width, height);
      if size.None? {
        return Err(BadSize);
      }
      if busy != [] && slotSize == size.value {
        return Ok(());
      }
      if exists i :: 0 <= i < |busy| && busy[i] {
        return Err(SizeInUse);
      }
      busy := [];
      if !possible {
        return Err(NoBuffer);
      }
      busy, slotSize, shape := [false, false, false], size.value, (width, height);
      return Ok(());
    }

    /** There are buffers, and they have as many bytes as a frame of the surface needs. */
    predicate Fitting()
      reads this`busy, this`slotSize, this`width, this`height
    {
      busy != [] && FrameSize(width, height) == Some(slotSize)
    }

    predicate Free(index: nat)
      reads this`busy
    {
      index < |busy| && !busy[index] && forall i :: 0 <= i < index ==> busy[i]
    }

    method FirstFree() returns (index: Option<nat>)
      ensures index.Some? ==> Free(index.value)
      ensures index.None? ==> forall i :: 0 <= i < |busy| ==> busy[i]
    {
      var n := 0;
      while n < |busy|
        invariant n <= |busy| && forall i :: 0 <= i < n ==> busy[i]
      {
        if !busy[n] {
          return Some(n);
        }
        n := n + 1;
      }
      return None;
    }

    /** All that a call needs to draw into that buffer, when no event is on its way. */
    predicate Draws(index: nat)
      reads this`busy, this`slotSize, this`width, this`height, this`visible, this`active, this`framePending, this`shutdown
    {
      Renderable() && !shutdown && Fitting() && Free(index)
    }

    /** The last frame was committed from a buffer that the compositor holds and the client takes for free. */
    ghost predicate Overrun()
      reads this
    {
      && deeds != [] && deeds[|deeds| - 1].Committed? && deeds[|deeds| - 1].index in held
      && Draws(deeds[|deeds| - 1].index)
    }

    /** The frame is drawn, committed and flushed. */
    method Draw(index: nat, flushed: bool) returns (r: Result<Option<nat>, WidgetError>)
      requires Sized() && Draws(index)
      modifies this`busy, this`held, this`deeds, this`framePending
      ensures r == if flushed then Ok(Some(index)) else Err(FlushFailed)
      ensures Sized() && deeds == old(deeds) + [Committed(index)] && held == old(held) + {index}
      ensures old(Valid()) ==> Proper(deeds) && MayCommit(old(deeds)) && index !in old(held)
      ensures old(Valid()) && flushed ==> Valid()
      ensures !flushed ==> Overrun()
    {
      Commit(index);
      hide LastLife, Proper, MayCommit, FrameSize;
      assert deeds[|deeds| - 1] == Committed(index);
      if !flushed {
        busy := busy[index := false];
        return Err(FlushFailed);
      }
      framePending := false;
      return Ok(Some(index));
    }

    /** A frame of a widget that may render. */
    method Render(possible: bool, flushed: bool) returns (r: Result<Option<nat>, WidgetError>)
      requires Sized() && Renderable() && !shutdown
      modifies this`busy, this`slotSize, this`shape, this`held, this`deeds, this`framePending
      ensures Sized() && r != Err(NotConfigured)
      ensures r == Err(FlushFailed) ==> !flushed && Overrun()
      ensures r.Ok? && r.value.Some? ==>
        flushed && deeds == old(deeds) + [Committed(r.value.value)] && held == old(held) + {r.value.value}
      ensures r == Err(FlushFailed) ==> deeds == old(deeds) + [deeds[|deeds| - 1]]
      ensures r == Ok(None) || (r.Err? && r.error != FlushFailed) ==> deeds == old(deeds) && held == old(held)
      ensures old(Valid()) ==> Proper(deeds) && (r != Err(FlushFailed) ==> Valid())
      ensures old(Valid()) && r.Ok? && r.value.Some? ==> MayCommit(old(deeds)) && r.value.value !in old(held)
      ensures forall i: nat :: old(Draws(i)) ==>
        deeds == old(deeds) + [Committed(i)] && r == if flushed then Ok(Some(i)) else Err(FlushFailed)
    {
      hide LastLife, FramesSince, Proper, MayCommit, FrameSize;
      var ready := EnsureSlots(possible);
      if ready.Err? {
        return Err(ready.error);
      }
      var free := FirstFree();
      if free.None? {
        return Ok(None);
      }
      r := Draw(free.value, flushed);
    }

    /**
     One frame. It is drawn into a buffer the compositor does not hold, and committed only when the widget may render; every
     buffer the compositor holds is busy afterwards, unless the commit could not be flushed: then, and only then, the
     committed buffer is taken for free, and the same call can be made again.
     */
    method PresentFrame(arrived: nat, possible: bool, flushed: bool) returns (r: Result<Option<nat>, WidgetError>)
      requires Sized() && arrived <= |inbox|
      modifies this
      ensures Sized() && old(deeds) <= deeds
      ensures r == Err(NotConfigured) <==> !old(configured)
      ensures !old(configured) ==> unchanged(this)
      ensures old(Valid()) ==> Proper(deeds)
      ensures old(Valid()) ==> (Valid() <==> r != Err(FlushFailed))
      ensures r == Err(FlushFailed) ==> !flushed && Overrun()
      ensures r.Ok? && r.value.Some? ==>
        flushed && !old(shutdown) && held == old(held) + {r.value.value}
        && deeds != [] && deeds[|deeds| - 1] == Committed(r.value.value)
      ensures old(Valid()) && r.Ok? && r.value.Some? ==> MayCommit(deeds[..|deeds| - 1]) && r.value.value !in old(held)
      ensures r == Ok(None) || (r.Err? && r.error != FlushFailed) ==>
        held == old(held) && forall i :: |old(deeds)| <= i < |deeds| ==> deeds[i].Saw?
      ensures arrived == 0 ==> configured == old(configured)
      ensures forall i: nat :: old(configured && Draws(i)) && arrived == 0 ==>
        deeds == old(deeds) + [Committed(i)] && r == if flushed then Ok(Some(i)) else Err(FlushFailed)
    {
      if !configured {
        return Err(NotConfigured);
      }
      Dispatch(arrived);
      hide LastLife, FramesSince, Proper, MayCommit, FrameSize;
      if !Renderable() || shutdown {
        return Ok(None);
      }
      ghost var before := deeds;
      r := Render(possible, flushed);
      assert r.Ok? && r.value.Some? ==> deeds[..|deeds| - 1] == before;
    }

    /** The drawn buffer is attached and committed. */
    method Commit(index: nat)
      requires Renderable() && Free(index)
      modifies this`busy, this`held, this`deeds
      ensures deeds == old(deeds) + [Committed(index)] && busy == old(busy)[index := true] && held == old(held) + {index}
      ensures old(Owned()) ==> Owned() && index !in old(held)
      ensures old(Honest()) ==> Proper(deeds) && MayCommit(old(deeds))
      ensures LastLife(deeds) == LastLife(old(deeds)) && FramesSince(deeds) == FramesSince(old(deeds)) + 1
    {
      busy := busy[index := true];
      held := held + {index};
      if old(Honest()) {
        ProperGrows(deeds, Committed(index));
      }
      deeds := deeds + [Committed(index)];
      assert deeds[..|deeds| - 1] == old(deeds);
    }
  }

  // ---- Runs ----

  /** What happens next: the compositor sends something, or the client presents a frame. */
  datatype Move = Sends(event: Event) | Presents(arrived: nat, possible: bool)

  /**
   Over every run in which no flush fails, whatever the compositor sends, gives back and announces, and whatever sizes the
   surface takes: every buffer the compositor holds stays busy, and the record of frames stays proper.
   */
  method Run(moves: seq<Move>) returns (widget: Widget)
    ensures fresh(widget) && widget.Valid()
  {
    widget := new Widget();
    var n := 0;
    while n < |moves|
      invariant n <= |moves| && fresh(widget) && widget.Valid()
    {
      match moves[n] {
        case Sends(event) =>
          if event.Release? {
            GiveBack(widget, event.index);
          } else {
            widget.Send(event);
          }
        case Presents(arrived, possible) =>
          var r := widget.PresentFrame(if arrived < |widget.inbox| then arrived else |widget.inbox|, possible, true);
      }
      n := n + 1;
    }
  }

  /** The compositor can only give back what it holds. */
  method GiveBack(widget: Widget, index: nat)
    requires widget.Valid()
    modifies widget
    ensures widget.Valid()
  {
    if index in widget.held {
      widget.Send(Release(index));
    }
  }

  /**
   After a flush that failed, the next call draws into the same buffer, which the compositor still holds, as long as the
   surface counts as configured; and it commits a frame too many exactly when the widget is only prepared.
   */
  method PresentAgain(widget: Widget, arrived: nat, possible: bool)
    returns (first: Result<Option<nat>, WidgetError>, again: Result<Option<nat>, WidgetError>)
    requires widget.Valid() && arrived <= |widget.inbox|
    modifies widget
    ensures first == Err(FlushFailed) ==> again == Err(NotConfigured) || DrawnTwice(widget.deeds, again)
    ensures first == Err(FlushFailed) && again != Err(NotConfigured) ==>
      (Proper(widget.deeds) <==> LastLife(widget.deeds) != Prepared)
  {
    first := widget.PresentFrame(arrived, possible, false);
    again := first;
    if first == Err(FlushFailed) {
      ghost var once := widget.deeds;
      again := widget.PresentFrame(0, possible, true);
      if again != Err(NotConfigured) {
        ProperTwice(once, once[|once| - 1].index);
      }
    }
  }

  /** The last two deeds commit the same buffer, which is the one that was just presented. */
  predicate DrawnTwice(deeds: seq<Deed>, r: Result<Option<nat>, WidgetError>) {
    && r.Ok? && r.value.Some? && |deeds| >= 2
    && deeds[|deeds| - 1] == Committed(r.value.value) && deeds[|deeds| - 2] == Committed(r.value.value)
  }

  lemma ProperTwice(once: seq<Deed>, index: nat)
    requires Proper(once) && once != [] && once[|once| - 1].Committed?
    ensures var twice := once + [Committed(index)];
      LastLife(twice) == LastLife(once) && (Proper(twice) <==> LastLife(twice) != Prepared)
  {
    var before, twice := once[..|once| - 1], once + [Committed(index)];
    assert MayCommit(before);
    assert twice[..|once|] == once;
    if LastLife(once) != Prepared {
      ProperGrows(once, Committed(index));
    } else {
      assert twice[|once|].Committed? && !MayCommit(twice[..|once|]);
    }
  }

  /** A widget of the screen's size that was announced as prepared and has its buffers. */
  method PreparedWidget() returns (widget: Widget)
    ensures fresh(widget) && widget.Valid() && widget.configured && widget.Draws(0) && widget.deeds == [Saw(Prepared)]
  {
    hide LastLife, FramesSince, Proper, MayCommit, FrameSize;
    ScreenSize();
    widget := new Widget();
    widget.WidgetEvent(Configure(1280, 480));
    widget.WidgetEvent(ConfigureDone);
    widget.WidgetEvent(Lifecycle(Prepared));
    var ready := widget.EnsureSlots(true);
  }

  lemma ScreenSize()
    ensures FrameSize(1280, 480) == Some(2_457_600)
  {
  }

  /** A run in which it commits two frames. */
  method TwoFramesWhilePrepared() returns (widget: Widget)
    ensures fresh(widget) && widget.deeds == [Saw(Prepared), Committed(0), Committed(0)] && !Proper(widget.deeds)
  {
    widget := PreparedWidget();
    hide LastLife, FramesSince, Proper, MayCommit, FrameSize;
    var first := widget.PresentFrame(0, true, false);
    assert widget.deeds == [Saw(Prepared)] + [Committed(0)] && widget.Draws(0);
    var again := widget.PresentFrame(0, true, true);
    TwoIsTooMany();
  }

  lemma TwoIsTooMany()
    ensures !Proper([Saw(Prepared), Committed(0), Committed(0)])
  {
    var deeds := [Saw(Prepared), Committed(0), Committed(0)];
    if Proper(deeds) {
      OneFramePerPreparation(deeds, 0, 3);
    }
  }
}
