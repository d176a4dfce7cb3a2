/** Action dispatch: each command runs a fixed sequence of calls on the
    action context, and the application's context turns those calls into
    events, window visibility changes, capture requests and the capture
    stop flag. The capture device's own work (grabbing pixels, encoding a
    GIF, writing files) is represented only by the request it receives. */
module Actions {
  import opened Wrappers
  import opened Geometry
  import opened Messages

  /** One call on the action-context capability set. */
  datatype Call =
    | InvokeImage                                        // invoke_image_capture
    | InvokeGif                                          // invoke_gif_capture
    | CaptureImage(rect: Bound2)                         // do_image_capture
    | CaptureGif(rect: Bound2, fps: nat, duration: real) // do_gif_capture
    | SuspendCapture                                     // suspend
    | StopAndSave                                        // stop_gif_capture_and_save
    | StopAndDrop                                        // stop_gif_capture_and_drop

  /** Frame rate and length (seconds) every GIF capture is started with. */
  const GifFps: nat := 15
  const GifDurationSeconds: real := 30.0

  /** `Action::execute`: the calls each command makes, in order. */
  function Effects(a: Action): (calls: seq<Call>)
    ensures 1 <= |calls| <= 2
    // the explicit stop operations are never used
    ensures StopAndSave !in calls && StopAndDrop !in calls
    // every command ends by suspending except the two invocations and the GIF start
    ensures SuspendCapture in calls <==> !(a.ImageCapture? || a.GifCapture? || a.DoGifCapture?)
    ensures SuspendCapture in calls ==> calls[|calls| - 1] == SuspendCapture && SuspendCapture !in calls[..|calls| - 1]
    // captures happen only for the Do commands, on their own rectangle
    ensures forall c :: c in calls && c.CaptureImage? ==> a == DoImageCapture(c.rect)
    ensures forall c :: c in calls && c.CaptureGif? ==>
              a == DoGifCapture(c.rect) && c.fps == GifFps && c.duration == GifDurationSeconds
    ensures a.DoImageCapture? ==> calls[0] == CaptureImage(a.rect)
    ensures a.DoGifCapture? ==> calls[0] == CaptureGif(a.rect, GifFps, GifDurationSeconds)
    // the invocations only invoke
    ensures a.ImageCapture? <==> InvokeImage in calls
    ensures a.GifCapture? <==> InvokeGif in calls
  {
    match a
    case ImageCapture => [InvokeImage]
    case GifCapture => [InvokeGif]
    case Suspend => [SuspendCapture]
    case DoGifCapture(rect) => [CaptureGif(rect, GifFps, GifDurationSeconds)]
    case DoImageCapture(rect) => [CaptureImage(rect), SuspendCapture]
    case StopGifCaptureAndSave => [SuspendCapture]
    case StopGifCaptureAndDrop => [SuspendCapture]
  }

  /** A request handed to the capture device. */
  datatype Capture = ImageGrab(rect: Bound2) | GifSession(rect: Bound2, fps: nat, duration: real)

  /** Everything the action context can reach: the events sent through the
      event-loop proxy, the capture device's stop flag and the requests it
      received, the two window tables, and the calls made so far. */
  datatype Ctx = Ctx(
    sent: seq<UserEvent>,
    stopSignal: bool,
    captures: seq<Capture>,
    windowIndex: map<AppWindow, WindowId>,
    windows: map<WindowId, seq<ListenerCall>>,
    calls: seq<Call>)

  /** `find_window`: logical identity to window id, then id to window; a
      miss in either table is `None`. */
  function FindWindow(windowIndex: map<AppWindow, WindowId>, windows: map<WindowId, seq<ListenerCall>>, w: AppWindow): (r: Option<WindowId>)
    ensures r.Some? <==> w in windowIndex && windowIndex[w] in windows
    ensures r.Some? ==> r.value == windowIndex[w] && r.value in windows
  {
    if w in windowIndex && windowIndex[w] in windows then Some(windowIndex[w]) else None
  }

  /** `suspend` unwraps the lookup of the region selector window. */
  predicate CanSuspend(c: Ctx)
  {
    FindWindow(c.windowIndex, c.windows, RegionSelectorCanvasWindow).Some?
  }

  /** The event an invocation sends to the region selector window. */
  function Invocation(kind: Action): UserEvent
  {
    UserEvent(Target.Action, Window(RegionSelectorCanvasWindow), InvokeRegionSelector(kind))
  }

  /** What one capability call of the application's context does. */
  function ApplyCall(c: Ctx, call: Call): (c': Ctx)
    requires call.SuspendCapture? ==> CanSuspend(c)
    ensures c'.calls == c.calls + [call]
    ensures c'.windowIndex == c.windowIndex && c'.windows.Keys == c.windows.Keys
    ensures CanSuspend(c') == CanSuspend(c)
    // a suspend raises the stop flag, a new GIF session lowers it, nothing else touches it
    ensures c'.stopSignal == (if call.SuspendCapture? then true else if call.CaptureGif? then false else c.stopSignal)
  {
    var c1 := c.(calls := c.calls + [call]);
    match call
    case InvokeImage => c1.(sent := c.sent + [Invocation(ImageCapture)])
    case InvokeGif => c1.(sent := c.sent + [Invocation(GifCapture)])
    case CaptureImage(rect) => c1.(captures := c.captures + [ImageGrab(rect)])
    // starting a session clears the stop flag before anything is spawned
    case CaptureGif(rect, fps, duration) => c1.(captures := c.captures + [GifSession(rect, fps, duration)], stopSignal := false)
    case SuspendCapture =>
      var id := c.windowIndex[RegionSelectorCanvasWindow];
      c1.(windows := c.windows[id := c.windows[id] + [SetVisibleCall(false)]], stopSignal := true)
    case StopAndSave => c1
    case StopAndDrop => c1
  }

  /** A sequence of calls, one after the other. */
  function Perform(c: Ctx, calls: seq<Call>): (c': Ctx)
    requires SuspendCapture in calls ==> CanSuspend(c)
    ensures c'.calls == c.calls + calls
    ensures c'.windowIndex == c.windowIndex && c'.windows.Keys == c.windows.Keys
    ensures CanSuspend(c') == CanSuspend(c)
    decreases |calls|
  {
    if calls == [] then c else Perform(ApplyCall(c, calls[0]), calls[1..])
  }

  lemma {:induction false} PerformAppend(c: Ctx, xs: seq<Call>, ys: seq<Call>)
    requires SuspendCapture in xs + ys ==> CanSuspend(c)
    ensures SuspendCapture in ys ==> CanSuspend(Perform(c, xs))
    ensures Perform(c, xs + ys) == Perform(Perform(c, xs), ys)
    decreases |xs|
  {
    if xs == [] {
      assert xs + ys == ys;
    } else {
      assert (xs + ys)[1..] == xs[1..] + ys;
      PerformAppend(ApplyCall(c, xs[0]), xs[1..], ys);
    }
  }

  /** The image and GIF invocations each send exactly one event, from the
      action subsystem to the region selector window, naming the kind of
      capture; nothing else changes. */
  lemma InvocationSendsOneEvent(c: Ctx, a: Action)
    requires a.ImageCapture? || a.GifCapture?
    ensures Perform(c, Effects(a)).sent == c.sent + [UserEvent(Target.Action, Window(RegionSelectorCanvasWindow), InvokeRegionSelector(a))]
    ensures Perform(c, Effects(a)).(sent := c.sent, calls := c.calls) == c
  {
  }

  /** Starting a GIF capture requests one session of 15 fps for 30 seconds
      on the given bound, clears the stop flag and does not suspend: the
      windows and the sent events are untouched. */
  lemma GifCaptureDoesNotSuspend(c: Ctx, rect: Bound2)
    ensures Perform(c, Effects(DoGifCapture(rect))).captures == c.captures + [GifSession(rect, 15, 30.0)]
    ensures !Perform(c, Effects(DoGifCapture(rect))).stopSignal
    ensures Perform(c, Effects(DoGifCapture(rect))).(captures := c.captures, calls := c.calls, stopSignal := c.stopSignal) == c
  {
  }

  /** A suspend raises the stop flag and a later GIF capture lowers it
      again, so the flag says whether the latest session was stopped. */
  lemma {:induction false} SuspendThenGifCapture(c: Ctx, rect: Bound2)
    requires CanSuspend(c)
    ensures Perform(c, Effects(Suspend)).stopSignal
    ensures CanSuspend(Perform(c, Effects(Suspend)))
    ensures !Perform(Perform(c, Effects(Suspend)), Effects(DoGifCapture(rect))).stopSignal
    ensures Perform(c, Effects(Suspend) + Effects(DoGifCapture(rect)))
            == Perform(Perform(c, Effects(Suspend)), Effects(DoGifCapture(rect)))
  {
    PerformAppend(c, Effects(Suspend), Effects(DoGifCapture(rect)));
    GifCaptureDoesNotSuspend(Perform(c, Effects(Suspend)), rect);
  }

  /** Capturing an image grabs the bound and then suspends: the region
      selector window is told to hide and the stop flag is set. */
  lemma {:induction false} ImageCaptureThenSuspend(c: Ctx, rect: Bound2)
    requires CanSuspend(c)
    ensures var c' := Perform(c, Effects(DoImageCapture(rect)));
            var id := c.windowIndex[RegionSelectorCanvasWindow];
            && c'.captures == c.captures + [ImageGrab(rect)]
            && c'.stopSignal
            && c'.windows == c.windows[id := c.windows[id] + [SetVisibleCall(false)]]
            && c'.sent == c.sent
            && c'.calls == c.calls + [CaptureImage(rect), SuspendCapture]
  {
    var c1 := ApplyCall(c, CaptureImage(rect));
    assert Effects(DoImageCapture(rect))[1..] == [SuspendCapture];
    assert Perform(c, Effects(DoImageCapture(rect))) == Perform(c1, [SuspendCapture]);
  }

  /** Stop-and-save, stop-and-drop and suspend have identical effects. */
  lemma StopVariantsAgree(c: Ctx)
    requires CanSuspend(c)
    ensures Perform(c, Effects(StopGifCaptureAndSave)) == Perform(c, Effects(StopGifCaptureAndDrop))
    ensures Perform(c, Effects(StopGifCaptureAndDrop)) == Perform(c, Effects(Suspend))
    ensures Perform(c, Effects(Suspend)).stopSignal
  {
  }

  /** The action context of the application, over the application's state. */
  class AppContext {
    var sent: seq<UserEvent>
    var stopSignal: bool
    var captures: seq<Capture>
    var windowIndex: map<AppWindow, WindowId>
    var windows: map<WindowId, seq<ListenerCall>>
    var calls: seq<Call>

    constructor (windowIndex: map<AppWindow, WindowId>, windows: map<WindowId, seq<ListenerCall>>)
      ensures Snapshot() == Ctx([], false, [], windowIndex, windows, [])
    {
      sent, stopSignal, captures := [], false, [];
      this.windowIndex, this.windows := windowIndex, windows;
      calls := [];
    }

    function Snapshot(): Ctx
      reads this
    {
      Ctx(sent, stopSignal, captures, windowIndex, windows, calls)
    }

    /** Ask the region selector window to open for an image capture. */
    method InvokeImageCapture()
      modifies this
      ensures sent == old(sent) + [UserEvent(Target.Action, Window(RegionSelectorCanvasWindow), InvokeRegionSelector(ImageCapture))]
      ensures calls == old(calls) + [InvokeImage]
      ensures stopSignal == old(stopSignal) && captures == old(captures)
      ensures windowIndex == old(windowIndex) && windows == old(windows)
    {
      sent := sent + [UserEvent(Target.Action, Window(RegionSelectorCanvasWindow), InvokeRegionSelector(ImageCapture))];
      calls := calls + [InvokeImage];
    }

    /** Ask the region selector window to open for a GIF capture. */
    method InvokeGifCapture()
      modifies this
      ensures sent == old(sent) + [UserEvent(Target.Action, Window(RegionSelectorCanvasWindow), InvokeRegionSelector(GifCapture))]
      ensures calls == old(calls) + [InvokeGif]
      ensures stopSignal == old(stopSignal) && captures == old(captures)
      ensures windowIndex == old(windowIndex) && windows == old(windows)
    {
      sent := sent + [UserEvent(Target.Action, Window(RegionSelectorCanvasWindow), InvokeRegionSelector(GifCapture))];
      calls := calls + [InvokeGif];
    }

    /** Hide the region selector window and raise the capture stop flag;
        the window must be registered. */
    method Suspend()
      requires CanSuspend(Snapshot())
      modifies this
      ensures windowIndex == old(windowIndex)
      ensures var id := windowIndex[RegionSelectorCanvasWindow];
              id in old(windows) && windows == old(windows)[id := old(windows)[id] + [SetVisibleCall(false)]]
      ensures stopSignal
      ensures calls == old(calls) + [SuspendCapture]
      ensures sent == old(sent) && captures == old(captures)
    {
      var target := FindWindow(windowIndex, windows, RegionSelectorCanvasWindow);
      var id := target.value;
      windows := windows[id := windows[id] + [SetVisibleCall(false)]];
      stopSignal := true;
      calls := calls + [SuspendCapture];
    }

    /** Grab the bound as a still image (saving it is left to the device). */
    method DoImageCapture(rect: Bound2)
      modifies this
      ensures captures == old(captures) + [ImageGrab(rect)]
      ensures calls == old(calls) + [CaptureImage(rect)]
      ensures sent == old(sent) && stopSignal == old(stopSignal)
      ensures windowIndex == old(windowIndex) && windows == old(windows)
    {
      captures := captures + [ImageGrab(rect)];
      calls := calls + [CaptureImage(rect)];
    }

    /** Start a GIF recording of the bound; the stop flag is cleared
        before the session starts. */
    method DoGifCapture(rect: Bound2, fps: nat, duration: real)
      modifies this
      ensures captures == old(captures) + [GifSession(rect, fps, duration)]
      ensures calls == old(calls) + [CaptureGif(rect, fps, duration)]
      ensures !stopSignal
      ensures sent == old(sent)
      ensures windowIndex == old(windowIndex) && windows == old(windows)
    {
      stopSignal := false;
      captures := captures + [GifSession(rect, fps, duration)];
      calls := calls + [CaptureGif(rect, fps, duration)];
    }

    /** The application's context does nothing for the explicit stops. */
    method StopGifCaptureAndSave()
      modifies this
      ensures Snapshot() == old(Snapshot()).(calls := old(calls) + [StopAndSave])
    {
      calls := calls + [StopAndSave];
    }

    method StopGifCaptureAndDrop()
      modifies this
      ensures Snapshot() == old(Snapshot()).(calls := old(calls) + [StopAndDrop])
    {
      calls := calls + [StopAndDrop];
    }
  }

  /** `Action::execute` on the application's context. */
  method Execute(a: Action, ctx: AppContext)
    requires SuspendCapture in Effects(a) ==> CanSuspend(ctx.Snapshot())
    modifies ctx
    ensures ctx.Snapshot() == Perform(old(ctx.Snapshot()), Effects(a))
  {
    match a
    case ImageCapture => ctx.InvokeImageCapture();
    case GifCapture => ctx.InvokeGifCapture();
    case Suspend => ctx.Suspend();
    case DoGifCapture(rect) =>
      ctx.DoGifCapture(rect, GifFps, GifDurationSeconds);
    case DoImageCapture(rect) =>
      ghost var before := ctx.Snapshot();
      ctx.DoImageCapture(rect);
      assert ctx.Snapshot() == ApplyCall(before, CaptureImage(rect));
      ghost var mid := ctx.Snapshot();
      ctx.Suspend();
      assert Effects(a)[1..] == [SuspendCapture];
      assert ctx.Snapshot() == ApplyCall(mid, SuspendCapture) == Perform(mid, [SuspendCapture]);
    case StopGifCaptureAndSave => ctx.Suspend();
    case StopGifCaptureAndDrop => ctx.Suspend();
  }

  /** A keyboard shortcut bound to an action. */
  datatype KeyBinding = KeyBinding(action: Action, mods: Mods, key: Key)
  {
    /** `is_triggered`: both the modifiers and the key match. */
    predicate IsTriggered(mods': Mods, key': Key)
    {
      mods == mods' && key == key'
    }
  }
}
