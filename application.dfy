/** The application: routes user events by receiver, fires key bindings,
    and translates raw window input into press / move / release calls on
    the window it concerns, keeping the pointer state between events. */
module Application {
  import opened Wrappers
  import opened Geometry
  import opened Messages
  import opened Actions
  import GifWindow

  // ---------------------------------------------------------------------
  // Routing of user events

  /** Every window receives `call` once. */
  function Broadcast(windows: map<WindowId, seq<ListenerCall>>, call: ListenerCall): (r: map<WindowId, seq<ListenerCall>>)
    ensures r.Keys == windows.Keys
    ensures forall id :: id in windows ==> r[id] == windows[id] + [call]
  {
    map id | id in windows :: windows[id] + [call]
  }

  /** `handle_user_event` on the state the application shares with its
      action context. */
  function Route(c: Ctx, data: UserEvent): (c': Ctx)
    requires CanSuspend(c)
    // broadcast: every registered window receives the event once
    ensures data.receiver == Window(AllWindow) ==>
              c' == c.(windows := Broadcast(c.windows, UserEventCall(data)))
    // one window: only the one found through both tables, if any
    ensures data.receiver.Window? && data.receiver.window != AllWindow ==>
              c' == match FindWindow(c.windowIndex, c.windows, data.receiver.window)
                    case Some(id) => c.(windows := c.windows[id := c.windows[id] + [UserEventCall(data)]])
                    case None => c
    // the action subsystem runs the action of a DoAction payload
    ensures data.receiver == Target.Action && data.event.DoAction? ==>
              c' == Perform(c, Effects(data.event.action))
    // everything else is dropped
    ensures data.receiver == Application || (data.receiver == Target.Action && data.event.InvokeRegionSelector?) ==>
              c' == c
    ensures c'.windowIndex == c.windowIndex && c'.windows.Keys == c.windows.Keys
    ensures CanSuspend(c')
  {
    match data.receiver
    case Window(AllWindow) => c.(windows := Broadcast(c.windows, UserEventCall(data)))
    case Window(w) =>
      (match FindWindow(c.windowIndex, c.windows, w)
       case Some(id) => c.(windows := c.windows[id := c.windows[id] + [UserEventCall(data)]])
       case None => c)
    case Action =>
      (match data.event
       case DoAction(a) => Perform(c, Effects(a))
       case InvokeRegionSelector(_) => c)
    case Application => c
  }

  /** A release on the GIF selector window, routed by the application,
      starts one 15 fps, 30 s GIF capture of the bound, clears the stop
      flag and does not suspend. */
  lemma ReleaseStartsGifCapture(c: Ctx, b: Bound2)
    requires CanSuspend(c)
    ensures Route(c, GifWindow.CaptureRequest(b)).captures == c.captures + [GifSession(b, GifFps, GifDurationSeconds)]
    ensures !Route(c, GifWindow.CaptureRequest(b)).stopSignal
    ensures Route(c, GifWindow.CaptureRequest(b)).(captures := c.captures, calls := c.calls, stopSignal := c.stopSignal) == c
  {
    GifCaptureDoesNotSuspend(c, b);
  }

  // ---------------------------------------------------------------------
  // Key bindings

  /** The bindings the application loads at start-up: image capture on
      Ctrl+Alt+1, GIF capture on Ctrl+Alt+2 and suspend on a bare Escape, in
      that order. */
  function ReloadKeybindingActions(): (r: seq<KeyBinding>)
    ensures |r| == 3
    ensures r[0].action == ImageCapture && r[0].mods == CtrlAlt && r[0].key == Key1
    ensures r[1].action == GifCapture && r[1].mods == CtrlAlt && r[1].key == Key2
    ensures r[2].action == Suspend && r[2].mods == NoMods && r[2].key == Escape
    // no two bindings share an action or a trigger
    ensures forall i, j :: 0 <= i < j < |r| ==> r[i].action != r[j].action && (r[i].mods != r[j].mods || r[i].key != r[j].key)
  {
    [ KeyBinding(ImageCapture, CtrlAlt, Key1),
      KeyBinding(GifCapture, CtrlAlt, Key2),
      KeyBinding(Suspend, NoMods, Escape) ]
  }

  /** The actions of the bindings that `(mods, key)` triggers, in list order. */
  function Triggered(bindings: seq<KeyBinding>, mods: Mods, key: Key): (r: seq<Action>)
    ensures |r| <= |bindings|
    ensures forall a :: a in r ==> exists b :: b in bindings && b.IsTriggered(mods, key) && b.action == a
  {
    if bindings == [] then []
    else
      var last := bindings[|bindings| - 1];
      Triggered(bindings[..|bindings| - 1], mods, key) + (if last.IsTriggered(mods, key) then [last.action] else [])
  }

  /** Scanning one more binding adds its action exactly when it fires. */
  lemma TriggeredStep(bindings: seq<KeyBinding>, i: nat, mods: Mods, key: Key)
    requires i < |bindings|
    ensures Triggered(bindings[..i + 1], mods, key)
            == Triggered(bindings[..i], mods, key) + (if bindings[i].IsTriggered(mods, key) then [bindings[i].action] else [])
  {
    assert bindings[..i + 1][..i] == bindings[..i];
  }

  /** The positions of the bindings that `(mods, key)` triggers: exactly
      those bindings, in list order, each paired with the action at the same
      place in `Triggered`. */
  function TriggeredPositions(bindings: seq<KeyBinding>, mods: Mods, key: Key): (idx: seq<nat>)
    ensures |idx| == |Triggered(bindings, mods, key)|
    ensures forall j :: 0 <= j < |idx| ==>
              idx[j] < |bindings| && bindings[idx[j]].IsTriggered(mods, key)
              && Triggered(bindings, mods, key)[j] == bindings[idx[j]].action
    ensures forall j1, j2 :: 0 <= j1 < j2 < |idx| ==> idx[j1] < idx[j2]
    ensures forall i :: 0 <= i < |bindings| && bindings[i].IsTriggered(mods, key) ==> i in idx
  {
    if bindings == [] then []
    else
      var n := |bindings| - 1;
      var front := bindings[..n];
      var idx' := TriggeredPositions(front, mods, key);
      assert forall i :: 0 <= i < n ==> front[i] == bindings[i];
      idx' + (if bindings[n].IsTriggered(mods, key) then [n] else [])
  }

  /** The calls a list of actions makes, one action after another. */
  function EffectsOf(actions: seq<Action>): seq<Call>
  {
    if actions == [] then [] else EffectsOf(actions[..|actions| - 1]) + Effects(actions[|actions| - 1])
  }

  /** Scanning one more binding adds the calls of its action exactly when it
      fires. */
  lemma {:induction false} TriggeredEffectsStep(bindings: seq<KeyBinding>, i: nat, mods: Mods, key: Key)
    requires i < |bindings|
    ensures EffectsOf(Triggered(bindings[..i + 1], mods, key))
            == EffectsOf(Triggered(bindings[..i], mods, key))
               + (if bindings[i].IsTriggered(mods, key) then Effects(bindings[i].action) else [])
  {
    TriggeredStep(bindings, i, mods, key);
    var before := Triggered(bindings[..i], mods, key);
    if bindings[i].IsTriggered(mods, key) {
      var after := before + [bindings[i].action];
      assert after[..|after| - 1] == before && after[|after| - 1] == bindings[i].action;
    } else {
      assert before + [] == before;
    }
  }

  /** With the start-up bindings at most one binding fires for any key:
      Ctrl+Alt+1 invokes an image capture, Ctrl+Alt+2 a GIF capture, and
      Escape with no modifiers suspends. */
  lemma {:induction false} DefaultBindingsFireAtMostOne(mods: Mods, key: Key)
    ensures |Triggered(ReloadKeybindingActions(), mods, key)| <= 1
    ensures Triggered(ReloadKeybindingActions(), mods, key) == [ImageCapture] <==> mods == CtrlAlt && key == Key1
    ensures Triggered(ReloadKeybindingActions(), mods, key) == [GifCapture] <==> mods == CtrlAlt && key == Key2
    ensures Triggered(ReloadKeybindingActions(), mods, key) == [Suspend] <==> mods == NoMods && key == Escape
  {
    var bs := ReloadKeybindingActions();
    assert bs[..2][..1][..0] == [];
    assert Triggered(bs[..1], mods, key) == (if mods == CtrlAlt && key == Key1 then [ImageCapture] else []);
    assert Triggered(bs[..2], mods, key) == Triggered(bs[..1], mods, key) + (if mods == CtrlAlt && key == Key2 then [GifCapture] else []);
    assert Triggered(bs, mods, key) == Triggered(bs[..2], mods, key) + (if mods == NoMods && key == Escape then [Suspend] else []);
    if mods == CtrlAlt && key == Key1 {
      assert Triggered(bs, mods, key) == [ImageCapture];
    } else if mods == CtrlAlt && key == Key2 {
      assert Triggered(bs, mods, key) == [GifCapture];
    } else if mods == NoMods && key == Escape {
      assert Triggered(bs, mods, key) == [Suspend];
    } else {
      assert Triggered(bs, mods, key) == [];
    }
  }

  // ---------------------------------------------------------------------
  // Input translation

  /** The pointer and modifier state kept between window events. */
  datatype InputState = InputState(
    mods: Mods,
    mouseState: ElementState,
    mousePos: Point,
    mouseBegin: Point,
    mousePrevPos: Point,
    mouseBtn: MouseButton)

  const DefaultInput: InputState := InputState(NoMods, Released, (0, 0), (0, 0), (0, 0), Left)

  /** The window events the application reacts to. */
  datatype WindowEvent =
    | Resized
    | ModifiersChanged(newMods: Mods)
    | KeyboardInput(key: Option<Key>)
    | CursorMoved(position: Point)
    | MouseInput(state: ElementState, button: MouseButton)
    | Focused(focus: bool)
    | OtherWindowEvent

  /** A raw key event from the device, with the modifiers it carries. */
  datatype DeviceKey = DeviceKey(key: Option<Key>, modifiers: Mods)

  /** One window event: the new input state and the calls forwarded to the
      window. */
  function Translate(s: InputState, e: WindowEvent): (r: (InputState, seq<ListenerCall>))
    ensures |r.1| <= 1
    // the last cursor position is always tracked
    ensures e.CursorMoved? ==> r.0.mousePrevPos == e.position
    // a cursor move reaches the window only while the button is held
    ensures e.CursorMoved? ==> (r.1 != [] <==> s.mouseState == Pressed)
    // presses and releases are always forwarded, at the last cursor position
    ensures e.MouseInput? ==> r.1 == [if e.state == Pressed then MousePressCall(MouseData(e.button, s.mousePrevPos))
                                      else MouseReleaseCall(MouseData(e.button, s.mousePrevPos))]
    ensures e.MouseInput? ==> r.0.mouseState == e.state && r.0.mouseBegin == s.mousePrevPos && r.0.mouseBtn == e.button
    // only a modifier change touches the modifiers
    ensures r.0.mods == (if e.ModifiersChanged? then e.newMods else s.mods)
    // a held cursor move drags: both positions follow the cursor and the
    // window sees the move with the held button
    ensures e.CursorMoved? ==>
              r == (if s.mouseState == Pressed
                    then (s.(mousePrevPos := e.position, mousePos := e.position), [MouseMoveCall(MouseData(s.mouseBtn, e.position))])
                    else (s.(mousePrevPos := e.position), []))
    // a button change records the state, the button and where the drag began
    ensures e.MouseInput? ==> r.0 == s.(mouseState := e.state, mouseBegin := s.mousePrevPos, mouseBtn := e.button)
    // keys and focus pass through without touching the input state
    ensures e.KeyboardInput? ==> r == (s, if e.key.Some? then [KeyboardCall(e.key.value)] else [])
    ensures e.Focused? ==> r == (s, [FocusCall(e.focus)])
    // the remaining events forward nothing and change only the modifiers
    ensures e.ModifiersChanged? || e.Resized? || e.OtherWindowEvent? ==> r.1 == [] && r.0.(mods := s.mods) == s
  {
    match e
    case ModifiersChanged(m) => (s.(mods := m), [])
    case KeyboardInput(k) => (s, if k.Some? then [KeyboardCall(k.value)] else [])
    case CursorMoved(p) =>
      if s.mouseState == Pressed
      then (s.(mousePrevPos := p, mousePos := p), [MouseMoveCall(MouseData(s.mouseBtn, p))])
      else (s.(mousePrevPos := p), [])
    case MouseInput(state, button) =>
      var s' := s.(mouseState := state, mouseBegin := s.mousePrevPos, mouseBtn := button);
      var data := MouseData(button, s.mousePrevPos);
      (s', [if state == Pressed then MousePressCall(data) else MouseReleaseCall(data)])
    case Focused(f) => (s, [FocusCall(f)])
    case Resized => (s, [])
    case OtherWindowEvent => (s, [])
  }

  /** A sequence of window events for one window. */
  function TranslateAll(s: InputState, es: seq<WindowEvent>): (r: (InputState, seq<ListenerCall>))
    ensures |r.1| <= |es|
    decreases |es|
  {
    if es == [] then (s, [])
    else
      var first := Translate(s, es[0]);
      var rest := TranslateAll(first.0, es[1..]);
      (rest.0, first.1 + rest.1)
  }

  /** While the button is up, cursor moves reach no window; only the last
      position is remembered. */
  lemma {:induction false} MovesWhileReleasedForwardNothing(s: InputState, ps: seq<Point>)
    requires s.mouseState == Released
    ensures var r := TranslateAll(s, seq(|ps|, i requires 0 <= i < |ps| => CursorMoved(ps[i])));
            r.1 == [] && r.0 == (if ps == [] then s else s.(mousePrevPos := ps[|ps| - 1]))
    decreases |ps|
  {
    if ps != [] {
      var es := seq(|ps|, i requires 0 <= i < |ps| => CursorMoved(ps[i]));
      var rest := seq(|ps| - 1, i requires 0 <= i < |ps| - 1 => CursorMoved(ps[1..][i]));
      assert es[1..] == rest;
      MovesWhileReleasedForwardNothing(s.(mousePrevPos := ps[0]), ps[1..]);
    }
  }

  /** One step of `TranslateAll`. */
  lemma TranslateAllStep(s: InputState, es: seq<WindowEvent>)
    requires es != []
    ensures var first := Translate(s, es[0]);
            TranslateAll(s, es) == (TranslateAll(first.0, es[1..]).0, first.1 + TranslateAll(first.0, es[1..]).1)
  {
  }

  /** Starting with the button up, a drag (move to `p`, press, move to `q`,
      release) reaches the window as a press at `p`, a move to `q` and a
      release at `q`. */
  lemma DragForwardsPressMoveRelease(s: InputState, p: Point, q: Point, b: MouseButton)
    requires s.mouseState == Released
    ensures TranslateAll(s, [CursorMoved(p), MouseInput(Pressed, b), CursorMoved(q), MouseInput(Released, b)]).1
            == [MousePressCall(MouseData(b, p)), MouseMoveCall(MouseData(b, q)), MouseReleaseCall(MouseData(b, q))]
  {
    var es := [CursorMoved(p), MouseInput(Pressed, b), CursorMoved(q), MouseInput(Released, b)];
    var s1 := Translate(s, es[0]).0;
    var s2 := Translate(s1, es[1]).0;
    var s3 := Translate(s2, es[2]).0;
    var s4 := Translate(s3, es[3]).0;
    assert s1.mousePrevPos == p && s2.mouseState == Pressed && s2.mouseBtn == b && s3.mousePrevPos == q;
    assert es[1..][1..][1..][1..] == [];
    var press, move, release := MousePressCall(MouseData(b, p)), MouseMoveCall(MouseData(b, q)), MouseReleaseCall(MouseData(b, q));
    TranslateAllStep(s3, es[1..][1..][1..]);
    assert TranslateAll(s3, es[1..][1..][1..]).1 == [release];
    TranslateAllStep(s2, es[1..][1..]);
    assert TranslateAll(s2, es[1..][1..]).1 == [move] + [release];
    TranslateAllStep(s1, es[1..]);
    assert TranslateAll(s1, es[1..]).1 == [press] + [move, release];
    TranslateAllStep(s, es);
  }

  // ---------------------------------------------------------------------
  // The application object

  class App {
    const ctx: AppContext
    const bindings: seq<KeyBinding>
    var input: InputState

    /** The region selector window is registered (it is created at start-up
        and never removed). */
    predicate Valid()
      reads this, ctx
    {
      CanSuspend(ctx.Snapshot())
    }

    /** Start-up: the region selector window is registered under
        `mainWindow`, the default bindings are loaded, the input state is
        the default one. */
    constructor (mainWindow: WindowId)
      ensures Valid() && fresh(ctx)
      ensures ctx.Snapshot() == Ctx([], false, [], map[RegionSelectorCanvasWindow := mainWindow], map[mainWindow := []], [])
      ensures bindings == ReloadKeybindingActions() && input == DefaultInput
    {
      ctx := new AppContext(map[RegionSelectorCanvasWindow := mainWindow], map[mainWindow := []]);
      bindings := ReloadKeybindingActions();
      input := DefaultInput;
    }

    /** `handle_user_event`. */
    method HandleUserEvent(data: UserEvent)
      requires Valid()
      modifies ctx
      ensures Valid()
      ensures ctx.Snapshot() == Route(old(ctx.Snapshot()), data)
    {
      match data.receiver
      case Window(AllWindow) =>
        var call := UserEventCall(data);
        ghost var before := ctx.windows;
        var todo := ctx.windows.Keys;
        while todo != {}
          invariant todo <= before.Keys && ctx.windows.Keys == before.Keys
          invariant forall id :: id in before && id !in todo ==> ctx.windows[id] == before[id] + [call]
          invariant forall id :: id in todo ==> ctx.windows[id] == before[id]
          invariant ctx.Snapshot() == old(ctx.Snapshot()).(windows := ctx.windows)
          decreases todo
        {
          var id :| id in todo;
          ctx.windows := ctx.windows[id := ctx.windows[id] + [call]];
          todo := todo - {id};
        }
        assert ctx.windows == Broadcast(before, call);
      case Window(w) =>
        var found := FindWindow(ctx.windowIndex, ctx.windows, w);
        if found.Some? {
          var id := found.value;
          ctx.windows := ctx.windows[id := ctx.windows[id] + [UserEventCall(data)]];
        }
      case Action =>
        match data.event {
          case DoAction(a) => Execute(a, ctx);
          case InvokeRegionSelector(_) =>
        }
      case Application =>
    }

    /** `handle_device_keyboard_event`: every binding that the key and the
        event's modifiers trigger is executed, in list order. */
    method HandleDeviceKeyboardEvent(event: DeviceKey)
      requires Valid()
      modifies ctx
      ensures Valid()
      ensures ctx.Snapshot() == Perform(old(ctx.Snapshot()),
                if event.key.Some? then EffectsOf(Triggered(bindings, event.modifiers, event.key.value)) else [])
    {
      if event.key.Some? {
        var k := event.key.value;
        var mods := event.modifiers;
        for i := 0 to |bindings|
          invariant Valid()
          invariant ctx.Snapshot() == Perform(old(ctx.Snapshot()), EffectsOf(Triggered(bindings[..i], mods, k)))
        {
          ghost var done := EffectsOf(Triggered(bindings[..i], mods, k));
          TriggeredEffectsStep(bindings, i, mods, k);
          if bindings[i].IsTriggered(mods, k) {
            Execute(bindings[i].action, ctx);
            PerformAppend(old(ctx.Snapshot()), done, Effects(bindings[i].action));
          } else {
            assert done + [] == done;
          }
        }
        assert bindings[..|bindings|] == bindings;
      }
    }

    /** The window-event arm of the event loop: for a registered window,
        update the input state field by field and forward the resulting
        calls; an unknown window changes nothing. */
    method OnWindowEvent(id: WindowId, e: WindowEvent)
      requires Valid()
      modifies this, ctx
      ensures Valid()
      ensures id !in old(ctx.windows) ==> input == old(input) && ctx.Snapshot() == old(ctx.Snapshot())
      ensures id in old(ctx.windows) ==>
                input == Translate(old(input), e).0 &&
                ctx.Snapshot() == old(ctx.Snapshot()).(windows := old(ctx.windows)[id := old(ctx.windows)[id] + Translate(old(input), e).1])
    {
      if id in ctx.windows {
        var s := input;
        assert ctx.windows[id] + [] == ctx.windows[id];
        assert ctx.windows[id := ctx.windows[id] + []] == ctx.windows;
        match e {
        case ModifiersChanged(m) =>
          s := s.(mods := m);
        case KeyboardInput(k) =>
          if k.Some? {
            Forward(id, KeyboardCall(k.value));
          }
        case CursorMoved(p) =>
          s := s.(mousePrevPos := p);
          if s.mouseState == Pressed {
            s := s.(mousePos := p);
            Forward(id, MouseMoveCall(MouseData(s.mouseBtn, p)));
          }
        case MouseInput(state, button) =>
          s := s.(mouseState := state);
          var data := MouseData(button, s.mousePrevPos);
          match state {
            case Pressed =>
              s := s.(mouseBegin := s.mousePrevPos, mouseBtn := button);
              Forward(id, MousePressCall(data));
            case Released =>
              s := s.(mouseBegin := s.mousePrevPos, mouseBtn := button);
              Forward(id, MouseReleaseCall(data));
          }
        case Focused(f) =>
          Forward(id, FocusCall(f));
        case Resized =>
        case OtherWindowEvent =>
        }
        input := s;
      }
    }

    /** The redraw arm of the event loop. */
    method OnRedrawRequested(id: WindowId)
      requires Valid()
      modifies ctx
      ensures Valid()
      ensures ctx.Snapshot() == old(ctx.Snapshot()).(windows :=
                if id in old(ctx.windows) then old(ctx.windows)[id := old(ctx.windows)[id] + [RedrawCall]] else old(ctx.windows))
    {
      if id in ctx.windows {
        Forward(id, RedrawCall);
      }
    }

    /** Hand one call to a registered window. */
    method Forward(id: WindowId, call: ListenerCall)
      requires Valid() && id in ctx.windows
      modifies ctx
      ensures Valid()
      ensures ctx.Snapshot() == old(ctx.Snapshot()).(windows := old(ctx.windows)[id := old(ctx.windows)[id] + [call]])
    {
      ctx.windows := ctx.windows[id := ctx.windows[id] + [call]];
    }
  }
}
