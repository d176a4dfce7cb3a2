/** Values that travel between the overlay windows, the application and
    the action subsystem: logical window identities, routing targets, the
    action commands, the user-event envelope, and the input data the
    window system delivers (pointer positions as integer pairs). */
module Messages {
  import opened Geometry

  /** Logical identities of the application's windows. */
  datatype AppWindow = AllWindow | RegionSelectorCanvasWindow | GifSelectorCanvasWindow | ConfigWindow

  /** Who sends or receives a user event. */
  datatype Target = Application | Action | Window(window: AppWindow)

  /** The action command set. */
  datatype Action =
    | ImageCapture
    | DoImageCapture(rect: Bound2)
    | DoGifCapture(rect: Bound2)
    | GifCapture
    | StopGifCaptureAndSave
    | StopGifCaptureAndDrop
    | Suspend

  /** Payload of a user event. */
  datatype Event = InvokeRegionSelector(invoked: Action) | DoAction(action: Action)

  /** The envelope carried by the event loop. */
  datatype UserEvent = UserEvent(sender: Target, receiver: Target, event: Event)

  /** Keyboard modifier state (a set of flags). */
  datatype Mods = Mods(shift: bool, ctrl: bool, alt: bool, logo: bool)

  const NoMods: Mods := Mods(false, false, false, false)
  const CtrlAlt: Mods := Mods(false, true, true, false)

  /** Virtual key codes; the ones the program names, and the rest by number. */
  datatype Key = Key1 | Key2 | Key3 | Key4 | Key5 | Key6 | Escape | LControl | LAlt | OtherKey(code: nat)

  datatype MouseButton = Left | Right | Middle | OtherButton(code: nat)

  datatype ElementState = Pressed | Released

  datatype MouseData = MouseData(button: MouseButton, position: Point)

  /** Identity the window system gives a window. */
  type WindowId = nat

  /** A call made on a window through its event-listener interface. The
      windows the application holds are opaque listeners; what they are
      asked to do is recorded in this form. */
  datatype ListenerCall =
    | UserEventCall(data: UserEvent)
    | MousePressCall(mouse: MouseData)
    | MouseReleaseCall(mouse: MouseData)
    | MouseMoveCall(mouse: MouseData)
    | KeyboardCall(key: Key)
    | FocusCall(focus: bool)
    | RedrawCall
    | SetVisibleCall(visible: bool)
}
