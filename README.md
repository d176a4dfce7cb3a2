# Polaroid capture overlay, modelled in Dafny

Polaroid is a desktop screen-capture tool. A transparent full-screen
overlay lets the user drag out a rectangle. The application then grabs
that rectangle as a still image or records it as a GIF. This project
models the sequential logic around that overlay and proves properties of
it:

- **Region geometry** (`geometry.dfy`, module `Geometry`).
  - `Bound2` is a min/max rectangle over `i32` corners.
  - Its width and height are `i32` differences cast to `u32`. They wrap
    modulo 2^32, so the default bound (max = min - 1) is 4294967295 wide
    and is *not* empty.
- **Selector and canvas** (`canvas.dfy`, module `Canvas`).
  - The region selector holds an anchor, a bound and a visibility flag.
  - A canvas clears and then draws each of its objects in insertion order.
  - Drawing goes to a `Graphics` recorder, which logs the calls it gets.
- **Messages** (`messages.dfy`, module `Messages`). The window, target,
  action, event and input datatypes shared by the other modules.
- **Actions** (`action.dfy`, module `Actions`).
  - `Action::execute` maps each command to a fixed sequence of calls on
    the action context.
  - The application's context is a class. It holds the events sent
    through the event-loop proxy, the capture stop flag, the capture
    requests, the two window tables and a call trace.
  - The specification function `Perform` states the effect of a whole
    call sequence.
- **GIF selector window** (`gif_window.dfy`, module `GifWindow`).
  - Press anchors the selector, move stretches it, and focus loss hides
    it.
  - Release sends one GIF capture request exactly when the bound is not
    empty.
- **Application** (`application.dfy`, module `Application`).
  - It routes user events by receiver: to every window, to one window
    found through two tables, or to the action subsystem.
  - It fires every key binding the key and modifiers match, in list order.
  - It translates raw window events into pointer calls through an input
    state that it updates field by field.
- **Keyboard shortcuts** (`shortcut.dfy`, module `Shortcut`).
  - A shortcut string such as `"Ctrl+Alt+Key1"` is split on `+`. Its
    tokens become a chain of transitions from `Empty`, through one state
    per prefix, to `Accept`. Only the last transition carries the callback.
  - A trigger walks the table one key at a time and resets to `Empty` on
    `Accept`.
  - Later shortcuts overwrite earlier transitions on the same state and
    key. So a shortcut whose tokens are a proper prefix of one added after
    it no longer fires: `PrefixShortcutShadowed` shows its keys end in the
    state named by its tokens, with nothing fired.
- **Pixel buffers** (`pixels.dfy`, module `Pixels`).
  - The size of the 32-bit DIB buffer.
  - The in-place swap of bytes 0 and 2 of every 4-byte chunk.
  - The bottom-up to top-down row flip.
  - The two capture paths yield the same RGBA image: swap then read in
    order, or read in swapped order.
- **Context tracker** (`context_tracker.dfy`, module `ContextTracking`).
  - A table of rendering contexts kept sorted by the ids a counter hands
    out, plus the id of the current one.
  - Its invariant: exactly the current entry is possibly current.
  - Making a context current or not current is a call into the windowing
    library. Its success or failure is an input to the model.
  - `get_current` and `remove` abort on an id that is not in the table,
    before changing anything. For a tracked id, `get_current` aborts only
    when making the context current and then making the old one not
    current both fail. The two other aborts in the code cannot be reached
    for a tracked id.

Stateful code is modelled as classes whose methods state their new state,
either field by field or as a specification function of the old state
(`Snapshot() == Spec(old(Snapshot()), …)`). Lemmas about those functions
carry the properties.

Some definitions have no contract of their own. They serve as reference
definitions for the members in the table below:
- `Shortcut.InitialTable`: the initial transition table of `build`.
- `Shortcut.Flatten`: the prefix state names that `build` concatenates.
- `Shortcut.InsertChain` and `Shortcut.TableOf`: the two loops of `build`.
- `Application.EffectsOf`: the calls of a list of actions.
- `GifWindow.CaptureRequest`: the event a GIF selector release sends.
- `ContextTracking.EmptyTracker`: the tracker's derived default.

`wrappers.dfy` holds the `Option` and `Result` datatypes.

## Model

| member | source | states |
|---|---|---|
| Geometry.WrapI32 | src/app/canvas.rs:23 | the wrapped value is congruent to the input modulo 2^32 and is the input itself when it fits in `i32` |
| Geometry.AsU32 | src/app/canvas.rs:23 | an `i32` reinterpreted as `u32` is congruent modulo 2^32 and unchanged when non-negative |
| Geometry.DiffAsU32 | src/app/canvas.rs:27 | the `u32` of an `i32` difference is the difference modulo 2^32, and the exact difference when it is not negative |
| Geometry.New | src/app/canvas.rs:13-18 | the bound is normalised; each min is the smaller corner coordinate and each max the larger |
| Geometry.Default | src/app/canvas.rs:39-46 | the default bound is not normalised (max lies below min) |
| Geometry.Width | src/app/canvas.rs:26-28 | width is `max.x - min.x` modulo 2^32 |
| Geometry.Height | src/app/canvas.rs:30-32 | height is `max.y - min.y` modulo 2^32 |
| Geometry.Rect | src/app/canvas.rs:20-24 | the rectangle is (min.x, min.y, width, height), with exact extents when the bound is normalised |
| Geometry.Empty | src/app/canvas.rs:34-36 | a bound is empty iff its wrapped width or wrapped height is 0 |
| Geometry.NewSymmetric | src/app/canvas.rs:13-18 | the corner order does not matter |
| Geometry.NewSinglePoint | src/app/canvas.rs:13-18 | a bound from one point is that point, zero-sized and empty |
| Geometry.NormalisedExtent | src/app/canvas.rs:20-32 | for a normalised bound, width, height and `rect` are the exact differences |
| Geometry.NewEmptyIff | src/app/canvas.rs:13-36 | a bound from two corners is empty iff the corners share an x or a y coordinate |
| Geometry.DefaultNotEmpty | src/app/canvas.rs:26-46 | the default bound is 4294967295 wide and high, so it is not empty |
| Canvas.Graphics.Clear | src/app/graphics.rs:7 | appends one clear call to the recorded calls |
| Canvas.Graphics.DrawRect | src/app/graphics.rs:3 | appends one rectangle call with the given arguments |
| Canvas.RectCall | src/app/canvas.rs:84-85 | the draw call for a bound is a rectangle at its min corner with its wrapped width and height |
| Canvas.RegionSelector.constructor | src/app/canvas.rs:59-65 | a new selector has the default bound, is hidden and is anchored at (0, 0) |
| Canvas.RegionSelector.SetFirst | src/app/canvas.rs:67-70 | the anchor is the point, the bound is the empty bound at it, and visibility is unchanged |
| Canvas.RegionSelector.SetSecond | src/app/canvas.rs:72-74 | the bound spans the anchor and the point; the anchor and visibility are unchanged |
| Canvas.RegionSelector.SetVisible | src/app/canvas.rs:76-78 | only the visibility changes |
| Canvas.RegionSelector.Draws | src/app/canvas.rs:82-87 | a visible selector draws exactly one rectangle, its bound's; a hidden one draws nothing |
| Canvas.RegionSelector.Update | src/app/canvas.rs:82-87 | the graphics receive exactly the selector's draws, appended |
| Canvas.Canvas.AddObject | src/app/canvas.rs:96-98 | the object goes at the end of the list |
| Canvas.FrameDraws | src/app/canvas.rs:100-105 | a redraw makes at most one call per object |
| Canvas.FrameDrawsVisible | src/app/canvas.rs:100-105 | a redraw draws the rectangle of every visible object and nothing else |
| Canvas.Canvas.OnDraw | src/app/canvas.rs:100-105 | one clear, then every object's draws in list order |
| Actions.Effects | src/app/action.rs:43-62 | each command makes one or two calls. Suspend comes last, exactly for the commands that are not invocations or GIF captures. Captures carry the command's bound, and a GIF capture uses 15 fps for 30 s. Invocations call the matching invoke. The explicit stop calls are never made |
| Actions.FindWindow | src/app/action.rs:83-90 | a window is found iff its logical name is indexed and its id is registered; the result is that id |
| Actions.ApplyCall | src/app/action.rs:112-185 | one call appends itself to the trace and keeps the window tables' domains. Only a suspend raises the stop flag, and only starting a GIF session clears it, as the capture device does (src/app/capture.rs:64) |
| Actions.Perform | src/app/action.rs:112-185 | a call sequence appends exactly itself to the trace and keeps the window tables |
| Actions.PerformAppend | src/app/action.rs:43-62 | performing two sequences one after the other is performing their concatenation |
| Actions.InvocationSendsOneEvent | src/app/action.rs:115-137 | an image or GIF invocation sends one event from the action subsystem to the region selector window, carrying the command, and changes nothing else |
| Actions.GifCaptureDoesNotSuspend | src/app/action.rs:48-50 | a GIF capture requests one 15 fps, 30 s session and leaves the stop flag lowered. No suspend, no event and no window change |
| Actions.SuspendThenGifCapture | src/app/action.rs:141-180 | a suspend raises the stop flag, and a GIF capture started after it lowers the flag again |
| Actions.ImageCaptureThenSuspend | src/app/action.rs:51-54 | an image capture grabs the bound, then hides the region selector window, in that order, and sends no event |
| Actions.StopVariantsAgree | src/app/action.rs:47-60 | stop-and-save, stop-and-drop and suspend have identical effects, and they raise the stop flag |
| Actions.AppContext.constructor | src/app/action.rs:75-80 | a fresh context over the given window tables, with nothing sent, captured or called |
| Actions.AppContext.InvokeImageCapture | src/app/action.rs:115-123 | one event to the region selector window carrying `ImageCapture`; nothing else changes |
| Actions.AppContext.InvokeGifCapture | src/app/action.rs:127-137 | one event to the region selector window carrying `GifCapture`; nothing else changes |
| Actions.AppContext.Suspend | src/app/action.rs:141-148 | the region selector window gets one hide call and the stop flag is raised; the window must be registered |
| Actions.AppContext.DoImageCapture | src/app/action.rs:152-159 | one still-image grab of the bound; no event, flag or window change |
| Actions.AppContext.DoGifCapture | src/app/action.rs:163-180 | one GIF session of the bound at the given rate and length. The stop flag is lowered for the new session. No event and no window change |
| Actions.AppContext.StopGifCaptureAndSave | src/app/action.rs:182 | does nothing but record the call |
| Actions.AppContext.StopGifCaptureAndDrop | src/app/action.rs:184 | does nothing but record the call |
| Actions.Execute | src/app/action.rs:43-62 | executing a command on the application's context has exactly the effect of performing its calls |
| GifWindow.ReleaseEvents | src/app/window_impl/gif_window.rs:38-45 | at most one event, and one iff the bound is not empty. It is sent by the GIF selector window to the action subsystem and asks for a GIF capture of that bound |
| GifWindow.ClickSendsNothing | src/app/window_impl/gif_window.rs:32-45 | a release at the press point requests nothing |
| GifWindow.DragRequestsCaptureIff | src/app/window_impl/gif_window.rs:38-45 | a drag from p to q requests a capture of the bound they span iff they differ in both coordinates |
| GifWindow.GifSelectorWindow.constructor | src/app/window_impl/gif_window.rs:22-28 | a fresh default selector; nothing sent or redrawn |
| GifWindow.GifSelectorWindow.OnMousePressEvent | src/app/window_impl/gif_window.rs:32-35 | the selector is visible and anchored at the press, with an empty bound |
| GifWindow.GifSelectorWindow.OnMouseReleaseEvent | src/app/window_impl/gif_window.rs:38-45 | sends the release events of the current bound and one redraw per event; the selector is not touched |
| GifWindow.GifSelectorWindow.OnMouseMoveEvent | src/app/window_impl/gif_window.rs:48-51 | the bound spans the anchor and the pointer, whether visible or not; one redraw; the anchor and visibility are unchanged |
| GifWindow.GifSelectorWindow.OnFocusEvent | src/app/window_impl/gif_window.rs:58-64 | losing focus hides the selector; gaining it changes nothing |
| GifWindow.GifSelectorWindow.HandleRedrawEvent | src/app/window_impl/gif_window.rs:66-68 | the graphics receive the selector's draws |
| GifWindow.GifSelectorWindow.OnUserEvent | src/app/window_impl/gif_window.rs:72-79 | an invocation shows the window; an action payload is ignored |
| GifWindow.GifSelectorWindow.SetVisible | src/app/window_impl/gif_window.rs:81-83 | only the window's visibility changes |
| GifWindow.PressMoveRelease | src/app/window_impl/gif_window.rs:32-51 | a press, move and release leave the selector visible over the dragged bound, and send one request iff the points differ in both coordinates |
| Application.Broadcast | src/app/application.rs:255-260 | every registered window receives the call exactly once, and no window is added |
| Application.Route | src/app/application.rs:250-280 | an `AllWindow` receiver is broadcast to every window. Another window receiver goes only to the window found through both tables, or to nobody. An action receiver with `DoAction` performs the action's calls. Everything else is dropped |
| Application.ReleaseStartsGifCapture | src/app/application.rs:266-275 | a selector's release request, once routed, starts one 15 fps, 30 s GIF session and lowers the stop flag. It does nothing else |
| Application.Triggered | src/app/application.rs:233-237 | every action returned belongs to a binding that the modifiers and key trigger |
| Application.TriggeredStep | src/app/application.rs:233-237 | scanning one more binding appends its action exactly when it fires |
| Application.TriggeredEffectsStep | src/app/application.rs:233-237 | scanning one more binding appends its action's calls exactly when it fires |
| Application.TriggeredPositions | src/app/application.rs:233-237 | the actions returned are those of exactly the triggered bindings, one each, in list order |
| Application.ReloadKeybindingActions | src/app/application.rs:104-122 | the three start-up bindings in list order: image capture on Ctrl+Alt+1, GIF capture on Ctrl+Alt+2, suspend on a bare Escape. No two share an action or a trigger |
| Application.DefaultBindingsFireAtMostOne | src/app/application.rs:104-122 | with the start-up bindings at most one fires: image capture iff Ctrl+Alt+1, GIF capture iff Ctrl+Alt+2, suspend iff Escape with no modifiers |
| Application.Translate | src/app/application.rs:294-348 | a cursor move always records the position. While the button is held it also moves the pointer and is forwarded with that button; otherwise it is not forwarded. A press or release is always forwarded, at the last position, and sets state, anchor and button and nothing else. A key is forwarded iff there is one, and focus always is; neither touches the input state. Only a modifier change touches the modifiers; it, a resize and any other event forward nothing |
| Application.TranslateAll | src/app/application.rs:294-348 | a sequence of events forwards at most one call per event |
| Application.TranslateAllStep | src/app/application.rs:294-348 | translating a sequence is translating its first event and then the rest |
| Application.MovesWhileReleasedForwardNothing | src/app/application.rs:309-319 | while the button is up, any number of moves forward nothing and only the last position is kept |
| Application.DragForwardsPressMoveRelease | src/app/application.rs:309-337 | a move, press, move and release with the button up at the start reach the window as a press, a move and a release, each at the right point |
| Application.App.constructor | src/app/application.rs:193-208 | the region selector window is registered, the start-up bindings are loaded, and the input state is the default |
| Application.App.HandleUserEvent | src/app/application.rs:250-280 | the shared state changes exactly as `Route` says |
| Application.App.HandleDeviceKeyboardEvent | src/app/application.rs:223-239 | every binding the key and modifiers trigger executes, in list order (which bindings those are is pinned down by `TriggeredPositions`); an event without a key does nothing |
| Application.App.OnWindowEvent | src/app/application.rs:289-349 | for a registered window, the input state and forwarded calls are those of `Translate`; an unknown window changes nothing |
| Application.App.OnRedrawRequested | src/app/application.rs:350-352 | a registered window gets one redraw call; an unknown one changes nothing |
| Application.App.Forward | src/app/application.rs:290-345 | the one window receives the call and nothing else changes |
| Shortcut.Fired | src/misc/shortcutkey.rs:61-63 | a callback fires at most once, exactly when there is one |
| Shortcut.Step | src/misc/shortcutkey.rs:57-70 | with a transition, the machine moves to its target (back to `Empty` when the target is `Accept`) and fires its callback. Without one, nothing changes and nothing fires. It never enters `Accept` |
| Shortcut.Run | src/misc/shortcutkey.rs:57-70 | a key sequence fires at most one callback per key and never ends in `Accept` when it does not start there |
| Shortcut.RunLast | src/misc/shortcutkey.rs:57-70 | running a sequence is running all but its last key and then stepping on that key |
| Shortcut.ShortcutTrigger.constructor | src/misc/shortcutkey.rs:50-55 | the trigger has the given table and initial state and has fired nothing |
| Shortcut.ShortcutTrigger.Trigger | src/misc/shortcutkey.rs:57-70 | the new state and the fired callbacks are those of one `Step` |
| Shortcut.ShortcutTrigger.Reset | src/misc/shortcutkey.rs:72-74 | the state is `Empty` and nothing fires |
| Shortcut.Split | src/misc/shortcutkey.rs:122 | splitting on `+` gives at least one token, and no token contains `+` |
| Shortcut.Join | src/misc/shortcutkey.rs:122 | joining n tokens adds at least n - 1 separators |
| Shortcut.JoinSplit | src/misc/shortcutkey.rs:122 | joining the tokens of a split gives back the string |
| Shortcut.SplitToken | src/misc/shortcutkey.rs:122 | a string without `+` splits to itself |
| Shortcut.SplitAppend | src/misc/shortcutkey.rs:122 | appending `+` and a token appends exactly that token to the split |
| Shortcut.SplitJoin | src/misc/shortcutkey.rs:122 | splitting joined separator-free tokens gives back the tokens |
| Shortcut.FlattenGrows | src/misc/shortcutkey.rs:127 | with non-empty tokens, a longer prefix has a strictly longer state name |
| Shortcut.GetLut | src/misc/shortcutkey.rs:77-89 | the program's key names are non-empty, contain no `+`, map to distinct keys and include Ctrl, Alt and Key1 |
| Shortcut.UnknownTokenFails | src/misc/shortcutkey.rs:121-126 | one unknown token in an earlier shortcut spoils every longer prefix of the list |
| Shortcut.AllKnownEach | src/misc/shortcutkey.rs:121-126 | when all shortcuts are known, each one is |
| Shortcut.Chain | src/misc/shortcutkey.rs:125-136 | a shortcut contributes one transition per token |
| Shortcut.ChainShape | src/misc/shortcutkey.rs:125-136 | the chain starts in `Empty`. Each link reads its token's key and leads, silently, to the state named by the tokens read so far. The last link accepts and fires the callback |
| Shortcut.Insert | src/misc/shortcutkey.rs:140-158 | the state gets an entry if it had none, and the key maps to the new transition |
| Shortcut.InsertKeepsOthers | src/misc/shortcutkey.rs:140-158 | inserting keeps every other transition and adds no other |
| Shortcut.InsertChainFinds | src/misc/shortcutkey.rs:138-160 | when the links start from distinct states, every link is in the table afterwards |
| Shortcut.TransPairs | src/misc/shortcutkey.rs:123-136 | the token loop fails iff a token has no key; otherwise it yields the chain's key, target and callback per token |
| Shortcut.InsertPairs | src/misc/shortcutkey.rs:138-160 | the insertion loop inserts exactly the shortcut's chain |
| Shortcut.AddShortcut | src/misc/shortcutkey.rs:122-160 | one shortcut fails iff a token has no key; otherwise its chain is inserted on top of the table |
| Shortcut.TableOfNext | src/misc/shortcutkey.rs:121-160 | the table of one more shortcut is the earlier table with the new chain on top |
| Shortcut.ShortcutTriggerBuilder.constructor | src/misc/shortcutkey.rs:100-106 | no shortcuts or callbacks, and the given key names |
| Shortcut.ShortcutTriggerBuilder.WithShortcut | src/misc/shortcutkey.rs:107-115 | the shortcut and its callback are appended |
| Shortcut.ShortcutTriggerBuilder.Count | src/misc/shortcutkey.rs:121 | the zipped length is the shorter of the two lists |
| Shortcut.ShortcutTriggerBuilder.Build | src/misc/shortcutkey.rs:116-166 | fails iff some token of some paired shortcut has no key; otherwise a fresh trigger in `Empty` over the table of all the chains, later ones on top |
| Shortcut.KeysOf | src/misc/shortcutkey.rs:126 | each token's key, in order |
| Shortcut.ChainFromsDistinct | src/misc/shortcutkey.rs:124-133 | with non-empty tokens, the links of a chain start from pairwise different states |
| Shortcut.ChainLinkStep | src/misc/shortcutkey.rs:125-136 | in a table holding the chain, token i's key moves silently to the next prefix state; the last one fires the callback and ends in `Empty` |
| Shortcut.RunSilent | src/misc/shortcutkey.rs:57-70 | keys that step silently along a path of states reach the matching point of the path with nothing fired |
| Shortcut.PrefixPath | src/misc/shortcutkey.rs:124-133 | one prefix state per token, in order |
| Shortcut.RunChainPrefix | src/misc/shortcutkey.rs:57-70 | reading a proper prefix of the shortcut's keys fires nothing and reaches that prefix's state |
| Shortcut.RunChainAll | src/misc/shortcutkey.rs:57-70 | reading all of the shortcut's keys fires its callback once and ends in `Empty` |
| Shortcut.RunChain | src/misc/shortcutkey.rs:57-70 | both of the above, by prefix length |
| Shortcut.ChainInTable | src/misc/shortcutkey.rs:138-160 | after inserting a chain with non-empty tokens, the table holds every link of it |
| Shortcut.InsertedChainSteps | src/misc/shortcutkey.rs:138-160 | after inserting a chain, the table steps along that shortcut |
| Shortcut.LastChainSteps | src/misc/shortcutkey.rs:116-166 | the built table steps along the shortcut added last |
| Shortcut.LastShortcutFires | src/misc/shortcutkey.rs:116-166 | whatever came before, the keys of the last shortcut fire its callback exactly once and return to `Empty` |
| Shortcut.CtrlAltKey1Fires | src/misc/shortcutkey.rs:177-188 | "Ctrl+Alt+Key1" splits into its three names; left Control, left Alt and 1 fire the callback once and return to `Empty` |
| Shortcut.CtrlAltKey1Keys | src/misc/shortcutkey.rs:79-81 | Ctrl, Alt and Key1 are left Control, left Alt and 1 |
| Shortcut.PrefixShortcutShadowed | src/misc/shortcutkey.rs:138-160 | a shortcut that is a proper prefix of the last one added no longer fires: its keys stop in the state named by its tokens, with nothing fired |
| Pixels.DibSize | src/platform/windows/capture_impl.rs:72-73 | the 32-bit stride formula gives exactly 4 * w * h bytes, a multiple of 4 |
| Pixels.SwapRB | src/platform/windows/capture_impl.rs:155-160 | the length is kept; bytes 0 and 2 of every chunk are exchanged, and bytes 1 and 3 are kept |
| Pixels.SwapRBInvolution | src/platform/windows/capture_impl.rs:155-160 | swapping twice restores the buffer |
| Pixels.SwapChannels | src/platform/windows/capture_impl.rs:155-160 | the in-place loop leaves the buffer as `SwapRB` of the old one |
| Pixels.DivModOf | src/platform/windows/capture_impl.rs:113-115 | quotient and remainder of `q * w + x` with `x < w` are q and x |
| Pixels.FlipIndex | src/platform/windows/capture_impl.rs:113-115 | the source index of an image pixel lies in the buffer, in row h - 1 - y and column x |
| Pixels.FlipIndexOnto | src/platform/windows/capture_impl.rs:113-115 | every buffer pixel is the source of an image pixel |
| Pixels.FlipIndexInjective | src/platform/windows/capture_impl.rs:113-115 | distinct image pixels read distinct buffer pixels |
| Pixels.PixelAt | src/platform/windows/capture_impl.rs:226-234 | the swapped reading of the one-shot path takes bytes 2, 1, 0, 3; the in-order reading of `capture_image` takes bytes 0, 1, 2, 3 |
| Pixels.ReadImage | src/platform/windows/capture_impl.rs:109-122 | an h by w image whose pixel (x, y) is read from the flipped index |
| Pixels.PixelSwapAgrees | src/platform/windows/capture_impl.rs:226-234 | per pixel, reading the swapped buffer in order equals reading the raw buffer in swapped order |
| Pixels.CapturePathsAgree | src/platform/windows/capture_impl.rs:107-234 | the two capture paths give the same image for the same buffer |
| Pixels.CaptureImage | src/platform/windows/capture_impl.rs:107-162 | the buffer ends swapped, and the image is the raw buffer read in swapped order |
| Pixels.CaptureOnce | src/platform/windows/capture_impl.rs:209-234 | the one-shot image equals swapping the buffer and reading it in order |
| ContextTracking.MapSurface | src/support/mod.rs:246-268 | succeeds iff the conversion does, and keeps the headless or windowed variant with the same handle either way |
| ContextTracking.MapPossibly | src/support/mod.rs:277-293 | the identity on not-current contexts; a possibly-current one becomes not current on success and comes back unchanged on failure |
| ContextTracking.MapNot | src/support/mod.rs:295-311 | the identity on possibly-current contexts; a not-current one becomes possibly current on success and comes back unchanged on failure |
| ContextTracking.MapRoundTrip | src/support/mod.rs:277-311 | making a context current and then not current, both succeeding, gives it back, and the other way round too |
| ContextTracking.Find | src/support/mod.rs:353-356 | the position found holds the id; no position is found only when no entry has it |
| ContextTracking.FindSorted | src/support/mod.rs:353-356 | in a sorted table an id is found at its one position |
| ContextTracking.BinarySearch | src/support/mod.rs:353-356 | `Ok` iff the id is present, at its position; otherwise `Err` with the insertion point |
| ContextTracking.ModifySpec | src/support/mod.rs:360-384 | current, counter, length and every id are unchanged |
| ContextTracking.ModifyEffect | src/support/mod.rs:372-383 | only that entry's tag may change, and it is converted iff the conversion succeeds (or was the identity); the context is put back on both outcomes |
| ContextTracking.InsertSpec | src/support/mod.rs:323-346 | returns the old counter and increments it. The context goes at the end. A possibly-current one becomes current; a not-current one leaves current alone |
| ContextTracking.InsertDemotesOnlyCurrent | src/support/mod.rs:323-346 | inserting a possibly-current context demotes the old current entry to not current, with the same id and handle; every other old entry is unchanged |
| ContextTracking.InsertKeepsValid | src/support/mod.rs:323-346 | insertion keeps the invariant; the new id was unused and is above every old id, which keep their positions |
| ContextTracking.DeleteShifts | src/support/mod.rs:357 | deleting an entry shifts the later ones down by one and keeps the table sorted |
| ContextTracking.RemoveSpec | src/support/mod.rs:348-358 | current is cleared iff it was that id. The entry is returned and deleted, the rest keep their order, and the counter is unchanged |
| ContextTracking.RemoveKeepsValid | src/support/mod.rs:348-358 | removal keeps the invariant and the id is gone |
| ContextTracking.FinalMatch | src/support/mod.rs:450-453 | the context is returned iff its entry is possibly current; otherwise the code aborts |
| ContextTracking.GetCurrentSpec | src/support/mod.rs:386-455 | the counter and the table length are unchanged |
| ContextTracking.GetCurrentKeepsEntries | src/support/mod.rs:386-455 | every entry keeps its id, handle and position; only tags and current change |
| ContextTracking.GetCurrentPanicsIff | src/support/mod.rs:395-453 | aborts iff the context is not current, making it current fails, there is an old current one and making that not current fails |
| ContextTracking.GetCurrentSuccess | src/support/mod.rs:395-453 | when the context is current or making it current succeeds: it is returned, it is now current, and the invariant holds |
| ContextTracking.GetCurrentFailure | src/support/mod.rs:398-433 | when making it current fails and nothing aborts: `Err`, nothing current, no entry possibly current, and the invariant holds |
| ContextTracking.GetCurrentKeepsValid | src/support/mod.rs:395-453 | whenever `get_current` returns without aborting, the invariant holds |
| ContextTracking.ContextTracker.constructor | src/support/mod.rs:315-320 | an empty tracker with counter 0, which satisfies the invariant |
| ContextTracking.ContextTracker.Modify | src/support/mod.rs:360-384 | the new state and the outcome are those of `ModifySpec` |
| ContextTracking.ContextTracker.Insert | src/support/mod.rs:323-346 | the new state and the id are those of `InsertSpec`, and the invariant holds |
| ContextTracking.ContextTracker.Remove | src/support/mod.rs:348-358 | an unknown id aborts and changes nothing. Otherwise the new state and the context are those of `RemoveSpec`. The invariant holds |
| ContextTracking.ContextTracker.GetCurrentAt | src/support/mod.rs:395-453 | once the id is found, the new state and the outcome are those of `GetCurrentSpec` |
| ContextTracking.ContextTracker.GetCurrent | src/support/mod.rs:386-455 | an unknown id aborts and changes nothing. Otherwise the new state and the outcome are those of `GetCurrentSpec`. The invariant holds whenever it does not abort |

## Left out

- The capture device (`src/app/capture.rs`) is modelled only through its stop flag. Its threads, channel, mutex, timers, float frame
  timing and GIF encoder are left out. A still grab, a GIF session and the stop flag are abstract
  effects of the action context. Raising the flag on a stop and clearing it when a GIF session starts are kept.
- The Win32 GDI calls around the pixel buffer (device contexts, bitmaps, `BitBlt`, `GetDIBits`, releasing handles). The raw buffer and the bitmap's width and height are inputs.
- OpenGL loading, shaders and drawing, and the float transforms of the OpenGL graphics backend. Drawing is a recorder of calls.
- Window creation, `platform_config`, window-system plumbing (`swap_buffers`, Win32 style changes, `request_redraw` as more than a counter) and the event-loop wiring.
- Time stamps, the desktop save path, file names and file writes of the capture actions: clock and file-system I/O.
- Floating-point cursor positions: positions are integer pairs.
- Closures: a shortcut callback is a number, and firing it records the number.
- `HashMap` iteration order. `Application.Broadcast` gives every window the call, independently of the order in which the code visits them.
- Inside `Application.App`, every registered window, the region selector included, is a log of the calls it receives. `GifWindow.GifSelectorWindow` is modelled on its own. The application's start-up never registers a GIF selector window. The selector meets the application only through the event it sends (`GifWindow.CaptureRequest`), whose routing `Application.ReleaseStartsGifCapture` states. The GIF selector's `on_keyboard_event` is empty, so it is left out.
- `Actions.AppContext.DoGifCapture`, `Actions.AppContext.DoImageCapture`: the capture itself is not modelled; the context records the request.
- `Actions.KeyBinding.IsTriggered` is a plain equality. It has no contract of its own and is described through `Application.Triggered` and `Application.DefaultBindingsFireAtMostOne`.
- `Application::find_window` (src/app/application.rs:241-248) does the same two lookups as the action context's `find_window`. `Actions.FindWindow` models both.
- `ContextTracking.InsertSpec`: the `usize` counter is unbounded; its overflow is not modelled.
- `Pixels.FlipIndex`: the `u32` index arithmetic and the `i32` stride product cannot wrap here; images too large for them are not modelled.
- `Geometry.WrapI32`: a debug build panics on `i32` overflow in the subtraction. The release-build wrap-around is modelled instead.
- `ContextTracking.ContextTracker.Modify` requires the id to be in the table. The private helper is only ever called with tracked ids, so its lookup abort is not modelled.
- `ContextTracking.ContextTracker.GetCurrent`: the returned value is the context's handle rather than a mutable reference into the table.
- Where the system's documented behaviour and its code differ, the model follows the code, in two places. Width and height wrap modulo 2^32 rather than clamping at 0, so the default bound is not empty. The GIF window's move handler stretches the bound whether or not the selector is visible.
- A device key event runs the matching bindings whether it is a press or a release, as the code does. The event's press state is not part of the model.
