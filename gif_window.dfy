/** The GIF region-selector window: pointer handlers drive its region
    selector, and releasing the pointer over a non-empty bound sends a GIF
    capture request to the action subsystem. */
module GifWindow {
  import opened Geometry
  import opened Messages
  import opened Canvas

  /** The request a release sends for the bound `b`. */
  function CaptureRequest(b: Bound2): UserEvent
  {
    UserEvent(Window(GifSelectorCanvasWindow), Target.Action, DoAction(DoGifCapture(b)))
  }

  /** The events the release handler sends for the current bound: exactly
      one capture request when the bound is not empty, none otherwise. */
  function ReleaseEvents(b: Bound2): (r: seq<UserEvent>)
    ensures |r| <= 1
    ensures |r| == 1 <==> !Empty(b)
    ensures forall e :: e in r ==> e.receiver == Target.Action && e.event == DoAction(DoGifCapture(b))
    ensures forall e :: e in r ==> e.sender == Window(GifSelectorCanvasWindow)
  {
    if !Empty(b) then [CaptureRequest(b)] else []
  }

  /** A click without a drag requests nothing. */
  lemma ClickSendsNothing(p: Point)
    ensures ReleaseEvents(New(p, p)) == []
  {
    NewSinglePoint(p);
  }

  /** A drag from `p` to `q` requests a capture of `New(p, q)` exactly when
      the two points differ in both coordinates. */
  lemma {:induction false} DragRequestsCaptureIff(p: Point, q: Point)
    ensures ReleaseEvents(New(p, q)) == (if p.0 != q.0 && p.1 != q.1 then [CaptureRequest(New(p, q))] else [])
  {
    NewEmptyIff(p, q);
  }

  class GifSelectorWindow {
    const selector: RegionSelector
    const graphics: Graphics
    const windowId: Target := Window(GifSelectorCanvasWindow)
    /** Visibility of the window on screen. */
    var visible: bool
    /** Events handed to the event-loop proxy, in order. */
    var sent: seq<UserEvent>
    /** Redraw requests made on the window. */
    var redraws: nat

    constructor (graphics: Graphics, visible: bool)
      ensures fresh(selector) && this.graphics == graphics && this.visible == visible
      ensures selector.bound == Default() && !selector.visible && selector.first == (0, 0)
      ensures sent == [] && redraws == 0
    {
      selector := new RegionSelector();
      this.graphics := graphics;
      this.visible := visible;
      sent := [];
      redraws := 0;
    }

    /** Press: show the selector and anchor it at the pointer, with a
        zero-area bound. */
    method OnMousePressEvent(data: MouseData)
      modifies selector
      ensures selector.visible && selector.first == data.position
      ensures selector.bound == New(data.position, data.position) && Empty(selector.bound)
    {
      selector.SetVisible(true);
      selector.SetFirst(data.position);
    }

    /** Release: request a GIF capture of the current bound unless it is
        empty. The selector is not touched (it is outside the frame). */
    method OnMouseReleaseEvent(data: MouseData)
      modifies this
      ensures sent == old(sent) + ReleaseEvents(selector.bound)
      ensures redraws == old(redraws) + |ReleaseEvents(selector.bound)|
      ensures visible == old(visible)
    {
      var bound := selector.bound;
      if !Empty(bound) {
        sent := sent + [UserEvent(windowId, Target.Action, DoAction(DoGifCapture(bound)))];
        redraws := redraws + 1;
      }
    }

    /** Move: stretch the bound from the anchor to the pointer, whether the
        selector is visible or not. */
    method OnMouseMoveEvent(data: MouseData)
      modifies this, selector
      ensures selector.bound == New(old(selector.first), data.position)
      ensures selector.first == old(selector.first) && selector.visible == old(selector.visible)
      ensures redraws == old(redraws) + 1
      ensures sent == old(sent) && visible == old(visible)
    {
      selector.SetSecond(data.position);
      redraws := redraws + 1;
    }

    /** Losing focus hides the selector; gaining it changes nothing. */
    method OnFocusEvent(focus: bool)
      modifies selector
      ensures selector.visible == (old(selector.visible) && focus)
      ensures selector.bound == old(selector.bound) && selector.first == old(selector.first)
    {
      if !focus {
        selector.SetVisible(false);
      }
    }

    /** Redraw: the selector draws itself. */
    method HandleRedrawEvent()
      modifies graphics
      ensures graphics.calls == old(graphics.calls) + selector.Draws()
    {
      selector.Update(graphics);
    }

    /** An invocation shows the window; an action payload is ignored. The
        selector is not touched. */
    method OnUserEvent(data: UserEvent)
      modifies this
      ensures visible == (data.event.InvokeRegionSelector? || old(visible))
      ensures sent == old(sent) && redraws == old(redraws)
    {
      match data.event
      case InvokeRegionSelector(_) => SetVisible(true);
      case DoAction(_) =>
    }

    method SetVisible(visible': bool)
      modifies this
      ensures visible == visible'
      ensures sent == old(sent) && redraws == old(redraws)
    {
      visible := visible';
    }
  }

  /** A whole drag on the window: press at `p`, move to `q`, release.
      Exactly one capture request for `New(p, q)` is sent when `p` and `q`
      differ in both coordinates, none otherwise. */
  method PressMoveRelease(w: GifSelectorWindow, p: Point, q: Point, button: MouseButton)
    modifies w, w.selector
    ensures w.selector.visible && w.selector.first == p && w.selector.bound == New(p, q)
    ensures w.sent == old(w.sent) + (if p.0 != q.0 && p.1 != q.1 then [CaptureRequest(New(p, q))] else [])
  {
    w.OnMousePressEvent(MouseData(button, p));
    w.OnMouseMoveEvent(MouseData(button, q));
    w.OnMouseReleaseEvent(MouseData(button, q));
    DragRequestsCaptureIff(p, q);
  }
}
