/** The drawing side of the overlay: the region selector, which the
    overlay window updates in place as the pointer moves, and the canvas
    that redraws its objects. The renderer itself is reduced to the list of
    draw calls it receives. */
module Canvas {
  import opened Geometry

  /** One call on the renderer. `ClearOp` clears to transparent black (the
      colour is a float constant and is not carried). */
  datatype DrawCall = ClearOp | RectOp(x: I32, y: I32, w: U32, h: U32)

  /** The renderer, recording the calls made on it in order. */
  class Graphics {
    var calls: seq<DrawCall>

    constructor ()
      ensures calls == []
    {
      calls := [];
    }

    method Clear()
      modifies this
      ensures calls == old(calls) + [ClearOp]
    {
      calls := calls + [ClearOp];
    }

    method DrawRect(x: I32, y: I32, w: U32, h: U32)
      modifies this
      ensures calls == old(calls) + [RectOp(x, y, w, h)]
    {
      calls := calls + [RectOp(x, y, w, h)];
    }
  }

  /** The draw call for a bound: its `rect()`. */
  function RectCall(b: Bound2): (d: DrawCall)
    ensures d.RectOp? && d.x == b.min.0 && d.y == b.min.1
    ensures d.w == Width(b) && d.h == Height(b)
  {
    var r := Rect(b);
    RectOp(r.0, r.1, r.2, r.3)
  }

  /** The interaction state of a drag: anchor, current bound, visibility. */
  class RegionSelector {
    var bound: Bound2
    var visible: bool
    var first: Point

    constructor ()
      ensures bound == Default() && !visible && first == (0, 0)
    {
      bound := Default();
      visible := false;
      first := (0, 0);
    }

    /** Anchor the drag at `pos`; the bound collapses to that point. */
    method SetFirst(pos: Point)
      modifies this
      ensures first == pos && bound == New(pos, pos) && visible == old(visible)
      ensures Empty(bound)
    {
      first := pos;
      bound := New(first, first);
      NewSinglePoint(pos);
    }

    /** Stretch the bound from the anchor to `pos`. */
    method SetSecond(pos: Point)
      modifies this
      ensures bound == New(first, pos)
      ensures first == old(first) && visible == old(visible)
      ensures Normalised(bound)
    {
      bound := New(first, pos);
    }

    method SetVisible(visible': bool)
      modifies this
      ensures visible == visible'
      ensures bound == old(bound) && first == old(first)
    {
      visible := visible';
    }

    /** What `update` draws: the bound's rectangle when visible, nothing
        otherwise. */
    function Draws(): (d: seq<DrawCall>)
      reads this
      ensures |d| == (if visible then 1 else 0)
      ensures forall c :: c in d ==> c == RectCall(bound)
    {
      if visible then [RectCall(bound)] else []
    }

    /** `Renderable::update`: one rectangle for the bound when visible. */
    method Update(graphics: Graphics)
      modifies graphics
      ensures graphics.calls == old(graphics.calls) + Draws()
    {
      if visible {
        var r := Rect(bound);
        graphics.DrawRect(r.0, r.1, r.2, r.3);
      }
    }
  }

  /** The calls one redraw makes for the objects, in insertion order. */
  ghost function FrameDraws(objects: seq<RegionSelector>): (d: seq<DrawCall>)
    reads objects
    ensures |d| <= |objects|
  {
    if objects == [] then [] else FrameDraws(objects[..|objects| - 1]) + objects[|objects| - 1].Draws()
  }

  /** A redraw draws every visible object's rectangle and nothing else. */
  lemma {:induction false} FrameDrawsVisible(objects: seq<RegionSelector>)
    ensures forall i :: 0 <= i < |objects| && objects[i].visible ==> RectCall(objects[i].bound) in FrameDraws(objects)
    ensures forall c :: c in FrameDraws(objects) ==>
              exists i :: 0 <= i < |objects| && objects[i].visible && c == RectCall(objects[i].bound)
  {
    if objects != [] {
      var n := |objects| - 1;
      FrameDrawsVisible(objects[..n]);
      assert forall i :: 0 <= i < n ==> objects[..n][i] == objects[i];
    }
  }

  /** A surface with its renderer and the objects drawn on it. */
  class Canvas {
    var objects: seq<RegionSelector>
    const graphics: Graphics

    constructor (graphics: Graphics)
      ensures objects == [] && this.graphics == graphics
    {
      objects := [];
      this.graphics := graphics;
    }

    /** Append an object; it is drawn after every earlier one. */
    method AddObject(obj: RegionSelector)
      modifies this
      ensures objects == old(objects) + [obj]
    {
      objects := objects + [obj];
    }

    /** One clear, then every object's update in insertion order. */
    method OnDraw()
      modifies graphics
      ensures graphics.calls == old(graphics.calls) + [ClearOp] + FrameDraws(objects)
    {
      graphics.Clear();
      for i := 0 to |objects|
        invariant graphics.calls == old(graphics.calls) + [ClearOp] + FrameDraws(objects[..i])
      {
        ghost var upTo := objects[..i + 1];
        assert upTo[..i] == objects[..i];
        assert FrameDraws(upTo) == FrameDraws(objects[..i]) + objects[i].Draws();
        objects[i].Update(graphics);
      }
      assert objects[..|objects|] == objects;
    }
  }
}
