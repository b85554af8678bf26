/** The Direct2D graphics handler: the bookkeeping that brackets a frame on a
    render target (BeginDrawing / EndDrawing / PerformDrawing), the handler-owned
    clip layer, the transform operations and their save/restore stack, and the
    pixel offsets applied to strokes and fills. */
module Direct2DDrawing {
  import opened SharpDX

  /** `RectangleF?` in the source. */
  datatype Nullable<T> = Null | Value(value: T)

  /** How a call ended: normally, or by a SharpDXException carrying a result code. */
  datatype Outcome = Completed | Thrown(resultCode: HResult)

  datatype PixelOffsetMode = None | Half

  /** An IGraphicsPath; only its bounds matter to the handler. */
  datatype GraphicsPath = GraphicsPath(bounds: RectangleF)

  /** The whole state a handler operation can change: the handler's own fields
      and those of its render target. */
  datatype HandlerState = HandlerState(
    target: RenderTarget,
    hasBegan: bool,
    offset: real,
    fillOffset: real,
    holdsClipLayer: bool,
    clipBounds: RectangleF,
    transformStack: seq<Matrix3x2>,
    pushes: seq<Push>,
    drawing: bool,
    transform: Matrix3x2,
    history: seq<Rendered>)

  predicate InnermostIs(pushes: seq<Push>, kind: Push) {
    |pushes| > 0 && pushes[|pushes| - 1] == kind
  }

  /** The (offset, fillOffset) pair the PixelOffsetMode setter stores. */
  function OffsetsFor(mode: PixelOffsetMode): (p: (real, real))
    ensures p.0 - p.1 == 0.5
    ensures mode == PixelOffsetMode.None <==> p.0 == 0.5
  {
    if mode == PixelOffsetMode.None then (0.5, 0.0) else (0.0, -0.5)
  }

  /** As written, reading the mode back after setting it gives the other mode. */
  lemma SetThenGetFlips(h: GraphicsHandler, mode: PixelOffsetMode)
    requires (h.offset, h.fillOffset) == OffsetsFor(mode)
    ensures h.GetPixelOffsetMode() != mode
  {
  }

  /** With the corrected getter, setting then getting returns the mode that was set. */
  lemma IntendedSetThenGet(h: GraphicsHandler, mode: PixelOffsetMode)
    requires (h.offset, h.fillOffset) == OffsetsFor(mode)
    ensures h.IntendedPixelOffsetMode() == mode
  {
  }

  /** The index of the attempt that ends PerformDrawing's loop: the first one whose
      EndDraw does not report D2DERR_RECREATE_TARGET. */
  function FinalAttempt(deviceResults: seq<HResult>): (k: nat)
    requires exists j :: 0 <= j < |deviceResults| && deviceResults[j] != RecreateTarget
    ensures k < |deviceResults| && deviceResults[k] != RecreateTarget
    ensures forall j :: 0 <= j < k ==> deviceResults[j] == RecreateTarget
  {
    if deviceResults[0] != RecreateTarget then 0
    else
      var j :| 0 <= j < |deviceResults| && deviceResults[j] != RecreateTarget;
      assert deviceResults[1..][j - 1] == deviceResults[j];
      1 + FinalAttempt(deviceResults[1..])
  }

  /** The static CurrentRenderTarget and the lazily created global fallback target,
      shared by every handler. */
  class TargetRegistry {
    var current: RenderTarget?
    var global: RenderTarget?

    constructor ()
      ensures current == null && global == null
    {
      current := null;
      global := null;
    }

    /** The getter: creates the fallback target, 2000 x 2000 device pixels, on first use and
        answers `current ?? global`. */
    method Get() returns (t: RenderTarget)
      modifies this
      ensures current == old(current)
      ensures global != null
      ensures old(global) != null ==> global == old(global)
      ensures old(global) == null ==> fresh(global) && global.size == SizeF(2000.0, 2000.0)
      ensures t == if current != null then current else global
    {
      if global == null {
        global := new RenderTarget(SizeF(2000.0, 2000.0));
      }
      t := if current != null then current else global;
    }
  }

  class GraphicsHandler {
    var control: RenderTarget
    const registry: TargetRegistry
    const disposeControl: bool
    /** Whether CreateRenderTarget can build a new target: the handler was made
        for a drawable or an image, not copied from another handler. */
    const recreatesTarget: bool
    var hasBegan: bool
    var offset: real
    var fillOffset: real
    /** Whether the handler holds a clip layer it pushed (clipLayer != null). */
    var holdsClipLayer: bool
    var clipBounds: RectangleF
    /** The saved transforms, innermost last; a null stack is the empty one. */
    var transformStack: seq<Matrix3x2>

    ghost predicate Valid()
      reads this, control
    {
      && offset - fillOffset == 0.5
      && (holdsClipLayer ==> InnermostIs(control.pushes, LayerPush))
    }

    ghost function State(): HandlerState
      reads this, control
    {
      HandlerState(control, hasBegan, offset, fillOffset, holdsClipLayer, clipBounds,
                   transformStack, control.pushes, control.drawing, control.transform, control.history)
    }

    /** The target's push stack once the handler's own clip layer is popped. */
    function PushesBelowClipLayer(): seq<Push>
      reads this, control
      requires Valid()
    {
      if holdsClipLayer then control.pushes[..|control.pushes| - 1] else control.pushes
    }

    /** The whole target: `new RectangleF(Control.Size)`. */
    function FullTarget(): RectangleF
      reads this, control
    {
      FromSize(control.size)
    }

    /** A handler for a drawable or an image, on the render target created natively for it. */
    constructor (target: RenderTarget, registry: TargetRegistry)
      ensures Valid()
      ensures control == target && this.registry == registry && disposeControl && recreatesTarget
      ensures !hasBegan && offset == 0.5 && fillOffset == 0.0
      ensures !holdsClipLayer && clipBounds == RectangleF(0.0, 0.0, 0.0, 0.0) && transformStack == []
    {
      control := target;
      this.registry := registry;
      disposeControl := true;
      recreatesTarget := true;
      hasBegan := false;
      offset := 0.5;
      fillOffset := 0.0;
      holdsClipLayer := false;
      clipBounds := RectangleF(0.0, 0.0, 0.0, 0.0);
      transformStack := [];
    }

    /** `GraphicsHandler(GraphicsHandler other)`: shares the other's target and does not dispose it. */
    constructor Sharing(other: GraphicsHandler)
      ensures Valid()
      ensures control == other.control && registry == other.registry && !disposeControl && !recreatesTarget
      ensures !hasBegan && offset == 0.5 && fillOffset == 0.0
      ensures !holdsClipLayer && clipBounds == RectangleF(0.0, 0.0, 0.0, 0.0) && transformStack == []
    {
      control := other.control;
      registry := other.registry;
      disposeControl := false;
      recreatesTarget := false;
      hasBegan := false;
      offset := 0.5;
      fillOffset := 0.0;
      holdsClipLayer := false;
      clipBounds := RectangleF(0.0, 0.0, 0.0, 0.0);
      transformStack := [];
    }

    /** Pops the handler's clip layer if it holds one; otherwise changes nothing. */
    method ResetClip()
      requires Valid()
      modifies this, control
      ensures Valid() && !holdsClipLayer
      ensures State() == old(State()).(
        holdsClipLayer := false,
        clipBounds := if old(holdsClipLayer) then old(FullTarget()) else old(clipBounds),
        pushes := old(PushesBelowClipLayer()))
      ensures control.LayerDepth() == old(control.LayerDepth()) - (if old(holdsClipLayer) then 1 else 0)
      ensures control.AxisAlignedClipDepth() == old(control.AxisAlignedClipDepth())
      ensures !old(holdsClipLayer) ==> State() == old(State())
    {
      if holdsClipLayer {
        control.PopLayer();
        holdsClipLayer := false;
        clipBounds := FromSize(control.size);
      }
    }

    /** Replaces any clip with one layer masked by `rect`. */
    method SetClip(rect: RectangleF)
      requires Valid()
      modifies this, control
      ensures Valid() && holdsClipLayer
      ensures State() == old(State()).(
        holdsClipLayer := true,
        clipBounds := rect,
        pushes := old(PushesBelowClipLayer()) + [LayerPush])
      ensures control.LayerDepth() == old(control.LayerDepth()) - (if old(holdsClipLayer) then 1 else 0) + 1
      ensures control.AxisAlignedClipDepth() == old(control.AxisAlignedClipDepth())
    {
      ResetClip();
      ghost var reset := State();
      clipBounds := rect;
      control.PushLayer();
      holdsClipLayer := true;
      assert State() == reset.(holdsClipLayer := true, clipBounds := rect, pushes := reset.pushes + [LayerPush]);
    }

    /** Replaces any clip with one layer masked by `path`. */
    method SetClipPath(path: GraphicsPath)
      requires Valid()
      modifies this, control
      ensures Valid() && holdsClipLayer
      ensures State() == old(State()).(
        holdsClipLayer := true,
        clipBounds := path.bounds,
        pushes := old(PushesBelowClipLayer()) + [LayerPush])
      ensures control.LayerDepth() == old(control.LayerDepth()) - (if old(holdsClipLayer) then 1 else 0) + 1
      ensures control.AxisAlignedClipDepth() == old(control.AxisAlignedClipDepth())
    {
      ResetClip();
      ghost var reset := State();
      clipBounds := path.bounds;
      control.PushLayer();
      holdsClipLayer := true;
      assert State() == reset.(holdsClipLayer := true, clipBounds := path.bounds, pushes := reset.pushes + [LayerPush]);
    }

    method TranslateTransform(dx: real, dy: real)
      requires Valid()
      modifies control
      ensures Valid()
      ensures State() == old(State()).(transform := Multiply(Translation(dx, dy), old(control.transform)))
    {
      control.SetTransform(Multiply(Translation(dx, dy), control.transform));
    }

    method RotateTransform(angle: real)
      requires Valid()
      modifies control
      ensures Valid()
      ensures State() == old(State()).(transform := Multiply(Rotation(angle), old(control.transform)))
    {
      control.SetTransform(Multiply(Rotation(angle), control.transform));
    }

    method ScaleTransform(sx: real, sy: real)
      requires Valid()
      modifies control
      ensures Valid()
      ensures State() == old(State()).(transform := Multiply(Scaling(sx, sy), old(control.transform)))
    {
      control.SetTransform(Multiply(Scaling(sx, sy), control.transform));
    }

    method MultiplyTransform(matrix: Matrix3x2)
      requires Valid()
      modifies control
      ensures Valid()
      ensures State() == old(State()).(transform := Multiply(matrix, old(control.transform)))
    {
      control.SetTransform(Multiply(matrix, control.transform));
    }

    method SaveTransform()
      requires Valid()
      modifies this
      ensures Valid()
      ensures State() == old(State()).(transformStack := old(transformStack) + [old(control.transform)])
    {
      transformStack := transformStack + [control.transform];
    }

    /** Pops the innermost saved transform; Stack.Pop throws on an empty (or null) stack. */
    method RestoreTransform()
      requires Valid()
      requires |transformStack| > 0
      modifies this, control
      ensures Valid()
      ensures State() == old(State()).(
        transform := old(transformStack[|transformStack| - 1]),
        transformStack := old(transformStack[..|transformStack| - 1]))
    {
      control.SetTransform(transformStack[|transformStack| - 1]);
      transformStack := transformStack[..|transformStack| - 1];
    }

    /** Fills under the current transform shifted by -fillOffset, then restores it. */
    method FillPath(path: GraphicsPath)
      requires Valid()
      modifies this, control
      ensures Valid()
      ensures State() == old(State()).(
        history := old(control.history)
          + [Filled(Multiply(Translation(-fillOffset, -fillOffset), old(control.transform)))])
    {
      SaveTransform();
      TranslateTransform(-fillOffset, -fillOffset);
      control.FillGeometry();
      RestoreTransform();
    }

    /** Strokes under the current transform shifted by offset, then restores it. */
    method DrawPath(path: GraphicsPath)
      requires Valid()
      modifies this, control
      ensures Valid()
      ensures State() == old(State()).(
        history := old(control.history)
          + [Stroked(Multiply(Translation(offset, offset), old(control.transform)))])
    {
      SaveTransform();
      TranslateTransform(offset, offset);
      control.DrawGeometry();
      RestoreTransform();
    }

    /** The PixelOffsetMode getter, as written: None exactly when the stroke offset is zero. */
    function GetPixelOffsetMode(): (mode: PixelOffsetMode)
      reads this
      ensures offset == OffsetsFor(PixelOffsetMode.None).0 ==> mode == PixelOffsetMode.Half
      ensures offset == OffsetsFor(PixelOffsetMode.Half).0 ==> mode == PixelOffsetMode.None
    {
      if offset == 0.0 then PixelOffsetMode.None else PixelOffsetMode.Half
    }

    /** The getter with its branches the way round the setter stores them. */
    function IntendedPixelOffsetMode(): (mode: PixelOffsetMode)
      reads this
      ensures offset == OffsetsFor(PixelOffsetMode.None).0 ==> mode == PixelOffsetMode.None
      ensures offset == OffsetsFor(PixelOffsetMode.Half).0 ==> mode == PixelOffsetMode.Half
    {
      if offset == 0.0 then PixelOffsetMode.Half else PixelOffsetMode.None
    }

    method SetPixelOffsetMode(mode: PixelOffsetMode)
      requires Valid()
      modifies this
      ensures Valid()
      ensures State() == old(State()).(offset := OffsetsFor(mode).0, fillOffset := OffsetsFor(mode).1)
      ensures GetPixelOffsetMode() != mode
      ensures IntendedPixelOffsetMode() == mode
    {
      if mode == PixelOffsetMode.None {
        offset := 0.5;
        fillOffset := 0.0;
      } else {
        offset := 0.0;
        fillOffset := -0.5;
      }
    }

    /** Starts a frame: the target becomes current, the transform and its stack
        are reset, any clip layer is dropped, and an axis-aligned clip is pushed
        when `clipRect` has a value. */
    method BeginDrawing(clipRect: Nullable<RectangleF>)
      requires Valid()
      modifies this, control, registry
      ensures Valid()
      ensures State() == old(State()).(
        hasBegan := true,
        holdsClipLayer := false,
        clipBounds := old(FullTarget()),
        transformStack := [],
        pushes := old(PushesBelowClipLayer()) + (if clipRect.Value? then [AxisAlignedClipPush] else []),
        drawing := true,
        transform := Identity)
      ensures registry.current == control && registry.global == old(registry.global)
      ensures control.AxisAlignedClipDepth()
        == old(control.AxisAlignedClipDepth()) + (if clipRect.Value? then 1 else 0)
      ensures control.LayerDepth() == old(control.LayerDepth()) - (if old(holdsClipLayer) then 1 else 0)
    {
      ghost var below := PushesBelowClipLayer();
      StartFrame();
      ResetClip();
      assert control.pushes == below;
      clipBounds := FromSize(control.size);
      ghost var reset := State();
      PushClipRect(clipRect);
      hasBegan := true;
      assert State() == reset.(hasBegan := true, pushes := below + (if clipRect.Value? then [AxisAlignedClipPush] else []));
    }

    /** The axis-aligned clip BeginDrawing pushes when it is given a rectangle. */
    method PushClipRect(clipRect: Nullable<RectangleF>)
      requires Valid() && !holdsClipLayer
      modifies control
      ensures Valid()
      ensures State() == old(State()).(
        pushes := old(control.pushes) + (if clipRect.Value? then [AxisAlignedClipPush] else []))
      ensures control.AxisAlignedClipDepth()
        == old(control.AxisAlignedClipDepth()) + (if clipRect.Value? then 1 else 0)
      ensures control.LayerDepth() == old(control.LayerDepth())
    {
      if clipRect.Value? {
        control.PushAxisAlignedClip();
      }
    }

    /** The first steps of BeginDrawing: the target becomes current and starts
        drawing, and the transform and its save/restore stack are reset. */
    method StartFrame()
      requires Valid()
      modifies this, control, registry
      ensures Valid()
      ensures State() == old(State()).(transformStack := [], drawing := true, transform := Identity)
      ensures registry.current == control && registry.global == old(registry.global)
    {
      registry.current := control;
      control.BeginDraw();
      control.SetTransform(Identity);
      transformStack := [];
    }

    /** Ends a frame if one was begun. `deviceResult` is the HRESULT the device
        reports for the frame's EndDraw; a failure code raises a SharpDXException
        after the clip layer and the axis-aligned clip are popped, and before
        hasBegan is cleared. */
    method EndDrawing(popClip: bool, deviceResult: HResult) returns (outcome: Outcome)
      requires Valid()
      requires hasBegan && popClip ==> InnermostIs(PushesBelowClipLayer(), AxisAlignedClipPush)
      modifies this, control, registry
      ensures Valid() && registry.global == old(registry.global)
      ensures !old(hasBegan) ==>
        outcome == Completed && State() == old(State()) && registry.current == old(registry.current)
      ensures old(hasBegan) ==>
        && outcome == (if Failed(deviceResult) then Thrown(deviceResult) else Completed)
        && registry.current == null
        && State() == old(State()).(
             hasBegan := Failed(deviceResult),
             holdsClipLayer := false,
             clipBounds := if old(holdsClipLayer) then old(FullTarget()) else old(clipBounds),
             pushes := if popClip then old(PushesBelowClipLayer()[..|PushesBelowClipLayer()| - 1])
                       else old(PushesBelowClipLayer()),
             drawing := false)
    {
      outcome := Completed;
      if hasBegan {
        ResetClip();
        registry.current := null;
        if popClip {
          control.PopAxisAlignedClip();
        }
        control.EndDraw();
        if Failed(deviceResult) {
          return Thrown(deviceResult);
        }
        hasBegan := false;
      }
    }

    /** Draws one frame, starting over for as long as EndDraw reports
        D2DERR_RECREATE_TARGET; any other failure ends the loop and is swallowed.
        `deviceResults[i]` is what EndDraw reports on the i-th attempt; some
        attempt must report something else, or the source never returns. The
        draw callback is taken to return normally and leave the handler alone. */
    method PerformDrawing(clipRect: Nullable<RectangleF>, deviceResults: seq<HResult>)
      requires Valid()
      requires exists j :: 0 <= j < |deviceResults| && deviceResults[j] != RecreateTarget
      modifies this, control, registry
      ensures Valid()
      ensures hasBegan == Failed(deviceResults[FinalAttempt(deviceResults)])
      ensures !holdsClipLayer && transformStack == [] && clipBounds == FullTarget()
      ensures !control.drawing && control.transform == Identity
      ensures offset == old(offset) && fillOffset == old(fillOffset)
      ensures control.size == old(control.size)
      ensures registry.current == null
      ensures FinalAttempt(deviceResults) == 0 || !recreatesTarget ==>
        && control == old(control)
        && control.pushes == old(PushesBelowClipLayer())
        && control.history == old(control.history)
      ensures FinalAttempt(deviceResults) == 0 ==> registry.global == old(registry.global)
      ensures FinalAttempt(deviceResults) > 0 ==> registry.global == null
      ensures FinalAttempt(deviceResults) > 0 && recreatesTarget ==>
        fresh(control) && control.pushes == [] && control.history == []
    {
      ghost var k := FinalAttempt(deviceResults);
      var recreated := Attempt(clipRect, deviceResults[0]);
      var i := 1;
      while recreated
        invariant Valid()
        invariant 1 <= i <= k + 1
        invariant recreated ==> i <= k
        invariant !recreated ==> i == k + 1
        invariant offset == old(offset) && fillOffset == old(fillOffset)
        invariant control.size == old(control.size)
        invariant !holdsClipLayer && transformStack == [] && clipBounds == FullTarget()
        invariant !control.drawing && control.transform == Identity
        invariant !recreated ==> hasBegan == Failed(deviceResults[k]) && registry.current == null
        invariant !recreatesTarget || (!recreated && k == 0) ==>
          && control == old(control)
          && control.pushes == old(PushesBelowClipLayer())
          && control.history == old(control.history)
        invariant !recreated && k == 0 ==> registry.global == old(registry.global)
        invariant recreated || k > 0 ==> registry.global == null
        invariant (recreated || k > 0) && recreatesTarget ==>
          fresh(control) && control.pushes == [] && control.history == []
        decreases |deviceResults| - i
      {
        recreated := Attempt(clipRect, deviceResults[i]);
        i := i + 1;
      }
    }

    /** One pass of PerformDrawing's loop body: a frame, and on
        D2DERR_RECREATE_TARGET a call to CreateRenderTarget (which builds a new
        target only for a drawable or an image), after which the target becomes
        current and the global fallback is dropped. */
    method Attempt(clipRect: Nullable<RectangleF>, deviceResult: HResult) returns (recreated: bool)
      requires Valid()
      modifies this, control, registry
      ensures Valid()
      ensures recreated <==> deviceResult == RecreateTarget
      ensures hasBegan == Failed(deviceResult)
      ensures !holdsClipLayer && transformStack == [] && clipBounds == FullTarget()
      ensures !control.drawing && control.transform == Identity
      ensures offset == old(offset) && fillOffset == old(fillOffset)
      ensures control.size == old(control.size)
      ensures recreated ==> registry.global == null && registry.current == control
      ensures !recreated ==> registry.global == old(registry.global) && registry.current == null
      ensures recreated && recreatesTarget ==>
        fresh(control) && control.pushes == [] && control.history == []
      ensures !(recreated && recreatesTarget) ==>
        && control == old(control)
        && control.pushes == old(PushesBelowClipLayer())
        && control.history == old(control.history)
    {
      recreated := false;
      ghost var below := PushesBelowClipLayer();
      BeginDrawing(clipRect);
      assert control.pushes == below + (if clipRect.Value? then [AxisAlignedClipPush] else []);
      assert PushesBelowClipLayer() == control.pushes;
      var outcome := EndDrawing(clipRect.Value?, deviceResult);
      assert control.pushes == below;
      if outcome.Thrown? && outcome.resultCode == RecreateTarget {
        if recreatesTarget {
          control := new RenderTarget(control.size);
        }
        registry.current := control;
        registry.global := null;
        recreated := true;
      }
    }

    /** `Dispose(disposing)`: ends an open frame (without popping an axis-aligned
        clip). `deviceResult` is what that EndDraw would report. */
    method Dispose(disposing: bool, deviceResult: HResult) returns (outcome: Outcome)
      requires Valid()
      modifies this, control, registry
      ensures Valid() && registry.global == old(registry.global)
      ensures !(disposing && old(hasBegan)) ==>
        outcome == Completed && State() == old(State()) && registry.current == old(registry.current)
      ensures disposing && old(hasBegan) ==>
        && outcome == (if Failed(deviceResult) then Thrown(deviceResult) else Completed)
        && registry.current == null
        && State() == old(State()).(
             hasBegan := Failed(deviceResult),
             holdsClipLayer := false,
             clipBounds := if old(holdsClipLayer) then old(FullTarget()) else old(clipBounds),
             pushes := old(PushesBelowClipLayer()),
             drawing := false)
    {
      outcome := Completed;
      if disposing {
        outcome := EndDrawing(false, deviceResult);
      }
    }
  }

  /** A frame ended normally leaves nothing for a later EndDrawing or Dispose to
      do: the state after both calls is the state after the first. */
  method EndThenDispose(h: GraphicsHandler, popClip: bool, deviceResult: HResult)
    returns (first: Outcome, second: Outcome)
    requires h.Valid()
    requires h.hasBegan && popClip ==> InnermostIs(h.PushesBelowClipLayer(), AxisAlignedClipPush)
    requires !Failed(deviceResult)
    modifies h, h.control, h.registry
    ensures first == Completed && second == Completed
    ensures h.registry.global == old(h.registry.global)
    ensures !old(h.hasBegan) ==>
      h.State() == old(h.State()) && h.registry.current == old(h.registry.current)
    ensures old(h.hasBegan) ==>
      && h.registry.current == null
      && h.State() == old(h.State()).(
           hasBegan := false,
           holdsClipLayer := false,
           clipBounds := if old(h.holdsClipLayer) then old(h.FullTarget()) else old(h.clipBounds),
           pushes := if popClip then old(h.PushesBelowClipLayer()[..|h.PushesBelowClipLayer()| - 1])
                     else old(h.PushesBelowClipLayer()),
           drawing := false)
  {
    first := h.EndDrawing(popClip, deviceResult);
    second := h.Dispose(true, deviceResult);
  }

  datatype SweepDirection = Clockwise | CounterClockwise

  datatype ArcSize = Small | Large

  datatype ArcFlags = ArcFlags(direction: SweepDirection, arcSize: ArcSize)

  function Abs(x: real): real {
    if x < 0.0 then -x else x
  }

  /** The sweep direction and arc size CreateArc gives the Direct2D ArcSegment
      for a sweep of `sweepAngle` degrees. */
  function CreateArcFlags(sweepAngle: real): ArcFlags {
    ArcFlags(if sweepAngle >= 0.0 && Abs(sweepAngle) < 360.0 then Clockwise else CounterClockwise,
             if Abs(sweepAngle) > 180.0 then Large else Small)
  }

  /** Where on the ellipse an arc of `sweep` degrees ends: the clockwise angle,
      in [0, 360), from its start point to its end point. */
  function EndDelta(sweep: real): (d: real)
    ensures 0.0 <= d < 360.0
    ensures sweep == d + 360.0 * Turns(sweep) as real
  {
    sweep - 360.0 * Turns(sweep) as real
  }

  /** Whole turns contained in a sweep, rounded down. */
  function Turns(sweep: real): int {
    (sweep / 360.0).Floor
  }

  /** What Direct2D draws for an ArcSegment given only its end point: nothing
      when the end point is the start point; otherwise, of the two ellipses with
      the segment's radii through both points, the one on which the arc in the
      segment's direction spans more than half a turn exactly when the segment
      is Large. `OnEllipse(s)` means the original ellipse, swept by `s` degrees
      (positive is clockwise). */
  datatype DrawnArc = NothingDrawn | OnEllipse(signedSweep: real) | OnMirroredEllipse

  function DrawnByDirect2D(flags: ArcFlags, delta: real): DrawnArc
    requires 0.0 <= delta < 360.0
  {
    if delta == 0.0 then NothingDrawn
    else
      var span := if flags.direction == Clockwise then delta else 360.0 - delta;
      if span == 180.0 || (span > 180.0 <==> flags.arcSize == Large) then
        OnEllipse(if flags.direction == Clockwise then span else -span)
      else OnMirroredEllipse
  }

  /** For every sweep short of a full turn, the flags make Direct2D draw exactly
      the requested arc of the requested ellipse. */
  lemma ArcFlagsDrawRequestedArc(sweepAngle: real)
    requires -360.0 < sweepAngle < 360.0 && sweepAngle != 0.0
    ensures DrawnByDirect2D(CreateArcFlags(sweepAngle), EndDelta(sweepAngle)) == OnEllipse(sweepAngle)
  {
    assert Turns(sweepAngle) == (if sweepAngle > 0.0 then 0 else -1);
  }

  /** A sweep of a whole turn either way gets counter-clockwise and large; in
      exact arithmetic it ends where it starts, so Direct2D draws nothing for it. */
  lemma FullTurnDrawsNothing(sweepAngle: real)
    requires Abs(sweepAngle) == 360.0
    ensures CreateArcFlags(sweepAngle) == ArcFlags(CounterClockwise, Large)
    ensures DrawnByDirect2D(CreateArcFlags(sweepAngle), EndDelta(sweepAngle)) == NothingDrawn
  {
    assert Turns(sweepAngle) == (if sweepAngle > 0.0 then 1 else -1);
  }

  /** What the counter-clockwise large flags of a full turn draw when rounding
      leaves the end point off the start point: just clockwise of it, almost the
      whole ellipse the other way round; just counter-clockwise of it, almost the
      whole of the other ellipse through the two points. */
  lemma FullTurnMissDraws(delta: real)
    requires 0.0 < delta < 360.0
    ensures DrawnByDirect2D(ArcFlags(CounterClockwise, Large), delta) ==
      if delta <= 180.0 then OnEllipse(delta - 360.0) else OnMirroredEllipse
  {
  }

  /** A sweep beyond a full turn gets counter-clockwise and large, and Direct2D
      draws from the start point counter-clockwise to where the end point lies:
      never the requested sweep, and on the other ellipse through the two points
      when the end point lies more than half a turn on clockwise. */
  lemma SweepBeyondFullTurn(sweepAngle: real)
    requires Abs(sweepAngle) > 360.0
    ensures CreateArcFlags(sweepAngle) == ArcFlags(CounterClockwise, Large)
    ensures DrawnByDirect2D(CreateArcFlags(sweepAngle), EndDelta(sweepAngle)) ==
      if EndDelta(sweepAngle) == 0.0 then NothingDrawn
      else if EndDelta(sweepAngle) <= 180.0 then OnEllipse(EndDelta(sweepAngle) - 360.0)
      else OnMirroredEllipse
    ensures DrawnByDirect2D(CreateArcFlags(sweepAngle), EndDelta(sweepAngle)) != OnEllipse(sweepAngle)
  {
  }

  /** A 400-degree clockwise request is drawn as a 320-degree counter-clockwise
      arc, leaving out the 40 degrees clockwise of the start point; a 400-degree
      counter-clockwise one lands on the other ellipse. */
  lemma SweepOf400Degrees()
    ensures DrawnByDirect2D(CreateArcFlags(400.0), EndDelta(400.0)) == OnEllipse(-320.0)
    ensures DrawnByDirect2D(CreateArcFlags(-400.0), EndDelta(-400.0)) == OnMirroredEllipse
  {
    assert Turns(400.0) == 1 && Turns(-400.0) == -2;
  }

  /** Reversing a sweep short of a full turn reverses the direction and keeps the size. */
  lemma ArcFlagsReverse(sweepAngle: real)
    requires 0.0 < Abs(sweepAngle) < 360.0
    ensures CreateArcFlags(-sweepAngle).direction != CreateArcFlags(sweepAngle).direction
    ensures CreateArcFlags(-sweepAngle).arcSize == CreateArcFlags(sweepAngle).arcSize
  {
  }

  datatype Ellipse = Ellipse(centerX: real, centerY: real, radiusX: real, radiusY: real)

  /** The ellipse inscribed in the rectangle (x, y, width, height). */
  function GetEllipse(x: real, y: real, width: real, height: real): Ellipse {
    Ellipse(x + width / 2.0, y + height / 2.0, width / 2.0, height / 2.0)
  }

  function BoundingBox(e: Ellipse): RectangleF {
    RectangleF(e.centerX - e.radiusX, e.centerY - e.radiusY, 2.0 * e.radiusX, 2.0 * e.radiusY)
  }

  /** GetEllipse and BoundingBox are inverse: the ellipse fits its rectangle exactly. */
  lemma EllipseFitsRectangle(x: real, y: real, width: real, height: real)
    ensures BoundingBox(GetEllipse(x, y, width, height)) == RectangleF(x, y, width, height)
  {
  }
}
