/** An abstraction of the SharpDX / Direct2D render target that the Direct2D
    graphics handler drives. Only the state the handler's bookkeeping depends on
    is kept: the stack of pushed layers and axis-aligned clips, whether a frame
    is being drawn, the current transform, and a log of the geometry drawn. */
module SharpDX {

  /** Direct2D HRESULTs, as unsigned 32-bit codes. */
  type HResult = x: int | 0 <= x < 0x1_0000_0000

  /** D2DERR_RECREATE_TARGET: the device was lost and the target must be recreated. */
  const RecreateTarget: HResult := 0x8899_000C

  /** SharpDX raises a SharpDXException exactly for failure codes (severity bit set). */
  predicate Failed(hr: HResult) {
    hr >= 0x8000_0000
  }

  datatype SizeF = SizeF(width: real, height: real)

  datatype RectangleF = RectangleF(x: real, y: real, width: real, height: real)

  /** `new RectangleF(size)`: the rectangle at the origin with the given size. */
  function FromSize(size: SizeF): RectangleF {
    RectangleF(0.0, 0.0, size.width, size.height)
  }

  /** A Matrix3x2 kept as an opaque term: the handler only ever builds products
      of operation matrices with the current transform, so no algebraic law of
      matrix multiplication is assumed. Rotation carries the angle in degrees
      (the source converts it to radians before building the matrix). */
  datatype Matrix3x2 =
    | Identity
    | Translation(dx: real, dy: real)
    | Rotation(degrees: real)
    | Scaling(sx: real, sy: real)
    | Affine(m11: real, m12: real, m21: real, m22: real, m31: real, m32: real)
    | Product(left: Matrix3x2, right: Matrix3x2)

  /** Matrix3x2.Multiply(left, right). */
  function Multiply(left: Matrix3x2, right: Matrix3x2): Matrix3x2 {
    Product(left, right)
  }

  /** What a render target's push stack holds. */
  datatype Push = LayerPush | AxisAlignedClipPush

  /** A geometry rendered by FillGeometry or DrawGeometry, with the transform in
      force when it was rendered. */
  datatype Rendered = Filled(fillTransform: Matrix3x2) | Stroked(strokeTransform: Matrix3x2)

  /** Number of entries of `kind` in a push stack. */
  function Depth(pushes: seq<Push>, kind: Push): (n: nat)
    ensures n <= |pushes|
    ensures n == 0 <==> kind !in pushes
  {
    if pushes == [] then 0
    else Depth(pushes[..|pushes| - 1], kind) + (if pushes[|pushes| - 1] == kind then 1 else 0)
  }

  class RenderTarget {
    /** Control.Size, in device-independent pixels. */
    const size: SizeF
    /** Layers and axis-aligned clips pushed and not yet popped, innermost last. */
    var pushes: seq<Push>
    /** Between BeginDraw and EndDraw. */
    var drawing: bool
    /** Control.Transform. */
    var transform: Matrix3x2
    /** What has been rendered, in order. */
    ghost var history: seq<Rendered>

    constructor (size: SizeF)
      ensures this.size == size
      ensures pushes == [] && !drawing && transform == Identity && history == []
    {
      this.size := size;
      pushes := [];
      drawing := false;
      transform := Identity;
      history := [];
    }

    function LayerDepth(): nat
      reads this
    {
      Depth(pushes, LayerPush)
    }

    function AxisAlignedClipDepth(): nat
      reads this
    {
      Depth(pushes, AxisAlignedClipPush)
    }

    method BeginDraw()
      modifies this
      ensures drawing
      ensures pushes == old(pushes) && transform == old(transform) && history == old(history)
    {
      drawing := true;
    }

    /** Ends the frame. The HRESULT the device reports for it is not part of the
        target's state: the handler receives it from its environment. */
    method EndDraw()
      modifies this
      ensures !drawing
      ensures pushes == old(pushes) && transform == old(transform) && history == old(history)
    {
      drawing := false;
    }

    method SetTransform(m: Matrix3x2)
      modifies this
      ensures transform == m
      ensures pushes == old(pushes) && drawing == old(drawing) && history == old(history)
    {
      transform := m;
    }

    method PushLayer()
      modifies this
      ensures pushes == old(pushes) + [LayerPush]
      ensures LayerDepth() == old(LayerDepth()) + 1
      ensures AxisAlignedClipDepth() == old(AxisAlignedClipDepth())
      ensures drawing == old(drawing) && transform == old(transform) && history == old(history)
    {
      pushes := pushes + [LayerPush];
      assert pushes[..|pushes| - 1] == old(pushes);
    }

    /** Direct2D pops the innermost push, which must be a layer. */
    method PopLayer()
      requires |pushes| > 0 && pushes[|pushes| - 1] == LayerPush
      modifies this
      ensures pushes == old(pushes)[..|old(pushes)| - 1]
      ensures LayerDepth() + 1 == old(LayerDepth())
      ensures AxisAlignedClipDepth() == old(AxisAlignedClipDepth())
      ensures drawing == old(drawing) && transform == old(transform) && history == old(history)
    {
      pushes := pushes[..|pushes| - 1];
    }

    method PushAxisAlignedClip()
      modifies this
      ensures pushes == old(pushes) + [AxisAlignedClipPush]
      ensures AxisAlignedClipDepth() == old(AxisAlignedClipDepth()) + 1
      ensures LayerDepth() == old(LayerDepth())
      ensures drawing == old(drawing) && transform == old(transform) && history == old(history)
    {
      pushes := pushes + [AxisAlignedClipPush];
      assert pushes[..|pushes| - 1] == old(pushes);
    }

    /** Direct2D pops the innermost push, which must be an axis-aligned clip. */
    method PopAxisAlignedClip()
      requires |pushes| > 0 && pushes[|pushes| - 1] == AxisAlignedClipPush
      modifies this
      ensures pushes == old(pushes)[..|old(pushes)| - 1]
      ensures AxisAlignedClipDepth() + 1 == old(AxisAlignedClipDepth())
      ensures LayerDepth() == old(LayerDepth())
      ensures drawing == old(drawing) && transform == old(transform) && history == old(history)
    {
      pushes := pushes[..|pushes| - 1];
    }

    method FillGeometry()
      modifies this
      ensures history == old(history) + [Filled(transform)]
      ensures pushes == old(pushes) && drawing == old(drawing) && transform == old(transform)
    {
      history := history + [Filled(transform)];
    }

    method DrawGeometry()
      modifies this
      ensures history == old(history) + [Stroked(transform)]
      ensures pushes == old(pushes) && drawing == old(drawing) && transform == old(transform)
    {
      history := history + [Stroked(transform)];
    }
  }
}
