# Eto: Direct2D graphics-context lifecycle and file identity, in Dafny

This project models two pieces of the Eto cross-platform GUI toolkit that carry
logic of their own, and proves properties of the model.

**The Direct2D graphics handler** (`GraphicsHandler`). This is the object
through which Eto draws on a Direct2D render target. It brackets each frame:

- `BeginDrawing` starts a frame. It makes the target current, resets the
  transform and the save/restore stack, drops any clip layer, and optionally
  pushes an axis-aligned clip.
- `EndDrawing` ends the frame. It pops what was pushed and calls the native
  `EndDraw`.
- `PerformDrawing` runs a frame. It starts over for as long as Direct2D
  reports `D2DERR_RECREATE_TARGET` (`0x8899000C`), on a recreated target where
  the handler can build one.

Between those calls the handler:

- keeps at most one clip layer of its own (`SetClip`, `ResetClip`);
- pre-multiplies the target transform (`TranslateTransform`, `RotateTransform`,
  `ScaleTransform`, `MultiplyTransform`);
- saves and restores transforms on a stack;
- applies a half-pixel offset to strokes and fills, chosen by `PixelOffsetMode`.

The native render target is the class `SharpDX.RenderTarget`. It keeps only the
state the handler's bookkeeping depends on:

- its stack of pushed layers and axis-aligned clips, innermost last;
- a "drawing" flag;
- its transform, kept as an uninterpreted term built from `Identity` and
  `Multiply`;
- a ghost log of the geometry filled or stroked, with the transform in force
  at the time.

The target requires every pop to remove its innermost push, and that push must be of the kind popped.
So the calls of one handler on its target are proved to nest and balance.

Three static members are gathered in `TargetRegistry`: the static
`CurrentRenderTarget`, its lazily created fallback of 2000 x 2000 device pixels, and the setter.
Handlers are meant to share one registry.

`EndDraw` reports an HRESULT that comes from the device, not from the program.
So `EndDrawing`, `Dispose` and `PerformDrawing` take that code as an input
(`deviceResult`, `deviceResults`). A failure code stands for the
`SharpDXException` that SharpDX raises. A failure code is one with the severity
bit set, that is, at least `0x80000000`. An exception is returned as an
`Outcome`.

The pure helpers are modelled as functions, each with its own partner:

- the choice of sweep direction and arc size in `CreateArc`, partnered by a
  reference model of how Direct2D reads an `ArcSegment`;
- the inscribed ellipse of `GetEllipse`, partnered by `BoundingBox`, the
  rectangle an ellipse spans, through `EllipseFitsRectangle`.

**File identity** (`EtoFileInfo`). Files are objects with a `FullName`.

- `==` holds for the same reference, including two nulls.
- `==` is false when exactly one side is null.
- Otherwise `==` compares the full names ordinally, ignoring case.
- `!=` is its negation.
- `Equals(object)` goes through `obj as EtoFileInfo`.
- `Name` and `Extension` are derived from `FullName` through `Path.GetFileName`
  and `Path.GetExtension`.
- The shorter `Open` overloads forward to the abstract three-argument `Open`
  with fixed defaults.

The three-argument `Open` is modelled by the `OpenRequest` it receives.

Floating-point values are modelled as `real`.

## Model

| member | source | states |
|---|---|---|
| `Direct2DDrawing.GraphicsHandler.constructor` | Source/Eto.Platform.Direct2D/Drawing/GraphicsHandler.cs:44-52 | The drawable constructor, on the target created for the drawable, with the field defaults of lines 21-27. The new handler has not begun a frame, holds no clip layer, has an empty transform stack, and starts with `offset` 0.5 and `fillOffset` 0. So `offset - fillOffset == 0.5` holds from the start. It disposes its target and can have it recreated. |
| `Direct2DDrawing.GraphicsHandler.Sharing` | Source/Eto.Platform.Direct2D/Drawing/GraphicsHandler.cs:38-42 | The copy constructor shares the other handler's render target and does not dispose it. It has neither a drawable nor an image, so `CreateRenderTarget` cannot replace its target. Its other fields take their defaults. |
| `Direct2DDrawing.GraphicsHandler.ResetClip` | Source/Eto.Platform.Direct2D/Drawing/GraphicsHandler.cs:177-186 | When a clip layer is held, it pops exactly that layer (one less layer, the same number of axis-aligned clips) and sets `clipBounds` to the full target. Otherwise every field stays the same. Either way no layer is held afterwards, so a second call does nothing. |
| `Direct2DDrawing.GraphicsHandler.SetClip` | Source/Eto.Platform.Direct2D/Drawing/GraphicsHandler.cs:145-159 | Any earlier clip layer is replaced: the target's stack gets exactly one handler-owned layer on top of what lies below it. `clipBounds` is the given rectangle, and nothing else changes. |
| `Direct2DDrawing.GraphicsHandler.SetClipPath` | Source/Eto.Platform.Direct2D/Drawing/GraphicsHandler.cs:161-175 | The same as `SetClip`, with `clipBounds` equal to the path's bounds. |
| `Direct2DDrawing.GraphicsHandler.TranslateTransform` | Source/Eto.Platform.Direct2D/Drawing/GraphicsHandler.cs:188-191 | The new transform is `Multiply(Translation(dx, dy), old transform)`, and no other state changes. |
| `Direct2DDrawing.GraphicsHandler.RotateTransform` | Source/Eto.Platform.Direct2D/Drawing/GraphicsHandler.cs:193-196 | The new transform is `Multiply(Rotation(angle), old transform)`, and no other state changes. |
| `Direct2DDrawing.GraphicsHandler.ScaleTransform` | Source/Eto.Platform.Direct2D/Drawing/GraphicsHandler.cs:198-201 | The new transform is `Multiply(Scaling(sx, sy), old transform)`, and no other state changes. |
| `Direct2DDrawing.GraphicsHandler.MultiplyTransform` | Source/Eto.Platform.Direct2D/Drawing/GraphicsHandler.cs:203-206 | The new transform is `Multiply(matrix, old transform)`, and no other state changes. |
| `Direct2DDrawing.GraphicsHandler.SaveTransform` | Source/Eto.Platform.Direct2D/Drawing/GraphicsHandler.cs:208-215 | It pushes the current transform onto the stack and changes nothing else. |
| `Direct2DDrawing.GraphicsHandler.RestoreTransform` | Source/Eto.Platform.Direct2D/Drawing/GraphicsHandler.cs:217-220 | The stack must be non-empty. The transform becomes the innermost saved one, which is removed from the stack, so a save followed by a restore gives back both the transform and the stack. |
| `Direct2DDrawing.GraphicsHandler.FillPath` | Source/Eto.Platform.Direct2D/Drawing/GraphicsHandler.cs:374-380 | The geometry is filled under `Translation(-fillOffset, -fillOffset)` times the old transform. Afterwards the transform and the stack are what they were before, as is everything else. |
| `Direct2DDrawing.GraphicsHandler.DrawPath` | Source/Eto.Platform.Direct2D/Drawing/GraphicsHandler.cs:382-389 | The geometry is stroked under `Translation(offset, offset)` times the old transform. Afterwards the transform and the stack are what they were before. |
| `Direct2DDrawing.GraphicsHandler.GetPixelOffsetMode` | Source/Eto.Platform.Direct2D/Drawing/GraphicsHandler.cs:258-260 | As written, the getter answers `Half` when the stroke offset is the one the setter stores for `None`, and `None` when it is the one stored for `Half`. |
| `Direct2DDrawing.GraphicsHandler.IntendedPixelOffsetMode` | Source/Eto.Platform.Direct2D/Drawing/GraphicsHandler.cs:258-274 | The corrected getter answers `None` for the stroke offset stored for `None`, and `Half` for the one stored for `Half`. |
| `Direct2DDrawing.GraphicsHandler.SetPixelOffsetMode` | Source/Eto.Platform.Direct2D/Drawing/GraphicsHandler.cs:261-274 | `None` stores `(0.5, 0)` and anything else stores `(0, -0.5)`. `offset - fillOffset == 0.5` is kept. The getter as written then reports the other mode, and the corrected getter reports the mode that was set. |
| `Direct2DDrawing.OffsetsFor` | Source/Eto.Platform.Direct2D/Drawing/GraphicsHandler.cs:261-274 | Every pair the setter stores differs by exactly 0.5. The stroke offset is 0.5 exactly for `None`. |
| `Direct2DDrawing.SetThenGetFlips` | Source/Eto.Platform.Direct2D/Drawing/GraphicsHandler.cs:258-274 | For both modes, on any handler holding the pair the setter stores, the getter as written gives the other mode. |
| `Direct2DDrawing.IntendedSetThenGet` | Source/Eto.Platform.Direct2D/Drawing/GraphicsHandler.cs:258-274 | For both modes, on any handler holding the pair the setter stores, the corrected getter gives back that mode. |
| `Direct2DDrawing.TargetRegistry.Get` | Source/Eto.Platform.Direct2D/Drawing/GraphicsHandler.cs:430-458 | On first use it creates the fallback target, 2000 x 2000 device pixels, and keeps it afterwards. It answers `current ?? global`. |
| `Direct2DDrawing.GraphicsHandler.BeginDrawing` | Source/Eto.Platform.Direct2D/Drawing/GraphicsHandler.cs:467-479 | Afterwards: <br>- the handler's target is current and drawing; <br>- the transform is `Identity` and the stack is empty; <br>- no clip layer is held and `clipBounds` is the full target; <br>- `hasBegan` is true; <br>- exactly one axis-aligned clip was pushed when `clipRect` has a value, and none otherwise. |
| `Direct2DDrawing.GraphicsHandler.StartFrame` | Source/Eto.Platform.Direct2D/Drawing/GraphicsHandler.cs:469-473 | The first steps of `BeginDrawing`: the target becomes current and starts drawing, the transform is `Identity` and the stack is empty. Nothing else changes. |
| `Direct2DDrawing.GraphicsHandler.PushClipRect` | Source/Eto.Platform.Direct2D/Drawing/GraphicsHandler.cs:476-477 | Exactly one axis-aligned clip is pushed when the rectangle has a value, and none otherwise. The layer count and the rest of the state stay the same. |
| `Direct2DDrawing.GraphicsHandler.EndDrawing` | Source/Eto.Platform.Direct2D/Drawing/GraphicsHandler.cs:481-500 | With no frame begun it changes nothing and completes. Otherwise it: <br>- drops the clip layer; <br>- clears the current target; <br>- pops the axis-aligned clip exactly when `popClip` is set; <br>- ends drawing. <br>Then it either completes with `hasBegan` false, or, on a failure code, throws that code with `hasBegan` still true. |
| `Direct2DDrawing.FinalAttempt` | Source/Eto.Platform.Direct2D/Drawing/GraphicsHandler.cs:505-527 | The `do…while` loop stops at the first attempt whose `EndDraw` reports anything other than `0x8899000C`. Every earlier attempt reported exactly that code. |
| `Direct2DDrawing.GraphicsHandler.Attempt` | Source/Eto.Platform.Direct2D/Drawing/GraphicsHandler.cs:507-525 | One pass of the loop body, with `draw` returning normally and leaving the handler alone. It asks for another pass exactly when `EndDraw` reported `0x8899000C`. In that case the target becomes current and the global fallback is dropped. A handler for a drawable or an image gets a fresh, empty target; a copied handler keeps its target. In every other case the target is kept and its stack is back to what lay below the clip layer. |
| `Direct2DDrawing.GraphicsHandler.PerformDrawing` | Source/Eto.Platform.Direct2D/Drawing/GraphicsHandler.cs:502-528 | When `draw` returns normally and leaves the handler alone: <br>- it always passes `popClip == (clipRect != null)`, so the axis-aligned clip it pushes is popped; <br>- if the first attempt ends the loop, or the handler is a copy, the target is unchanged and its stack is what it was below the clip layer; <br>- otherwise the handler ends on a fresh target with an empty stack. <br>The global fallback is cleared exactly when some attempt reported `0x8899000C`. `hasBegan` is left true exactly when the final error is a failure, which is swallowed. The current target ends up null, and the offsets are kept. |
| `Direct2DDrawing.GraphicsHandler.Dispose` | Source/Eto.Platform.Direct2D/Drawing/GraphicsHandler.cs:530-535 | With no frame open, or when not disposing, it changes nothing. Otherwise it is `EndDrawing(false)`: the clip layer is popped, any axis-aligned clip stays pushed, drawing ends and the current target is cleared. Everything else is unchanged, and a failure code is thrown with `hasBegan` still true. |
| `Direct2DDrawing.EndThenDispose` | Source/Eto.Platform.Direct2D/Drawing/GraphicsHandler.cs:481-535 | After `EndDrawing` completes, a following `Dispose(true)` changes nothing: the final state is the one `EndDrawing` leaves, given in full for both an open and a closed frame. So ending and then disposing is harmless. |
| `Direct2DDrawing.ArcFlagsDrawRequestedArc` | Source/Eto.Platform.Direct2D/Drawing/GraphicsHandler.cs:342-350 | For every non-zero sweep short of a full turn, the direction and size flags make Direct2D draw the requested arc of the requested ellipse, swept by exactly that angle. |
| `Direct2DDrawing.FullTurnDrawsNothing` | Source/Eto.Platform.Direct2D/Drawing/GraphicsHandler.cs:339-350 | A sweep of ±360 degrees gets counter-clockwise and large. In exact arithmetic its end point is its start point, so Direct2D draws nothing. |
| `Direct2DDrawing.FullTurnMissDraws` | Source/Eto.Platform.Direct2D/Drawing/GraphicsHandler.cs:327-350 | With the flags a full turn gets, an end point just clockwise of the start draws the ellipse almost all the way round counter-clockwise; one more than half a turn on clockwise draws almost the whole mirrored ellipse counter-clockwise. |
| `Direct2DDrawing.SweepBeyondFullTurn` | Source/Eto.Platform.Direct2D/Drawing/GraphicsHandler.cs:339-350 | A sweep beyond a full turn gets counter-clockwise and large. Direct2D then draws counter-clockwise from the start point to where the end point lies, never the requested sweep. When the end point lies more than half a turn on clockwise, the arc lands on the other ellipse through the two points. |
| `Direct2DDrawing.SweepOf400Degrees` | Source/Eto.Platform.Direct2D/Drawing/GraphicsHandler.cs:339-350 | A 400-degree clockwise request draws a 320-degree counter-clockwise arc. A 400-degree counter-clockwise request lands on the other ellipse. |
| `Direct2DDrawing.CreateArcFlags` | Source/Eto.Platform.Direct2D/Drawing/GraphicsHandler.cs:342-343 | The flag choice, partnered by `ArcFlagsDrawRequestedArc`, `FullTurnDrawsNothing`, `SweepBeyondFullTurn` and `ArcFlagsReverse`, which state what the flags make Direct2D draw. |
| `Direct2DDrawing.ArcFlagsReverse` | Source/Eto.Platform.Direct2D/Drawing/GraphicsHandler.cs:342-343 | Negating a non-zero sweep short of a full turn flips the direction and keeps the arc size. |
| `Direct2DDrawing.EndDelta` | Source/Eto.Platform.Direct2D/Drawing/GraphicsHandler.cs:338-340 | An arc's end point lies at a clockwise angle in [0, 360) from its start, and that angle differs from the sweep by whole turns. |
| `Direct2DDrawing.GetEllipse` | Source/Eto.Platform.Direct2D/Drawing/GraphicsHandler.cs:101-107 | The inscribed ellipse, partnered by `EllipseFitsRectangle`. |
| `Direct2DDrawing.EllipseFitsRectangle` | Source/Eto.Platform.Direct2D/Drawing/GraphicsHandler.cs:101-107 | The ellipse `GetEllipse` builds has exactly the given rectangle as its bounding box. |
| `EtoIO.EqualsOrdinalIgnoreCase` | Source/Eto/IO/EtoFileInfo.cs:77 | The character-by-character comparison holds exactly when the two names are equal after case folding. |
| `EtoIO.FileEquals` | Source/Eto/IO/EtoFileInfo.cs:71-78 | `==` holds exactly when both files are null, or both are non-null and their full names agree after case folding. |
| `EtoIO.FileNotEquals` | Source/Eto/IO/EtoFileInfo.cs:80-83 | `!=` holds exactly when one side is null and the other is not, or both are non-null and their folded names differ. |
| `EtoIO.SameReferenceIsEqual` | Source/Eto/IO/EtoFileInfo.cs:73-74 | A reference is `==` to itself, null included, and is never `!=` to itself. |
| `EtoIO.OneNullIsUnequal` | Source/Eto/IO/EtoFileInfo.cs:75-76 | A file and null are never `==`, in either order, and always `!=`. |
| `EtoIO.EqualityIsSymmetric` | Source/Eto/IO/EtoFileInfo.cs:71-78 | `==` is symmetric. |
| `EtoIO.EqualityIsTransitive` | Source/Eto/IO/EtoFileInfo.cs:71-78 | `==` is transitive, so together with the two lemmas above it is an equivalence. |
| `EtoIO.NotEqualsIsNegation` | Source/Eto/IO/EtoFileInfo.cs:80-83 | `!=` is exactly the negation of `==`. |
| `EtoIO.EtoFileInfo.Equals` | Source/Eto/IO/EtoFileInfo.cs:61-64 | `Equals` is false for null and for any object that is not an `EtoFileInfo`. For a file it agrees with `==`. |
| `EtoIO.EqualsAgreesWithOperator` | Source/Eto/IO/EtoFileInfo.cs:61-64 | For every file argument, the null one included, `Equals` gives the same answer as `==`. |
| `EtoIO.GetFileName` | Source/Eto/IO/EtoFileInfo.cs:20 | The name is the suffix of the path after its last separator: it contains no separator, and it is preceded by one whenever it is shorter than the path. |
| `EtoIO.GetExtension` | Source/Eto/IO/EtoFileInfo.cs:25 | The extension is either empty or a suffix that starts with its only `.` and has at least one more character. It is empty only when the path ends in `.` or its last segment has no `.`. |
| `EtoIO.EtoFileInfo.Name` | Source/Eto/IO/EtoFileInfo.cs:18-21 | `Name` is the last segment of `FullName`. |
| `EtoIO.EtoFileInfo.Extension` | Source/Eto/IO/EtoFileInfo.cs:23-26 | `Extension` is empty, or the suffix of `Name` from its last `.`. It is empty only when `Name` has no `.` or ends in one. |
| `EtoIO.SameFullNameSameNameAndExtension` | Source/Eto/IO/EtoFileInfo.cs:18-26 | Files with the same `FullName` have the same `Name`, `Extension` and hash code. |
| `EtoIO.EtoFileInfo.GetHashCode` | Source/Eto/IO/EtoFileInfo.cs:66-69 | The hash of `FullName` as written, partnered by `SameFullNameSameNameAndExtension` and `EqualFilesCanHashApart`. |
| `EtoIO.EqualFilesCanHashApart` | Source/Eto/IO/EtoFileInfo.cs:66-69 | The hash is taken over the exact characters: files named `a` and `A` are `==` but hash differently. |
| `EtoIO.EqualFilesHashAlike` | Source/Eto/IO/EtoFileInfo.cs:66-69 | A hash of the case-folded name agrees with `==`. |
| `EtoIO.EtoFileInfo.GetHashCodeIgnoringCase` | Source/Eto/IO/EtoFileInfo.cs:66-69 | The corrected hash, over the case-folded name, partnered by `EqualFilesHashAlike`. |
| `EtoIO.OpenOverloadsForward` | Source/Eto/IO/EtoFileInfo.cs:33-48 | These calls reach the three-argument `Open` with `FileShare.Read`: <br>- `Open(mode)` with `FileAccess.ReadWrite`; <br>- `Open(mode, access)` with the given access; <br>- `OpenRead()` as `Open(FileMode.Open)`. |
| `EtoIO.EtoFileInfo.Open` | Source/Eto/IO/EtoFileInfo.cs:33-36 | `Open(mode)`, partnered by `OpenOverloadsForward`. |
| `EtoIO.EtoFileInfo.OpenWithAccess` | Source/Eto/IO/EtoFileInfo.cs:38-41 | `Open(mode, access)`, partnered by `OpenOverloadsForward`. |
| `EtoIO.EtoFileInfo.OpenRead` | Source/Eto/IO/EtoFileInfo.cs:45-48 | `OpenRead()` as written, partnered by `OpenOverloadsForward` and `OpenReadRequestsWriteAccess`. |
| `EtoIO.OpenReadRequestsWriteAccess` | Source/Eto/IO/EtoFileInfo.cs:45-48 | As written, `OpenRead` requests `FileAccess.ReadWrite`. |
| `EtoIO.OpenReadOnlyRequestsReadAccess` | Source/Eto/IO/EtoFileInfo.cs:45-48 | The corrected `OpenRead` opens an existing file for reading only, with read sharing. |
| `EtoIO.EtoFileInfo.OpenReadOnly` | Source/Eto/IO/EtoFileInfo.cs:45-48 | The corrected `OpenRead`, partnered by `OpenReadOnlyRequestsReadAccess`. |

## Left out

- Native drawing calls are not modelled. This covers `DrawRectangle`, `FillRectangle`, `DrawLine`, the ellipse, arc and pie calls, `DrawText`, `MeasureString`, `DrawImage`, `Clear`, `Flush`, `AntiAlias` and `ImageInterpolation`. They act on native resources. Only `FillPath` and `DrawPath` are kept, because they work through the transform stack.
- Render-target creation is not modelled: `CreateRenderTarget`, `HandleSizeChanged`, `CreateFromImage` and the bitmap `Reset` in `EndDrawing`. These are native interop and WinForms. A handler set up by `CreateFromImage` is the model's constructor on the image's target followed by `BeginDrawing(Null)`, so it starts inside an open frame. For a handler made for a drawable or an image, a recreated target is a fresh `RenderTarget` of the old size; the drawable's new client size is not modelled. For a copied handler `CreateRenderTarget` does nothing and the target is kept.
- `ClipBounds` is left out. It applies the inverted transform, which is float geometry.
- `PointsPerPixel`, `DpiX` and `DpiY` are left out. They read DPI from the device. So the model does not tell device pixels from device-independent pixels: the fallback target's 2000 x 2000 device pixels become its `size`, which agrees with the target's `Control.Size` only at 96 DPI.
- The start and end points of `CreateArc` are left out, because they are trigonometry. Only the flags and the angle at which the end point lies are modelled.
- Transforms are uninterpreted terms. No law of matrix multiplication (such as an identity or associativity law) is assumed or proved.
- `Direct2DDrawing.GraphicsHandler.PerformDrawing`: the draw callback is not modelled; each frame here draws nothing and `draw` is taken to return normally. If `draw` throws a `SharpDXException`, the source skips `EndDrawing`, so the axis-aligned clip and the clip layer stay pushed, the target keeps drawing, whatever `draw` changed (saved transforms, the pixel offset mode) stays, and on `0x8899000C` the loop still recreates the target. None of that is modelled: only `EndDraw` is modelled as raising a `SharpDXException`. A run in which the device asks for recreation forever makes the source loop without end, and the precondition excludes it. For a copied handler that is the expected run once the device is lost: `CreateRenderTarget` cannot replace its target, so the loop retries on the same lost target, as `Attempt` shows by keeping `control`.
- `Direct2DDrawing.FullTurnDrawsNothing`: holds in exact arithmetic only. The source computes the end point in single precision, so at ±360 degrees rounding decides whether the end point meets the start point; when the end point lands just clockwise of the start, almost the whole requested ellipse is drawn, and when it lands just counter-clockwise of it, almost the whole mirrored ellipse, on the far side of the start point, is drawn (`FullTurnMissDraws`).
- `Direct2DDrawing.SweepBeyondFullTurn`: what the authors intended for a sweep beyond a full turn is not evident from the source, so no corrected arc is modelled; the lemma records what the code as written makes Direct2D draw.
- `Direct2DDrawing.TargetRegistry`: the source has one static pair of targets. The model passes a registry to each handler and a copied handler shares its original's, but nothing forces two unrelated handlers to be given the same registry.
- A handler copy and its original acting on their shared target at the same time are not modelled. Each handler's `Valid()` assumes its own clip layer is innermost, so once a copy pushes a layer above the original's, nothing more is proved about the original; in the source the original's `ResetClip` would then pop the copy's layer.
- `Direct2DDrawing.GraphicsHandler.EndDrawing`: `Dispose(true)` always passes `popClip = false`. So disposing in the middle of a frame that pushed an axis-aligned clip leaves that clip pushed. The model shows this; it does not forbid it.
- A null transform stack and an empty one are modelled as the same empty sequence. Every operation treats them alike: `SaveTransform` creates the stack, and `RestoreTransform` throws on both, which is why it has a non-empty precondition.
- `WidgetHandler.Dispose` from the base class, and `DisposeControl`'s effect there, are not part of this model. Only the flag is kept.
- `EtoIO.Fold` folds only ASCII letters. Invariant-culture upper-casing of other characters is not modelled. The equivalence lemmas do not depend on which fold is used.
- `EtoIO.StringHash` stands in for `String.GetHashCode`, whose values are not specified and not stable across processes. Its 32-bit wrap-around is not modelled.
- `EtoIO.GetFileName` and `EtoIO.GetExtension` follow the Windows .NET Framework rules, with `\`, `/` and `:` as separators. They ignore invalid-character checks and null paths.
- `CompareTo` is left out, because it uses culture-sensitive comparison.
- `ReadOnly`, `Directory`, `Delete` and the three-argument `Open` are abstract I/O. The model records only the arguments `Open` receives.
- `GetIcon` is left out: it forwards `Name` to the icon provider's `GetFileIcon`, which is not part of this model.

## Findings

| source | as written | input that shows it | evidently intended | confidence | as-written member | corrected member |
|---|---|---|---|---|---|---|
| Source/Eto.Platform.Direct2D/Drawing/GraphicsHandler.cs:260 | The getter answers `None` when `offset == 0`, but the setter stores `offset = 0` for `Half`. | Set `PixelOffsetMode.None`, then read it: the answer is `Half`. | The getter reads `None` back when `offset` is 0.5, so setting then getting is the identity (`IntendedSetThenGet`). The handler keeps the getter as written. | high; not executed | `Direct2DDrawing.SetThenGetFlips` | `Direct2DDrawing.GraphicsHandler.IntendedPixelOffsetMode` |
| Source/Eto/IO/EtoFileInfo.cs:68 | `GetHashCode` hashes `FullName` case-sensitively, but `==` ignores case. | Files named `a` and `A`: they are `==`, but their hash codes differ. | The hash is taken over the case-folded name, so `==` files hash alike (`EqualFilesHashAlike`). | high; not executed | `EtoIO.EqualFilesCanHashApart` | `EtoIO.EtoFileInfo.GetHashCodeIgnoringCase` |
| Source/Eto/IO/EtoFileInfo.cs:47 | `OpenRead()` forwards to `Open(FileMode.Open)`, which requests `FileAccess.ReadWrite`. | `OpenRead()` on any file: the access is `ReadWrite`, so a read-only file cannot be opened for reading. | It opens with `FileAccess.Read` (`OpenReadOnlyRequestsReadAccess`). | medium; not executed | `EtoIO.OpenReadRequestsWriteAccess` | `EtoIO.EtoFileInfo.OpenReadOnly` |
