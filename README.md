# Window sizing in the WM window manager, modelled in Dafny

This project models the sizing core of `WM.Window` (`typescript/WM_Window.ts`):

- **The `Sizer`.** A one-dimensional relaxation solver.
  - `Build` turns a container's children into one rect per child. A child that is not a container gets a null slot.
  - Each rect gets a size constraint that records its width.
  - A container constraint is made for each child edge that the control graph links to the container.
  - A buffer constraint is made for each horizontal reference pair between two children.
  - `ChangeSize` moves the container constraints for the new container width. It then runs five sweeps of the size, container and buffer passes, and copies every rect back to its control.
- **The anchor island.** `TakeConnectedAnchorControls` removes from the anchor list, by swap-with-last, every entry whose snap-expanded box meets a given box. `MakeAnchorControlIsland` grows a worklist from the window outwards and keeps only the connected island.
- **Edge dragging.** This covers three things:
  - the size mask under the mouse (`GetSizeMask`);
  - the resize-cursor name (`SetResizeCursor`);
  - the geometry `OnSize` assigns from the drag offset, including the 50-unit minimum clamp.

JavaScript numbers are modelled as `real`, and the solver's coefficients 0.5 and 0.1 are exact. Controls are named by index or id. Object references from a constraint to a rect become slot indices, and a `null` slot is `None`.

Modules:

- `Geometry` (`geometry.dfy`): `Side` and its numeric encoding, `Side ^ 1`, vectors and placements.
- `Relaxation` (`relaxation.dfy`): one step and one pass of each constraint kind as pure functions. A pass is a left fold over its list. The sweep and `n` sweeps are built from the passes, and the lemmas about them live here too.
- `SizerBuild` (`sizer_build.dfy`): what `Build` produces, as functions of the children and the control graph, with lemmas characterising each list.
- `SizerClass` (`sizer.dfy`): the class `Sizer`. Its rects are an array that the passes overwrite in place, and its constraint lists are fields. Every method is proved equal to the functions above.
- `Anchors` (`anchors.dfy`): the class `Window` with its anchor list. It has the swap-with-last scan and the island worklist, each proved equal to a recursive specification function. Lemmas prove that the island is exactly the connected component of the window within the anchor list.
- `Sizing` (`sizing.dfy`): the size mask, the cursor name with a parser that reads it back, the drag geometry, and a class holding the drag state that `OnSize` updates.

## Model

| member | source | states |
|---|---|---|
| Geometry.Ordinal | typescript/WM_Window.ts:6-13 | `Side` values are numbered 0..4 in declaration order |
| Geometry.Flip | typescript/WM_Window.ts:125 | `side ^ 1` is the opposite side on the same axis: never the side itself, never `None`, and horizontal stays horizontal |
| Geometry.RefInfoIndex | typescript/WM_Window.ts:93 | `i * 4 + side` encodes control `i` and the side: dividing by 4 gives `i`, the remainder is the side's number |
| Relaxation.SizeStep | typescript/WM_Window.ts:176-183 | a size constraint keeps its rect's centre and moves the width a tenth of the way to the target; the distance to the target shrinks to 0.9 of what it was; no other slot changes; null slots stay null |
| Relaxation.SizePass | typescript/WM_Window.ts:172-184 | the size pass keeps the number of slots and which ones are null |
| Relaxation.SizePassEffect | typescript/WM_Window.ts:172-184 | when constraints name distinct rects, each constrained rect keeps its centre and takes the blended width, and every other slot is unchanged |
| Relaxation.ContainerStep | typescript/WM_Window.ts:165-168 | a Left constraint sets the rect's left edge to its position and keeps the right edge; any other side sets the right edge and keeps the left; no other slot changes |
| Relaxation.ContainerPass | typescript/WM_Window.ts:161-170 | the container pass keeps the number of slots and which ones are null |
| Relaxation.ContainerPassEffect | typescript/WM_Window.ts:161-170 | with no edge pinned twice, every pinned edge ends at its constraint's position, and every edge no constraint pins is unchanged |
| Relaxation.BufferStep | typescript/WM_Window.ts:190-201 | the facing edges of the two rects end exactly `border` apart, around their old midpoint; the other edges and all other slots are unchanged |
| Relaxation.BufferPass | typescript/WM_Window.ts:186-203 | the buffer pass keeps the number of slots and which ones are null |
| Relaxation.BufferPassKeepsLeft | typescript/WM_Window.ts:186-203 | a left edge that no buffer constraint writes is unchanged by the pass |
| Relaxation.BufferPassKeepsRight | typescript/WM_Window.ts:186-203 | a right edge that no buffer constraint writes is unchanged by the pass |
| Relaxation.Sweep | typescript/WM_Window.ts:148-150 | one sweep (size, container, buffer) keeps the slot shape |
| Relaxation.Relax | typescript/WM_Window.ts:146-151 | `n` sweeps keep the slot shape |
| Relaxation.PinHoldsAfterRelax | typescript/WM_Window.ts:146-151 | after at least one sweep, a pinned edge that no buffer constraint faces sits exactly at its constraint's position |
| Relaxation.SizeOnlySweep | typescript/WM_Window.ts:176-183 | with only size constraints, one sweep keeps each rect's centre and multiplies its width error by 0.9 |
| Relaxation.SizeOnlyConverges | typescript/WM_Window.ts:146-151 | with only size constraints, after `n` sweeps each rect keeps its centre and its width error is `0.9^n` times the initial error |
| SizerBuild.BuildRects | typescript/WM_Window.ts:63-88 | one slot per child, in child order; a slot holds a rect iff its child is a container, with the child's left and right |
| SizerBuild.BuildSizeConstraints | typescript/WM_Window.ts:83-87 | at most one size constraint per child; which ones, with what widths and in what order, is given by `SizeConstraintsInOrder`, `SizedSlotsAreContainers` and `SizeConstraintsMatchRects` |
| SizerBuild.SizeConstraintsInOrder | typescript/WM_Window.ts:83-87 | every size constraint names a container child and records its width; the constraints come in strictly increasing slot order |
| SizerBuild.SizedSlotsAreContainers | typescript/WM_Window.ts:64-88 | the slots that have a size constraint are exactly the container children |
| SizerBuild.SizeConstraintsMatchRects | typescript/WM_Window.ts:83-87 | exactly one size constraint per non-null slot, in increasing slot order, each recording its rect's build-time width |
| SizerBuild.BuildContainerConstraints | typescript/WM_Window.ts:90-109 | at most two pins per child; which pins exist and where they sit is given by `ContainerConstraintsFromRefInfos` |
| SizerBuild.ContainerConstraintsFromRefInfos | typescript/WM_Window.ts:90-109 | a container constraint exists iff the child's Left (position 0) or Right (position rest size) reference info references the container; no edge is pinned twice |
| SizerBuild.BuildBufferConstraints | typescript/WM_Window.ts:111-128 | at most one buffer constraint per reference; which ones, and in what order, is given by `BufferConstraintsFromRefs` and `BufferConstraintsInRefOrder` |
| SizerBuild.BufferConstraintsFromRefs | typescript/WM_Window.ts:111-128 | a buffer constraint exists iff there is a horizontal reference with `FromIndex < ToIndex`, so vertical references, reverse duplicates and references to the parent container (`ToIndex == -1`) yield none; it links two distinct rects on opposite sides; there are at most as many as references |
| SizerBuild.EmittingIndices | typescript/WM_Window.ts:111-128 | the references that yield a buffer are listed by strictly increasing index, each one emitting and every emitting one present |
| SizerBuild.BufferConstraintsInRefOrder | typescript/WM_Window.ts:111-128 | the buffer list has exactly one constraint per emitting reference, built from it, in reference order |
| SizerBuild.BuildIsApplicable | typescript/WM_Window.ts:59-129 | when every child is a container and every reference that yields a buffer names an existing child, every rect slot is filled and every constraint names an existing rect |
| SizerClass.Retarget | typescript/WM_Window.ts:133-144 | each container constraint keeps its rect and side; Left ones move to `half_delta + border`, the others to `rest − (half_delta + border)` |
| SizerClass.WriteBack | typescript/WM_Window.ts:154-158 | the control's x span is the rect shifted back by `half_delta`; its y position and height are untouched |
| SizerClass.PinnedPanelSitsAtBorder | typescript/WM_Window.ts:131-159 | after `ChangeSize(newSize)`, a control pinned on the Left (and faced by no buffer) sits at x = border; one pinned on the Right ends at `newSize − border` |
| SizerClass.CollectRects | typescript/WM_Window.ts:63-88 | the rect loop of `Build` fills a fresh array equal to `BuildRects` and the size list equal to `BuildSizeConstraints` |
| SizerClass.CollectContainerConstraints | typescript/WM_Window.ts:90-109 | the container loop of `Build` yields `BuildContainerConstraints` |
| SizerClass.CollectBufferConstraints | typescript/WM_Window.ts:111-128 | the reference loop of `Build` yields `BuildBufferConstraints` |
| SizerClass.Sizer.Build | typescript/WM_Window.ts:59-129 | a new sizer records the rest size and holds exactly the rect and constraint lists the `SizerBuild` functions describe; with all children containers and every buffer-yielding reference naming a child it is ready to relax (`Solvable`) |
| SizerClass.Sizer.ApplySizeConstraints | typescript/WM_Window.ts:172-184 | the in-place pass leaves the array equal to `SizePass` of its old contents |
| SizerClass.Sizer.ApplyContainerConstraints | typescript/WM_Window.ts:161-170 | the in-place pass leaves the array equal to `ContainerPass` of its old contents |
| SizerClass.Sizer.ApplyBufferConstraint | typescript/WM_Window.ts:186-203 | one in-place buffer step leaves the array equal to `BufferStep` of its old contents |
| SizerClass.Sizer.ApplyBufferConstraints | typescript/WM_Window.ts:186-203 | the in-place pass leaves the array equal to `BufferPass` of its old contents |
| SizerClass.Sizer.RetargetContainerConstraints | typescript/WM_Window.ts:135-144 | the container list becomes `Retarget` of the old list; nothing else changes |
| SizerClass.Sizer.SweepOnce | typescript/WM_Window.ts:146-151 | the size, container and buffer passes in turn leave the array equal to `Sweep` of its old contents |
| SizerClass.Sizer.RunSweeps | typescript/WM_Window.ts:146-151 | five in-place sweeps leave the array equal to `Relax(old, 5)` |
| SizerClass.Sizer.CopyBack | typescript/WM_Window.ts:153-158 | every control's placement becomes `WriteBack` of its old placement and its rect |
| SizerClass.Sizer.ChangeSize | typescript/WM_Window.ts:131-159 | records the new size, retargets the container constraints, leaves the rects at five sweeps of relaxation and every control at the write-back of its rect; the sizer stays usable |
| Anchors.SwapRemove | typescript/WM_Window.ts:591-592 | overwriting entry `i` with the last entry and dropping the last removes exactly one copy of entry `i` and keeps the entries before `i` |
| Anchors.TakeFrom | typescript/WM_Window.ts:579-600 | the scan moves entries without losing or duplicating any (the multiset of both lists is kept), and only appends to the taken list |
| Anchors.TakeFromSplits | typescript/WM_Window.ts:576-601 | the scan moves every copy of each entry that intersects the box to the taken list, and leaves every other entry in the pool |
| Anchors.TakeSplits | typescript/WM_Window.ts:576-601 | after the scan, no remaining entry intersects the box; every appended entry intersects it; pool and taken list together are the old ones, as multisets |
| Anchors.Grow | typescript/WM_Window.ts:612-617 | the worklist loop keeps the multiset of pool and island and only appends to the island; its invariants are given by `GrowStep` and `GrowKeeps` |
| Anchors.GrowStep | typescript/WM_Window.ts:613-617 | one worklist step keeps every island entry chained to the window, keeps the expanded entries (now one more) clear of the pool, and preserves the partition of the entries |
| Anchors.GrowKeeps | typescript/WM_Window.ts:612-617 | each worklist step keeps every island entry chained to the window; when the list is exhausted no leftover entry touches the window or the island; the partition of the entries is preserved |
| Anchors.IslandSplit | typescript/WM_Window.ts:603-621 | the leftovers and the island together are the old anchor list as a multiset; closure and reachability are given by `IslandIsClosed`, `ChainedReachable` and `IslandComplete` |
| Anchors.IslandIsClosed | typescript/WM_Window.ts:603-621 | the island and the dropped entries partition the anchor list; every island entry is chained to the window; no dropped entry touches the window or an island entry |
| Anchors.ChainedReachable | typescript/WM_Window.ts:603-621 | every island entry is reached from the window by a path of intersecting controls that passes only through island controls |
| Anchors.IslandComplete | typescript/WM_Window.ts:603-621 | every path of intersections from the window through anchor-list controls stays on island controls |
| Anchors.Window.TakeConnectedAnchorControls | typescript/WM_Window.ts:576-601 | the in-place scan leaves the anchor list and the taken list exactly as `TakeFrom` describes |
| Anchors.Window.MakeAnchorControlIsland | typescript/WM_Window.ts:603-621 | the anchor list becomes the island `IslandSplit` describes, visiting entries appended during the worklist loop too |
| Sizing.AxisMask | typescript/WM_Window.ts:523-530 | the mask component is -1 iff the mouse is in the near band; it is 1 iff the mouse is in the far band and not the near one, since the near test runs second and overrides; otherwise it is 0 |
| Sizing.GetSizeMask | typescript/WM_Window.ts:511-533 | the mouse is made relative to the parent when there is one; each component is -1, 0 or 1, as `AxisMask` characterises |
| Sizing.WideAxisHasNoOverride | typescript/WM_Window.ts:523-526 | on an axis at least two side bars long, the mask is 1 iff the mouse is in the far band |
| Sizing.ResizeCursor | typescript/WM_Window.ts:538-550 | the cursor name is empty iff the mask is zero on both axes |
| Sizing.CursorRoundTrip | typescript/WM_Window.ts:538-550 | reading the cursor name back gives exactly the signs of both mask components |
| Sizing.ResizeAxis | typescript/WM_Window.ts:827-834 | one axis of the drag (the same arithmetic as the clamp at :993-995): the size is at least 50 and the position at most 50 before the start's far edge; its exact values are given by `FarEdgeStays` and `NearEdgeStays` |
| Sizing.Resized | typescript/WM_Window.ts:993-995 | after the clamp, width and height are at least 50, and the position is at most 50 before the far edge of the drag start |
| Sizing.FarEdgeStays | typescript/WM_Window.ts:830-834 | dragging the near edge (mask ≤ 0) never moves the far edge, clamped or not, and the new size is the start size plus the scaled offset, at least 50 |
| Sizing.NearEdgeStays | typescript/WM_Window.ts:993-995 | dragging the far edge (mask ≥ 0) of a window at least 50 wide keeps its position, and the size follows the offset down to 50 |
| Sizing.SizingWindow.BeginSize | typescript/WM_Window.ts:707-743 | records the mouse and the window's position and size as the drag start; clears the moved flag (the drag start at :707-709, the flag at :743) |
| Sizing.SizingWindow.Drag | typescript/WM_Window.ts:827-834 | the size and position follow the scaled offset along the mask and are clamped, leaving the geometry equal to `Resized` of the drag start; the drag start and the moved flag are unchanged |
| Sizing.SizingWindow.OnSize | typescript/WM_Window.ts:811-834 | the first event with no movement changes nothing. Otherwise the window is marked moved, its geometry is `Resized` of the drag start by the scaled offset, and that offset is handed to the anchored windows |

## Left out

- DOM, events and timers are host I/O and are not modelled. This covers node creation, titles, z-order, move handlers, mouse subscriptions, `StopDefaultAction`, setting `node.Cursor`, `DebugLog`, and the one-second timer in `OnBeginSize` that drops the anchors of an unmoved sizer.
- `ControlGraph.Build` and `ControlRefInfo.References` are not part of this model. Their results are inputs: a boolean per reference-info slot, and the list of references.
- `AABB`, `AABB.Intersect` and `MakeControlAABB` are not part of this model. The intersection of two controls' snap-expanded boxes is the parameter `intersects`.
- `Container.SnapBorderSize` is defined outside this file. It is the sizer's constant `snapBorder`.
- `int2.Min0` is not part of this model. It is taken as the componentwise minimum with 0.
- The snapping step of `OnSize` (`GetSnapControls`, the `TopLeft`/`BottomRight` setters, snap rulers) is left out, because the `Control` accessors are not part of this model.
- The `ChangeSize` call inside `OnSize` is left out, because it reads `ControlParentNode`, which is not part of this model.
- The recursive cross-window orchestration is left out, because it drives other windows through event objects. This covers `OnBeginSize`/`OnSize`/`OnEndSize` calling anchored windows, `GatherAnchorControls`, and the commented-out `ChildSize` graph walk.
- Sizing.SizingWindow.OnSize: the offset handed to anchored windows is the scaled offset before any snap correction, since snapping is left out.
- IEEE-754 rounding is not modelled; arithmetic is exact on reals.
- Relaxation.Relax: convergence of the coupled sweeps is not stated. Only pinned edges, buffer gaps and the size-only decay are proved, because the source runs a fixed five sweeps and promises no fixed point.
- SizerClass.Sizer.ChangeSize: requires every slot to hold a rect, because the write-back dereferences each slot. The apply methods require every slot a constraint names to hold a rect, because they dereference it.
- The pinned outer edges: `ChangeSize` pins a Left edge at `half_delta + border` and writes back `left − half_delta`, so a pinned control ends `border` inside each edge of the new container (`PinnedPanelSitsAtBorder`).
