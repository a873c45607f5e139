/**
 * `WM.Sizer`: the relaxation solver as the object the window owns. The rect
 * list is an array that the passes overwrite in place; the constraint lists
 * are fields that `Build` fills and `ChangeSize` retargets. Every method is
 * proved against the functions of `Relaxation` and `SizerBuild`.
 */
module SizerClass {
  import opened Geometry
  import opened Relaxation
  import opened SizerBuild

  /** `half_delta_size`: half of how much the container shrank since its rest size. */
  function HalfDelta(restSize: real, newSize: real): real {
    (restSize - newSize) / 2.0
  }

  /** `left_offset`: the new position of every Left container constraint. */
  function LeftTarget(restSize: real, newSize: real, border: real): real {
    HalfDelta(restSize, newSize) + border
  }

  /** `right_offset`: the new position of every Right container constraint. */
  function RightTarget(restSize: real, newSize: real, border: real): real {
    restSize - LeftTarget(restSize, newSize, border)
  }

  /** The container constraints after `ChangeSize` has moved them for `newSize`. */
  function Retarget(cs: seq<ContainerConstraint>, restSize: real, newSize: real, border: real)
    : (r: seq<ContainerConstraint>)
    ensures |r| == |cs|
    ensures forall k :: 0 <= k < |cs| ==> r[k].rect == cs[k].rect && r[k].side == cs[k].side
    ensures forall k :: 0 <= k < |cs| ==>
              r[k].position == (if cs[k].side == Left then LeftTarget(restSize, newSize, border)
                                else RightTarget(restSize, newSize, border))
  {
    seq(|cs|, k requires 0 <= k < |cs| =>
      cs[k].(position := if cs[k].side == Left then LeftTarget(restSize, newSize, border)
                         else RightTarget(restSize, newSize, border)))
  }

  /** The write-back of one rect to its control: x from the rect, y untouched. */
  function WriteBack(p: Placement, r: Interval, halfDelta: real): (q: Placement)
    ensures q.position.y == p.position.y && q.size.y == p.size.y
    ensures q.position.x + halfDelta == r.left && q.position.x + q.size.x + halfDelta == r.right
  {
    Placement(Vec2(r.left - halfDelta, p.position.y), Vec2(r.right - r.left, p.size.y))
  }

  /**
   * After `ChangeSize(newSize)`, a control whose Left edge is pinned to the
   * container (and faced by no buffer constraint) sits `border` from the new
   * container's left edge; one pinned on the Right ends `border` before
   * `newSize`.
   */
  lemma PinnedPanelSitsAtBorder(rs: Slots, sizes: seq<SizeConstraint>, pins: seq<ContainerConstraint>,
                                buffers: seq<BufferConstraint>, restSize: real, newSize: real,
                                border: real, k: nat, p: Placement)
    requires Applicable(rs, sizes, pins, buffers) && DistinctPins(pins) && k < |pins|
    requires forall b :: 0 <= b < |buffers| ==>
               if pins[k].side == Left then !MovesLeft(buffers[b], pins[k].rect)
               else !MovesRight(buffers[b], pins[k].rect)
    ensures var moved := Retarget(pins, restSize, newSize, border);
            var final := Relax(rs, sizes, moved, buffers, border, SweepCount);
            var placed := WriteBack(p, final[pins[k].rect].value, HalfDelta(restSize, newSize));
            && (pins[k].side == Left ==> placed.position.x == border)
            && (pins[k].side != Left ==> placed.position.x + placed.size.x == newSize - border)
  {
    var moved := Retarget(pins, restSize, newSize, border);
    assert PinRefs(rs, moved);
    PinHoldsAfterRelax(rs, sizes, moved, buffers, border, SweepCount, k);
  }

  /** The first loop of `Build`: one slot per child and a size constraint per rect. */
  method CollectRects(controls: seq<Child>) returns (slots: array<Option<Interval>>, sizes: seq<SizeConstraint>)
    ensures fresh(slots) && slots[..] == BuildRects(controls)
    ensures sizes == BuildSizeConstraints(controls)
  {
    slots := new Option<Interval>[|controls|];
    sizes := [];
    var i := 0;
    while i < |controls|
      invariant 0 <= i <= |controls|
      invariant forall j :: 0 <= j < i ==> slots[j] == SlotOf(controls[j])
      invariant sizes == BuildSizeConstraints(controls[..i])
    {
      assert controls[..i + 1][..i] == controls[..i];
      var control := controls[i];
      if !control.ChildContainer? {
        slots[i] := None;
      } else {
        slots[i] := Some(Interval(control.left, control.right));
        sizes := sizes + [SizeConstraint(i, control.right - control.left)];
      }
      i := i + 1;
    }
    assert controls[..|controls|] == controls;
  }

  /** The second loop of `Build`: container pins read from the reference infos. */
  method CollectContainerConstraints(refsContainer: seq<bool>, n: nat, restSize: real)
    returns (pins: seq<ContainerConstraint>)
    requires 4 * n <= |refsContainer|
    ensures pins == BuildContainerConstraints(refsContainer, n, restSize)
  {
    pins := [];
    var i := 0;
    while i < n
      invariant 0 <= i <= n
      invariant pins == BuildContainerConstraints(refsContainer, i, restSize)
    {
      if refsContainer[RefInfoIndex(i, Left)] {
        pins := pins + [ContainerConstraint(i, Left, 0.0)];
      }
      if refsContainer[RefInfoIndex(i, Right)] {
        pins := pins + [ContainerConstraint(i, Right, restSize)];
      }
      i := i + 1;
    }
  }

  /** The third loop of `Build`: one buffer constraint per horizontal reference pair. */
  method CollectBufferConstraints(refs: seq<Ref>) returns (buffers: seq<BufferConstraint>)
    ensures buffers == BuildBufferConstraints(refs)
  {
    buffers := [];
    var i := 0;
    while i < |refs|
      invariant 0 <= i <= |refs|
      invariant buffers == BuildBufferConstraints(refs[..i])
    {
      assert refs[..i + 1][..i] == refs[..i];
      var ref := refs[i];
      if ref.side != Left && ref.side != Right {
        // only horizontal references matter
      } else if ref.fromIndex < ref.toIndex {
        buffers := buffers + [BufferConstraint(ref.fromIndex, ref.side, ref.toIndex, Flip(ref.side))];
      }
      i := i + 1;
    }
    assert refs[..|refs|] == refs;
  }

  class Sizer {
    var containerRestSize: real
    /** `ContainerSize`: undefined until the first `ChangeSize`. */
    var containerSize: Option<real>
    /** `Container.SnapBorderSize`, the gap kept between touching edges. */
    const snapBorder: real

    const rects: array<Option<Interval>>
    var sizeConstraints: seq<SizeConstraint>
    var containerConstraints: seq<ContainerConstraint>
    var bufferConstraints: seq<BufferConstraint>

    /**
     * What `ChangeSize` needs to run without dereferencing `null`: every
     * slot holds a rect (the write-back visits them all) and every
     * constraint names a slot that exists.
     */
    ghost predicate Solvable()
      reads this, rects
    {
      && (forall i :: 0 <= i < rects.Length ==> rects[i].Some?)
      && (forall k :: 0 <= k < |sizeConstraints| ==> sizeConstraints[k].rect < rects.Length)
      && (forall k :: 0 <= k < |containerConstraints| ==> containerConstraints[k].rect < rects.Length)
      && (forall k :: 0 <= k < |bufferConstraints| ==>
            bufferConstraints[k].rect0 < rects.Length && bufferConstraints[k].rect1 < rects.Length)
    }

    /** `Build(container, control_graph)` on a fresh `Sizer`. */
    constructor Build(restSize: real, snapBorder: real, controls: seq<Child>,
                      refsContainer: seq<bool>, refs: seq<Ref>)
      requires |refsContainer| == 4 * |controls|
      ensures containerRestSize == restSize && this.snapBorder == snapBorder && containerSize == None
      ensures fresh(rects) && rects[..] == BuildRects(controls)
      ensures sizeConstraints == BuildSizeConstraints(controls)
      ensures containerConstraints == BuildContainerConstraints(refsContainer, |controls|, restSize)
      ensures bufferConstraints == BuildBufferConstraints(refs)
      ensures (forall i :: 0 <= i < |controls| ==> controls[i].ChildContainer?)
              && (forall f :: f in refs && EmitsBuffer(f) ==> f.toIndex < |controls|)
              ==> Solvable()
    {
      if (forall i :: 0 <= i < |controls| ==> controls[i].ChildContainer?)
         && (forall f :: f in refs && EmitsBuffer(f) ==> f.toIndex < |controls|)
      {
        BuildIsApplicable(controls, refsContainer, refs, restSize);
      }
      var slots, sizes := CollectRects(controls);
      var pins := CollectContainerConstraints(refsContainer, |controls|, restSize);
      var buffers := CollectBufferConstraints(refs);
      containerRestSize := restSize;
      containerSize := None;
      this.snapBorder := snapBorder;
      rects := slots;
      sizeConstraints := sizes;
      containerConstraints := pins;
      bufferConstraints := buffers;
    }

    /** The size pass, in place. */
    method ApplySizeConstraints()
      requires SizeRefs(rects[..], sizeConstraints)
      modifies rects
      ensures rects[..] == SizePass(old(rects[..]), sizeConstraints)
    {
      var k := 0;
      while k < |sizeConstraints|
        invariant 0 <= k <= |sizeConstraints|
        invariant rects[..] == SizePass(old(rects[..]), sizeConstraints[..k])
      {
        assert sizeConstraints[..k + 1][..k] == sizeConstraints[..k];
        var c := sizeConstraints[k];
        var rect := rects[c.rect].value;
        var size := rect.right - rect.left;
        var center := (rect.left + rect.right) * 0.5;
        var halfDelta := (c.size - size) * 0.5;
        rects[c.rect] := Some(Interval(center - size * 0.5 - halfDelta * SizeBlend,
                                       center + size * 0.5 + halfDelta * SizeBlend));
        k := k + 1;
      }
      assert sizeConstraints[..k] == sizeConstraints;
    }

    /** The container pass, in place. */
    method ApplyContainerConstraints()
      requires PinRefs(rects[..], containerConstraints)
      modifies rects
      ensures rects[..] == ContainerPass(old(rects[..]), containerConstraints)
    {
      var k := 0;
      while k < |containerConstraints|
        invariant 0 <= k <= |containerConstraints|
        invariant rects[..] == ContainerPass(old(rects[..]), containerConstraints[..k])
      {
        assert containerConstraints[..k + 1][..k] == containerConstraints[..k];
        var c := containerConstraints[k];
        var rect := rects[c.rect].value;
        if c.side == Left {
          rects[c.rect] := Some(rect.(left := c.position));
        } else {
          rects[c.rect] := Some(rect.(right := c.position));
        }
        k := k + 1;
      }
      assert containerConstraints[..k] == containerConstraints;
    }

    /** One buffer constraint, in place: both edges move to the shared center, `snapBorder` apart. */
    method ApplyBufferConstraint(c: BufferConstraint)
      requires Refers(rects[..], c.rect0) && Refers(rects[..], c.rect1)
      modifies rects
      ensures rects[..] == BufferStep(old(rects[..]), c, snapBorder)
    {
      if c.side0 == Left {
        var center := (rects[c.rect1].value.right + rects[c.rect0].value.left) * 0.5;
        rects[c.rect0] := Some(rects[c.rect0].value.(left := center + snapBorder * 0.5));
        rects[c.rect1] := Some(rects[c.rect1].value.(right := center - snapBorder * 0.5));
      } else {
        var center := (rects[c.rect0].value.right + rects[c.rect1].value.left) * 0.5;
        rects[c.rect0] := Some(rects[c.rect0].value.(right := center - snapBorder * 0.5));
        rects[c.rect1] := Some(rects[c.rect1].value.(left := center + snapBorder * 0.5));
      }
    }

    /** The buffer pass, in place. */
    method ApplyBufferConstraints()
      requires BufferRefs(rects[..], bufferConstraints)
      modifies rects
      ensures rects[..] == BufferPass(old(rects[..]), bufferConstraints, snapBorder)
    {
      var k := 0;
      while k < |bufferConstraints|
        invariant 0 <= k <= |bufferConstraints|
        invariant rects[..] == BufferPass(old(rects[..]), bufferConstraints[..k], snapBorder)
      {
        assert bufferConstraints[..k + 1][..k] == bufferConstraints[..k];
        var c := bufferConstraints[k];
        assert Refers(rects[..], c.rect0) && Refers(rects[..], c.rect1);
        ApplyBufferConstraint(c);
        k := k + 1;
      }
      assert bufferConstraints[..k] == bufferConstraints;
    }

    /** The first loop of `ChangeSize`: move every container constraint for `newSize`. */
    method RetargetContainerConstraints(newSize: real)
      modifies this
      ensures containerConstraints
              == Retarget(old(containerConstraints), containerRestSize, newSize, snapBorder)
      ensures containerRestSize == old(containerRestSize) && containerSize == old(containerSize)
      ensures sizeConstraints == old(sizeConstraints) && bufferConstraints == old(bufferConstraints)
    {
      var halfDeltaSize := (containerRestSize - newSize) / 2.0;
      var leftOffset := halfDeltaSize + snapBorder;
      var rightOffset := containerRestSize - leftOffset;
      var k := 0;
      while k < |containerConstraints|
        invariant 0 <= k <= |containerConstraints| == |old(containerConstraints)|
        invariant containerRestSize == old(containerRestSize) && containerSize == old(containerSize)
        invariant sizeConstraints == old(sizeConstraints) && bufferConstraints == old(bufferConstraints)
        invariant forall j :: 0 <= j < k ==>
                    containerConstraints[j] == Retarget(old(containerConstraints), containerRestSize,
                                                        newSize, snapBorder)[j]
        invariant forall j :: k <= j < |containerConstraints| ==>
                    containerConstraints[j] == old(containerConstraints)[j]
      {
        var c := containerConstraints[k];
        var position := if c.side == Left then leftOffset else rightOffset;
        containerConstraints := containerConstraints[k := c.(position := position)];
        k := k + 1;
      }
    }

    /** One sweep: the size, container and buffer passes in turn. */
    method SweepOnce()
      requires Applicable(rects[..], sizeConstraints, containerConstraints, bufferConstraints)
      modifies rects
      ensures rects[..] == Sweep(old(rects[..]), sizeConstraints, containerConstraints,
                                 bufferConstraints, snapBorder)
    {
      ghost var before := rects[..];
      ApplySizeConstraints();
      ghost var afterSize := rects[..];
      KeepsApplicable(before, afterSize, sizeConstraints, containerConstraints, bufferConstraints);
      ApplyContainerConstraints();
      ghost var afterPins := rects[..];
      KeepsApplicable(afterSize, afterPins, sizeConstraints, containerConstraints, bufferConstraints);
      ApplyBufferConstraints();
    }

    /** The sweep loop of `ChangeSize`. */
    method RunSweeps()
      requires Applicable(rects[..], sizeConstraints, containerConstraints, bufferConstraints)
      modifies rects
      ensures rects[..] == Relax(old(rects[..]), sizeConstraints, containerConstraints,
                                 bufferConstraints, snapBorder, SweepCount)
    {
      ghost var start := rects[..];
      var sweep := 0;
      while sweep < SweepCount
        invariant 0 <= sweep <= SweepCount
        invariant rects[..] == Relax(start, sizeConstraints, containerConstraints,
                                     bufferConstraints, snapBorder, sweep)
      {
        KeepsApplicable(start, rects[..], sizeConstraints, containerConstraints, bufferConstraints);
        SweepOnce();
        sweep := sweep + 1;
      }
    }

    /** The last loop of `ChangeSize`: copy every rect back to its control. */
    method CopyBack(halfDeltaSize: real, panels: array<Placement>)
      requires panels.Length == rects.Length
      requires forall i :: 0 <= i < rects.Length ==> rects[i].Some?
      modifies panels
      ensures forall i :: 0 <= i < panels.Length ==>
                panels[i] == WriteBack(old(panels[i]), rects[i].value, halfDeltaSize)
    {
      var i := 0;
      while i < rects.Length
        invariant 0 <= i <= rects.Length
        invariant forall j :: 0 <= j < i ==>
                    panels[j] == WriteBack(old(panels[j]), rects[j].value, halfDeltaSize)
        invariant forall j :: i <= j < panels.Length ==> panels[j] == old(panels[j])
      {
        var rect := rects[i].value;
        panels[i] := Placement(Vec2(rect.left - halfDeltaSize, panels[i].position.y),
                               Vec2(rect.right - rect.left, panels[i].size.y));
        i := i + 1;
      }
    }

    /** Every constraint of a solvable sizer refers to a rect. */
    lemma SolvableIsApplicable()
      requires Solvable()
      ensures Applicable(rects[..], sizeConstraints, containerConstraints, bufferConstraints)
    {
    }

    /**
     * `ChangeSize(new_size)`: retarget the container constraints, run the
     * sweeps, then write every rect back to its control (`panels[i]` is the
     * position and size of control `i`).
     */
    method ChangeSize(newSize: real, panels: array<Placement>)
      requires Solvable() && panels.Length == rects.Length
      modifies this, rects, panels
      ensures containerSize == Some(newSize)
      ensures containerRestSize == old(containerRestSize)
      ensures sizeConstraints == old(sizeConstraints) && bufferConstraints == old(bufferConstraints)
      ensures containerConstraints
              == Retarget(old(containerConstraints), containerRestSize, newSize, snapBorder)
      ensures rects[..] == Relax(old(rects[..]), sizeConstraints, containerConstraints,
                                 bufferConstraints, snapBorder, SweepCount)
      ensures forall i :: 0 <= i < panels.Length ==>
                panels[i] == WriteBack(old(panels[i]), rects[i].value,
                                       HalfDelta(containerRestSize, newSize))
      ensures Solvable()
    {
      containerSize := Some(newSize);
      RetargetContainerConstraints(newSize);
      SolvableIsApplicable();
      RunSweeps();
      CopyBack((containerRestSize - newSize) / 2.0, panels);
    }
  }
}
