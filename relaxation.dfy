/**
 * The horizontal relaxation solver of `WM.Sizer`, as values.
 *
 * A `Rect` becomes an `Interval` held in a slot of `Slots`, which is
 * index-aligned with the container's controls; a control that is not a
 * container leaves a `None` slot. Constraints name the slot they act on by
 * its index, so the sharing of one `Rect` object between the three
 * constraint lists becomes sharing of an index.
 *
 * Each pass is a left fold of one constraint step over the constraint list,
 * which is the order in which the source's `for` loops visit them.
 */
module Relaxation {
  import opened Geometry

  /** Fraction of the width error that one size step removes. */
  const SizeBlend: real := 0.1

  /** Number of Size -> Container -> Buffer sweeps one `ChangeSize` runs. */
  const SweepCount: nat := 5

  /** One `Rect`: the horizontal extent of a child container. */
  datatype Interval = Interval(left: real, right: real) {
    function Width(): real { right - left }
    function Centre(): real { (left + right) / 2.0 }
  }

  /** `Sizer.Rects`. */
  type Slots = seq<Option<Interval>>

  datatype SizeConstraint = SizeConstraint(rect: nat, size: real)
  datatype ContainerConstraint = ContainerConstraint(rect: nat, side: Side, position: real)
  datatype BufferConstraint = BufferConstraint(rect0: nat, side0: Side, rect1: nat, side1: Side)

  function Abs(x: real): real {
    if x < 0.0 then -x else x
  }

  /** Slot `i` exists and holds a rect (the source would dereference `null` otherwise). */
  predicate Refers(rs: Slots, i: nat) {
    i < |rs| && rs[i].Some?
  }

  /** Same length and the same `null` slots. */
  predicate SameShape(a: Slots, b: Slots) {
    |a| == |b| && forall i :: 0 <= i < |a| ==> a[i].Some? == b[i].Some?
  }

  predicate SizeRefs(rs: Slots, cs: seq<SizeConstraint>) {
    forall k :: 0 <= k < |cs| ==> Refers(rs, cs[k].rect)
  }

  predicate PinRefs(rs: Slots, cs: seq<ContainerConstraint>) {
    forall k :: 0 <= k < |cs| ==> Refers(rs, cs[k].rect)
  }

  predicate BufferRefs(rs: Slots, cs: seq<BufferConstraint>) {
    forall k :: 0 <= k < |cs| ==> Refers(rs, cs[k].rect0) && Refers(rs, cs[k].rect1)
  }

  predicate Applicable(rs: Slots, sizes: seq<SizeConstraint>, pins: seq<ContainerConstraint>,
                       buffers: seq<BufferConstraint>) {
    SizeRefs(rs, sizes) && PinRefs(rs, pins) && BufferRefs(rs, buffers)
  }

  /** Constraints that refer to rects of `a` refer to rects of any `b` of the same shape. */
  lemma KeepsApplicable(a: Slots, b: Slots, sizes: seq<SizeConstraint>, pins: seq<ContainerConstraint>,
                        buffers: seq<BufferConstraint>)
    requires SameShape(a, b) && Applicable(a, sizes, pins, buffers)
    ensures Applicable(b, sizes, pins, buffers)
  {
  }

  // ---------------------------------------------------------------------------
  // Size constraints
  // ---------------------------------------------------------------------------

  /** The width a size step moves to: a tenth of the way towards the target. */
  function Blended(width: real, target: real): real {
    width + SizeBlend * (target - width)
  }

  /** One iteration of the loop in `ApplySizeConstraints`. */
  function SizeStep(rs: Slots, c: SizeConstraint): (r: Slots)
    requires Refers(rs, c.rect)
    ensures SameShape(rs, r)
    ensures forall i :: 0 <= i < |rs| && i != c.rect ==> r[i] == rs[i]
    ensures r[c.rect].value.Centre() == rs[c.rect].value.Centre()
    ensures r[c.rect].value.Width() == Blended(rs[c.rect].value.Width(), c.size)
    ensures Abs(r[c.rect].value.Width() - c.size) == (1.0 - SizeBlend) * Abs(rs[c.rect].value.Width() - c.size)
  {
    var rect := rs[c.rect].value;
    var size := rect.right - rect.left;
    var center := (rect.left + rect.right) * 0.5;
    var halfDelta := (c.size - size) * 0.5;
    rs[c.rect := Some(Interval(center - size * 0.5 - halfDelta * SizeBlend,
                               center + size * 0.5 + halfDelta * SizeBlend))]
  }

  /** `ApplySizeConstraints`: every size constraint in list order. */
  function SizePass(rs: Slots, cs: seq<SizeConstraint>): (r: Slots)
    requires SizeRefs(rs, cs)
    ensures SameShape(rs, r)
    decreases |cs|
  {
    if cs == [] then rs
    else SizeStep(SizePass(rs, cs[..|cs| - 1]), cs[|cs| - 1])
  }

  /** The slots some size constraint acts on. */
  function SizedRects(cs: seq<SizeConstraint>): set<nat> {
    set k | 0 <= k < |cs| :: cs[k].rect
  }

  predicate DistinctSizeRects(cs: seq<SizeConstraint>) {
    forall j, k :: 0 <= j < k < |cs| ==> cs[j].rect != cs[k].rect
  }

  /**
   * With one size constraint per rect (as `Build` makes them), a size pass
   * keeps every constrained rect's centre, moves its width a tenth of the way
   * to its target and leaves every other slot alone.
   */
  lemma {:induction false} SizePassEffect(rs: Slots, cs: seq<SizeConstraint>)
    requires SizeRefs(rs, cs) && DistinctSizeRects(cs)
    ensures var r := SizePass(rs, cs);
            forall k :: 0 <= k < |cs| ==>
              r[cs[k].rect].value.Centre() == rs[cs[k].rect].value.Centre() &&
              r[cs[k].rect].value.Width() == Blended(rs[cs[k].rect].value.Width(), cs[k].size)
    ensures var r := SizePass(rs, cs);
            forall i :: 0 <= i < |rs| && i !in SizedRects(cs) ==> r[i] == rs[i]
  {
    if cs != [] {
      var init, last := cs[..|cs| - 1], cs[|cs| - 1];
      assert SizeRefs(rs, init) by {
        forall k | 0 <= k < |init| ensures Refers(rs, init[k].rect) { assert init[k] == cs[k]; }
      }
      assert DistinctSizeRects(init) by {
        forall j, k | 0 <= j < k < |init| ensures init[j].rect != init[k].rect {
          assert init[j] == cs[j] && init[k] == cs[k];
        }
      }
      SizePassEffect(rs, init);
      var prev := SizePass(rs, init);
      assert last.rect !in SizedRects(init) by {
        forall k | 0 <= k < |init| ensures init[k].rect != last.rect {
          assert init[k] == cs[k];
        }
      }
      assert prev[last.rect] == rs[last.rect];
      assert SizedRects(cs) == SizedRects(init) + {last.rect} by {
        forall x ensures x in SizedRects(cs) <==> x in SizedRects(init) + {last.rect} {
          if x in SizedRects(cs) {
            var k :| 0 <= k < |cs| && cs[k].rect == x;
            if k < |init| { assert init[k] == cs[k]; }
          }
          if x in SizedRects(init) {
            var k :| 0 <= k < |init| && init[k].rect == x;
            assert cs[k] == init[k];
          }
        }
      }
      forall k | 0 <= k < |cs| - 1
        ensures cs[k].rect != last.rect && cs[k] == init[k]
      {
      }
    }
  }

  // ---------------------------------------------------------------------------
  // Container constraints
  // ---------------------------------------------------------------------------

  /** The edge a container constraint on `side` pins: Left pins `left`, anything else `right`. */
  function PinnedEdge(r: Interval, side: Side): real {
    if side == Left then r.left else r.right
  }

  /** One iteration of the loop in `ApplyContainerConstraints`. */
  function ContainerStep(rs: Slots, c: ContainerConstraint): (r: Slots)
    requires Refers(rs, c.rect)
    ensures SameShape(rs, r)
    ensures forall i :: 0 <= i < |rs| && i != c.rect ==> r[i] == rs[i]
    ensures PinnedEdge(r[c.rect].value, c.side) == c.position
    ensures c.side == Left ==> r[c.rect].value.right == rs[c.rect].value.right
    ensures c.side != Left ==> r[c.rect].value.left == rs[c.rect].value.left
  {
    var rect := rs[c.rect].value;
    if c.side == Left then rs[c.rect := Some(rect.(left := c.position))]
    else rs[c.rect := Some(rect.(right := c.position))]
  }

  /** `ApplyContainerConstraints`: every container constraint in list order. */
  function ContainerPass(rs: Slots, cs: seq<ContainerConstraint>): (r: Slots)
    requires PinRefs(rs, cs)
    ensures SameShape(rs, r)
    decreases |cs|
  {
    if cs == [] then rs
    else ContainerStep(ContainerPass(rs, cs[..|cs| - 1]), cs[|cs| - 1])
  }

  /** No two container constraints pin the same edge of the same rect. */
  predicate DistinctPins(cs: seq<ContainerConstraint>) {
    forall j, k :: 0 <= j < k < |cs| ==>
      cs[j].rect != cs[k].rect || (cs[j].side == Left) != (cs[k].side == Left)
  }

  predicate PinsLeft(cs: seq<ContainerConstraint>, i: nat) {
    exists k :: 0 <= k < |cs| && cs[k].rect == i && cs[k].side == Left
  }

  predicate PinsRight(cs: seq<ContainerConstraint>, i: nat) {
    exists k :: 0 <= k < |cs| && cs[k].rect == i && cs[k].side != Left
  }

  /**
   * With distinct pinned edges (as `Build` makes them), after a container
   * pass every pinned edge equals its constraint's position exactly, and
   * every edge no constraint pins is unchanged.
   */
  lemma {:induction false} ContainerPassEffect(rs: Slots, cs: seq<ContainerConstraint>)
    requires PinRefs(rs, cs) && DistinctPins(cs)
    ensures var r := ContainerPass(rs, cs);
            forall k :: 0 <= k < |cs| ==> PinnedEdge(r[cs[k].rect].value, cs[k].side) == cs[k].position
    ensures var r := ContainerPass(rs, cs);
            forall i: nat :: Refers(rs, i) && !PinsLeft(cs, i) ==> r[i].value.left == rs[i].value.left
    ensures var r := ContainerPass(rs, cs);
            forall i: nat :: Refers(rs, i) && !PinsRight(cs, i) ==> r[i].value.right == rs[i].value.right
  {
    if cs != [] {
      var init, last := cs[..|cs| - 1], cs[|cs| - 1];
      assert PinRefs(rs, init) by {
        forall k | 0 <= k < |init| ensures Refers(rs, init[k].rect) { assert init[k] == cs[k]; }
      }
      assert DistinctPins(init) by {
        forall j, k | 0 <= j < k < |init|
          ensures init[j].rect != init[k].rect || (init[j].side == Left) != (init[k].side == Left)
        {
          assert init[j] == cs[j] && init[k] == cs[k];
        }
      }
      ContainerPassEffect(rs, init);
      var prev := ContainerPass(rs, init);
      var r := ContainerStep(prev, last);
      forall k | 0 <= k < |cs|
        ensures PinnedEdge(r[cs[k].rect].value, cs[k].side) == cs[k].position
      {
        if k < |init| {
          assert cs[k] == init[k];
          if cs[k].rect == last.rect {
            assert (cs[k].side == Left) != (last.side == Left);
          }
        }
      }
      forall i: nat | Refers(rs, i) && !PinsLeft(cs, i)
        ensures r[i].value.left == rs[i].value.left
      {
        forall k | 0 <= k < |init| ensures !(init[k].rect == i && init[k].side == Left) {
          assert init[k] == cs[k];
        }
        assert cs[|cs| - 1] == last;
      }
      forall i: nat | Refers(rs, i) && !PinsRight(cs, i)
        ensures r[i].value.right == rs[i].value.right
      {
        forall k | 0 <= k < |init| ensures !(init[k].rect == i && init[k].side != Left) {
          assert init[k] == cs[k];
        }
        assert cs[|cs| - 1] == last;
      }
    }
  }

  // ---------------------------------------------------------------------------
  // Buffer constraints
  // ---------------------------------------------------------------------------

  /**
   * One iteration of the loop in `ApplyBufferConstraints`. Only `side0`
   * chooses the facing edges: Left means `rect0.left` faces `rect1.right`,
   * anything else means `rect0.right` faces `rect1.left`.
   */
  function BufferStep(rs: Slots, c: BufferConstraint, border: real): (r: Slots)
    requires Refers(rs, c.rect0) && Refers(rs, c.rect1)
    ensures SameShape(rs, r)
    ensures forall i :: 0 <= i < |rs| && i != c.rect0 && i != c.rect1 ==> r[i] == rs[i]
    ensures c.side0 == Left ==>
      && r[c.rect0].value.left - r[c.rect1].value.right == border
      && (r[c.rect0].value.left + r[c.rect1].value.right) / 2.0
         == (rs[c.rect0].value.left + rs[c.rect1].value.right) / 2.0
      && (c.rect0 != c.rect1 ==>
            r[c.rect0].value.right == rs[c.rect0].value.right && r[c.rect1].value.left == rs[c.rect1].value.left)
    ensures c.side0 != Left ==>
      && r[c.rect1].value.left - r[c.rect0].value.right == border
      && (r[c.rect0].value.right + r[c.rect1].value.left) / 2.0
         == (rs[c.rect0].value.right + rs[c.rect1].value.left) / 2.0
      && (c.rect0 != c.rect1 ==>
            r[c.rect0].value.left == rs[c.rect0].value.left && r[c.rect1].value.right == rs[c.rect1].value.right)
  {
    if c.side0 == Left then
      var center := (rs[c.rect1].value.right + rs[c.rect0].value.left) * 0.5;
      var moved := rs[c.rect0 := Some(rs[c.rect0].value.(left := center + border * 0.5))];
      moved[c.rect1 := Some(moved[c.rect1].value.(right := center - border * 0.5))]
    else
      var center := (rs[c.rect0].value.right + rs[c.rect1].value.left) * 0.5;
      var moved := rs[c.rect0 := Some(rs[c.rect0].value.(right := center - border * 0.5))];
      moved[c.rect1 := Some(moved[c.rect1].value.(left := center + border * 0.5))]
  }

  /** `ApplyBufferConstraints`: every buffer constraint in list order. */
  function BufferPass(rs: Slots, cs: seq<BufferConstraint>, border: real): (r: Slots)
    requires BufferRefs(rs, cs)
    ensures SameShape(rs, r)
    decreases |cs|
  {
    if cs == [] then rs
    else BufferStep(BufferPass(rs, cs[..|cs| - 1], border), cs[|cs| - 1], border)
  }

  /** Whether buffer constraint `c` writes the left edge of slot `i`. */
  predicate MovesLeft(c: BufferConstraint, i: nat) {
    if c.side0 == Left then c.rect0 == i else c.rect1 == i
  }

  /** Whether buffer constraint `c` writes the right edge of slot `i`. */
  predicate MovesRight(c: BufferConstraint, i: nat) {
    if c.side0 == Left then c.rect1 == i else c.rect0 == i
  }

  /** A buffer pass leaves a left edge alone unless one of its constraints faces it. */
  lemma {:induction false} BufferPassKeepsLeft(rs: Slots, cs: seq<BufferConstraint>, border: real, i: nat)
    requires BufferRefs(rs, cs) && Refers(rs, i)
    requires forall k :: 0 <= k < |cs| ==> !MovesLeft(cs[k], i)
    ensures BufferPass(rs, cs, border)[i].value.left == rs[i].value.left
  {
    if cs != [] {
      var init := cs[..|cs| - 1];
      assert BufferRefs(rs, init) by {
        forall k | 0 <= k < |init| ensures Refers(rs, init[k].rect0) && Refers(rs, init[k].rect1) {
          assert init[k] == cs[k];
        }
      }
      forall k | 0 <= k < |init| ensures !MovesLeft(init[k], i) { assert init[k] == cs[k]; }
      BufferPassKeepsLeft(rs, init, border, i);
      assert !MovesLeft(cs[|cs| - 1], i);
    }
  }

  /** A buffer pass leaves a right edge alone unless one of its constraints faces it. */
  lemma {:induction false} BufferPassKeepsRight(rs: Slots, cs: seq<BufferConstraint>, border: real, i: nat)
    requires BufferRefs(rs, cs) && Refers(rs, i)
    requires forall k :: 0 <= k < |cs| ==> !MovesRight(cs[k], i)
    ensures BufferPass(rs, cs, border)[i].value.right == rs[i].value.right
  {
    if cs != [] {
      var init := cs[..|cs| - 1];
      assert BufferRefs(rs, init) by {
        forall k | 0 <= k < |init| ensures Refers(rs, init[k].rect0) && Refers(rs, init[k].rect1) {
          assert init[k] == cs[k];
        }
      }
      forall k | 0 <= k < |init| ensures !MovesRight(init[k], i) { assert init[k] == cs[k]; }
      BufferPassKeepsRight(rs, init, border, i);
      assert !MovesRight(cs[|cs| - 1], i);
    }
  }

  // ---------------------------------------------------------------------------
  // Sweeps
  // ---------------------------------------------------------------------------

  /** One iteration of the sweep loop in `ChangeSize`: Size, then Container, then Buffer. */
  function Sweep(rs: Slots, sizes: seq<SizeConstraint>, pins: seq<ContainerConstraint>,
                 buffers: seq<BufferConstraint>, border: real): (r: Slots)
    requires Applicable(rs, sizes, pins, buffers)
    ensures SameShape(rs, r)
  {
    var afterSize := SizePass(rs, sizes);
    var afterPins := ContainerPass(afterSize, pins);
    BufferPass(afterPins, buffers, border)
  }

  /** `n` sweeps in a row. */
  function Relax(rs: Slots, sizes: seq<SizeConstraint>, pins: seq<ContainerConstraint>,
                 buffers: seq<BufferConstraint>, border: real, n: nat): (r: Slots)
    requires Applicable(rs, sizes, pins, buffers)
    ensures SameShape(rs, r)
  {
    if n == 0 then rs
    else Sweep(Relax(rs, sizes, pins, buffers, border, n - 1), sizes, pins, buffers, border)
  }

  /**
   * A pinned edge that no buffer constraint faces ends every sweep, and so
   * every run of at least one sweep, exactly at its constraint's position.
   */
  lemma PinHoldsAfterRelax(rs: Slots, sizes: seq<SizeConstraint>, pins: seq<ContainerConstraint>,
                           buffers: seq<BufferConstraint>, border: real, n: nat, k: nat)
    requires Applicable(rs, sizes, pins, buffers) && DistinctPins(pins)
    requires n >= 1 && k < |pins|
    requires forall b :: 0 <= b < |buffers| ==>
               if pins[k].side == Left then !MovesLeft(buffers[b], pins[k].rect)
               else !MovesRight(buffers[b], pins[k].rect)
    ensures PinnedEdge(Relax(rs, sizes, pins, buffers, border, n)[pins[k].rect].value, pins[k].side)
            == pins[k].position
  {
    var before := Relax(rs, sizes, pins, buffers, border, n - 1);
    var afterSize := SizePass(before, sizes);
    var afterPins := ContainerPass(afterSize, pins);
    ContainerPassEffect(afterSize, pins);
    if pins[k].side == Left {
      BufferPassKeepsLeft(afterPins, buffers, border, pins[k].rect);
    } else {
      BufferPassKeepsRight(afterPins, buffers, border, pins[k].rect);
    }
  }

  function Power(x: real, n: nat): real {
    if n == 0 then 1.0 else x * Power(x, n - 1)
  }

  /** A sweep with no container or buffer constraints is a size pass. */
  lemma SizeOnlySweep(rs: Slots, sizes: seq<SizeConstraint>, border: real, k: nat)
    requires SizeRefs(rs, sizes) && DistinctSizeRects(sizes) && k < |sizes|
    ensures Sweep(rs, sizes, [], [], border)[sizes[k].rect].value.Centre() == rs[sizes[k].rect].value.Centre()
    ensures Sweep(rs, sizes, [], [], border)[sizes[k].rect].value.Width() - sizes[k].size
            == (1.0 - SizeBlend) * (rs[sizes[k].rect].value.Width() - sizes[k].size)
  {
    SizePassEffect(rs, sizes);
  }

  /** Geometric decay, one factor at a time. */
  lemma DecayStep(error: real, previous: real, factor: real, power: real, e0: real)
    requires previous == power * e0 && error == factor * previous
    ensures error == (factor * power) * e0
  {
  }

  /**
   * With no container or buffer constraints, `n` sweeps keep every rect's
   * centre and shrink its signed width error geometrically: by a factor of
   * 0.9 per sweep.
   */
  lemma {:induction false} SizeOnlyConverges(rs: Slots, sizes: seq<SizeConstraint>, border: real,
                                             n: nat, k: nat)
    requires SizeRefs(rs, sizes) && DistinctSizeRects(sizes) && k < |sizes|
    ensures Relax(rs, sizes, [], [], border, n)[sizes[k].rect].value.Centre()
            == rs[sizes[k].rect].value.Centre()
    ensures Relax(rs, sizes, [], [], border, n)[sizes[k].rect].value.Width() - sizes[k].size
            == Power(1.0 - SizeBlend, n) * (rs[sizes[k].rect].value.Width() - sizes[k].size)
  {
    if n > 0 {
      SizeOnlyConverges(rs, sizes, border, n - 1, k);
      var before := Relax(rs, sizes, [], [], border, n - 1);
      SizeOnlySweep(before, sizes, border, k);
      var i, t := sizes[k].rect, sizes[k].size;
      DecayStep(Relax(rs, sizes, [], [], border, n)[i].value.Width() - t, before[i].value.Width() - t,
                1.0 - SizeBlend, Power(1.0 - SizeBlend, n - 1), rs[i].value.Width() - t);
    }
  }
}
