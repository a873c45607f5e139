/**
 * What `Sizer.Build` produces from a container's children and its control
 * graph, as functions of those inputs, with the properties the solver relies
 * on: index alignment, one size constraint per rect, container pins only
 * where the graph says so, and one buffer constraint per touching pair.
 *
 * The control graph itself is built elsewhere; here it is given as the
 * results of `RefInfos[i * 4 + side].References(container)` and the list of
 * directed edge references `Refs`.
 */
module SizerBuild {
  import opened Geometry
  import opened Relaxation

  /** A child of the container: only child containers get a rect. */
  datatype Child = OtherControl | ChildContainer(left: real, right: real)

  /**
   * One directed touching-edge reference of the control graph. A reference
   * to the parent container has `toIndex == -1`.
   */
  datatype Ref = Ref(fromIndex: nat, toIndex: int, side: Side)

  function SlotOf(c: Child): Option<Interval> {
    if c.ChildContainer? then Some(Interval(c.left, c.right)) else None
  }

  /** The rect list: one slot per child, in child order. */
  function BuildRects(controls: seq<Child>): (r: Slots)
    ensures |r| == |controls|
    ensures forall i :: 0 <= i < |controls| ==> (r[i].Some? <==> controls[i].ChildContainer?)
    ensures forall i :: 0 <= i < |controls| && controls[i].ChildContainer? ==>
              r[i].value.left == controls[i].left && r[i].value.right == controls[i].right
  {
    seq(|controls|, i requires 0 <= i < |controls| => SlotOf(controls[i]))
  }

  /** The size constraint list, as the rect loop appends to it. */
  function BuildSizeConstraints(controls: seq<Child>): (r: seq<SizeConstraint>)
    ensures |r| <= |controls|
    decreases |controls|
  {
    if controls == [] then []
    else
      var n := |controls| - 1;
      BuildSizeConstraints(controls[..n])
        + (if controls[n].ChildContainer?
           then [SizeConstraint(n, controls[n].right - controls[n].left)]
           else [])
  }

  /** Each size constraint names a container child, records its width, and they come in slot order. */
  lemma {:induction false} SizeConstraintsInOrder(controls: seq<Child>)
    ensures forall c :: c in BuildSizeConstraints(controls) ==>
              c.rect < |controls| && controls[c.rect].ChildContainer?
              && c.size == controls[c.rect].right - controls[c.rect].left
    ensures forall j, k :: 0 <= j < k < |BuildSizeConstraints(controls)| ==>
              BuildSizeConstraints(controls)[j].rect < BuildSizeConstraints(controls)[k].rect
  {
    if controls != [] {
      var n := |controls| - 1;
      var init := controls[..n];
      SizeConstraintsInOrder(init);
      var prev := BuildSizeConstraints(init);
      var cs := BuildSizeConstraints(controls);
      assert cs == prev + (if controls[n].ChildContainer?
                           then [SizeConstraint(n, controls[n].right - controls[n].left)] else []);
      forall i | 0 <= i < n ensures init[i] == controls[i] { }
      forall k | 0 <= k < |prev| ensures cs[k] == prev[k] && prev[k].rect < n {
        assert prev[k] in prev;
      }
      forall c | c in cs
        ensures c.rect < |controls| && controls[c.rect].ChildContainer?
                && c.size == controls[c.rect].right - controls[c.rect].left
      {
        if c !in prev {
          assert c == cs[|cs| - 1];
        }
      }
      forall j, k | 0 <= j < k < |cs| ensures cs[j].rect < cs[k].rect {
        assert cs[j] == prev[j];
        if k < |prev| {
          assert cs[k] == prev[k];
        }
      }
    }
  }

  /** The slots with a size constraint are exactly the container children. */
  lemma {:induction false} SizedSlotsAreContainers(controls: seq<Child>)
    ensures SizedRects(BuildSizeConstraints(controls))
            == set i | 0 <= i < |controls| && controls[i].ChildContainer?
  {
    if controls != [] {
      var n := |controls| - 1;
      var init := controls[..n];
      SizedSlotsAreContainers(init);
      SizeConstraintsInOrder(init);
      var prev := BuildSizeConstraints(init);
      var cs := BuildSizeConstraints(controls);
      var last := if controls[n].ChildContainer?
                  then [SizeConstraint(n, controls[n].right - controls[n].left)] else [];
      assert cs == prev + last;
      forall k | 0 <= k < |prev| ensures cs[k] == prev[k] { }
      forall x ensures x in SizedRects(cs) <==> 0 <= x < |controls| && controls[x].ChildContainer? {
        if x in SizedRects(cs) {
          var k :| 0 <= k < |cs| && cs[k].rect == x;
          if k < |prev| { assert x in SizedRects(prev); }
        }
        if 0 <= x < |controls| && controls[x].ChildContainer? {
          if x < n {
            assert init[x] == controls[x];
            assert x in SizedRects(prev);
            var k :| 0 <= k < |prev| && prev[k].rect == x;
            assert cs[k] == prev[k];
          } else {
            assert x == n && last == [SizeConstraint(n, controls[n].right - controls[n].left)];
            assert cs[|prev|].rect == x;
          }
        }
      }
    }
  }

  /**
   * Exactly one size constraint per rect, in slot order, each recording the
   * rect's width at build time; none for a null slot.
   */
  lemma SizeConstraintsMatchRects(controls: seq<Child>)
    ensures var rs, cs := BuildRects(controls), BuildSizeConstraints(controls);
            forall k :: 0 <= k < |cs| ==>
              Refers(rs, cs[k].rect) && cs[k].size == rs[cs[k].rect].value.Width()
    ensures var cs := BuildSizeConstraints(controls);
            forall j, k :: 0 <= j < k < |cs| ==> cs[j].rect < cs[k].rect
    ensures var rs, cs := BuildRects(controls), BuildSizeConstraints(controls);
            SizedRects(cs) == set i | 0 <= i < |rs| && rs[i].Some?
  {
    SizeConstraintsInOrder(controls);
    SizedSlotsAreContainers(controls);
    var rs := BuildRects(controls);
    assert (set i | 0 <= i < |rs| && rs[i].Some?) == set i | 0 <= i < |controls| && controls[i].ChildContainer?;
  }

  /** The container constraint list, as the second loop of `Build` appends to it. */
  function BuildContainerConstraints(refsContainer: seq<bool>, n: nat, restSize: real): (r: seq<ContainerConstraint>)
    requires 4 * n <= |refsContainer|
    ensures |r| <= 2 * n
  {
    if n == 0 then []
    else
      var i := n - 1;
      BuildContainerConstraints(refsContainer, i, restSize)
        + (if refsContainer[RefInfoIndex(i, Left)] then [ContainerConstraint(i, Left, 0.0)] else [])
        + (if refsContainer[RefInfoIndex(i, Right)] then [ContainerConstraint(i, Right, restSize)] else [])
  }

  /**
   * A container constraint exists exactly for each child side whose
   * reference info references the container: a Left one at 0 and a Right one
   * at the rest size. No edge is pinned twice.
   */
  lemma {:induction false} ContainerConstraintsFromRefInfos(refsContainer: seq<bool>, n: nat, restSize: real)
    requires 4 * n <= |refsContainer|
    ensures forall c :: c in BuildContainerConstraints(refsContainer, n, restSize) <==>
              && c.rect < n
              && ((c.side == Left && c.position == 0.0 && refsContainer[RefInfoIndex(c.rect, Left)])
               || (c.side == Right && c.position == restSize && refsContainer[RefInfoIndex(c.rect, Right)]))
    ensures DistinctPins(BuildContainerConstraints(refsContainer, n, restSize))
  {
    if n > 0 {
      var i := n - 1;
      ContainerConstraintsFromRefInfos(refsContainer, i, restSize);
      var prev := BuildContainerConstraints(refsContainer, i, restSize);
      var cs := BuildContainerConstraints(refsContainer, n, restSize);
      forall k | 0 <= k < |prev| ensures cs[k] == prev[k] && prev[k].rect < i {
        assert prev[k] in prev;
      }
      forall k | |prev| <= k < |cs| ensures cs[k].rect == i { }
      assert |cs| <= |prev| + 2;
      if |cs| == |prev| + 2 {
        assert cs[|prev|].side == Left && cs[|prev| + 1].side == Right;
      }
    }
  }

  /** Whether a graph reference yields a buffer constraint. */
  predicate EmitsBuffer(f: Ref) {
    Horizontal(f.side) && f.fromIndex < f.toIndex
  }

  /** The buffer constraint made from a reference that yields one. */
  function BufferOf(f: Ref): BufferConstraint
    requires EmitsBuffer(f)
  {
    BufferConstraint(f.fromIndex, f.side, f.toIndex, Flip(f.side))
  }

  /** The buffer constraint list, as the third loop of `Build` appends to it. */
  function BuildBufferConstraints(refs: seq<Ref>): (r: seq<BufferConstraint>)
    ensures |r| <= |refs|
    decreases |refs|
  {
    if refs == [] then []
    else
      var n := |refs| - 1;
      BuildBufferConstraints(refs[..n]) + (if EmitsBuffer(refs[n]) then [BufferOf(refs[n])] else [])
  }

  /**
   * A buffer constraint exists exactly for each horizontal reference with
   * `FromIndex < ToIndex` (vertical references, the reverse duplicate and
   * references to the parent container yield nothing), and links opposite sides of two distinct rects.
   */
  lemma {:induction false} BufferConstraintsFromRefs(refs: seq<Ref>)
    ensures forall b :: b in BuildBufferConstraints(refs) <==>
              exists f :: f in refs && EmitsBuffer(f) && b == BufferOf(f)
    ensures forall b :: b in BuildBufferConstraints(refs) ==>
              && b.rect0 < b.rect1
              && (b.side0 == Left ==> b.side1 == Right)
              && (b.side0 == Right ==> b.side1 == Left)
              && Horizontal(b.side0)
    ensures |BuildBufferConstraints(refs)| <= |refs|
  {
    if refs != [] {
      var n := |refs| - 1;
      var init := refs[..n];
      BufferConstraintsFromRefs(init);
      assert refs == init + [refs[n]];
      forall b ensures b in BuildBufferConstraints(refs) <==>
                       exists f :: f in refs && EmitsBuffer(f) && b == BufferOf(f)
      {
        if b in BuildBufferConstraints(refs) && b !in BuildBufferConstraints(init) {
          assert refs[n] in refs;
        }
        if exists f :: f in refs && EmitsBuffer(f) && b == BufferOf(f) {
          var f :| f in refs && EmitsBuffer(f) && b == BufferOf(f);
          if f in init {
            assert b in BuildBufferConstraints(init);
          }
        }
      }
    }
  }

  /** The indices of the references that yield a buffer constraint, in reference order. */
  function EmittingIndices(refs: seq<Ref>): (idx: seq<nat>)
    ensures forall k :: 0 <= k < |idx| ==> idx[k] < |refs| && EmitsBuffer(refs[idx[k]])
    ensures forall j, k :: 0 <= j < k < |idx| ==> idx[j] < idx[k]
    ensures forall i :: 0 <= i < |refs| && EmitsBuffer(refs[i]) ==> i in idx
    decreases |refs|
  {
    if refs == [] then []
    else
      var n := |refs| - 1;
      var prev := EmittingIndices(refs[..n]);
      assert forall k :: 0 <= k < |prev| ==> prev[k] < n && refs[prev[k]] == refs[..n][prev[k]];
      assert forall i :: 0 <= i < n ==> refs[i] == refs[..n][i];
      prev + (if EmitsBuffer(refs[n]) then [n] else [])
  }

  /**
   * The buffer list follows the reference list: constraint `k` is made from
   * the `k`-th emitting reference, so there is exactly one per emitting
   * reference, in reference order.
   */
  lemma {:induction false} BufferConstraintsInRefOrder(refs: seq<Ref>)
    ensures |BuildBufferConstraints(refs)| == |EmittingIndices(refs)|
    ensures forall k :: 0 <= k < |EmittingIndices(refs)| ==>
              BuildBufferConstraints(refs)[k] == BufferOf(refs[EmittingIndices(refs)[k]])
    decreases |refs|
  {
    if refs != [] {
      var n := |refs| - 1;
      var init := refs[..n];
      BufferConstraintsInRefOrder(init);
      var prev := EmittingIndices(init);
      var B := BuildBufferConstraints(refs);
      assert B == BuildBufferConstraints(init) + (if EmitsBuffer(refs[n]) then [BufferOf(refs[n])] else []);
      assert EmittingIndices(refs) == prev + (if EmitsBuffer(refs[n]) then [n] else []);
      forall k | 0 <= k < |prev|
        ensures B[k] == BufferOf(refs[EmittingIndices(refs)[k]])
      {
        assert EmittingIndices(refs)[k] == prev[k];
        assert refs[prev[k]] == init[prev[k]];
      }
    }
  }

  /**
   * With every child a container and every reference that yields a buffer
   * naming a child, the lists `Build` makes refer only to existing rects,
   * none of them null.
   */
  lemma BuildIsApplicable(controls: seq<Child>, refsContainer: seq<bool>, refs: seq<Ref>, restSize: real)
    requires |refsContainer| == 4 * |controls|
    requires forall i :: 0 <= i < |controls| ==> controls[i].ChildContainer?
    requires forall f :: f in refs && EmitsBuffer(f) ==> f.toIndex < |controls|
    ensures forall i :: 0 <= i < |controls| ==> BuildRects(controls)[i].Some?
    ensures Applicable(BuildRects(controls), BuildSizeConstraints(controls),
                       BuildContainerConstraints(refsContainer, |controls|, restSize),
                       BuildBufferConstraints(refs))
  {
    var rs := BuildRects(controls);
    SizeConstraintsMatchRects(controls);
    ContainerConstraintsFromRefInfos(refsContainer, |controls|, restSize);
    BufferConstraintsFromRefs(refs);
    var pins := BuildContainerConstraints(refsContainer, |controls|, restSize);
    forall k | 0 <= k < |pins| ensures Refers(rs, pins[k].rect) {
      assert pins[k] in pins;
    }
    var buffers := BuildBufferConstraints(refs);
    forall k | 0 <= k < |buffers| ensures Refers(rs, buffers[k].rect0) && Refers(rs, buffers[k].rect1) {
      assert buffers[k] in buffers;
      var f :| f in refs && EmitsBuffer(f) && buffers[k] == BufferOf(f);
    }
  }
}
