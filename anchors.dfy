/**
 * Gathering the island of anchored controls that move with a window while it
 * is resized: the swap-with-last scan `TakeConnectedAnchorControls` and the
 * worklist `MakeAnchorControlIsland` that grows the island from the window
 * outwards.
 *
 * Controls are named by their ids; whether the snap-expanded bounding boxes
 * of two controls intersect is the parameter `intersects`.
 */
module Anchors {
  import opened Geometry

  /** `[Control, int2, number]`: a control, its size mask and its offset scale. */
  datatype AnchorEntry = AnchorEntry(control: nat, mask: Vec2, offsetScale: real)

  /** The ids of the controls of a list of entries. */
  function ControlsOf(s: seq<AnchorEntry>): set<nat> {
    set e | e in s :: e.control
  }

  /** Removing element `i` by overwriting it with the last one and dropping the last. */
  function SwapRemove(s: seq<AnchorEntry>, i: nat): (r: seq<AnchorEntry>)
    requires i < |s|
    ensures |r| == |s| - 1
    ensures forall j :: 0 <= j < i ==> r[j] == s[j]
    ensures multiset(r) + multiset{s[i]} == multiset(s)
  {
    var last := |s| - 1;
    var r := s[i := s[last]][..last];
    if i == last then
      assert s == r + [s[i]];
      r
    else
      assert s == s[..i] + [s[i]] + s[i + 1..last] + [s[last]];
      assert r == s[..i] + [s[last]] + s[i + 1..last];
      r
  }

  /**
   * The scan of `TakeConnectedAnchorControls` from index `i` on: the pool left
   * behind and the list with every taken entry appended, in the order taken.
   */
  function TakeFrom(pool: seq<AnchorEntry>, i: nat, from: nat, intersects: (nat, nat) -> bool,
                    taken: seq<AnchorEntry>): (r: (seq<AnchorEntry>, seq<AnchorEntry>))
    requires i <= |pool|
    ensures |r.0| + |r.1| == |pool| + |taken|
    ensures multiset(r.0) + multiset(r.1) == multiset(pool) + multiset(taken)
    ensures |taken| <= |r.1| && r.1[..|taken|] == taken
    decreases |pool| - i
  {
    if i == |pool| then (pool, taken)
    else if intersects(from, pool[i].control) then
      var r := TakeFrom(SwapRemove(pool, i), i, from, intersects, taken + [pool[i]]);
      assert r.1[..|taken|] == (taken + [pool[i]])[..|taken + [pool[i]]|][..|taken|];
      r
    else
      TakeFrom(pool, i + 1, from, intersects, taken)
  }

  /**
   * The scan takes exactly the entries whose control intersects `from`: every
   * copy of such an entry moves to the end of `taken`, every other entry stays
   * in the pool.
   */
  lemma {:induction false} TakeFromSplits(pool: seq<AnchorEntry>, i: nat, from: nat,
                                          intersects: (nat, nat) -> bool, taken: seq<AnchorEntry>)
    requires i <= |pool|
    requires forall j :: 0 <= j < i ==> !intersects(from, pool[j].control)
    ensures var r := TakeFrom(pool, i, from, intersects, taken);
            forall e :: multiset(r.0)[e] == if intersects(from, e.control) then 0 else multiset(pool)[e]
    ensures var r := TakeFrom(pool, i, from, intersects, taken);
            forall e :: multiset(r.1)[e]
                        == multiset(taken)[e] + if intersects(from, e.control) then multiset(pool)[e] else 0
    decreases |pool| - i
  {
    if i == |pool| {
      forall e | e in pool ensures !intersects(from, e.control) {
        var j :| 0 <= j < |pool| && pool[j] == e;
      }
    } else if intersects(from, pool[i].control) {
      var rest := SwapRemove(pool, i);
      TakeFromSplits(rest, i, from, intersects, taken + [pool[i]]);
    } else {
      TakeFromSplits(pool, i + 1, from, intersects, taken);
    }
  }

  /** The scan as the caller sees it: what is left behind and what is taken. */
  lemma TakeSplits(pool: seq<AnchorEntry>, from: nat, intersects: (nat, nat) -> bool,
                   taken: seq<AnchorEntry>)
    ensures var r := TakeFrom(pool, 0, from, intersects, taken);
            && (forall e :: e in r.0 ==> e in pool && !intersects(from, e.control))
            && (forall k :: |taken| <= k < |r.1| ==> intersects(from, r.1[k].control))
            && multiset(r.0) + multiset(r.1) == multiset(pool) + multiset(taken)
  {
    var r := TakeFrom(pool, 0, from, intersects, taken);
    TakeFromSplits(pool, 0, from, intersects, taken);
    forall e | e in r.0 ensures e in pool && !intersects(from, e.control) {
      assert multiset(r.0)[e] > 0;
    }
    forall k | |taken| <= k < |r.1| ensures intersects(from, r.1[k].control) {
      var e := r.1[k];
      assert r.1 == taken + r.1[|taken|..];
      assert multiset(r.1)[e] == multiset(taken)[e] + multiset(r.1[|taken|..])[e];
      assert e in r.1[|taken|..];
    }
  }

  /**
   * Every entry of the island was reached from the window: its control
   * intersects the window or an entry before it.
   */
  ghost predicate Chained(owner: nat, island: seq<AnchorEntry>, intersects: (nat, nat) -> bool) {
    forall j :: 0 <= j < |island| ==>
      intersects(owner, island[j].control)
      || exists p :: 0 <= p < j && intersects(island[p].control, island[j].control)
  }

  /** The worklist of `MakeAnchorControlIsland`: entries before `k` have been expanded. */
  function Grow(pool: seq<AnchorEntry>, island: seq<AnchorEntry>, k: nat,
                intersects: (nat, nat) -> bool): (r: (seq<AnchorEntry>, seq<AnchorEntry>))
    requires k <= |island|
    ensures multiset(r.0) + multiset(r.1) == multiset(pool) + multiset(island)
    ensures |island| <= |r.1| && r.1[..|island|] == island
    decreases |pool| + |island| - k
  {
    if k == |island| then (pool, island)
    else
      var step := TakeFrom(pool, 0, island[k].control, intersects, island);
      var r := Grow(step.0, step.1, k + 1, intersects);
      assert r.1[..|island|] == r.1[..|step.1|][..|island|];
      r
  }

  /**
   * `MakeAnchorControlIsland`: the entries that stay unconnected, and the
   * island that replaces the anchor list.
   */
  function IslandSplit(pool: seq<AnchorEntry>, owner: nat, intersects: (nat, nat) -> bool)
    : (r: (seq<AnchorEntry>, seq<AnchorEntry>))
    ensures multiset(r.0) + multiset(r.1) == multiset(pool)
  {
    var first := TakeFrom(pool, 0, owner, intersects, []);
    Grow(first.0, first.1, 0, intersects)
  }

  /** One expansion step of the worklist keeps the invariant of `GrowKeeps`. */
  lemma GrowStep(pool: seq<AnchorEntry>, island: seq<AnchorEntry>, k: nat,
                 owner: nat, intersects: (nat, nat) -> bool)
    requires k < |island| && Chained(owner, island, intersects)
    requires forall e :: e in pool ==> !intersects(owner, e.control)
    requires forall j, e :: 0 <= j < k && e in pool ==> !intersects(island[j].control, e.control)
    ensures var step := TakeFrom(pool, 0, island[k].control, intersects, island);
            && Chained(owner, step.1, intersects)
            && (forall e :: e in step.0 ==> !intersects(owner, e.control))
            && (forall j, e :: 0 <= j < k + 1 && e in step.0 ==> !intersects(step.1[j].control, e.control))
            && multiset(step.0) + multiset(step.1) == multiset(pool) + multiset(island)
  {
    var from := island[k].control;
    var step := TakeFrom(pool, 0, from, intersects, island);
    TakeSplits(pool, from, intersects, island);
    forall j | 0 <= j < |step.1|
      ensures intersects(owner, step.1[j].control)
              || exists p :: 0 <= p < j && intersects(step.1[p].control, step.1[j].control)
    {
      if j < |island| {
        assert step.1[j] == island[j];
        if !intersects(owner, island[j].control) {
          var p :| 0 <= p < j && intersects(island[p].control, island[j].control);
          assert step.1[p] == island[p];
        }
      } else {
        assert step.1[k] == island[k];
      }
    }
    forall j, e | 0 <= j < k + 1 && e in step.0 ensures !intersects(step.1[j].control, e.control) {
      assert step.1[j] == island[j];
    }
  }

  /** What the worklist keeps true until it is exhausted. */
  lemma {:induction false} GrowKeeps(pool: seq<AnchorEntry>, island: seq<AnchorEntry>, k: nat,
                                     owner: nat, intersects: (nat, nat) -> bool)
    requires k <= |island| && Chained(owner, island, intersects)
    requires forall e :: e in pool ==> !intersects(owner, e.control)
    requires forall j, e :: 0 <= j < k && e in pool ==> !intersects(island[j].control, e.control)
    ensures var r := Grow(pool, island, k, intersects);
            && Chained(owner, r.1, intersects)
            && (forall e :: e in r.0 ==> !intersects(owner, e.control))
            && (forall m, e :: m in r.1 && e in r.0 ==> !intersects(m.control, e.control))
            && multiset(r.0) + multiset(r.1) == multiset(pool) + multiset(island)
    decreases |pool| + |island| - k
  {
    if k == |island| {
      forall m, e | m in island && e in pool ensures !intersects(m.control, e.control) {
        var j :| 0 <= j < |island| && island[j] == m;
      }
    } else {
      var step := TakeFrom(pool, 0, island[k].control, intersects, island);
      GrowStep(pool, island, k, owner, intersects);
      GrowKeeps(step.0, step.1, k + 1, owner, intersects);
    }
  }

  /**
   * The island and what is left of the pool partition the pool; every island
   * entry is chained to the window, and no leftover entry touches the window
   * or the island.
   */
  lemma IslandIsClosed(pool: seq<AnchorEntry>, owner: nat, intersects: (nat, nat) -> bool)
    ensures var r := IslandSplit(pool, owner, intersects);
            && Chained(owner, r.1, intersects)
            && (forall e :: e in r.0 ==> !intersects(owner, e.control))
            && (forall m, e :: m in r.1 && e in r.0 ==> !intersects(m.control, e.control))
            && multiset(r.0) + multiset(r.1) == multiset(pool)
  {
    var first := TakeFrom(pool, 0, owner, intersects, []);
    TakeSplits(pool, owner, intersects, []);
    GrowKeeps(first.0, first.1, 0, owner, intersects);
  }

  /** A walk through control ids along which each step intersects the next. */
  predicate IsPath(intersects: (nat, nat) -> bool, path: seq<nat>) {
    |path| >= 1 && forall t :: 0 <= t < |path| - 1 ==> intersects(path[t], path[t + 1])
  }

  /** Every chained entry is reached from the window by a path of intersections. */
  lemma {:induction false} ChainedReachable(owner: nat, island: seq<AnchorEntry>,
                                            intersects: (nat, nat) -> bool, j: nat)
    requires Chained(owner, island, intersects) && j < |island|
    ensures exists path :: IsPath(intersects, path) && path[0] == owner
                           && path[|path| - 1] == island[j].control
                           && forall t :: 1 <= t < |path| ==> path[t] in ControlsOf(island)
    decreases j
  {
    assert island[j] in island;
    if intersects(owner, island[j].control) {
      var path := [owner, island[j].control];
      assert IsPath(intersects, path);
      assert forall t :: 1 <= t < |path| ==> path[t] in ControlsOf(island);
    } else {
      var p :| 0 <= p < j && intersects(island[p].control, island[j].control);
      ChainedReachable(owner, island, intersects, p);
      var path :| IsPath(intersects, path) && path[0] == owner && path[|path| - 1] == island[p].control
                  && forall t :: 1 <= t < |path| ==> path[t] in ControlsOf(island);
      var longer := path + [island[j].control];
      assert IsPath(intersects, longer);
      assert forall t :: 1 <= t < |longer| ==> longer[t] in ControlsOf(island);
    }
  }

  /**
   * The island is complete: any path of intersections that leaves the window
   * and steps only on controls of the anchor list stays on island controls.
   */
  lemma {:induction false} IslandComplete(pool: seq<AnchorEntry>, owner: nat,
                                          intersects: (nat, nat) -> bool, path: seq<nat>)
    requires IsPath(intersects, path) && path[0] == owner
    requires forall t :: 1 <= t < |path| ==> path[t] in ControlsOf(pool)
    ensures forall t :: 1 <= t < |path| ==> path[t] in ControlsOf(IslandSplit(pool, owner, intersects).1)
  {
    var r := IslandSplit(pool, owner, intersects);
    IslandIsClosed(pool, owner, intersects);
    var t := 1;
    while t < |path|
      invariant 1 <= t <= |path|
      invariant forall u :: 1 <= u < t ==> path[u] in ControlsOf(r.1)
    {
      assert path[t] in ControlsOf(pool);
      var e :| e in pool && e.control == path[t];
      assert multiset(pool)[e] > 0;
      if t == 1 {
        assert intersects(owner, e.control);
      } else {
        assert path[t - 1] in ControlsOf(r.1);
        var m :| m in r.1 && m.control == path[t - 1];
        assert intersects(m.control, e.control);
      }
      assert e !in r.0;
      assert e in r.1;
      t := t + 1;
    }
  }

  /** A window and the anchored controls it drags along while resized. */
  class Window {
    const id: nat
    var anchorControls: seq<AnchorEntry>

    constructor (id: nat, anchorControls: seq<AnchorEntry>)
      ensures this.id == id && this.anchorControls == anchorControls
    {
      this.id := id;
      this.anchorControls := anchorControls;
    }

    /**
     * Moves every anchor entry whose control intersects `from` to the end of
     * `taken`, removing it from the anchor list by swapping in the last entry.
     */
    method TakeConnectedAnchorControls(from: nat, intersects: (nat, nat) -> bool,
                                       taken: seq<AnchorEntry>) returns (out: seq<AnchorEntry>)
      modifies this
      ensures (anchorControls, out) == TakeFrom(old(anchorControls), 0, from, intersects, taken)
    {
      out := taken;
      var i := 0;
      while i < |anchorControls|
        invariant i <= |anchorControls|
        invariant TakeFrom(anchorControls, i, from, intersects, out)
                  == TakeFrom(old(anchorControls), 0, from, intersects, taken)
        decreases |anchorControls| - i
      {
        var entry := anchorControls[i];
        if intersects(from, entry.control) {
          out := out + [entry];
          anchorControls := anchorControls[i := anchorControls[|anchorControls| - 1]][..|anchorControls| - 1];
        } else {
          i := i + 1;
        }
      }
    }

    /**
     * Replaces the anchor list by the island of entries connected to this
     * window, directly or through other entries of the island.
     */
    method MakeAnchorControlIsland(intersects: (nat, nat) -> bool)
      modifies this
      ensures anchorControls == IslandSplit(old(anchorControls), id, intersects).1
    {
      var island := TakeConnectedAnchorControls(id, intersects, []);
      var k := 0;
      while k < |island|
        invariant k <= |island|
        invariant Grow(anchorControls, island, k, intersects) == IslandSplit(old(anchorControls), id, intersects)
        decreases |anchorControls| + |island| - k
      {
        island := TakeConnectedAnchorControls(island[k].control, intersects, island);
        k := k + 1;
      }
      anchorControls := island;
    }
  }
}
