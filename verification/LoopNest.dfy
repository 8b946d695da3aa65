/**
 The loop nest of a kernel as a heap of `Loop` objects, built node by node.

 A ghost snapshot of the heap (`Nest`) records the bodies of every loop and the loops
 that are open, outermost first. Loops carry their place in ghost constants: the loop they
 sit in, the index among its bodies, and a birth number larger than that of the loop
 they sit in, so that walks over the nest end.
 */
module LoopNest {
  import opened Options
  import opened LoopPaths
  import opened TensorLinks

  datatype Body = CallBody(call: ApiCall) | LoopBody(loop: Loop)

  class Loop {
    const axisId: AxisId
    ghost const birth: nat
    ghost const owner: Loop?
    ghost const slot: nat
    var parent: Loop?
    var bodys: seq<Body>
    var isGraphHasReduceNode: bool
    var isAr: bool

    constructor (axis: AxisId, ghost birth: nat, ghost owner: Loop?, ghost slot: nat)
      ensures axisId == axis && parent == null && bodys == []
      ensures this.birth == birth && this.owner == owner && this.slot == slot
    {
      axisId, parent, bodys, isGraphHasReduceNode, isAr := axis, null, [], false, false;
      this.birth, this.owner, this.slot := birth, owner, slot;
    }

    function Flags(): (bool, bool)
      reads this
    {
      (isGraphHasReduceNode, isAr)
    }

    method AddLoop(loop: Loop)
      requires loop != this
      modifies this`bodys, loop`parent, loop`isGraphHasReduceNode, loop`isAr
      ensures bodys == old(bodys) + [LoopBody(loop)] && loop.parent == this && loop.Flags() == Flags()
    {
      loop.isGraphHasReduceNode := this.isGraphHasReduceNode;
      loop.isAr := this.isAr;
      bodys := bodys + [LoopBody(loop)];
      loop.parent := this;
    }

    method AddCall(call: ApiCall)
      modifies this`bodys
      ensures bodys == old(bodys) + [CallBody(call)]
    {
      bodys := bodys + [CallBody(call)];
    }
  }

  /** `shape` maps every loop of the nest to its bodies; `spine` lists the open loops, root first; `calls`
      lists the calls in the order in which they were appended. */
  datatype Nest = Nest(shape: map<Loop, seq<Body>>, spine: seq<Loop>, births: nat, calls: seq<ApiCall>)

  ghost predicate WellFormed(n: Nest) {
    && n.spine != []
    && (forall l | l in n.shape :: l.birth < n.births)
    && (forall l, i {:trigger PlacedAt(n, l, i)} | l in n.shape && 0 <= i < |n.shape[l]| :: PlacedAt(n, l, i))
    && (forall j | 0 <= j < |n.spine| :: n.spine[j] in n.shape)
    && n.spine[0].owner == null
    && (forall j {:trigger OpenAt(n, j)} | 0 < j < |n.spine| :: OpenAt(n, j))
  }

  /** If body `i` of `l` is a loop, that loop says so itself; if it is a call, its node number says which. */
  ghost predicate PlacedAt(n: Nest, l: Loop, i: nat)
    requires l in n.shape && i < |n.shape[l]|
  {
    match n.shape[l][i]
    case LoopBody(sub) => sub in n.shape && sub.owner == l && sub.slot == i && l.birth < sub.birth
    case CallBody(call) => call.node < |n.calls| && n.calls[call.node] == call
  }

  /** Open loop `j` is the last body of open loop `j - 1`. */
  ghost predicate OpenAt(n: Nest, j: nat)
    requires 0 < j < |n.spine| && n.spine[j - 1] in n.shape
  {
    var l, sub := n.spine[j - 1], n.spine[j];
    && n.shape[l] != [] && n.shape[l][|n.shape[l]| - 1] == LoopBody(sub)
    && sub.owner == l && sub.slot == |n.shape[l]| - 1 && l.birth < sub.birth
  }

  /** The heap is the one recorded in the snapshot: `parent` leads from every loop to the loop it sits in, and
      all loops have the flags of the root. */
  ghost predicate Mirrors(n: Nest)
    requires WellFormed(n)
    reads n.shape.Keys
  {
    && (forall l | l in n.shape :: l.bodys == n.shape[l])
    && (forall l | l in n.shape && l.owner != null :: l.parent == l.owner)
    && (forall l | l in n.shape :: l.Flags() == n.spine[0].Flags())
  }

  /** The open loops spell the current axes. */
  ghost predicate Spells(n: Nest, axes: seq<AxisId>) {
    |n.spine| == |axes| + 1 && forall j | 0 <= j < |axes| :: n.spine[j + 1].axisId == axes[j]
  }

  ghost function Current(n: Nest): Loop
    requires WellFormed(n)
  {
    n.spine[|n.spine| - 1]
  }

  // ---------- walks ----------

  /** Depth-first walk over the first `k` bodies of a loop. */
  ghost function WalkOf(n: Nest, l: Loop, k: nat): seq<Event>
    requires WellFormed(n) && l in n.shape && k <= |n.shape[l]|
    decreases n.births - l.birth, k
  {
    if k == 0 then []
    else
      assert PlacedAt(n, l, k - 1);
      WalkOf(n, l, k - 1) +
      match n.shape[l][k - 1]
      case CallBody(call) => [Visit(call.node)]
      case LoopBody(sub) => [Enter(sub.axisId)] + WalkOf(n, sub, |n.shape[sub]|) + [Exit]
  }

  /** The calls below a loop, depth first. */
  ghost function CallsOf(n: Nest, l: Loop, k: nat): seq<ApiCall>
    requires WellFormed(n) && l in n.shape && k <= |n.shape[l]|
    decreases n.births - l.birth, k
  {
    if k == 0 then []
    else
      assert PlacedAt(n, l, k - 1);
      CallsOf(n, l, k - 1) +
      match n.shape[l][k - 1]
      case CallBody(call) => [call]
      case LoopBody(sub) => CallsOf(n, sub, |n.shape[sub]|)
  }

  /** The calls are those whose numbers the walk visits. */
  ghost predicate Numbered(calls: seq<ApiCall>, all: seq<ApiCall>, nodes: seq<nat>) {
    |calls| == |nodes| && forall i {:trigger IsCall(all, nodes, calls, i)} | 0 <= i < |calls| :: IsCall(all, nodes, calls, i)
  }

  ghost predicate IsCall(all: seq<ApiCall>, nodes: seq<nat>, calls: seq<ApiCall>, i: nat)
    requires i < |calls| == |nodes|
  {
    nodes[i] < |all| && calls[i] == all[nodes[i]]
  }

  lemma NumberedAppend(a: seq<ApiCall>, b: seq<ApiCall>, all: seq<ApiCall>, xs: seq<nat>, ys: seq<nat>)
    requires Numbered(a, all, xs) && Numbered(b, all, ys)
    ensures Numbered(a + b, all, xs + ys)
  {
    forall i | 0 <= i < |a + b| ensures IsCall(all, xs + ys, a + b, i) {
      if i < |a| { assert IsCall(all, xs, a, i); } else { assert IsCall(all, ys, b, i - |a|); }
    }
  }

  lemma NumberedConcat(a: seq<ApiCall>, b: seq<ApiCall>, all: seq<ApiCall>, x: seq<Event>, y: seq<Event>)
    requires Numbered(a, all, Visits(x)) && Numbered(b, all, Visits(y))
    ensures Numbered(a + b, all, Visits(x + y))
  {
    VisitsConcat(x, y);
    NumberedAppend(a, b, all, Visits(x), Visits(y));
  }

  lemma NumberedCall(call: ApiCall, all: seq<ApiCall>)
    requires call.node < |all| && all[call.node] == call
    ensures Numbered([call], all, Visits([Visit(call.node)]))
  {
    assert [Visit(call.node)][..0] == [];
    assert Visits([Visit(call.node)]) == [call.node];
  }

  lemma NumberedLoop(a: seq<ApiCall>, all: seq<ApiCall>, axis: AxisId, inner: seq<Event>)
    requires Numbered(a, all, Visits(inner))
    ensures Numbered(a, all, Visits([Enter(axis)] + inner + [Exit]))
  {
    VisitsConcat([Enter(axis)], inner);
    VisitsConcat([Enter(axis)] + inner, [Exit]);
    NoVisits([Enter(axis)]);
    NoVisits([Exit]);
    assert Visits([Enter(axis)] + inner + [Exit]) == Visits(inner);
  }

  lemma NumberedBodies(a: seq<ApiCall>, b: seq<ApiCall>, all: seq<ApiCall>, x: seq<Event>, axis: AxisId, inner: seq<Event>)
    requires Numbered(a, all, Visits(x)) && Numbered(b, all, Visits(inner))
    ensures Numbered(a + b, all, Visits(x + ([Enter(axis)] + inner + [Exit])))
  {
    NumberedLoop(b, all, axis, inner);
    NumberedConcat(a, b, all, x, [Enter(axis)] + inner + [Exit]);
  }

  /** Depth first, the calls below a loop are those that the walk visits. */
  lemma {:induction false} CallsVisited(n: Nest, l: Loop, k: nat)
    requires WellFormed(n) && l in n.shape && k <= |n.shape[l]|
    ensures Numbered(CallsOf(n, l, k), n.calls, Visits(WalkOf(n, l, k)))
    decreases n.births - l.birth, k
  {
    if k > 0 {
      assert PlacedAt(n, l, k - 1);
      var calls, walk := CallsOf(n, l, k - 1), WalkOf(n, l, k - 1);
      CallsVisited(n, l, k - 1);
      match n.shape[l][k - 1]
      case CallBody(call) =>
        NumberedCall(call, n.calls);
        NumberedConcat(calls, [call], n.calls, walk, [Visit(call.node)]);
      case LoopBody(sub) =>
        var inner := WalkOf(n, sub, |n.shape[sub]|);
        CallsVisited(n, sub, |n.shape[sub]|);
        NumberedBodies(calls, CallsOf(n, sub, |n.shape[sub]|), n.calls, walk, sub.axisId, inner);
    }
  }

  /** The walk of open loop `j` up to and including the step into open loop `j + 1`. */
  ghost function WalkBefore(n: Nest, j: nat): seq<Event>
    requires WellFormed(n) && j < |n.spine| - 1
  {
    var l, sub := n.spine[j], n.spine[j + 1];
    assert OpenAt(n, j + 1);
    WalkOf(n, l, |n.shape[l]| - 1) + [Enter(sub.axisId)]
  }

  /** The walk from open loop `j` on, with the open loops not yet left. */
  ghost function OpenWalk(n: Nest, j: nat): seq<Event>
    requires WellFormed(n) && j < |n.spine|
    decreases |n.spine| - j
  {
    var l := n.spine[j];
    if j == |n.spine| - 1 then WalkOf(n, l, |n.shape[l]|)
    else
      WalkBefore(n, j) + OpenWalk(n, j + 1)
  }

  lemma WalkThroughOpen(n: Nest, j: nat)
    requires WellFormed(n) && j < |n.spine| - 1
    ensures var l, sub := n.spine[j], n.spine[j + 1];
            WalkOf(n, l, |n.shape[l]|) == WalkBefore(n, j) + WalkOf(n, sub, |n.shape[sub]|) + [Exit]
  {
    assert OpenAt(n, j + 1);
  }

  /** Leaving all open loops completes the walk. */
  lemma {:induction false} OpenWalkCloses(n: Nest, j: nat)
    requires WellFormed(n) && j < |n.spine|
    ensures WalkOf(n, n.spine[j], |n.shape[n.spine[j]]|) == OpenWalk(n, j) + Exits(|n.spine| - 1 - j)
    decreases |n.spine| - j
  {
    if j < |n.spine| - 1 {
      var exits := Exits(|n.spine| - 2 - j);
      OpenWalkCloses(n, j + 1);
      WalkThroughOpen(n, j);
      ConcatAssociates(WalkBefore(n, j), OpenWalk(n, j + 1), exits);
      ConcatAssociates(WalkBefore(n, j) + OpenWalk(n, j + 1), exits, [Exit]);
    }
  }

  /** `b` extends `a` outside the open loops of `a` only by new loops. */
  ghost predicate KeepsClosed(a: Nest, b: Nest) {
    forall l | l in a.shape && l !in a.spine :: l in b.shape && b.shape[l] == a.shape[l]
  }

  lemma ClosedBodies(n: Nest, l: Loop, i: nat)
    requires WellFormed(n) && l in n.shape && i < |n.shape[l]| && n.shape[l][i].LoopBody?
    requires l in n.spine ==> l == Current(n) || i < |n.shape[l]| - 1
    ensures n.shape[l][i].loop !in n.spine
  {
    var sub := n.shape[l][i].loop;
    assert PlacedAt(n, l, i);
    if j :| 0 <= j < |n.spine| && n.spine[j] == sub {
      if 0 < j {
        assert OpenAt(n, j);
        SpineOrdered(n, j - 1, |n.spine| - 1);
      }
    }
  }

  /** Walks through closed loops do not change. */
  lemma {:induction false} ClosedWalk(a: Nest, b: Nest, l: Loop, k: nat)
    requires WellFormed(a) && WellFormed(b) && KeepsClosed(a, b)
    requires l in a.shape && l in b.shape && k <= |a.shape[l]| && k <= |b.shape[l]|
    requires forall i | 0 <= i < k :: a.shape[l][i] == b.shape[l][i]
    requires forall i | 0 <= i < k && a.shape[l][i].LoopBody? :: a.shape[l][i].loop !in a.spine
    ensures WalkOf(a, l, k) == WalkOf(b, l, k)
    decreases a.births - l.birth, k
  {
    if k > 0 {
      ClosedWalk(a, b, l, k - 1);
      assert PlacedAt(a, l, k - 1);
      match a.shape[l][k - 1]
      case CallBody(_) =>
      case LoopBody(sub) =>
        forall i | 0 <= i < |a.shape[sub]| && a.shape[sub][i].LoopBody? ensures a.shape[sub][i].loop !in a.spine {
          ClosedBodies(a, sub, i);
        }
        ClosedWalk(a, b, sub, |a.shape[sub]|);
    }
  }

  lemma {:induction false} SpineOrdered(n: Nest, i: nat, j: nat)
    requires WellFormed(n) && i < j < |n.spine|
    ensures n.spine[i].birth < n.spine[j].birth
  {
    if i < j - 1 { SpineOrdered(n, i, j - 1); }
    assert OpenAt(n, j);
  }

  lemma SpineDistinct(n: Nest)
    requires WellFormed(n)
    ensures forall i, j | 0 <= i < j < |n.spine| :: n.spine[i] != n.spine[j]
  {
    forall i, j | 0 <= i < j < |n.spine| ensures n.spine[i] != n.spine[j] {
      SpineOrdered(n, i, j);
    }
  }

  // ---------- one step of the builder ----------

  /** The snapshot after a call was appended to the current loop. */
  ghost function WithCall(n: Nest, call: ApiCall): Nest
    requires WellFormed(n)
  {
    n.(shape := n.shape[Current(n) := n.shape[Current(n)] + [CallBody(call)]], calls := n.calls + [call])
  }

  /** The snapshot after a new loop was opened inside the current loop. */
  ghost function WithLoop(n: Nest, loop: Loop): Nest
    requires WellFormed(n)
  {
    Nest(n.shape[Current(n) := n.shape[Current(n)] + [LoopBody(loop)]][loop := []], n.spine + [loop], n.births + 1,
         n.calls)
  }

  /** The snapshot after the current loop was left. */
  ghost function WithoutCurrent(n: Nest): Nest {
    n.(spine := n.spine[..|n.spine| - if n.spine == [] then 0 else 1])
  }

  lemma WithCallWellFormed(n: Nest, call: ApiCall)
    requires WellFormed(n) && call.node == |n.calls|
    ensures WellFormed(WithCall(n, call))
  {
    var m := WithCall(n, call);
    forall l, i | l in m.shape && 0 <= i < |m.shape[l]| ensures PlacedAt(m, l, i) {
      if i < |n.shape[l]| { assert PlacedAt(n, l, i); }
    }
    SpineDistinct(n);
    forall j | 0 < j < |m.spine| ensures OpenAt(m, j) {
      assert OpenAt(n, j);
    }
  }

  lemma WithLoopWellFormed(n: Nest, loop: Loop)
    requires WellFormed(n) && loop !in n.shape
    requires loop.birth == n.births && loop.owner == Current(n) && loop.slot == |n.shape[Current(n)]|
    ensures WellFormed(WithLoop(n, loop))
  {
    var m := WithLoop(n, loop);
    forall l, i | l in m.shape && 0 <= i < |m.shape[l]| ensures PlacedAt(m, l, i) {
      if l != loop && i < |n.shape[l]| { assert PlacedAt(n, l, i); }
    }
    SpineDistinct(n);
    forall j | 0 < j < |m.spine| ensures OpenAt(m, j) {
      if j < |n.spine| { assert OpenAt(n, j); }
    }
  }

  lemma WithoutCurrentWellFormed(n: Nest)
    requires WellFormed(n) && 1 < |n.spine|
    ensures WellFormed(WithoutCurrent(n))
  {
    var m := WithoutCurrent(n);
    forall l, i | l in m.shape && 0 <= i < |m.shape[l]| ensures PlacedAt(m, l, i) {
      assert PlacedAt(n, l, i);
    }
    forall j | 0 < j < |m.spine| ensures OpenAt(m, j) {
      assert OpenAt(n, j);
    }
  }

  /** `b` only adds to the last body of each loop that is open in `a`. */
  ghost predicate Extends(a: Nest, b: Nest)
    requires WellFormed(a)
  {
    && KeepsClosed(a, b)
    && (forall j | 0 <= j < |a.spine| - 1 :: a.spine[j] in b.shape && b.shape[a.spine[j]] == a.shape[a.spine[j]])
    && Current(a) in b.shape && a.shape[Current(a)] <= b.shape[Current(a)]
  }

  /** Up to its open last body, an open loop is walked as before. */
  lemma PrefixWalk(a: Nest, b: Nest, j: nat)
    requires WellFormed(a) && WellFormed(b) && Extends(a, b) && j < |a.spine|
    ensures var l := a.spine[j];
            var k := if l == Current(a) then |a.shape[l]| else |a.shape[l]| - 1;
            0 <= k <= |a.shape[l]| && l in b.shape && k <= |b.shape[l]| && WalkOf(a, l, k) == WalkOf(b, l, k)
  {
    var l := a.spine[j];
    if j < |a.spine| - 1 { assert OpenAt(a, j + 1); }
    var k := if l == Current(a) then |a.shape[l]| else |a.shape[l]| - 1;
    forall i | 0 <= i < k && a.shape[l][i].LoopBody? ensures a.shape[l][i].loop !in a.spine {
      ClosedBodies(a, l, i);
    }
    ClosedWalk(a, b, l, k);
  }

  lemma SameBefore(a: Nest, b: Nest, j: nat)
    requires WellFormed(a) && WellFormed(b) && Extends(a, b) && a.spine <= b.spine && j < |a.spine| - 1
    ensures WalkBefore(a, j) == WalkBefore(b, j)
  {
    SpineDistinct(a);
    PrefixWalk(a, b, j);
  }

  /** What is added to the walk of the current loop is added to the walk of every open loop. */
  lemma {:induction false} OpenWalkGrows(a: Nest, b: Nest, more: seq<Event>, j: nat)
    requires WellFormed(a) && WellFormed(b) && Extends(a, b) && a.spine <= b.spine && j < |a.spine|
    requires OpenWalk(b, |a.spine| - 1) == OpenWalk(a, |a.spine| - 1) + more
    ensures OpenWalk(b, j) == OpenWalk(a, j) + more
    decreases |a.spine| - j
  {
    if j < |a.spine| - 1 {
      OpenWalkGrows(a, b, more, j + 1);
      SameBefore(a, b, j);
      ConcatAssociates(WalkBefore(a, j), OpenWalk(a, j + 1), more);
    }
  }

  lemma WithCallWalk(n: Nest, call: ApiCall)
    requires WellFormed(n) && WellFormed(WithCall(n, call))
    ensures OpenWalk(WithCall(n, call), 0) == OpenWalk(n, 0) + [Visit(call.node)]
  {
    SpineDistinct(n);
    PrefixWalk(n, WithCall(n, call), |n.spine| - 1);
    OpenWalkGrows(n, WithCall(n, call), [Visit(call.node)], 0);
  }

  lemma WithLoopWalk(n: Nest, loop: Loop)
    requires WellFormed(n) && loop !in n.shape && WellFormed(WithLoop(n, loop))
    ensures OpenWalk(WithLoop(n, loop), 0) == OpenWalk(n, 0) + [Enter(loop.axisId)]
  {
    var m := WithLoop(n, loop);
    SpineDistinct(n);
    PrefixWalk(n, m, |n.spine| - 1);
    assert OpenWalk(m, |n.spine|) == [];
    OpenWalkGrows(n, m, [Enter(loop.axisId)], 0);
  }

  lemma {:induction false} WithoutCurrentWalk(n: Nest, j: nat)
    requires WellFormed(n) && WellFormed(WithoutCurrent(n)) && j < |n.spine| - 1
    ensures OpenWalk(WithoutCurrent(n), j) == OpenWalk(n, j) + [Exit]
    decreases |n.spine| - j
  {
    var m, l, sub := WithoutCurrent(n), n.spine[j], n.spine[j + 1];
    assert OpenAt(n, j + 1);
    SameShapeWalk(n, m, l, |n.shape[l]| - 1);
    if j == |n.spine| - 2 {
      SameShapeWalk(n, m, sub, |n.shape[sub]|);
    } else {
      WithoutCurrentWalk(n, j + 1);
      assert WalkBefore(n, j) == WalkBefore(m, j);
      ConcatAssociates(WalkBefore(n, j), OpenWalk(n, j + 1), [Exit]);
    }
  }

  lemma {:induction false} SameShapeWalk(a: Nest, b: Nest, l: Loop, k: nat)
    requires WellFormed(a) && WellFormed(b) && a.shape == b.shape && l in a.shape && k <= |a.shape[l]|
    ensures WalkOf(a, l, k) == WalkOf(b, l, k)
    decreases a.births - l.birth, k
  {
    if k > 0 {
      SameShapeWalk(a, b, l, k - 1);
      match a.shape[l][k - 1]
      case CallBody(_) =>
      case LoopBody(sub) =>
        assert PlacedAt(a, l, k - 1);
        SameShapeWalk(a, b, sub, |a.shape[sub]|);
    }
  }

  // ---------- entering and leaving loops ----------

  /** `current` is the innermost open loop of the heap recorded in `n`; the open loops spell `axes`;
      the nest so far reads `walked`. */
  ghost predicate Standing(n: Nest, current: Loop, axes: seq<AxisId>, walked: seq<Event>)
    reads n.shape.Keys
  {
    WellFormed(n) && Mirrors(n) && Spells(n, axes) && current == Current(n) && OpenWalk(n, 0) == walked
  }

  /** `n'` came from `n` by working on its loops and on new ones, below the same root. */
  twostate predicate GrownFrom(n: Nest, new n': Nest) {
    && n.shape.Keys <= n'.shape.Keys && fresh(n'.shape.Keys - n.shape.Keys)
    && n.spine != [] && n'.spine != [] && n'.spine[0] == n.spine[0] && n.calls <= n'.calls
  }

  method EnterLoop(current: Loop, axes: seq<AxisId>, axis: AxisId, ghost n: Nest, ghost walked: seq<Event>)
    returns (current': Loop, ghost n': Nest)
    requires Standing(n, current, axes, walked)
    modifies current
    ensures Standing(n', current', axes + [axis], walked + [Enter(axis)])
    ensures GrownFrom(n, n') && n'.calls == n.calls
  {
    var loop := new Loop(axis, n.births, current, |n.shape[current]|);
    current.AddLoop(loop);
    WithLoopWellFormed(n, loop);
    WithLoopWalk(n, loop);
    n' := WithLoop(n, loop);
    current' := current.bodys[|current.bodys| - 1].loop;
    SpineDistinct(n);
  }

  method LeaveLoop(current: Loop, axes: seq<AxisId>, ghost n: Nest, ghost walked: seq<Event>)
    returns (current': Loop, ghost n': Nest)
    requires Standing(n, current, axes, walked) && axes != []
    ensures Standing(n', current', axes[..|axes| - 1], walked + [Exit])
    ensures GrownFrom(n, n') && n'.calls == n.calls
  {
    WithoutCurrentWellFormed(n);
    WithoutCurrentWalk(n, 0);
    n' := WithoutCurrent(n);
    assert OpenAt(n, |n.spine| - 1);
    current' := current.parent;
  }

  /** One turn of the loop: enter the next axis of the schedule, or leave the current loop. */
  method StepToPath(current: Loop, axes: seq<AxisId>, node: Node, enter: bool, ghost n: Nest, ghost walked: seq<Event>)
    returns (current': Loop, axes': seq<AxisId>, ghost n': Nest, ghost step: Event)
    requires node.computes && Placeable(node) && Standing(n, current, axes, walked)
    requires axes != PathOf(node) && (enter <==> axes < PathOf(node))
    modifies current
    ensures Standing(n', current', axes', walked + [step])
    ensures GrownFrom(n, n') && n'.calls == n.calls
    ensures Moves(axes, PathOf(node)) == [step] + Moves(axes', PathOf(node))
  {
    if enter {
      MovesEnter(axes, PathOf(node));
      var axis := node.schedAxis[|axes|];
      axes' := axes + [axis];
      current', n' := EnterLoop(current, axes, axis, n, walked);
      step := Enter(axis);
    } else {
      MovesLeave(axes, PathOf(node));
      axes' := axes[..|axes| - 1];
      current', n' := LeaveLoop(current, axes, n, walked);
      step := Exit;
    }
  }

  lemma Tally(walked: seq<Event>, done: seq<Event>, step: Event, rest: seq<Event>)
    ensures walked + done + [step] == walked + (done + [step])
    ensures done + ([step] + rest) == done + [step] + rest
  {
  }

  /** Opens and closes loops until the open loops are the path of the node; `steps` counts the turns. */
  method EnterPath(current: Loop, axes: seq<AxisId>, node: Node, ghost n: Nest, ghost walked: seq<Event>)
    returns (ok: bool, current': Loop, axes': seq<AxisId>, ghost n': Nest, ghost steps: nat)
    requires node.computes && Standing(n, current, axes, walked)
    modifies n.shape.Keys
    ensures ok <==> Placeable(node)
    ensures GrownFrom(n, n') && n'.calls == n.calls
    ensures ok ==> axes' == PathOf(node) && Standing(n', current', axes', walked + Moves(axes, PathOf(node)))
    ensures ok ==> steps == |axes| + |PathOf(node)| - 2 * CommonPrefix(axes, PathOf(node))
    ensures !ok ==> Standing(n', current', axes', walked) && n' == n && axes' == axes && current' == current
  {
    current', axes', n', steps := current, axes, n, 0;
    var distance := LoopAxisDistance(axes', node);
    if distance.None? {
      return false, current', axes', n', steps;
    }
    ghost var path := PathOf(node);
    ghost var done: seq<Event> := [];
    assert walked + done == walked;
    while distance.value != 0
      invariant distance.Some?
      invariant distance.value == 0 <==> axes' == path
      invariant distance.value > 0 <==> axes' < path
      invariant Standing(n', current', axes', walked + done)
      invariant GrownFrom(n, n') && n'.calls == n.calls
      invariant Moves(axes, path) == done + Moves(axes', path)
      invariant steps == |done|
      decreases |Moves(axes', path)|
    {
      ghost var step;
      current', axes', n', step := StepToPath(current', axes', node, distance.value > 0, n', walked + done);
      Tally(walked, done, step, Moves(axes', path));
      done := done + [step];
      steps := steps + 1;
      distance := LoopAxisDistance(axes', node);
    }
    MovesNone(path);
    assert done == Moves(axes, path);
    ok := true;
  }
}
