/**
 Loop paths of scheduled nodes. Each computing node names a path of axes; the builder of
 the loop nest leaves and enters loops until the open loops spell that path, then appends
 the call. `Walk` is the depth-first walk that the finished nest should have.
 */
module LoopPaths {
  import opened Options

  type AxisId = int

  const ID_NONE: AxisId := -1

  /** What the builder reads of a node; `computes` is false for units without work (inputs, outputs). */
  datatype Node = Node(computes: bool, schedAxis: seq<AxisId>, loopAxis: AxisId)

  // ---------- the path a node asks for ----------

  /** First position of `a`, or the length if it does not occur. */
  function Position(axes: seq<AxisId>, a: AxisId): (p: nat)
    ensures p <= |axes|
    ensures p < |axes| ==> axes[p] == a
    ensures forall i | 0 <= i < p :: axes[i] != a
  {
    if axes == [] || axes[0] == a then 0 else 1 + Position(axes[1..], a)
  }

  predicate HasNoLoop(node: Node) {
    node.schedAxis == [] || node.loopAxis == ID_NONE
  }

  /** The loop axis of a computing node must occur among its schedule axes. */
  predicate Placeable(node: Node) {
    node.computes && !HasNoLoop(node) ==> node.loopAxis in node.schedAxis
  }

  /** The loops that are open when the node runs: the schedule axes down to its loop axis. */
  function PathOf(node: Node): seq<AxisId>
    requires Placeable(node) && node.computes
  {
    if HasNoLoop(node) then [] else node.schedAxis[..Position(node.schedAxis, node.loopAxis) + 1]
  }

  /** The open loops at each node; a node without work runs wherever the builder stands. */
  function Paths(nodes: seq<Node>): (paths: seq<seq<AxisId>>)
    requires forall n | n in nodes :: Placeable(n)
    ensures |paths| == |nodes|
    ensures forall k | 0 <= k < |nodes| && nodes[k].computes :: paths[k] == PathOf(nodes[k])
  {
    if nodes == [] then []
    else
      var before, node := Paths(nodes[..|nodes| - 1]), nodes[|nodes| - 1];
      before + [if node.computes then PathOf(node) else Last(before)]
  }

  function Last(paths: seq<seq<AxisId>>): seq<AxisId> {
    if paths == [] then [] else paths[|paths| - 1]
  }

  // ---------- moving from one path to another ----------

  function CommonPrefix(a: seq<AxisId>, b: seq<AxisId>): (n: nat)
    ensures n <= |a| && n <= |b|
    ensures forall i | 0 <= i < n :: a[i] == b[i]
    ensures n < |a| && n < |b| ==> a[n] != b[n]
  {
    if a == [] || b == [] || a[0] != b[0] then 0 else 1 + CommonPrefix(a[1..], b[1..])
  }

  lemma CommonPrefixUnique(a: seq<AxisId>, b: seq<AxisId>, n: nat)
    requires n <= |a| && n <= |b|
    requires forall i | 0 <= i < n :: a[i] == b[i]
    requires n < |a| && n < |b| ==> a[n] != b[n]
    ensures CommonPrefix(a, b) == n
  {
  }

  datatype Event = Enter(axis: AxisId) | Exit | Visit(node: nat)

  function Exits(n: nat): (r: seq<Event>)
    ensures |r| == n && forall e | e in r :: e == Exit
  {
    if n == 0 then [] else Exits(n - 1) + [Exit]
  }

  function Enters(path: seq<AxisId>): (r: seq<Event>)
    ensures |r| == |path| && forall i | 0 <= i < |r| :: r[i] == Enter(path[i])
  {
    if path == [] then [] else Enters(path[..|path| - 1]) + [Enter(path[|path| - 1])]
  }

  /** Leave down to the longest common prefix, then enter the rest. */
  function Moves(from: seq<AxisId>, to: seq<AxisId>): seq<Event> {
    var n := CommonPrefix(from, to);
    Exits(|from| - n) + Enters(to[n..])
  }

  lemma ConcatAssociates(a: seq<Event>, b: seq<Event>, c: seq<Event>)
    ensures a + (b + c) == a + b + c
  {
  }

  lemma ExitsFirst(n: nat)
    requires 0 < n
    ensures Exits(n) == [Exit] + Exits(n - 1)
  {
    if 1 < n { ExitsFirst(n - 1); }
  }

  lemma MovesNone(path: seq<AxisId>)
    ensures Moves(path, path) == []
  {
    CommonPrefixUnique(path, path, |path|);
  }

  lemma MovesEnter(from: seq<AxisId>, to: seq<AxisId>)
    requires |from| < |to| && forall i | 0 <= i < |from| :: from[i] == to[i]
    ensures Moves(from, to) == [Enter(to[|from|])] + Moves(from + [to[|from|]], to)
  {
    CommonPrefixUnique(from, to, |from|);
    var next := from + [to[|from|]];
    CommonPrefixUnique(next, to, |next|);
  }

  lemma MovesLeave(from: seq<AxisId>, to: seq<AxisId>)
    requires !(|from| <= |to| && forall i | 0 <= i < |from| :: from[i] == to[i])
    ensures Moves(from, to) == [Exit] + Moves(from[..|from| - 1], to)
  {
    var n := CommonPrefix(from, to);
    var next := from[..|from| - 1];
    ExitsFirst(|from| - n);
    CommonPrefixUnique(next, to, n);
  }

  /** What the finished nest should look like: leave and enter loops from path to path, and visit each node. */
  function Walk(paths: seq<seq<AxisId>>): seq<Event> {
    if paths == [] then []
    else
      var before := paths[..|paths| - 1];
      Walk(before) + Moves(Last(before), Last(paths)) + [Visit(|before|)]
  }

  // ---------- properties of the walk ----------

  function Visits(events: seq<Event>): seq<nat> {
    if events == [] then []
    else
      var last := events[|events| - 1];
      Visits(events[..|events| - 1]) + if last.Visit? then [last.node] else []
  }

  lemma {:induction false} VisitsConcat(a: seq<Event>, b: seq<Event>)
    ensures Visits(a + b) == Visits(a) + Visits(b)
    decreases |b|
  {
    if b == [] {
      assert a + b == a;
    } else {
      var init := b[..|b| - 1];
      assert (a + b)[..|a + b| - 1] == a + init;
      VisitsConcat(a, init);
    }
  }

  lemma {:induction false} NoVisits(events: seq<Event>)
    requires forall e | e in events :: !e.Visit?
    ensures Visits(events) == []
    decreases |events|
  {
    if events != [] {
      NoVisits(events[..|events| - 1]);
    }
  }

  function FirstNats(k: nat): (r: seq<nat>)
    ensures |r| == k && forall i | 0 <= i < k :: r[i] == i
  {
    if k == 0 then [] else FirstNats(k - 1) + [k - 1]
  }

  lemma VisitsStep(events: seq<Event>, from: seq<AxisId>, to: seq<AxisId>, k: nat)
    ensures Visits(events + Moves(from, to) + [Visit(k)]) == Visits(events) + [k]
  {
    var moves := Moves(from, to);
    assert forall e | e in moves :: !e.Visit?;
    NoVisits(moves);
    VisitsConcat(events, moves);
    var all := events + moves + [Visit(k)];
    assert all[..|all| - 1] == events + moves;
  }

  /** Depth-first, the calls come in node order. */
  lemma {:induction false} WalkVisits(paths: seq<seq<AxisId>>)
    ensures Visits(Walk(paths)) == FirstNats(|paths|)
  {
    if paths != [] {
      var before := paths[..|paths| - 1];
      WalkVisits(before);
      VisitsStep(Walk(before), Last(before), Last(paths), |before|);
    }
  }

  /** The open loops after a walk, outermost first; `None` if it leaves a loop that is not open. */
  function OpenLoops(events: seq<Event>): Option<seq<AxisId>> {
    if events == [] then Some([])
    else
      var before, last := OpenLoops(events[..|events| - 1]), events[|events| - 1];
      if before.None? then None
      else
        match last
        case Enter(a) => Some(before.value + [a])
        case Exit => if before.value == [] then None else Some(before.value[..|before.value| - 1])
        case Visit(_) => before
  }

  lemma OpenAfterExit(events: seq<Event>)
    ensures OpenLoops(events).Some? && OpenLoops(events).value != [] ==>
              OpenLoops(events + [Exit]) == Some(OpenLoops(events).value[..|OpenLoops(events).value| - 1])
  {
    var all := events + [Exit];
    assert all[..|all| - 1] == events;
  }

  lemma {:induction false} OpenAfterExits(events: seq<Event>, path: seq<AxisId>, n: nat)
    requires OpenLoops(events) == Some(path) && n <= |path|
    ensures OpenLoops(events + Exits(n)) == Some(path[..|path| - n])
  {
    if n == 0 {
      assert events + Exits(0) == events && path[..|path|] == path;
    } else {
      OpenAfterExits(events, path, n - 1);
      OpenAfterExit(events + Exits(n - 1));
      assert events + Exits(n) == events + Exits(n - 1) + [Exit];
      assert path[..|path| - (n - 1)][..|path| - n] == path[..|path| - n];
    }
  }

  lemma {:induction false} OpenAfterEnters(events: seq<Event>, path: seq<AxisId>, more: seq<AxisId>)
    requires OpenLoops(events) == Some(path)
    ensures OpenLoops(events + Enters(more)) == Some(path + more)
    decreases |more|
  {
    if more == [] {
      assert events + Enters(more) == events && path + more == path;
    } else {
      var init := more[..|more| - 1];
      OpenAfterEnters(events, path, init);
      var all := events + Enters(more);
      assert all[..|all| - 1] == events + Enters(init) && all[|all| - 1] == Enter(more[|more| - 1]);
      assert path + more == path + init + [more[|more| - 1]];
    }
  }

  lemma OpenJoined(events: seq<Event>, a: seq<Event>, b: seq<Event>, path: seq<AxisId>)
    requires OpenLoops(events + a + b) == Some(path)
    ensures OpenLoops(events + (a + b)) == Some(path)
  {
    ConcatAssociates(events, a, b);
  }

  lemma Rejoin(from: seq<AxisId>, to: seq<AxisId>, n: nat)
    requires n <= |from| && n <= |to| && forall i | 0 <= i < n :: from[i] == to[i]
    ensures from[..n] + to[n..] == to
  {
    assert from[..n] == to[..n];
  }

  lemma OpenAfterTurn(events: seq<Event>, from: seq<AxisId>, to: seq<AxisId>, n: nat)
    requires OpenLoops(events) == Some(from)
    requires n <= |from| && n <= |to| && forall i | 0 <= i < n :: from[i] == to[i]
    ensures OpenLoops(events + Exits(|from| - n) + Enters(to[n..])) == Some(to)
  {
    var exits := Exits(|from| - n);
    OpenAfterExits(events, from, |from| - n);
    OpenAfterEnters(events + exits, from[..n], to[n..]);
    Rejoin(from, to, n);
  }

  lemma OpenAfterMoves(events: seq<Event>, from: seq<AxisId>, to: seq<AxisId>)
    requires OpenLoops(events) == Some(from)
    ensures OpenLoops(events + Moves(from, to)) == Some(to)
  {
    var n := CommonPrefix(from, to);
    OpenAfterTurn(events, from, to, n);
    OpenJoined(events, Exits(|from| - n), Enters(to[n..]), to);
  }

  /** Every call sits under exactly its path. */
  lemma {:induction false} WalkPaths(paths: seq<seq<AxisId>>)
    ensures OpenLoops(Walk(paths)) == Some(Last(paths))
  {
    if paths != [] {
      var before := paths[..|paths| - 1];
      WalkPaths(before);
      OpenAfterMoves(Walk(before), Last(before), Last(paths));
      OpenAfterVisit(Walk(before) + Moves(Last(before), Last(paths)), |before|);
    }
  }

  /** A walk begins with `upTo`, which ends with the visit of node `k` while exactly the loops of `path` are open. */
  predicate Reaches(walk: seq<Event>, upTo: seq<Event>, k: nat, path: seq<AxisId>) {
    upTo != [] && upTo <= walk && upTo[|upTo| - 1] == Visit(k) && OpenLoops(upTo) == Some(path)
  }

  lemma WalkGrows(paths: seq<seq<AxisId>>)
    requires paths != []
    ensures Walk(paths[..|paths| - 1]) <= Walk(paths)
  {
  }

  lemma {:induction false} WalkReaches(paths: seq<seq<AxisId>>, k: nat)
    requires k < |paths|
    ensures Reaches(Walk(paths), Walk(paths[..k + 1]), k, paths[k])
    decreases |paths|
  {
    if k + 1 == |paths| {
      assert paths[..k + 1] == paths;
      WalkPaths(paths);
    } else {
      var before := paths[..|paths| - 1];
      WalkReaches(before, k);
      assert before[..k + 1] == paths[..k + 1];
      WalkGrows(paths);
    }
  }

  lemma OpenAfterVisit(events: seq<Event>, k: nat)
    ensures OpenLoops(events + [Visit(k)]) == OpenLoops(events)
  {
    var all := events + [Visit(k)];
    assert all[..|all| - 1] == events;
  }

  // ---------- the distance that steers the builder ----------

  /** Counts matching positions, not a common prefix; positive means enter, negative means leave. */
  method LoopAxisDistance(current: seq<AxisId>, node: Node) returns (distance: Option<int>)
    requires node.computes
    ensures distance.Some? <==> Placeable(node)
    ensures distance.Some? ==>
              && (distance.value == 0 <==> current == PathOf(node))
              && (distance.value > 0 <==> current < PathOf(node))
              && (distance.value > 0 ==> distance.value == |PathOf(node)| - |current|)
              && (distance.value < 0 ==> -|current| <= distance.value)
  {
    if HasNoLoop(node) {
      return Some(-|current|);
    }
    var axes := node.schedAxis;
    var sameAxisNum := 0;
    var i := 0;
    while i < |axes| && i < |current|
      invariant 0 <= sameAxisNum <= i <= |axes| && i <= |current|
      invariant sameAxisNum == i <==> forall j | 0 <= j < i :: current[j] == axes[j]
    {
      if axes[i] == current[i] {
        sameAxisNum := sameAxisNum + 1;
      } else if axes[i] == node.loopAxis {
        break;
      }
      i := i + 1;
    }
    assert sameAxisNum == |current| <==> |current| <= |axes| && forall j | 0 <= j < |current| :: current[j] == axes[j];

    var loopAxisPos := -1;
    i := 0;
    while i < |axes|
      invariant 0 <= i <= |axes| && loopAxisPos == -1
      invariant forall j | 0 <= j < i :: axes[j] != node.loopAxis
    {
      if node.loopAxis == axes[i] {
        loopAxisPos := i;
        break;
      }
      i := i + 1;
    }
    if loopAxisPos < 0 {
      return None;
    }
    ghost var path := axes[..loopAxisPos + 1];
    assert PathOf(node) == path;
    assert current <= path <==> |current| <= |path| && forall j | 0 <= j < |current| :: current[j] == axes[j];
    if sameAxisNum < |current| {
      if loopAxisPos < sameAxisNum {
        distance := Some(-(|current| - loopAxisPos));
      } else {
        distance := Some(-(|current| - sameAxisNum));
      }
    } else {
      distance := Some((loopAxisPos + 1) - |current|);
    }
  }
}
