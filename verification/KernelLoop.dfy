/**
 The construction of a kernel: one pass over the scheduled nodes that grows the loop
 nest, connects the inputs of each call, and links its outputs.
 */
module KernelLoop {
  import opened Options
  import opened LoopPaths
  import opened TensorLinks
  import opened LoopNest
  import opened CallWiring

  /** A node of the graph; an absent input is `None`. Graph outputs register no tensors. */
  datatype GraphNode = GraphNode(node: Node, isOutput: bool, inputs: seq<Option<int>>, outputs: seq<TensorAttr>)

  function NodesOf(nodes: seq<GraphNode>): seq<Node> {
    if nodes == [] then [] else NodesOf(nodes[..|nodes| - 1]) + [nodes[|nodes| - 1].node]
  }

  function Registers(g: GraphNode): seq<TensorAttr> {
    if g.isOutput then [] else g.outputs
  }

  /** The tensors that the nodes register, in order. */
  function Registered(nodes: seq<GraphNode>): seq<TensorAttr> {
    if nodes == [] then [] else Registered(nodes[..|nodes| - 1]) + Registers(nodes[|nodes| - 1])
  }

  /** A node is accepted if its path, its inputs and its outputs are. */
  predicate Accepted(g: GraphNode, produced: set<int>) {
    Placeable(g.node) && Wirable(g.inputs, Registers(g), produced)
  }

  predicate AllAccepted(nodes: seq<GraphNode>) {
    nodes == [] ||
    (var before := nodes[..|nodes| - 1];
     AllAccepted(before) && Accepted(nodes[|nodes| - 1], Ids(Registered(before), |Registered(before)|)))
  }

  lemma {:induction false} AcceptedPrefix(nodes: seq<GraphNode>, k: nat)
    requires AllAccepted(nodes) && k <= |nodes|
    ensures AllAccepted(nodes[..k])
    decreases |nodes|
  {
    if k == |nodes| {
      assert nodes[..k] == nodes;
    } else {
      var before := nodes[..|nodes| - 1];
      AcceptedPrefix(before, k);
      assert before[..k] == nodes[..k];
    }
  }

  lemma {:induction false} AcceptedPlaceable(nodes: seq<GraphNode>)
    requires AllAccepted(nodes)
    ensures |NodesOf(nodes)| == |nodes| && forall n | n in NodesOf(nodes) :: Placeable(n)
  {
    if nodes != [] { AcceptedPlaceable(nodes[..|nodes| - 1]); }
  }

  /** The path at which each node of an accepted list runs. */
  function PathsOf(nodes: seq<GraphNode>): (paths: seq<seq<AxisId>>)
    requires AllAccepted(nodes)
    ensures |paths| == |nodes|
  {
    AcceptedPlaceable(nodes);
    Paths(NodesOf(nodes))
  }

  lemma PathsOfStep(nodes: seq<GraphNode>)
    requires AllAccepted(nodes) && nodes != []
    ensures var before, node := nodes[..|nodes| - 1], nodes[|nodes| - 1].node;
            PathsOf(nodes) == PathsOf(before) + [if node.computes then PathOf(node) else Last(PathsOf(before))]
  {
    AcceptedPlaceable(nodes);
    assert NodesOf(nodes)[..|nodes| - 1] == NodesOf(nodes[..|nodes| - 1]);
  }

  /** The innermost axis of a path below `root`. */
  function Innermost(path: seq<AxisId>, root: AxisId): AxisId {
    if path == [] then root else path[|path| - 1]
  }

  lemma WalkStep(nodes: seq<GraphNode>)
    requires AllAccepted(nodes) && nodes != []
    ensures var before, node := nodes[..|nodes| - 1], nodes[|nodes| - 1].node;
            var from := Last(PathsOf(before));
            var to := if node.computes then PathOf(node) else from;
            Walk(PathsOf(nodes)) == Walk(PathsOf(before)) + Moves(from, to) + [Visit(|before|)]
  {
    PathsOfStep(nodes);
  }

  // ---------- one node ----------

  /** Moves to the path of the node, if it computes. */
  method MoveTo(current: Loop, axes: seq<AxisId>, node: Node, ghost n: Nest, ghost walked: seq<Event>)
    returns (ok: bool, current': Loop, axes': seq<AxisId>, ghost n': Nest)
    requires Standing(n, current, axes, walked)
    modifies n.shape.Keys
    ensures ok <==> Placeable(node)
    ensures ok ==> axes' == (if node.computes then PathOf(node) else axes)
    ensures ok ==> Standing(n', current', axes', walked + Moves(axes, axes'))
    ensures ok ==> GrownFrom(n, n') && n'.calls == n.calls
  {
    if node.computes {
      ghost var steps;
      ok, current', axes', n', steps := EnterPath(current, axes, node, n, walked);
    } else {
      ok, current', axes', n' := true, current, axes, n;
      MovesNone(axes);
      assert walked + [] == walked;
    }
  }

  /** Appends a new call to the current loop. */
  method AppendCall(current: Loop, axes: seq<AxisId>, k: nat, ghost n: Nest, ghost walked: seq<Event>)
    returns (call: ApiCall, ghost n': Nest)
    requires Standing(n, current, axes, walked) && k == |n.calls|
    modifies current`bodys
    ensures Standing(n', current, axes, walked + [Visit(k)])
    ensures n'.shape.Keys == n.shape.Keys && n'.spine == n.spine && n'.calls == n.calls + [call]
    ensures fresh(call) && call.node == k && call.inputs == [] && call.outputs == []
    ensures call.depth == |axes| && call.axis == Innermost(axes, n.spine[0].axisId)
  {
    call := new ApiCall(k, current.axisId, |axes|);
    current.AddCall(call);
    WithCallWellFormed(n, call);
    WithCallWalk(n, call);
    n' := WithCall(n, call);
  }

  /** Moves to the path of the node and appends a call there. */
  method PlaceCall(current: Loop, axes: seq<AxisId>, node: Node, k: nat, ghost n: Nest, ghost walked: seq<Event>)
    returns (placed: Option<ApiCall>, current': Loop, axes': seq<AxisId>, ghost n': Nest)
    requires Standing(n, current, axes, walked) && k == |n.calls|
    modifies n.shape.Keys
    ensures placed.Some? <==> Placeable(node)
    ensures placed.Some? ==> axes' == (if node.computes then PathOf(node) else axes)
    ensures placed.Some? ==> Standing(n', current', axes', walked + Moves(axes, axes') + [Visit(k)]) && GrownFrom(n, n')
    ensures placed.Some? ==>
              var call := placed.value;
              && fresh(call) && call.inputs == [] && call.outputs == [] && n'.calls == n.calls + [call]
              && CallAt(call, k, axes', n.spine[0].axisId)
  {
    var ok;
    placed := None;
    ok, current', axes', n' := MoveTo(current, axes, node, n, walked);
    if ok {
      var call;
      call, n' := AppendCall(current', axes', k, n', walked + Moves(axes, axes'));
      placed := Some(call);
    }
  }

  /** Everything the builder does for one node. */
  method AddNode(g: GraphNode, k: nat, current: Loop, axes: seq<AxisId>, table: LinkTable,
                 producers: map<int, ApiTensor>, ghost n: Nest, ghost walked: seq<Event>, ghost outs: seq<ApiTensor>)
    returns (added: Option<ApiCall>, current': Loop, axes': seq<AxisId>, producers': map<int, ApiTensor>,
             ghost n': Nest, ghost outs': seq<ApiTensor>)
    requires Standing(n, current, axes, walked) && k == |n.calls|
    requires table.Valid(outs) && ProducersAre(producers, outs)
    modifies n.shape.Keys, table, outs
    ensures added.Some? <==> Accepted(g, producers.Keys)
    ensures added.Some? ==> axes' == (if g.node.computes then PathOf(g.node) else axes)
    ensures added.Some? ==> Standing(n', current', axes', walked + Moves(axes, axes') + [Visit(k)]) && GrownFrom(n, n')
    ensures added.Some? ==> fresh(added.value) && n'.calls == n.calls + [added.value]
    ensures added.Some? ==> CallAt(added.value, k, axes', n.spine[0].axisId)
    ensures added.Some? ==> InputsFor(outs, g.inputs, added.value.inputs)
    ensures added.Some? ==> forall t | t in outs ::
              t.readers == old(t.readers) + SlotsOf(added.value, added.value.inputs, |added.value.inputs|, t)
    ensures added.Some? ==> table.Valid(outs') && Grown(outs, outs', added.value, Registers(g), |Registers(g)|)
    ensures added.Some? ==> MadeBy(added.value, outs', |outs|)
    ensures added.Some? ==> producers'.Keys == producers.Keys + Ids(Registers(g), |Registers(g)|)
    ensures added.Some? ==> ProducersAre(producers', outs')
  {
    producers', outs' := producers, outs;
    added, current', axes', n' := PlaceCall(current, axes, g.node, k, n, walked);
    if added.Some? {
      label Placed:
      var ok;
      ok, producers', outs' := WireCall(added.value, g.inputs, Registers(g), table, producers, outs);
      assert unchanged@Placed(n'.shape.Keys);
      if !ok {
        added := None;
      }
    }
  }

  predicate CallAt(call: ApiCall, k: nat, path: seq<AxisId>, root: AxisId) {
    call.node == k && call.depth == |path| && call.axis == Innermost(path, root)
  }

  lemma {:induction false} IdsConcat(a: seq<TensorAttr>, b: seq<TensorAttr>, k: nat)
    requires k <= |b|
    ensures Ids(a + b, |a| + k) == Ids(a, |a|) + Ids(b, k)
  {
    if k == 0 {
      IdsPrefix(a, b, |a|);
    } else {
      IdsConcat(a, b, k - 1);
    }
  }

  lemma {:induction false} IdsPrefix(a: seq<TensorAttr>, b: seq<TensorAttr>, k: nat)
    requires k <= |a|
    ensures Ids(a + b, k) == Ids(a, k)
  {
    if 0 < k { IdsPrefix(a, b, k - 1); }
  }

  lemma NodesStep(nodes: seq<GraphNode>, k: nat)
    requires k < |nodes|
    ensures nodes[..k + 1][..k] == nodes[..k] && nodes[..k + 1][k] == nodes[k]
    ensures Registered(nodes[..k + 1]) == Registered(nodes[..k]) + Registers(nodes[k])
    ensures AllAccepted(nodes[..k + 1])
       <==> AllAccepted(nodes[..k]) && Accepted(nodes[k], Ids(Registered(nodes[..k]), |Registered(nodes[..k])|))
    ensures Ids(Registered(nodes[..k + 1]), |Registered(nodes[..k + 1])|)
         == Ids(Registered(nodes[..k]), |Registered(nodes[..k])|) + Ids(Registers(nodes[k]), |Registers(nodes[k])|)
  {
    assert nodes[..k + 1][..k] == nodes[..k];
    IdsConcat(Registered(nodes[..k]), Registers(nodes[k]), |Registers(nodes[k])|);
  }

  /** What the builder has made so far: the nest with its calls, the walk through it, and for each call the
      tensors it reads and those it writes; `outs` lists all tensors written. */
  datatype Progress = Progress(n: Nest, walked: seq<Event>, ins: seq<seq<ApiTensor?>>, made: seq<seq<ApiTensor>>,
                               outs: seq<ApiTensor>)

  /** The outputs of the first `k` calls. */
  function Flatten(made: seq<seq<ApiTensor>>, k: nat): seq<ApiTensor>
    requires k <= |made|
  {
    if k == 0 then [] else Flatten(made, k - 1) + made[k - 1]
  }

  /** Call `k` stands at its path, reads the first producers of its inputs, and has written its outputs. */
  predicate CallMade(g: GraphNode, k: nat, path: seq<AxisId>, root: AxisId, call: ApiCall, before: seq<ApiTensor>,
                     ins: seq<ApiTensor?>, made: seq<ApiTensor>) {
    CallAt(call, k, path, root) && InputsFor(before, g.inputs, ins) && AttrsOf(made) == Registers(g)
    && forall t | t in made :: t.write == call
  }

  predicate CallMadeAt(nodes: seq<GraphNode>, root: AxisId, p: Progress, k: nat)
    requires AllAccepted(nodes) && |p.n.calls| == |p.ins| == |p.made| == |nodes| && k < |nodes|
  {
    CallMade(nodes[k], k, PathsOf(nodes)[k], root, p.n.calls[k], Flatten(p.made, k), p.ins[k], p.made[k])
  }

  /** Calls and outputs have been made for all the nodes. */
  ghost predicate MadeFor(nodes: seq<GraphNode>, root: AxisId, p: Progress)
    requires AllAccepted(nodes)
  {
    && |p.n.calls| == |p.ins| == |p.made| == |nodes|
    && (forall k {:trigger CallMadeAt(nodes, root, p, k)} | 0 <= k < |nodes| :: CallMadeAt(nodes, root, p, k))
    && p.outs == Flatten(p.made, |nodes|) && AttrsOf(p.outs) == Registered(nodes)
  }

  function AttrsOf(outs: seq<ApiTensor>): seq<TensorAttr> {
    if outs == [] then [] else AttrsOf(outs[..|outs| - 1]) + [outs[|outs| - 1].attr]
  }

  lemma {:induction false} AttrsConcat(a: seq<ApiTensor>, b: seq<ApiTensor>)
    ensures AttrsOf(a + b) == AttrsOf(a) + AttrsOf(b)
    decreases |b|
  {
    if b == [] {
      assert a + b == a;
    } else {
      assert (a + b)[..|a + b| - 1] == a + b[..|b| - 1];
      AttrsConcat(a, b[..|b| - 1]);
    }
  }

  lemma {:induction false} AttrsAt(outs: seq<ApiTensor>, attrs: seq<TensorAttr>, k: nat)
    requires k <= |outs| == |attrs| && forall i | 0 <= i < |outs| :: outs[i].attr == attrs[i]
    ensures AttrsOf(outs[..k]) == attrs[..k]
  {
    if 0 < k {
      AttrsAt(outs, attrs, k - 1);
      assert outs[..k][..k - 1] == outs[..k - 1];
    }
  }

  /** What a call has written has the attributes that its node registers. */
  lemma AttrsMade(call: ApiCall, attrs: seq<TensorAttr>, outs: seq<ApiTensor>, n: nat)
    requires OutputsAre(call, attrs, n, outs) && |outs| == n + |attrs|
    ensures AttrsOf(outs[n..]) == attrs
    ensures forall t | t in outs[n..] :: t.write == call
  {
    var made := outs[n..];
    forall i | 0 <= i < |made| ensures made[i].attr == attrs[i] && made[i].write == call {
      assert OutputAt(call, attrs, n, outs, n + i);
    }
    AttrsAt(made, attrs, |made|);
    assert made[..|made|] == made && attrs[..|attrs|] == attrs;
  }

  lemma {:induction false} FlattenPrefix(made: seq<seq<ApiTensor>>, x: seq<ApiTensor>, k: nat)
    requires k <= |made|
    ensures Flatten(made + [x], k) == Flatten(made, k)
  {
    if 0 < k { FlattenPrefix(made, x, k - 1); }
  }

  /** The progress after one more call. */
  ghost predicate OneMore(p: Progress, p': Progress, call: ApiCall, ins: seq<ApiTensor?>, made: seq<ApiTensor>) {
    && p'.n.calls == p.n.calls + [call] && p'.ins == p.ins + [ins] && p'.made == p.made + [made]
    && p'.outs == p.outs + made
  }

  lemma CallMadeBefore(nodes: seq<GraphNode>, k: nat, root: AxisId, p: Progress, p': Progress, call: ApiCall,
                       ins: seq<ApiTensor?>, made: seq<ApiTensor>, i: nat)
    requires k < |nodes| && AllAccepted(nodes[..k]) && AllAccepted(nodes[..k + 1])
    requires MadeFor(nodes[..k], root, p) && OneMore(p, p', call, ins, made) && i < k
    ensures CallMadeAt(nodes[..k + 1], root, p', i)
  {
    NodesStep(nodes, k);
    PathsOfStep(nodes[..k + 1]);
    FlattenPrefix(p.made, made, i);
    assert CallMadeAt(nodes[..k], root, p, i);
  }

  lemma MadeForStep(nodes: seq<GraphNode>, k: nat, root: AxisId, p: Progress, p': Progress, call: ApiCall,
                    ins: seq<ApiTensor?>, made: seq<ApiTensor>)
    requires k < |nodes| && AllAccepted(nodes[..k]) && AllAccepted(nodes[..k + 1])
    requires MadeFor(nodes[..k], root, p) && OneMore(p, p', call, ins, made)
    requires CallMade(nodes[k], k, Last(PathsOf(nodes[..k + 1])), root, call, p.outs, ins, made)
    ensures MadeFor(nodes[..k + 1], root, p')
  {
    var now := nodes[..k + 1];
    NodesStep(nodes, k);
    FlattenPrefix(p.made, made, k);
    AttrsConcat(p.outs, made);
    forall i | 0 <= i < |now| ensures CallMadeAt(now, root, p', i) {
      if i < k { CallMadeBefore(nodes, k, root, p, p', call, ins, made, i); }
    }
  }

  /** The progress is the right one after the nodes `done`. */
  ghost predicate Recorded(done: seq<GraphNode>, root: AxisId, axes: seq<AxisId>, ids: set<int>, p: Progress) {
    && AllAccepted(done) && p.walked == Walk(PathsOf(done)) && axes == Last(PathsOf(done))
    && ids == Ids(Registered(done), |Registered(done)|) && MadeFor(done, root, p)
  }

  /** The same, but to be unfolded only where `Recorded` is mentioned. */
  ghost predicate OnRecord(done: seq<GraphNode>, root: AxisId, axes: seq<AxisId>, ids: set<int>, p: Progress) {
    forall q {:trigger Recorded(done, root, axes, ids, q)} | q == p :: Recorded(done, root, axes, ids, q)
  }

  lemma NextOnRecord(nodes: seq<GraphNode>, k: nat, root: AxisId, axes: seq<AxisId>, ids: set<int>, p: Progress,
                     axes': seq<AxisId>, call: ApiCall, ins: seq<ApiTensor?>, made: seq<ApiTensor>, p': Progress)
    requires k < |nodes| && OnRecord(nodes[..k], root, axes, ids, p) && Accepted(nodes[k], ids)
    requires axes' == if nodes[k].node.computes then PathOf(nodes[k].node) else axes
    requires p'.walked == p.walked + Moves(axes, axes') + [Visit(k)] && OneMore(p, p', call, ins, made)
    requires CallMade(nodes[k], k, axes', root, call, p.outs, ins, made)
    ensures OnRecord(nodes[..k + 1], root, axes', ids + Ids(Registers(nodes[k]), |Registers(nodes[k])|), p')
  {
    assert Recorded(nodes[..k], root, axes, ids, p);
    NodesStep(nodes, k);
    WalkStep(nodes[..k + 1]);
    PathsOfStep(nodes[..k + 1]);
    MadeForStep(nodes, k, root, p, p', call, ins, made);
  }

  /** A refused node refuses the list. */
  lemma RefusedNode(nodes: seq<GraphNode>, k: nat, root: AxisId, axes: seq<AxisId>, ids: set<int>, p: Progress)
    requires k < |nodes| && OnRecord(nodes[..k], root, axes, ids, p) && !Accepted(nodes[k], ids)
    ensures !AllAccepted(nodes)
  {
    assert Recorded(nodes[..k], root, axes, ids, p);
    NodesStep(nodes, k);
    if AllAccepted(nodes) { AcceptedPrefix(nodes, k + 1); }
  }

  // ---------- the heap ----------

  ghost predicate WiredAt(p: Progress, k: nat)
    requires k < |p.n.calls| == |p.ins| == |p.made|
    reads p.n.calls
  {
    p.n.calls[k].inputs == p.ins[k] && p.n.calls[k].outputs == p.made[k]
  }

  ghost predicate ReadAt(p: Progress, i: nat)
    requires i < |p.outs| && |p.n.calls| == |p.ins|
    reads p.outs
  {
    p.outs[i].readers == ReadersOf(p.n.calls, p.ins, |p.n.calls|, p.outs[i])
  }

  /** The calls have the recorded inputs and outputs, and each tensor lists its readers, once per input slot. */
  ghost predicate Wired(p: Progress)
    reads p.n.calls, p.outs
  {
    && |p.n.calls| == |p.ins| == |p.made|
    && (forall k {:trigger WiredAt(p, k)} | 0 <= k < |p.n.calls| :: WiredAt(p, k))
    && (forall i {:trigger ReadAt(p, i)} | 0 <= i < |p.outs| :: ReadAt(p, i))
  }

  /** Tensor `i` lists the calls recorded in `p`, and then the new call once per slot. */
  ghost predicate ReadMoreAt(p: Progress, call: ApiCall, ins: seq<ApiTensor?>, i: nat)
    requires i < |p.outs| && |p.n.calls| == |p.ins|
    reads p.outs
  {
    p.outs[i].readers == ReadersOf(p.n.calls, p.ins, |p.n.calls|, p.outs[i]) + SlotsOf(call, ins, |ins|, p.outs[i])
  }

  /** Tensor `t` is read nowhere so far. */
  predicate ReadNowhere(p: Progress, ins: seq<ApiTensor?>, t: ApiTensor) {
    t !in ins && forall k, i | 0 <= k < |p.ins| && 0 <= i < |p.ins[k]| :: p.ins[k][i] != t
  }

  lemma WiredStep(p: Progress, p': Progress, call: ApiCall, ins: seq<ApiTensor?>, made: seq<ApiTensor>)
    requires OneMore(p, p', call, ins, made) && call.inputs == ins && call.outputs == made
    requires |p.n.calls| == |p.ins| == |p.made| && forall k | 0 <= k < |p.n.calls| :: WiredAt(p, k)
    requires forall i | 0 <= i < |p.outs| :: ReadMoreAt(p, call, ins, i)
    requires forall i | 0 <= i < |made| :: made[i].readers == [] && ReadNowhere(p, ins, made[i])
    ensures Wired(p')
  {
    var n := |p.n.calls|;
    forall k | 0 <= k <= n ensures WiredAt(p', k) {
      if k < n { assert WiredAt(p, k); }
    }
    forall i | 0 <= i < |p'.outs| ensures ReadAt(p', i) {
      var t := p'.outs[i];
      ReadersAppend(p.n.calls, p.ins, call, ins, t);
      if i < |p.outs| {
        assert ReadMoreAt(p, call, ins, i);
      } else {
        assert t == made[i - |p.outs|];
        NoReaders(p.n.calls, p.ins, n, t);
        NoSlots(call, ins, |ins|, t);
      }
    }
  }

  /** The progress is on record, and the heap agrees with it. */
  ghost predicate Built(done: seq<GraphNode>, root: Loop, current: Loop, axes: seq<AxisId>, table: LinkTable,
                        producers: map<int, ApiTensor>, p: Progress)
    reads p.n.shape.Keys, table, p.outs, p.n.calls
  {
    && OnRecord(done, root.axisId, axes, producers.Keys, p) && |p.n.calls| == |done|
    && Standing(p.n, current, axes, p.walked) && p.n.spine[0] == root
    && table.Valid(p.outs) && ProducersAre(producers, p.outs) && Wired(p)
  }

  /** The heap holds one call more than recorded: it reads first producers, which list it as a reader, and has
      written outputs that nobody reads yet. */
  ghost predicate OneMoreWired(p: Progress, g: GraphNode, call: ApiCall, outs: seq<ApiTensor>)
    reads p.n.calls, p.outs, call, outs
  {
    && |p.n.calls| == |p.ins| == |p.made|
    && (forall k {:trigger WiredAt(p, k)} | 0 <= k < |p.n.calls| :: WiredAt(p, k))
    && (forall i {:trigger ReadMoreAt(p, call, call.inputs, i)} | 0 <= i < |p.outs| :: ReadMoreAt(p, call, call.inputs, i))
    && (forall i {:trigger ReadNowhere(p, call.inputs, outs[i])} | |p.outs| <= i < |outs| ::
          ReadNowhere(p, call.inputs, outs[i]))
    && |outs| == |p.outs| + |Registers(g)| && outs[..|p.outs|] == p.outs && MadeBy(call, outs, |p.outs|)
    && InputsFor(p.outs, g.inputs, call.inputs) && OutputsAre(call, Registers(g), |p.outs|, outs)
  }

  lemma OneMoreRecorded(p: Progress, p': Progress, g: GraphNode, call: ApiCall, made: seq<ApiTensor>)
    requires OneMoreWired(p, g, call, p'.outs) && OneMore(p, p', call, call.inputs, made) && made == p'.outs[|p.outs|..]
    ensures Wired(p')
    ensures AttrsOf(made) == Registers(g) && forall t | t in made :: t.write == call
  {
    AttrsMade(call, Registers(g), p'.outs, |p.outs|);
    MadeUnread(call, p'.outs, |p.outs|);
    forall i | 0 <= i < |made| ensures ReadNowhere(p, call.inputs, made[i]) {
      assert ReadNowhere(p, call.inputs, p'.outs[|p.outs| + i]);
    }
    WiredStep(p, p', call, call.inputs, made);
  }

  /** Adds a node to the heap that the progress records. */
  method AddNodeTo(g: GraphNode, k: nat, current: Loop, axes: seq<AxisId>, table: LinkTable,
                   producers: map<int, ApiTensor>, ghost p: Progress)
    returns (added: Option<ApiCall>, current': Loop, axes': seq<AxisId>, producers': map<int, ApiTensor>,
             ghost n': Nest, ghost outs': seq<ApiTensor>)
    requires Standing(p.n, current, axes, p.walked) && k == |p.n.calls|
    requires table.Valid(p.outs) && ProducersAre(producers, p.outs) && Wired(p)
    modifies p.n.shape.Keys, table, p.outs
    ensures added.Some? <==> Accepted(g, producers.Keys)
    ensures added.Some? ==> axes' == (if g.node.computes then PathOf(g.node) else axes)
    ensures added.Some? ==> Standing(n', current', axes', p.walked + Moves(axes, axes') + [Visit(k)]) && GrownFrom(p.n, n')
    ensures added.Some? ==> n'.calls == p.n.calls + [added.value] && CallAt(added.value, k, axes', p.n.spine[0].axisId)
    ensures added.Some? ==> OneMoreWired(p, g, added.value, outs') && table.Valid(outs')
    ensures added.Some? ==> forall i | |p.outs| <= i < |outs'| :: fresh(outs'[i])
    ensures added.Some? ==> producers'.Keys == producers.Keys + Ids(Registers(g), |Registers(g)|)
    ensures added.Some? ==> ProducersAre(producers', outs')
  {
    added, current', axes', producers', n', outs' := AddNode(g, k, current, axes, table, producers, p.n, p.walked, p.outs);
    if added.Some? {
      var call := added.value;
      forall c | 0 <= c < |p.n.calls| ensures WiredAt(p, c) {
        assert old(WiredAt(p, c));
      }
      forall i | 0 <= i < |p.outs| ensures ReadMoreAt(p, call, call.inputs, i) {
        assert old(ReadAt(p, i)) && p.outs[i] in p.outs;
      }
      forall i | |p.outs| <= i < |outs'| ensures ReadNowhere(p, call.inputs, outs'[i]) {
      }
    }
  }

  lemma NextBuilt(nodes: seq<GraphNode>, k: nat, root: Loop, current: Loop, axes: seq<AxisId>, axes': seq<AxisId>,
                  table: LinkTable, ids: set<int>, producers: map<int, ApiTensor>, p: Progress, p': Progress,
                  call: ApiCall, made: seq<ApiTensor>)
    requires k < |nodes| && OnRecord(nodes[..k], root.axisId, axes, ids, p) && Accepted(nodes[k], ids)
    requires axes' == (if nodes[k].node.computes then PathOf(nodes[k].node) else axes) && |p.n.calls| == k
    requires OneMoreWired(p, nodes[k], call, p'.outs) && OneMore(p, p', call, call.inputs, made)
    requires made == p'.outs[|p.outs|..] && CallAt(call, k, axes', root.axisId)
    requires p'.walked == p.walked + Moves(axes, axes') + [Visit(k)]
    requires Standing(p'.n, current, axes', p'.walked) && p'.n.spine[0] == root && table.Valid(p'.outs)
    requires producers.Keys == ids + Ids(Registers(nodes[k]), |Registers(nodes[k])|) && ProducersAre(producers, p'.outs)
    ensures Built(nodes[..k + 1], root, current, axes', table, producers, p')
  {
    OneMoreRecorded(p, p', nodes[k], call, made);
    NextOnRecord(nodes, k, root.axisId, axes, ids, p, axes', call, call.inputs, made, p');
  }

  /** Adds node `k` to what the nodes before it have built. */
  method BuildNode(nodes: seq<GraphNode>, k: nat, ghost root: Loop, current: Loop, axes: seq<AxisId>, table: LinkTable,
                   producers: map<int, ApiTensor>, ghost p: Progress)
    returns (ok: bool, current': Loop, axes': seq<AxisId>, producers': map<int, ApiTensor>, ghost p': Progress)
    requires k < |nodes| && Built(nodes[..k], root, current, axes, table, producers, p)
    modifies p.n.shape.Keys, table, p.outs
    ensures if ok then Built(nodes[..k + 1], root, current', axes', table, producers', p') else !AllAccepted(nodes)
    ensures ok ==> fresh(p'.n.shape.Keys - p.n.shape.Keys)
    ensures ok ==> forall i | 0 <= i < |p'.outs| :: if i < |p.outs| then p'.outs[i] == p.outs[i] else fresh(p'.outs[i])
  {
    var added;
    ghost var n', outs';
    added, current', axes', producers', n', outs' := AddNodeTo(nodes[k], k, current, axes, table, producers, p);
    ok, p' := added.Some?, p;
    if ok {
      var call := added.value;
      ghost var made := outs'[|p.outs|..];
      p' := Progress(n', p.walked + Moves(axes, axes') + [Visit(k)], p.ins + [call.inputs], p.made + [made], outs');
      NextBuilt(nodes, k, root, current', axes, axes', table, producers.Keys, producers', p, p', call, made);
    } else {
      RefusedNode(nodes, k, root.axisId, axes, producers.Keys, p);
    }
  }

  /** The nest below `root` reads as the walk over all paths, its calls are wired, and all outputs are linked. */
  ghost predicate Complete(nodes: seq<GraphNode>, root: Loop, p: Progress)
    reads p.n.shape.Keys, p.outs, p.n.calls
  {
    && AllAccepted(nodes) && MadeFor(nodes, root.axisId, p) && Wired(p) && AllLinked(p.outs)
    && WellFormed(p.n) && Mirrors(p.n) && p.n.spine[0] == root
    && WalkOf(p.n, root, |p.n.shape[root]|) == Walk(PathsOf(nodes)) + Exits(|Last(PathsOf(nodes))|)
  }

  /** Depth-first, a complete nest makes the calls in node order, and they are the recorded ones. */
  lemma CallsInNodeOrder(nodes: seq<GraphNode>, root: Loop, p: Progress)
    requires Complete(nodes, root, p)
    ensures Visits(WalkOf(p.n, root, |p.n.shape[root]|)) == FirstNats(|nodes|)
    ensures CallsOf(p.n, root, |p.n.shape[root]|) == p.n.calls
  {
    WalkVisits(PathsOf(nodes));
    VisitsConcat(Walk(PathsOf(nodes)), Exits(|Last(PathsOf(nodes))|));
    NoVisits(Exits(|Last(PathsOf(nodes))|));
    assert FirstNats(|nodes|) + [] == FirstNats(|nodes|);
    CallsVisited(p.n, root, |p.n.shape[root]|);
    NumberedAll(CallsOf(p.n, root, |p.n.shape[root]|), p.n.calls);
  }

  lemma NumberedAll(calls: seq<ApiCall>, all: seq<ApiCall>)
    requires Numbered(calls, all, FirstNats(|all|))
    ensures calls == all
  {
    forall i | 0 <= i < |calls| ensures calls[i] == all[i] {
      assert IsCall(all, FirstNats(|all|), calls, i);
    }
  }

  /** When the walk through a complete nest reaches the call of node `k`, exactly the loops on its path are open,
      and the call in the nest knows their number and the innermost of them. */
  lemma CallUnderItsPath(nodes: seq<GraphNode>, root: Loop, p: Progress, k: nat)
    requires Complete(nodes, root, p) && k < |nodes|
    ensures Reaches(WalkOf(p.n, root, |p.n.shape[root]|), Walk(PathsOf(nodes)[..k + 1]), k, PathsOf(nodes)[k])
    ensures k < |CallsOf(p.n, root, |p.n.shape[root]|)|
    ensures CallAt(CallsOf(p.n, root, |p.n.shape[root]|)[k], k, PathsOf(nodes)[k], root.axisId)
    ensures nodes[k].node.computes ==> Placeable(nodes[k].node) && PathsOf(nodes)[k] == PathOf(nodes[k].node)
  {
    WalkReaches(PathsOf(nodes), k);
    CallsInNodeOrder(nodes, root, p);
    assert CallMadeAt(nodes, root.axisId, p, k);
    AcceptedPlaceable(nodes);
    NodesAt(nodes, k);
  }

  lemma {:induction false} NodesAt(nodes: seq<GraphNode>, k: nat)
    requires k < |nodes|
    ensures |NodesOf(nodes)| == |nodes| && NodesOf(nodes)[k] == nodes[k].node
    decreases |nodes|
  {
    if k < |nodes| - 1 {
      NodesAt(nodes[..|nodes| - 1], k);
    } else if 1 < |nodes| {
      NodesAt(nodes[..|nodes| - 1], 0);
    }
  }

  /** Leaving all loops after the last node completes the walk. */
  lemma BuildEnds(nodes: seq<GraphNode>, root: Loop, current: Loop, axes: seq<AxisId>, table: LinkTable,
                  producers: map<int, ApiTensor>, p: Progress)
    requires Built(nodes, root, current, axes, table, producers, p)
    ensures Complete(nodes, root, p)
  {
    assert Recorded(nodes, root.axisId, axes, producers.Keys, p);
    OpenWalkCloses(p.n, 0);
  }

  method StartBuild(root: Loop) returns (table: LinkTable, ghost p: Progress)
    requires root.bodys == [] && root.birth == 0 && root.owner == null
    ensures Built([], root, root, [], table, map[], p)
    ensures fresh(table) && p.n.shape.Keys == {root} && p.outs == []
  {
    p := Progress(Nest(map[root := []], [root], 1, []), [], [], [], []);
    table := new LinkTable();
    assert Recorded([], root.axisId, [], {}, p);
  }

  /** Builds the nest below an empty root. It succeeds exactly if every node is acceptable. */
  method ConstructFromNodes(root: Loop, nodes: seq<GraphNode>) returns (ok: bool, ghost p: Progress)
    requires root.bodys == [] && root.birth == 0 && root.owner == null
    modifies root
    ensures if ok then Complete(nodes, root, p) else !AllAccepted(nodes)
  {
    var table;
    table, p := StartBuild(root);
    var producers: map<int, ApiTensor> := map[];
    var current, axes, k := root, [], 0;
    while k < |nodes|
      invariant 0 <= k <= |nodes|
      invariant Built(nodes[..k], root, current, axes, table, producers, p)
      invariant fresh(p.n.shape.Keys - {root}) && fresh(table) && (forall i | 0 <= i < |p.outs| :: fresh(p.outs[i]))
    {
      ok, current, axes, producers, p := BuildNode(nodes, k, root, current, axes, table, producers, p);
      if !ok {
        return;
      }
      k := k + 1;
    }
    assert nodes[..k] == nodes;
    BuildEnds(nodes, root, current, axes, table, producers, p);
    ok := true;
  }
}
