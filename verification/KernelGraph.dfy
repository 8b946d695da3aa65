/**
 The graph of calls and tensors that a finished kernel stands for, read off its objects. It is valid in the
 sense that the emitters of queue operations rely on.
 */
module KernelGraph {
  import opened Options
  import opened LoopPaths
  import opened TensorLinks
  import opened CallWiring
  import opened LoopNest
  import opened KernelLoop
  import QueueOps

  // ---------- reading the objects ----------

  predicate Present(ts: seq<ApiTensor?>) {
    forall i | 0 <= i < |ts| :: ts[i] != null
  }

  /** Tensors by their place among all outputs. */
  ghost function Places(ts: seq<ApiTensor?>): (r: seq<nat>)
    requires Present(ts)
    ensures |r| == |ts| && forall i | 0 <= i < |ts| :: r[i] == ts[i].place
  {
    if ts == [] then [] else Places(ts[..|ts| - 1]) + [ts[|ts| - 1].place]
  }

  /** Calls by the number of their node. */
  function Nodes(calls: seq<ApiCall>): (r: seq<nat>)
    ensures |r| == |calls| && forall i | 0 <= i < |calls| :: r[i] == calls[i].node
  {
    if calls == [] then [] else Nodes(calls[..|calls| - 1]) + [calls[|calls| - 1].node]
  }

  ghost function PlaceOf(t: ApiTensor?): Option<nat> {
    if t == null then None else Some(t.place)
  }

  ghost function CallOf(call: ApiCall, unit: QueueOps.Unit): QueueOps.Call
    requires Present(call.inputs)
    reads call
  {
    QueueOps.Call(unit, Places(call.inputs), Places(call.outputs))
  }

  ghost function TensorOf(t: ApiTensor, pos: QueueOps.Position): QueueOps.Tensor
    reads t
  {
    QueueOps.Tensor(pos, t.attr.alloc == Queue, t.attr.queId, t.write.node, Nodes(t.readers),
                    PlaceOf(t.sharePrev), PlaceOf(t.shareNext), PlaceOf(t.reuseFrom), PlaceOf(t.reuseNext))
  }

  ghost predicate InputsPresent(calls: seq<ApiCall>)
    reads calls
  {
    forall k | 0 <= k < |calls| :: Present(calls[k].inputs)
  }

  ghost function CallsRead(calls: seq<ApiCall>, units: seq<QueueOps.Unit>, n: nat): (r: seq<QueueOps.Call>)
    requires n <= |calls| == |units| && InputsPresent(calls)
    reads calls
    ensures |r| == n && forall k | 0 <= k < n :: r[k] == CallOf(calls[k], units[k])
  {
    if n == 0 then [] else CallsRead(calls, units, n - 1) + [CallOf(calls[n - 1], units[n - 1])]
  }

  ghost function TensorsRead(outs: seq<ApiTensor>, positions: seq<QueueOps.Position>, n: nat): (r: seq<QueueOps.Tensor>)
    requires n <= |outs| == |positions|
    reads outs
    ensures |r| == n && forall t | 0 <= t < n :: r[t] == TensorOf(outs[t], positions[t])
  {
    if n == 0 then [] else TensorsRead(outs, positions, n - 1) + [TensorOf(outs[n - 1], positions[n - 1])]
  }

  /** The graph of a kernel whose calls run on the given units and whose tensors have the given positions. */
  ghost function GraphOf(p: Progress, units: seq<QueueOps.Unit>, positions: seq<QueueOps.Position>): QueueOps.Graph
    requires |p.n.calls| == |units| && |p.outs| == |positions| && InputsPresent(p.n.calls)
    reads p.n.calls, p.outs
  {
    QueueOps.Graph(CallsRead(p.n.calls, units, |p.n.calls|), TensorsRead(p.outs, positions, |p.outs|))
  }

  // ---------- outputs by call ----------

  lemma {:induction false} FlattenAt(made: seq<seq<ApiTensor>>, n: nat, k: nat, i: nat)
    requires k < n <= |made| && i < |made[k]|
    ensures |Flatten(made, k)| + i < |Flatten(made, n)| && Flatten(made, n)[|Flatten(made, k)| + i] == made[k][i]
  {
    if k < n - 1 { FlattenAt(made, n - 1, k, i); }
  }

  lemma {:induction false} FlattenBefore(made: seq<seq<ApiTensor>>, n: nat, k: nat, j: nat)
    requires k <= n <= |made| && j < |Flatten(made, k)|
    ensures j < |Flatten(made, n)| && Flatten(made, n)[j] == Flatten(made, k)[j]
  {
    if k < n { FlattenBefore(made, n - 1, k, j); }
  }

  /** Which call has written output `j`, as which of its outputs. */
  lemma {:induction false} WriterOf(made: seq<seq<ApiTensor>>, n: nat, j: nat) returns (k: nat, i: nat)
    requires n <= |made| && j < |Flatten(made, n)|
    ensures k < n && i < |made[k]| && j == |Flatten(made, k)| + i && Flatten(made, n)[j] == made[k][i]
  {
    if j < |Flatten(made, n - 1)| {
      k, i := WriterOf(made, n - 1, j);
    } else {
      k, i := n - 1, j - |Flatten(made, n - 1)|;
    }
  }

  /** Calls and outputs of an accepted list, linked. */
  ghost predicate Listed(nodes: seq<GraphNode>, axis: AxisId, p: Progress)
    reads p.outs
  {
    AllAccepted(nodes) && MadeFor(nodes, axis, p) && AllLinked(p.outs)
  }

  /** Output `i` of call `k` knows its writer, and its place. */
  lemma OutputKnown(nodes: seq<GraphNode>, axis: AxisId, p: Progress, k: nat, i: nat)
    requires Listed(nodes, axis, p) && k < |nodes| && i < |p.made[k]|
    ensures var j := |Flatten(p.made, k)| + i;
            && j < |p.outs| && p.outs[j] == p.made[k][i] && p.made[k][i].place == j
            && p.made[k][i].write == p.n.calls[k] && p.n.calls[k].node == k
  {
    FlattenAt(p.made, |nodes|, k, i);
    assert LinkedAt(p.outs, |Flatten(p.made, k)| + i);
    assert CallMadeAt(nodes, axis, p, k);
  }

  /** Input `i` of call `k` is an output of an earlier call. */
  lemma InputKnown(nodes: seq<GraphNode>, axis: AxisId, p: Progress, k: nat, i: nat)
    requires Listed(nodes, axis, p) && k < |nodes| && i < |p.ins[k]| && p.ins[k][i] != null
    ensures var t := p.ins[k][i];
            && t.place < |p.outs| && p.outs[t.place] == t
            && t.write.node < k && p.n.calls[t.write.node] == t.write
  {
    var before := Flatten(p.made, k);
    assert CallMadeAt(nodes, axis, p, k);
    var j := FirstOf(before, |before|, nodes[k].inputs[i].value);
    FlattenBefore(p.made, |nodes|, k, j);
    assert LinkedAt(p.outs, j);
    var writer, slot := WriterOf(p.made, k, j);
    OutputKnown(nodes, axis, p, writer, slot);
  }

  /** A graph without absent inputs. */
  predicate AllGiven(nodes: seq<GraphNode>) {
    forall k, i | 0 <= k < |nodes| && 0 <= i < |nodes[k].inputs| :: nodes[k].inputs[i].Some?
  }

  lemma GivenPresent(nodes: seq<GraphNode>, root: Loop, p: Progress)
    requires Complete(nodes, root, p) && AllGiven(nodes)
    ensures InputsPresent(p.n.calls) && forall k | 0 <= k < |nodes| :: Present(p.ins[k])
  {
    forall k | 0 <= k < |nodes| ensures Present(p.n.calls[k].inputs) && Present(p.ins[k]) {
      assert CallMadeAt(nodes, root.axisId, p, k) && WiredAt(p, k);
    }
  }

  // ---------- readers ----------

  lemma {:induction false} SlotsIs(call: ApiCall, ins: seq<ApiTensor?>, n: nat, t: ApiTensor)
    requires n <= |ins|
    ensures forall i | 0 <= i < |SlotsOf(call, ins, n, t)| :: SlotsOf(call, ins, n, t)[i] == call
    ensures SlotsOf(call, ins, n, t) != [] <==> t in ins[..n]
  {
    if 0 < n {
      SlotsIs(call, ins, n - 1, t);
      assert ins[..n] == ins[..n - 1] + [ins[n - 1]];
    }
  }

  /** The readers are numbered calls that have the tensor among their inputs. */
  ghost predicate ReadsTensor(calls: seq<ApiCall>, ins: seq<seq<ApiTensor?>>, n: nat, t: ApiTensor, c: ApiCall)
    requires n <= |calls| && n <= |ins|
  {
    c.node < n && calls[c.node] == c && t in ins[c.node]
  }

  /** All readers of tensor `t` among the first `n` calls, in order. */
  ghost predicate ListsReaders(calls: seq<ApiCall>, ins: seq<seq<ApiTensor?>>, n: nat, t: ApiTensor, readers: seq<ApiCall>)
    requires n <= |calls| && n <= |ins|
  {
    && (forall i | 0 <= i < |readers| :: ReadsTensor(calls, ins, n, t, readers[i]))
    && (forall i, j | 0 <= i < j < |readers| :: readers[i].node <= readers[j].node)
    && (forall k | 0 <= k < n && t in ins[k] :: calls[k] in readers)
  }

  lemma MoreReaders(calls: seq<ApiCall>, ins: seq<seq<ApiTensor?>>, n: nat, t: ApiTensor, before: seq<ApiCall>,
                    more: seq<ApiCall>)
    requires n < |calls| && n < |ins| && ListsReaders(calls, ins, n, t, before) && calls[n].node == n
    requires forall i | 0 <= i < |more| :: more[i] == calls[n]
    requires more != [] <==> t in ins[n]
    ensures ListsReaders(calls, ins, n + 1, t, before + more)
  {
    var readers := before + more;
    forall i | 0 <= i < |readers| ensures ReadsTensor(calls, ins, n + 1, t, readers[i]) {
      if i < |before| { assert ReadsTensor(calls, ins, n, t, before[i]); }
    }
    forall i, j | 0 <= i < j < |readers| ensures readers[i].node <= readers[j].node {
      if i < |before| { assert ReadsTensor(calls, ins, n, t, before[i]); }
    }
    if t in ins[n] { assert more[0] in readers; }
  }

  lemma {:induction false} ReadersAre(calls: seq<ApiCall>, ins: seq<seq<ApiTensor?>>, n: nat, t: ApiTensor)
    requires n <= |calls| && n <= |ins| && forall k | 0 <= k < n :: calls[k].node == k
    ensures ListsReaders(calls, ins, n, t, ReadersOf(calls, ins, n, t))
  {
    if 0 < n {
      var last := ins[n - 1];
      ReadersAre(calls, ins, n - 1, t);
      SlotsIs(calls[n - 1], last, |last|, t);
      assert last[..|last|] == last;
      MoreReaders(calls, ins, n - 1, t, ReadersOf(calls, ins, n - 1, t), SlotsOf(calls[n - 1], last, |last|, t));
    }
  }

  lemma NumberedCalls(nodes: seq<GraphNode>, root: Loop, p: Progress)
    requires Complete(nodes, root, p)
    ensures |p.n.calls| == |p.ins| == |p.made| == |nodes|
    ensures forall k | 0 <= k < |nodes| :: p.n.calls[k].node == k
  {
    forall k | 0 <= k < |nodes| ensures p.n.calls[k].node == k {
      assert CallMadeAt(nodes, root.axisId, p, k);
    }
  }

  // ---------- validity ----------

  /** The kernel has been built for a graph without absent inputs; units and positions are given for all of it. */
  ghost predicate Described(nodes: seq<GraphNode>, root: Loop, p: Progress, units: seq<QueueOps.Unit>,
                            positions: seq<QueueOps.Position>)
    reads p.n.shape.Keys, p.outs, p.n.calls
  {
    && Complete(nodes, root, p) && AllGiven(nodes) && |units| == |nodes| && |positions| == |p.outs|
    && |p.n.calls| == |nodes| && InputsPresent(p.n.calls)
  }

  lemma InputInRange(nodes: seq<GraphNode>, root: Loop, p: Progress, units: seq<QueueOps.Unit>,
                     positions: seq<QueueOps.Position>, k: nat, i: nat)
    requires Described(nodes, root, p, units, positions) && k < |nodes|
    requires i < |GraphOf(p, units, positions).calls[k].inputs|
    ensures GraphOf(p, units, positions).calls[k].inputs[i] < |p.outs|
  {
    GivenPresent(nodes, root, p);
    assert WiredAt(p, k);
    InputKnown(nodes, root.axisId, p, k, i);
  }

  predicate InputsInRange(g: QueueOps.Graph, k: nat)
    requires k < |g.calls|
  {
    forall i | 0 <= i < |g.calls[k].inputs| :: g.calls[k].inputs[i] < |g.tensors|
  }

  /** The outputs of call `k` are the tensors from `start` on, and know it as their writer. */
  predicate OutputsFrom(g: QueueOps.Graph, k: nat, start: nat)
    requires k < |g.calls|
  {
    forall i {:trigger OutputFrom(g, k, start, i)} | 0 <= i < |g.calls[k].outputs| :: OutputFrom(g, k, start, i)
  }

  predicate OutputFrom(g: QueueOps.Graph, k: nat, start: nat, i: nat)
    requires k < |g.calls| && i < |g.calls[k].outputs|
  {
    var t := g.calls[k].outputs[i];
    t == start + i && t < |g.tensors| && g.tensors[t].writer == k
  }

  /** Output `i` of call `k` as the graph shows it, if the objects know their places and writers. */
  lemma OutputRead(p: Progress, units: seq<QueueOps.Unit>, positions: seq<QueueOps.Position>, k: nat, i: nat)
    requires |p.n.calls| == |p.ins| == |p.made| == |units| && |p.outs| == |positions| && InputsPresent(p.n.calls)
    requires k < |p.n.calls| && WiredAt(p, k) && i < |p.made[k]|
    requires |Flatten(p.made, k)| + i < |p.outs| && p.outs[|Flatten(p.made, k)| + i] == p.made[k][i]
    requires p.made[k][i].place == |Flatten(p.made, k)| + i && p.made[k][i].write.node == k
    ensures i < |GraphOf(p, units, positions).calls[k].outputs|
    ensures OutputFrom(GraphOf(p, units, positions), k, |Flatten(p.made, k)|, i)
  {
    var g, t := GraphOf(p, units, positions), |Flatten(p.made, k)| + i;
    assert g.calls[k] == CallOf(p.n.calls[k], units[k]);
    assert g.calls[k].outputs[i] == t;
    assert g.tensors[t] == TensorOf(p.outs[t], positions[t]);
  }

  lemma OutputInRange(nodes: seq<GraphNode>, root: Loop, p: Progress, units: seq<QueueOps.Unit>,
                      positions: seq<QueueOps.Position>, k: nat, i: nat)
    requires Described(nodes, root, p, units, positions) && k < |nodes|
    requires i < |GraphOf(p, units, positions).calls[k].outputs|
    ensures |p.made| == |nodes| && OutputFrom(GraphOf(p, units, positions), k, |Flatten(p.made, k)|, i)
  {
    assert WiredAt(p, k);
    OutputKnown(nodes, root.axisId, p, k, i);
    OutputRead(p, units, positions, k, i);
  }

  lemma CallValidFrom(g: QueueOps.Graph, k: nat, start: nat)
    requires k < |g.calls| && InputsInRange(g, k) && OutputsFrom(g, k, start)
    ensures QueueOps.CallValid(g, k)
  {
    forall i | 0 <= i < |g.calls[k].outputs|
      ensures g.calls[k].outputs[i] == start + i < |g.tensors| && g.tensors[g.calls[k].outputs[i]].writer == k
    {
      assert OutputFrom(g, k, start, i);
    }
  }

  lemma AllInputsInRange(nodes: seq<GraphNode>, root: Loop, p: Progress, units: seq<QueueOps.Unit>,
                         positions: seq<QueueOps.Position>, k: nat)
    requires Described(nodes, root, p, units, positions) && k < |nodes|
    ensures InputsInRange(GraphOf(p, units, positions), k)
  {
    forall i | 0 <= i < |GraphOf(p, units, positions).calls[k].inputs|
      ensures GraphOf(p, units, positions).calls[k].inputs[i] < |p.outs|
    {
      InputInRange(nodes, root, p, units, positions, k, i);
    }
  }

  lemma AllOutputsInRange(nodes: seq<GraphNode>, root: Loop, p: Progress, units: seq<QueueOps.Unit>,
                          positions: seq<QueueOps.Position>, k: nat)
    requires Described(nodes, root, p, units, positions) && k < |nodes|
    ensures |p.made| == |nodes| && OutputsFrom(GraphOf(p, units, positions), k, |Flatten(p.made, k)|)
  {
    var g := GraphOf(p, units, positions);
    forall i | 0 <= i < |g.calls[k].outputs|
      ensures OutputFrom(g, k, |Flatten(p.made, k)|, i)
    {
      OutputInRange(nodes, root, p, units, positions, k, i);
    }
  }

  lemma CallsValid(nodes: seq<GraphNode>, root: Loop, p: Progress, units: seq<QueueOps.Unit>,
                   positions: seq<QueueOps.Position>, k: nat)
    requires Described(nodes, root, p, units, positions) && k < |nodes|
    ensures QueueOps.CallValid(GraphOf(p, units, positions), k)
  {
    AllInputsInRange(nodes, root, p, units, positions, k);
    AllOutputsInRange(nodes, root, p, units, positions, k);
    CallValidFrom(GraphOf(p, units, positions), k, |Flatten(p.made, k)|);
  }

  lemma WriterValid(nodes: seq<GraphNode>, root: Loop, p: Progress, units: seq<QueueOps.Unit>,
                    positions: seq<QueueOps.Position>, t: nat)
    requires Described(nodes, root, p, units, positions) && t < |p.outs|
    ensures var g := GraphOf(p, units, positions);
            g.tensors[t].writer < |g.calls| && t in g.calls[g.tensors[t].writer].outputs
  {
    NumberedCalls(nodes, root, p);
    var k, i := WriterOf(p.made, |nodes|, t);
    OutputKnown(nodes, root.axisId, p, k, i);
    assert WiredAt(p, k);
    assert GraphOf(p, units, positions).calls[k].outputs[i] == t;
  }

  /** Call `k` reads tensor `t` in the graph exactly if it does in the heap. */
  lemma InputIs(nodes: seq<GraphNode>, root: Loop, p: Progress, units: seq<QueueOps.Unit>,
                positions: seq<QueueOps.Position>, t: nat, k: nat)
    requires Described(nodes, root, p, units, positions) && t < |p.outs| && k < |nodes|
    ensures |p.ins| == |nodes|
    ensures t in GraphOf(p, units, positions).calls[k].inputs <==> p.outs[t] in p.ins[k]
    ensures p.outs[t] in p.ins[k] ==> p.outs[t].write.node < k
  {
    var inputs := GraphOf(p, units, positions).calls[k].inputs;
    GivenPresent(nodes, root, p);
    assert WiredAt(p, k) && LinkedAt(p.outs, t);
    if t in inputs {
      var i :| 0 <= i < |inputs| && inputs[i] == t;
      InputKnown(nodes, root.axisId, p, k, i);
    }
    if p.outs[t] in p.ins[k] {
      var i :| 0 <= i < |p.ins[k]| && p.ins[k][i] == p.outs[t];
      InputKnown(nodes, root.axisId, p, k, i);
      assert inputs[i] == t;
    }
  }

  /** What the list of readers of tensor `t` holds. */
  lemma HeapReaders(nodes: seq<GraphNode>, root: Loop, p: Progress, t: nat)
    requires Complete(nodes, root, p) && t < |p.outs|
    ensures |p.n.calls| == |p.ins| == |nodes|
    ensures ListsReaders(p.n.calls, p.ins, |nodes|, p.outs[t], p.outs[t].readers)
  {
    NumberedCalls(nodes, root, p);
    ReadersAre(p.n.calls, p.ins, |nodes|, p.outs[t]);
    assert ReadAt(p, t);
    assert p.outs[t].readers == ReadersOf(p.n.calls, p.ins, |nodes|, p.outs[t]);
  }

  lemma ReaderValid(nodes: seq<GraphNode>, root: Loop, p: Progress, units: seq<QueueOps.Unit>,
                    positions: seq<QueueOps.Position>, t: nat, i: nat)
    requires Described(nodes, root, p, units, positions) && t < |p.outs| && i < |p.outs[t].readers|
    ensures var g := GraphOf(p, units, positions);
            var r := g.tensors[t].readers[i];
            g.tensors[t].writer < r < |g.calls| && t in g.calls[r].inputs
  {
    HeapReaders(nodes, root, p, t);
    assert ReadsTensor(p.n.calls, p.ins, |nodes|, p.outs[t], p.outs[t].readers[i]);
    InputIs(nodes, root, p, units, positions, t, p.outs[t].readers[i].node);
  }

  lemma ReaderListed(nodes: seq<GraphNode>, root: Loop, p: Progress, units: seq<QueueOps.Unit>,
                     positions: seq<QueueOps.Position>, t: nat, k: nat)
    requires Described(nodes, root, p, units, positions) && t < |p.outs| && k < |nodes|
    requires t in GraphOf(p, units, positions).calls[k].inputs
    ensures k in GraphOf(p, units, positions).tensors[t].readers
  {
    HeapReaders(nodes, root, p, t);
    NumberedCalls(nodes, root, p);
    InputIs(nodes, root, p, units, positions, t, k);
    var heap := p.outs[t].readers;
    var i :| 0 <= i < |heap| && heap[i] == p.n.calls[k];
    assert GraphOf(p, units, positions).tensors[t].readers[i] == k;
  }

  lemma ReadersOrdered(nodes: seq<GraphNode>, root: Loop, p: Progress, units: seq<QueueOps.Unit>,
                       positions: seq<QueueOps.Position>, t: nat)
    requires Described(nodes, root, p, units, positions) && t < |p.outs|
    ensures var readers := GraphOf(p, units, positions).tensors[t].readers;
            forall i, j | 0 <= i < j < |readers| :: readers[i] <= readers[j]
  {
    HeapReaders(nodes, root, p, t);
  }

  /** A link of an output leads to an output. */
  lemma LinkKnown(outs: seq<ApiTensor>, t: nat)
    requires AllLinked(outs) && t < |outs|
    ensures forall x | x == outs[t].sharePrev || x == outs[t].shareNext || x == outs[t].reuseFrom || x == outs[t].reuseNext ::
              x != null ==> x.place < |outs| && outs[x.place] == x
  {
    PlacesKnown(outs);
    assert LinkedAt(outs, t);
  }

  lemma TensorsValid(nodes: seq<GraphNode>, root: Loop, p: Progress, units: seq<QueueOps.Unit>,
                     positions: seq<QueueOps.Position>, t: nat)
    requires Described(nodes, root, p, units, positions) && t < |p.outs|
    ensures QueueOps.TensorValid(GraphOf(p, units, positions), t)
  {
    var g := GraphOf(p, units, positions);
    WriterValid(nodes, root, p, units, positions, t);
    forall i | 0 <= i < |g.tensors[t].readers|
      ensures g.tensors[t].writer < g.tensors[t].readers[i] < |g.calls| && t in g.calls[g.tensors[t].readers[i]].inputs
    {
      ReaderValid(nodes, root, p, units, positions, t, i);
    }
    forall k | 0 <= k < |g.calls| && t in g.calls[k].inputs ensures k in g.tensors[t].readers {
      ReaderListed(nodes, root, p, units, positions, t, k);
    }
    ReadersOrdered(nodes, root, p, units, positions, t);
    LinkKnown(p.outs, t);
  }

  lemma LinksValid(nodes: seq<GraphNode>, root: Loop, p: Progress, units: seq<QueueOps.Unit>,
                   positions: seq<QueueOps.Position>, s: nat, t: nat)
    requires Described(nodes, root, p, units, positions) && s < |p.outs| && t < |p.outs|
    ensures QueueOps.LinkedBothWays(GraphOf(p, units, positions), s, t)
  {
    PlacesKnown(p.outs);
    LinkKnown(p.outs, s);
    LinkKnown(p.outs, t);
    LinksAreInverse(p.outs, t, s);
  }

  /** The graph of a finished kernel is one that the emitters of queue operations accept. */
  lemma GraphIsValid(nodes: seq<GraphNode>, root: Loop, p: Progress, units: seq<QueueOps.Unit>,
                     positions: seq<QueueOps.Position>)
    requires Complete(nodes, root, p) && AllGiven(nodes) && |units| == |nodes| && |positions| == |p.outs|
    ensures |p.n.calls| == |nodes| && InputsPresent(p.n.calls)
    ensures QueueOps.Valid(GraphOf(p, units, positions))
  {
    NumberedCalls(nodes, root, p);
    GivenPresent(nodes, root, p);
    var g := GraphOf(p, units, positions);
    forall k | 0 <= k < |g.calls| ensures QueueOps.CallValid(g, k) {
      CallsValid(nodes, root, p, units, positions, k);
    }
    forall t | 0 <= t < |g.tensors| ensures QueueOps.TensorValid(g, t) {
      TensorsValid(nodes, root, p, units, positions, t);
    }
    forall s, t | 0 <= s < |g.tensors| && 0 <= t < |g.tensors| ensures QueueOps.LinkedBothWays(g, s, t) {
      LinksValid(nodes, root, p, units, positions, s, t);
    }
  }
}
