/**
 The queue operations that the calls of one loop body emit. A call waits for its inputs,
 allocates its outputs, computes, enqueues its outputs, and frees what nobody reads later.
 Pipe barriers and the buffers of tensors outside queues are not queue operations.
 */
module QueueOps {
  import opened Options

  datatype Unit = NoUnit | Mte2 | Vector | OtherUnit

  datatype Position = GM | VecIn | VecCalc | VecOut

  /** Tensors and calls are named by their index; `readers` lists the reading call once per input slot. */
  datatype Tensor = Tensor(pos: Position, queued: bool, que: int, writer: nat, readers: seq<nat>,
                           sharePrev: Option<nat>, shareNext: Option<nat>,
                           reuseFrom: Option<nat>, reuseNext: Option<nat>)

  datatype Call = Call(unit: Unit, inputs: seq<nat>, outputs: seq<nat>)

  datatype Graph = Graph(calls: seq<Call>, tensors: seq<Tensor>)

  /** An operation on a queue, with the tensor on whose behalf it is emitted; or an access. */
  datatype Op = Alloc(q: int, t: nat) | EnQue(q: int, t: nat) | DeQue(q: int, t: nat) | Free(q: int, t: nat)
              | Read(t: nat, unit: Unit) | Write(t: nat)

  /** What the construction of the calls guarantees (proved in `KernelGraph`). */
  ghost predicate Valid(g: Graph) {
    && (forall k {:trigger CallValid(g, k)} | 0 <= k < |g.calls| :: CallValid(g, k))
    && (forall t {:trigger TensorValid(g, t)} | 0 <= t < |g.tensors| :: TensorValid(g, t))
    && (forall p, t {:trigger LinkedBothWays(g, p, t)} | 0 <= p < |g.tensors| && 0 <= t < |g.tensors| ::
          LinkedBothWays(g, p, t))
  }

  predicate LinkedBothWays(g: Graph, p: nat, t: nat)
    requires p < |g.tensors| && t < |g.tensors|
  {
    && (g.tensors[p].shareNext == Some(t) <==> g.tensors[t].sharePrev == Some(p))
    && (g.tensors[p].reuseNext == Some(t) <==> g.tensors[t].reuseFrom == Some(p))
  }

  ghost predicate CallValid(g: Graph, k: nat)
    requires k < |g.calls|
  {
    var call := g.calls[k];
    && (forall i | 0 <= i < |call.inputs| :: call.inputs[i] < |g.tensors|)
    && (forall i | 0 <= i < |call.outputs| :: call.outputs[i] < |g.tensors|)
    && (forall i | 0 <= i < |call.outputs| :: g.tensors[call.outputs[i]].writer == k)
    && (forall i, j | 0 <= i < j < |call.outputs| :: call.outputs[i] != call.outputs[j])
  }

  ghost predicate TensorValid(g: Graph, t: nat)
    requires t < |g.tensors|
  {
    var tensor := g.tensors[t];
    && tensor.writer < |g.calls| && t in g.calls[tensor.writer].outputs
    && (forall i | 0 <= i < |tensor.readers| :: tensor.readers[i] < |g.calls|)
    && (forall r | r in tensor.readers :: tensor.writer < r < |g.calls| && t in g.calls[r].inputs)
    && (forall k | 0 <= k < |g.calls| && t in g.calls[k].inputs :: k in tensor.readers)
    && (forall i, j | 0 <= i < j < |tensor.readers| :: tensor.readers[i] <= tensor.readers[j])
    && LinkValid(g, tensor.sharePrev) && LinkValid(g, tensor.shareNext)
    && LinkValid(g, tensor.reuseFrom) && LinkValid(g, tensor.reuseNext)
  }

  predicate LinkValid(g: Graph, link: Option<nat>) {
    link.Some? ==> link.value < |g.tensors|
  }

  predicate Shared(t: Tensor) {
    t.sharePrev.Some? || t.shareNext.Some?
  }

  predicate IsFirstRead(k: nat, t: Tensor) {
    t.readers != [] && t.readers[0] == k
  }

  predicate IsLastRead(k: nat, t: Tensor) {
    t.readers != [] && t.readers[|t.readers| - 1] == k
  }

  /** Whether `k` is the first reader on its unit. */
  predicate IsUnitFirstRead(g: Graph, k: nat, readers: seq<nat>)
    requires k < |g.calls| && forall i | 0 <= i < |readers| :: readers[i] < |g.calls|
  {
    readers != [] &&
    (if g.calls[readers[0]].unit != g.calls[k].unit then IsUnitFirstRead(g, k, readers[1..]) else readers[0] == k)
  }

  // ---------- what each step emits for one tensor ----------

  /** Whether call `k` dequeues input `t`. */
  ghost predicate Waits(g: Graph, k: nat, t: nat)
    requires Valid(g) && k < |g.calls| && t < |g.tensors|
  {
    var tensor := g.tensors[t];
    match g.calls[k].unit
    case Vector =>
      if Shared(tensor) then tensor.sharePrev.None? && IsFirstRead(k, tensor)
      else tensor.pos == VecIn && IsFirstRead(k, tensor)
    case Mte2 =>
      || (tensor.pos == VecOut && TensorUnitFirstRead(g, k, t))
      || (tensor.pos == VecIn && IsFirstRead(k, tensor))
    case _ => false
  }

  ghost predicate TensorUnitFirstRead(g: Graph, k: nat, t: nat)
    requires Valid(g) && k < |g.calls| && t < |g.tensors|
  {
    assert TensorValid(g, t);
    IsUnitFirstRead(g, k, g.tensors[t].readers)
  }

  /** Output `t` continues in the memory of an input of the same call. */
  predicate InPlace(g: Graph, k: nat, t: nat)
    requires k < |g.calls|
  {
    exists i :: 0 <= i < |g.calls[k].inputs| && g.calls[k].inputs[i] < |g.tensors|
      && g.tensors[g.calls[k].inputs[i]].reuseNext == Some(t)
  }

  /** Whether call `k` allocates queue memory for its output `t`. */
  ghost predicate Allocates(g: Graph, k: nat, t: nat)
    requires Valid(g) && k < |g.calls| && t < |g.tensors|
  {
    var tensor, unit := g.tensors[t], g.calls[k].unit;
    assert TensorValid(g, t);
    tensor.queued &&
    (if Shared(tensor) then unit == Mte2 && tensor.pos == VecIn && tensor.sharePrev.None?
     else match (unit, tensor.pos)
       case (Mte2, VecIn) => true
       case (Vector, VecOut) => !InPlace(g, k, t) && (tensor.reuseFrom.None? || AllocatesAfter(g, tensor.reuseFrom.value))
       case (Vector, VecCalc) => tensor.reuseFrom.None? || g.tensors[tensor.reuseFrom.value].pos == VecOut
       case _ => false)
  }

  /** Memory last used by `p` is allocated again, and not simply taken over. */
  ghost predicate AllocatesAfter(g: Graph, p: nat)
    requires Valid(g) && p < |g.tensors|
  {
    assert TensorValid(g, p);
    var unit := g.calls[g.tensors[p].writer].unit;
    unit == Mte2 || (unit == Vector && g.tensors[p].pos == VecOut)
  }

  predicate EnQues(t: Tensor) {
    t.queued && t.shareNext.None? && (t.pos == VecIn || t.pos == VecOut)
  }

  /** Whether the last read of `t` frees its queue. */
  predicate FreedWhenRead(g: Graph, t: nat)
    requires t < |g.tensors| && LinkValid(g, g.tensors[t].reuseNext)
  {
    var tensor := g.tensors[t];
    && tensor.queued && tensor.shareNext.None?
    && (|| tensor.reuseNext.None?
        || tensor.pos == VecOut
        || g.tensors[tensor.reuseNext.value].pos == VecIn)
  }

  /** Whether a tensor that nobody reads is freed where it is written. */
  predicate FreedUnread(t: Tensor) {
    t.readers == [] && t.queued && ((t.reuseNext.None? && t.shareNext.None?) || t.pos == VecOut)
  }

  ghost predicate FreesAt(g: Graph, k: nat, t: nat)
    requires Valid(g) && t < |g.tensors|
  {
    assert TensorValid(g, t);
    IsLastRead(k, g.tensors[t]) && FreedWhenRead(g, t)
  }

  // ---------- what a call emits ----------

  ghost function WaitOps(g: Graph, k: nat, n: nat): seq<Op>
    requires Valid(g) && k < |g.calls| && n <= |g.calls[k].inputs|
  {
    if n == 0 then []
    else
      assert CallValid(g, k);
      var before, inputs := WaitOps(g, k, n - 1), g.calls[k].inputs;
      var t := inputs[n - 1];
      if t in inputs[..n - 1] || !Waits(g, k, t) then before else before + [DeQue(g.tensors[t].que, t)]
  }

  ghost function AllocOps(g: Graph, k: nat, n: nat): seq<Op>
    requires Valid(g) && k < |g.calls| && n <= |g.calls[k].outputs|
  {
    if n == 0 then []
    else
      assert CallValid(g, k);
      var before, t := AllocOps(g, k, n - 1), g.calls[k].outputs[n - 1];
      if Allocates(g, k, t) then before + [Alloc(g.tensors[t].que, t)] else before
  }

  function ReadOps(g: Graph, k: nat, n: nat): seq<Op>
    requires k < |g.calls| && n <= |g.calls[k].inputs|
  {
    if n == 0 then [] else ReadOps(g, k, n - 1) + [Read(g.calls[k].inputs[n - 1], g.calls[k].unit)]
  }

  function WriteOps(g: Graph, k: nat, n: nat): seq<Op>
    requires k < |g.calls| && n <= |g.calls[k].outputs|
  {
    if n == 0 then [] else WriteOps(g, k, n - 1) + [Write(g.calls[k].outputs[n - 1])]
  }

  ghost function EnQueOps(g: Graph, k: nat, n: nat): seq<Op>
    requires Valid(g) && k < |g.calls| && n <= |g.calls[k].outputs|
  {
    if n == 0 then []
    else
      assert CallValid(g, k);
      var before, t := EnQueOps(g, k, n - 1), g.calls[k].outputs[n - 1];
      if EnQues(g.tensors[t]) then before + [EnQue(g.tensors[t].que, t)] else before
  }

  /** The queues that a list of operations frees. */
  function FreedBy(ops: seq<Op>): set<int> {
    if ops == [] then {}
    else
      var last := ops[|ops| - 1];
      FreedBy(ops[..|ops| - 1]) + if last.Free? then {last.q} else {}
  }

  ghost function FreeOps(g: Graph, k: nat, n: nat): seq<Op>
    requires Valid(g) && k < |g.calls| && n <= |g.calls[k].inputs|
  {
    if n == 0 then []
    else
      assert CallValid(g, k);
      var before, t := FreeOps(g, k, n - 1), g.calls[k].inputs[n - 1];
      if FreesAt(g, k, t) && g.tensors[t].que !in FreedBy(before) then before + [Free(g.tensors[t].que, t)] else before
  }

  ghost function FreeUnusedOps(g: Graph, k: nat, n: nat): seq<Op>
    requires Valid(g) && k < |g.calls| && n <= |g.calls[k].outputs|
  {
    if n == 0 then []
    else
      assert CallValid(g, k);
      var before, t := FreeUnusedOps(g, k, n - 1), g.calls[k].outputs[n - 1];
      if FreedUnread(g.tensors[t]) && g.tensors[t].que !in FreedBy(before) then before + [Free(g.tensors[t].que, t)]
      else before
  }

  function Join(parts: seq<seq<Op>>): seq<Op> {
    if parts == [] then [] else Join(parts[..|parts| - 1]) + parts[|parts| - 1]
  }

  lemma {:induction false} JoinSeven(a: seq<Op>, b: seq<Op>, c: seq<Op>, d: seq<Op>, e: seq<Op>, f: seq<Op>, h: seq<Op>)
    ensures Join([a, b, c, d, e, f, h]) == a + b + c + d + e + f + h
  {
    JoinSnoc([], a);
    JoinSnoc([a], b);
    JoinSnoc([a, b], c);
    JoinSnoc([a, b, c], d);
    JoinSnoc([a, b, c, d], e);
    JoinSnoc([a, b, c, d, e], f);
    JoinSnoc([a, b, c, d, e, f], h);
    assert [] + [a] == [a] && [] + a == a;
    assert [a] + [b] == [a, b] && [a, b] + [c] == [a, b, c] && [a, b, c] + [d] == [a, b, c, d];
    assert [a, b, c, d] + [e] == [a, b, c, d, e] && [a, b, c, d, e] + [f] == [a, b, c, d, e, f];
    assert [a, b, c, d, e, f] + [h] == [a, b, c, d, e, f, h];
  }

  lemma JoinSnoc(parts: seq<seq<Op>>, last: seq<Op>)
    ensures Join(parts + [last]) == Join(parts) + last
  {
    assert (parts + [last])[..|parts + [last]| - 1] == parts;
  }

  /** The steps of a call, in order; a call without a unit emits nothing. */
  ghost function CallParts(g: Graph, k: nat): seq<seq<Op>>
    requires Valid(g) && k < |g.calls|
  {
    var i, o := |g.calls[k].inputs|, |g.calls[k].outputs|;
    if g.calls[k].unit == NoUnit then []
    else [WaitOps(g, k, i), AllocOps(g, k, o), ReadOps(g, k, i), WriteOps(g, k, o), EnQueOps(g, k, o),
          FreeOps(g, k, i), FreeUnusedOps(g, k, o)]
  }

  ghost function CallOps(g: Graph, k: nat): seq<Op>
    requires Valid(g) && k < |g.calls|
  {
    Join(CallParts(g, k))
  }

  /** What the first `n` calls emit, call by call. */
  ghost function CallTraces(g: Graph, n: nat): (parts: seq<seq<Op>>)
    requires Valid(g) && n <= |g.calls|
    ensures |parts| == n && forall k | 0 <= k < n :: parts[k] == CallOps(g, k)
  {
    if n == 0 then [] else CallTraces(g, n - 1) + [CallOps(g, n - 1)]
  }

  /** What the first `n` calls emit. */
  ghost function Trace(g: Graph, n: nat): seq<Op>
    requires Valid(g) && n <= |g.calls|
  {
    Join(CallTraces(g, n))
  }

  // ---------- the emitters ----------

  method IsReadFirstOnUnit(g: Graph, k: nat, t: nat) returns (first: bool)
    requires Valid(g) && k < |g.calls| && t < |g.tensors|
    ensures first == TensorUnitFirstRead(g, k, t)
  {
    assert TensorValid(g, t);
    var readers := g.tensors[t].readers;
    var i := 0;
    while i < |readers|
      invariant 0 <= i <= |readers|
      invariant IsUnitFirstRead(g, k, readers) == IsUnitFirstRead(g, k, readers[i..])
    {
      if g.calls[readers[i]].unit == g.calls[k].unit {
        return readers[i] == k;
      }
      assert readers[i..][1..] == readers[i + 1..];
      i := i + 1;
    }
    first := false;
  }

  /** The part of the wait that concerns one input. */
  method WaitInput(g: Graph, k: nat, t: nat) returns (ops: seq<Op>)
    requires Valid(g) && k < |g.calls| && t < |g.tensors|
    ensures ops == if Waits(g, k, t) then [DeQue(g.tensors[t].que, t)] else []
  {
    var tensor := g.tensors[t];
    var deque := [DeQue(tensor.que, t)];
    if g.calls[k].unit == Vector {
      if Shared(tensor) {
        return if tensor.sharePrev.None? && IsFirstRead(k, tensor) then deque else [];
      }
      return if tensor.pos == VecIn && IsFirstRead(k, tensor) then deque else [];
    }
    if g.calls[k].unit == Mte2 {
      var unitFirst := IsReadFirstOnUnit(g, k, t);
      if tensor.pos == VecOut && unitFirst {
        return deque;
      }
      if tensor.pos == VecIn && IsFirstRead(k, tensor) {
        return deque;
      }
    }
    ops := [];
  }

  method WaitInputs(g: Graph, k: nat) returns (ops: seq<Op>)
    requires Valid(g) && k < |g.calls|
    ensures ops == WaitOps(g, k, |g.calls[k].inputs|)
  {
    assert CallValid(g, k);
    var inputs := g.calls[k].inputs;
    var handled := [];
    ops := [];
    var i := 0;
    while i < |inputs|
      invariant 0 <= i <= |inputs| && ops == WaitOps(g, k, i)
      invariant forall t :: t in handled <==> t in inputs[..i]
    {
      var t := inputs[i];
      if t !in handled {
        handled := handled + [t];
        var more := WaitInput(g, k, t);
        ops := ops + more;
      }
      i := i + 1;
    }
  }

  method HandleVecOutAlloc(g: Graph, k: nat, t: nat) returns (alloc: bool)
    requires Valid(g) && k < |g.calls| && t < |g.tensors|
    ensures alloc == (!InPlace(g, k, t)
                      && (g.tensors[t].reuseFrom.None?
                          || (LinkValid(g, g.tensors[t].reuseFrom) && AllocatesAfter(g, g.tensors[t].reuseFrom.value))))
  {
    assert TensorValid(g, t) && CallValid(g, k);
    var inputs := g.calls[k].inputs;
    var i := 0;
    while i < |inputs|
      invariant 0 <= i <= |inputs|
      invariant forall j | 0 <= j < i :: g.tensors[inputs[j]].reuseNext != Some(t)
    {
      if g.tensors[inputs[i]].reuseNext == Some(t) {
        return false;
      }
      i := i + 1;
    }
    if g.tensors[t].reuseFrom.None? {
      return true;
    }
    var p := g.tensors[t].reuseFrom.value;
    assert TensorValid(g, p);
    var unit := g.calls[g.tensors[p].writer].unit;
    if unit == Vector {
      return g.tensors[p].pos == VecOut;
    }
    alloc := unit == Mte2;
  }

  method AllocOutputs(g: Graph, k: nat) returns (ops: seq<Op>)
    requires Valid(g) && k < |g.calls|
    ensures ops == AllocOps(g, k, |g.calls[k].outputs|)
  {
    assert CallValid(g, k);
    var outputs, unit := g.calls[k].outputs, g.calls[k].unit;
    ops := [];
    var i := 0;
    while i < |outputs|
      invariant 0 <= i <= |outputs| && ops == AllocOps(g, k, i)
    {
      var t := outputs[i];
      var tensor := g.tensors[t];
      assert TensorValid(g, t);
      var alloc := false;
      if tensor.queued {
        if Shared(tensor) {
          alloc := unit == Mte2 && tensor.pos == VecIn && tensor.sharePrev.None?;
        } else if unit == Mte2 && tensor.pos == VecIn {
          alloc := true;
        } else if unit == Vector && tensor.pos == VecOut {
          alloc := HandleVecOutAlloc(g, k, t);
        } else if unit == Vector && tensor.pos == VecCalc {
          alloc := tensor.reuseFrom.None? || g.tensors[tensor.reuseFrom.value].pos == VecOut;
        }
      }
      if alloc {
        ops := ops + [Alloc(tensor.que, t)];
      }
      i := i + 1;
    }
  }

  method SyncOutputs(g: Graph, k: nat) returns (ops: seq<Op>)
    requires Valid(g) && k < |g.calls|
    ensures ops == EnQueOps(g, k, |g.calls[k].outputs|)
  {
    assert CallValid(g, k);
    var outputs := g.calls[k].outputs;
    ops := [];
    var i := 0;
    while i < |outputs|
      invariant 0 <= i <= |outputs| && ops == EnQueOps(g, k, i)
    {
      var tensor := g.tensors[outputs[i]];
      if tensor.queued && tensor.shareNext.None? && (tensor.pos == VecIn || tensor.pos == VecOut) {
        ops := ops + [EnQue(tensor.que, outputs[i])];
      }
      i := i + 1;
    }
  }

  method FreeInputs(g: Graph, k: nat) returns (ops: seq<Op>)
    requires Valid(g) && k < |g.calls|
    ensures ops == FreeOps(g, k, |g.calls[k].inputs|)
  {
    assert CallValid(g, k);
    var inputs := g.calls[k].inputs;
    var freed := [];
    ops := [];
    var i := 0;
    while i < |inputs|
      invariant 0 <= i <= |inputs| && ops == FreeOps(g, k, i)
      invariant forall q :: q in freed <==> q in FreedBy(ops)
    {
      var t := inputs[i];
      assert TensorValid(g, t);
      var tensor := g.tensors[t];
      if IsLastRead(k, tensor) && tensor.que !in freed && tensor.shareNext.None? && tensor.queued {
        if tensor.reuseNext.None? || tensor.pos == VecOut || g.tensors[tensor.reuseNext.value].pos == VecIn {
          ops := ops + [Free(tensor.que, t)];
          freed := freed + [tensor.que];
        }
      }
      i := i + 1;
    }
  }

  method FreeUnusedOutputs(g: Graph, k: nat) returns (ops: seq<Op>)
    requires Valid(g) && k < |g.calls|
    ensures ops == FreeUnusedOps(g, k, |g.calls[k].outputs|)
  {
    assert CallValid(g, k);
    var outputs := g.calls[k].outputs;
    var freed := [];
    ops := [];
    var i := 0;
    while i < |outputs|
      invariant 0 <= i <= |outputs| && ops == FreeUnusedOps(g, k, i)
      invariant forall q :: q in freed <==> q in FreedBy(ops)
    {
      var tensor := g.tensors[outputs[i]];
      if tensor.readers == [] && tensor.que !in freed && tensor.queued {
        if (tensor.reuseNext.None? && tensor.shareNext.None?) || tensor.pos == VecOut {
          ops := ops + [Free(tensor.que, outputs[i])];
          freed := freed + [tensor.que];
        }
      }
      i := i + 1;
    }
  }

  /** The whole body: every call in turn. */
  method GenerateBody(g: Graph) returns (ops: seq<Op>)
    requires Valid(g)
    ensures ops == Trace(g, |g.calls|)
  {
    ops := [];
    var k := 0;
    while k < |g.calls|
      invariant 0 <= k <= |g.calls| && ops == Trace(g, k)
    {
      ops := GenerateCall(g, k, ops);
      k := k + 1;
    }
  }

  /** Appends what call `k` emits. */
  method GenerateCall(g: Graph, k: nat, before: seq<Op>) returns (ops: seq<Op>)
    requires Valid(g) && k < |g.calls| && before == Trace(g, k)
    ensures ops == Trace(g, k + 1)
  {
    if g.calls[k].unit == NoUnit {
      assert before + [] == before;
      return before;
    }
    var waits := WaitInputs(g, k);
    var allocs := AllocOutputs(g, k);
    var reading, writing := Accesses(g, k);
    var enques := SyncOutputs(g, k);
    var frees := FreeInputs(g, k);
    var unused := FreeUnusedOutputs(g, k);
    JoinSeven(waits, allocs, reading, writing, enques, frees, unused);
    ops := before + (waits + allocs + reading + writing + enques + frees + unused);
  }

  /** A call reads its inputs and writes its outputs. */
  method Accesses(g: Graph, k: nat) returns (reading: seq<Op>, writing: seq<Op>)
    requires k < |g.calls|
    ensures reading == ReadOps(g, k, |g.calls[k].inputs|) && writing == WriteOps(g, k, |g.calls[k].outputs|)
  {
    reading, writing := [], [];
    var i := 0;
    while i < |g.calls[k].inputs|
      invariant 0 <= i <= |g.calls[k].inputs| && reading == ReadOps(g, k, i)
    {
      reading := reading + [Read(g.calls[k].inputs[i], g.calls[k].unit)];
      i := i + 1;
    }
    i := 0;
    while i < |g.calls[k].outputs|
      invariant 0 <= i <= |g.calls[k].outputs| && writing == WriteOps(g, k, i)
    {
      writing := writing + [Write(g.calls[k].outputs[i])];
      i := i + 1;
    }
  }
}
