/**
 Conservation along the tensors of one queue: shared groups that hand the queue on from one
 to the next. A link is balanced if its predecessor is freed exactly if its successor allocates.
 */
module ReuseChain {
  import opened Options
  import opened QueueOps

  // ---------- counting operations ----------

  datatype Kind = Allocating | Freeing

  predicate IsKind(kind: Kind, op: Op) {
    match kind
    case Allocating => op.Alloc?
    case Freeing => op.Free?
  }

  /** How often the operations of one kind serve tensor `t`. */
  function Count(kind: Kind, t: nat, ops: seq<Op>): nat {
    if ops == [] then 0
    else
      var last := ops[|ops| - 1];
      Count(kind, t, ops[..|ops| - 1]) + if IsKind(kind, last) && last.t == t then 1 else 0
  }

  /** How often queue `q` is allocated or freed. */
  function CountOn(kind: Kind, q: int, ops: seq<Op>): nat {
    if ops == [] then 0
    else
      var last := ops[|ops| - 1];
      CountOn(kind, q, ops[..|ops| - 1]) + if IsKind(kind, last) && last.q == q then 1 else 0
  }

  function CountAll(kind: Kind, chain: seq<nat>, ops: seq<Op>): nat {
    if chain == [] then 0 else CountAll(kind, chain[..|chain| - 1], ops) + Count(kind, chain[|chain| - 1], ops)
  }

  predicate Distinct(chain: seq<nat>) {
    forall i, j | 0 <= i < j < |chain| :: chain[i] != chain[j]
  }

  lemma {:induction false} CountAllSnoc(kind: Kind, chain: seq<nat>, ops: seq<Op>, op: Op)
    requires Distinct(chain)
    ensures CountAll(kind, chain, ops + [op])
         == CountAll(kind, chain, ops) + if IsKind(kind, op) && op.t in chain then 1 else 0
  {
    assert (ops + [op])[..|ops + [op]| - 1] == ops;
    if chain != [] {
      CountAllSnoc(kind, chain[..|chain| - 1], ops, op);
    }
  }

  lemma {:induction false} CountAllNone(kind: Kind, chain: seq<nat>)
    ensures CountAll(kind, chain, []) == 0
  {
    if chain != [] { CountAllNone(kind, chain[..|chain| - 1]); }
  }

  /** Counting by queue is counting over the tensors of the queue. */
  lemma {:induction false} CountByTensor(kind: Kind, q: int, chain: seq<nat>, ops: seq<Op>)
    requires Distinct(chain)
    requires forall i | 0 <= i < |ops| && IsKind(kind, ops[i]) :: ops[i].q == q <==> ops[i].t in chain
    ensures CountOn(kind, q, ops) == CountAll(kind, chain, ops)
  {
    if ops == [] {
      CountAllNone(kind, chain);
    } else {
      var init, last := ops[..|ops| - 1], ops[|ops| - 1];
      assert forall i | 0 <= i < |init| :: init[i] == ops[i];
      CountByTensor(kind, q, chain, init);
      CountAllSnoc(kind, chain, init, last);
      assert ops == init + [last];
    }
  }

  lemma {:induction false} CountConcat(kind: Kind, t: nat, a: seq<Op>, b: seq<Op>)
    ensures Count(kind, t, a + b) == Count(kind, t, a) + Count(kind, t, b)
    decreases |b|
  {
    if b == [] {
      assert a + b == a;
    } else {
      assert (a + b)[..|a + b| - 1] == a + b[..|b| - 1];
      CountConcat(kind, t, a, b[..|b| - 1]);
    }
  }

  lemma CountSnoc(kind: Kind, t: nat, a: seq<Op>, op: Op)
    ensures Count(kind, t, a + [op]) == Count(kind, t, a) + if IsKind(kind, op) && op.t == t then 1 else 0
  {
    assert (a + [op])[..|a + [op]| - 1] == a;
  }

  // ---------- what is emitted for one tensor ----------

  /** Every operation names the queue of its tensor. */
  predicate OwnQueue(g: Graph, op: Op) {
    (op.Alloc? || op.Free?) ==> op.t < |g.tensors| && op.q == g.tensors[op.t].que
  }

  predicate OwnQueues(g: Graph, ops: seq<Op>) {
    forall i | 0 <= i < |ops| :: OwnQueue(g, ops[i])
  }

  /** A step appends one operation, or nothing. */
  predicate OneStep(before: seq<Op>, op: Op, after: seq<Op>) {
    after == before || after == before + [op]
  }

  lemma StepCount(kind: Kind, t: nat, before: seq<Op>, op: Op, after: seq<Op>)
    requires OneStep(before, op, after) && !IsKind(kind, op)
    ensures Count(kind, t, after) == Count(kind, t, before)
  {
    CountSnoc(kind, t, before, op);
  }

  lemma StepOwnQueues(g: Graph, before: seq<Op>, op: Op, after: seq<Op>)
    requires OneStep(before, op, after) && OwnQueues(g, before) && OwnQueue(g, op)
    ensures OwnQueues(g, after)
  {
  }

  lemma WaitShape(g: Graph, k: nat, n: nat)
    requires Valid(g) && k < |g.calls| && 0 < n <= |g.calls[k].inputs|
    ensures var t := g.calls[k].inputs[n - 1];
            t < |g.tensors| && OneStep(WaitOps(g, k, n - 1), DeQue(g.tensors[t].que, t), WaitOps(g, k, n))
  {
    assert CallValid(g, k);
  }

  lemma {:induction false} WaitCounts(g: Graph, k: nat, n: nat, t: nat)
    requires Valid(g) && k < |g.calls| && n <= |g.calls[k].inputs|
    ensures Count(Allocating, t, WaitOps(g, k, n)) == 0
    ensures Count(Freeing, t, WaitOps(g, k, n)) == 0
    ensures OwnQueues(g, WaitOps(g, k, n))
  {
    if 0 < n {
      WaitCounts(g, k, n - 1, t);
      WaitShape(g, k, n);
      var s := g.calls[k].inputs[n - 1];
      StepCount(Allocating, t, WaitOps(g, k, n - 1), DeQue(g.tensors[s].que, s), WaitOps(g, k, n));
      StepCount(Freeing, t, WaitOps(g, k, n - 1), DeQue(g.tensors[s].que, s), WaitOps(g, k, n));
      StepOwnQueues(g, WaitOps(g, k, n - 1), DeQue(g.tensors[s].que, s), WaitOps(g, k, n));
    }
  }

  lemma ReadShape(g: Graph, k: nat, n: nat)
    requires Valid(g) && k < |g.calls| && 0 < n <= |g.calls[k].inputs|
    ensures var t := g.calls[k].inputs[n - 1];
            t < |g.tensors| && OneStep(ReadOps(g, k, n - 1), Read(t, g.calls[k].unit), ReadOps(g, k, n))
  {
    assert CallValid(g, k);
  }

  lemma {:induction false} ReadCounts(g: Graph, k: nat, n: nat, t: nat)
    requires Valid(g) && k < |g.calls| && n <= |g.calls[k].inputs|
    ensures Count(Allocating, t, ReadOps(g, k, n)) == 0
    ensures Count(Freeing, t, ReadOps(g, k, n)) == 0
    ensures OwnQueues(g, ReadOps(g, k, n))
  {
    if 0 < n {
      ReadCounts(g, k, n - 1, t);
      ReadShape(g, k, n);
      var s := g.calls[k].inputs[n - 1];
      StepCount(Allocating, t, ReadOps(g, k, n - 1), Read(s, g.calls[k].unit), ReadOps(g, k, n));
      StepCount(Freeing, t, ReadOps(g, k, n - 1), Read(s, g.calls[k].unit), ReadOps(g, k, n));
      StepOwnQueues(g, ReadOps(g, k, n - 1), Read(s, g.calls[k].unit), ReadOps(g, k, n));
    }
  }

  lemma FreeShape(g: Graph, k: nat, n: nat)
    requires Valid(g) && k < |g.calls| && 0 < n <= |g.calls[k].inputs|
    ensures var t := g.calls[k].inputs[n - 1];
            t < |g.tensors| && OneStep(FreeOps(g, k, n - 1), Free(g.tensors[t].que, t), FreeOps(g, k, n))
  {
    assert CallValid(g, k);
  }

  lemma {:induction false} FreeCounts(g: Graph, k: nat, n: nat, t: nat)
    requires Valid(g) && k < |g.calls| && n <= |g.calls[k].inputs|
    ensures Count(Allocating, t, FreeOps(g, k, n)) == 0
    ensures OwnQueues(g, FreeOps(g, k, n))
  {
    if 0 < n {
      FreeCounts(g, k, n - 1, t);
      FreeShape(g, k, n);
      var s := g.calls[k].inputs[n - 1];
      StepCount(Allocating, t, FreeOps(g, k, n - 1), Free(g.tensors[s].que, s), FreeOps(g, k, n));
      StepOwnQueues(g, FreeOps(g, k, n - 1), Free(g.tensors[s].que, s), FreeOps(g, k, n));
    }
  }

  lemma AllocShape(g: Graph, k: nat, n: nat)
    requires Valid(g) && k < |g.calls| && 0 < n <= |g.calls[k].outputs|
    ensures var t := g.calls[k].outputs[n - 1];
            t < |g.tensors| && OneStep(AllocOps(g, k, n - 1), Alloc(g.tensors[t].que, t), AllocOps(g, k, n))
  {
    assert CallValid(g, k);
  }

  lemma {:induction false} AllocCounts(g: Graph, k: nat, n: nat, t: nat)
    requires Valid(g) && k < |g.calls| && n <= |g.calls[k].outputs|
    ensures Count(Freeing, t, AllocOps(g, k, n)) == 0
    ensures OwnQueues(g, AllocOps(g, k, n))
  {
    if 0 < n {
      AllocCounts(g, k, n - 1, t);
      AllocShape(g, k, n);
      var s := g.calls[k].outputs[n - 1];
      StepCount(Freeing, t, AllocOps(g, k, n - 1), Alloc(g.tensors[s].que, s), AllocOps(g, k, n));
      StepOwnQueues(g, AllocOps(g, k, n - 1), Alloc(g.tensors[s].que, s), AllocOps(g, k, n));
    }
  }

  lemma WriteShape(g: Graph, k: nat, n: nat)
    requires Valid(g) && k < |g.calls| && 0 < n <= |g.calls[k].outputs|
    ensures var t := g.calls[k].outputs[n - 1];
            t < |g.tensors| && OneStep(WriteOps(g, k, n - 1), Write(t), WriteOps(g, k, n))
  {
    assert CallValid(g, k);
  }

  lemma {:induction false} WriteCounts(g: Graph, k: nat, n: nat, t: nat)
    requires Valid(g) && k < |g.calls| && n <= |g.calls[k].outputs|
    ensures Count(Allocating, t, WriteOps(g, k, n)) == 0
    ensures Count(Freeing, t, WriteOps(g, k, n)) == 0
    ensures OwnQueues(g, WriteOps(g, k, n))
  {
    if 0 < n {
      WriteCounts(g, k, n - 1, t);
      WriteShape(g, k, n);
      var s := g.calls[k].outputs[n - 1];
      StepCount(Allocating, t, WriteOps(g, k, n - 1), Write(s), WriteOps(g, k, n));
      StepCount(Freeing, t, WriteOps(g, k, n - 1), Write(s), WriteOps(g, k, n));
      StepOwnQueues(g, WriteOps(g, k, n - 1), Write(s), WriteOps(g, k, n));
    }
  }

  lemma EnQueShape(g: Graph, k: nat, n: nat)
    requires Valid(g) && k < |g.calls| && 0 < n <= |g.calls[k].outputs|
    ensures var t := g.calls[k].outputs[n - 1];
            t < |g.tensors| && OneStep(EnQueOps(g, k, n - 1), EnQue(g.tensors[t].que, t), EnQueOps(g, k, n))
  {
    assert CallValid(g, k);
  }

  lemma {:induction false} EnQueCounts(g: Graph, k: nat, n: nat, t: nat)
    requires Valid(g) && k < |g.calls| && n <= |g.calls[k].outputs|
    ensures Count(Allocating, t, EnQueOps(g, k, n)) == 0
    ensures Count(Freeing, t, EnQueOps(g, k, n)) == 0
    ensures OwnQueues(g, EnQueOps(g, k, n))
  {
    if 0 < n {
      EnQueCounts(g, k, n - 1, t);
      EnQueShape(g, k, n);
      var s := g.calls[k].outputs[n - 1];
      StepCount(Allocating, t, EnQueOps(g, k, n - 1), EnQue(g.tensors[s].que, s), EnQueOps(g, k, n));
      StepCount(Freeing, t, EnQueOps(g, k, n - 1), EnQue(g.tensors[s].que, s), EnQueOps(g, k, n));
      StepOwnQueues(g, EnQueOps(g, k, n - 1), EnQue(g.tensors[s].que, s), EnQueOps(g, k, n));
    }
  }

  lemma FreeUnusedShape(g: Graph, k: nat, n: nat)
    requires Valid(g) && k < |g.calls| && 0 < n <= |g.calls[k].outputs|
    ensures var t := g.calls[k].outputs[n - 1];
            t < |g.tensors| && OneStep(FreeUnusedOps(g, k, n - 1), Free(g.tensors[t].que, t), FreeUnusedOps(g, k, n))
  {
    assert CallValid(g, k);
  }

  lemma {:induction false} FreeUnusedCounts(g: Graph, k: nat, n: nat, t: nat)
    requires Valid(g) && k < |g.calls| && n <= |g.calls[k].outputs|
    ensures Count(Allocating, t, FreeUnusedOps(g, k, n)) == 0
    ensures OwnQueues(g, FreeUnusedOps(g, k, n))
  {
    if 0 < n {
      FreeUnusedCounts(g, k, n - 1, t);
      FreeUnusedShape(g, k, n);
      var s := g.calls[k].outputs[n - 1];
      StepCount(Allocating, t, FreeUnusedOps(g, k, n - 1), Free(g.tensors[s].que, s), FreeUnusedOps(g, k, n));
      StepOwnQueues(g, FreeUnusedOps(g, k, n - 1), Free(g.tensors[s].que, s), FreeUnusedOps(g, k, n));
    }
  }

  lemma StepCounts(g: Graph, k: nat, t: nat)
    requires Valid(g) && k < |g.calls|
    ensures var i, o := |g.calls[k].inputs|, |g.calls[k].outputs|;
            && Count(Allocating, t, WaitOps(g, k, i)) == Count(Freeing, t, WaitOps(g, k, i)) == 0
            && Count(Allocating, t, ReadOps(g, k, i)) == Count(Freeing, t, ReadOps(g, k, i)) == 0
            && Count(Allocating, t, WriteOps(g, k, o)) == Count(Freeing, t, WriteOps(g, k, o)) == 0
            && Count(Allocating, t, EnQueOps(g, k, o)) == Count(Freeing, t, EnQueOps(g, k, o)) == 0
            && Count(Freeing, t, AllocOps(g, k, o)) == Count(Allocating, t, FreeOps(g, k, i)) == 0
            && Count(Allocating, t, FreeUnusedOps(g, k, o)) == 0
            && OwnQueues(g, WaitOps(g, k, i)) && OwnQueues(g, AllocOps(g, k, o)) && OwnQueues(g, ReadOps(g, k, i))
            && OwnQueues(g, WriteOps(g, k, o)) && OwnQueues(g, EnQueOps(g, k, o)) && OwnQueues(g, FreeOps(g, k, i))
            && OwnQueues(g, FreeUnusedOps(g, k, o))
  {
    var i, o := |g.calls[k].inputs|, |g.calls[k].outputs|;
    WaitCounts(g, k, i, t);
    ReadCounts(g, k, i, t);
    FreeCounts(g, k, i, t);
    AllocCounts(g, k, o, t);
    WriteCounts(g, k, o, t);
    EnQueCounts(g, k, o, t);
    FreeUnusedCounts(g, k, o, t);
  }

  lemma {:induction false} AllocCount(g: Graph, k: nat, n: nat, t: nat)
    requires Valid(g) && k < |g.calls| && n <= |g.calls[k].outputs| && t < |g.tensors|
    ensures Count(Allocating, t, AllocOps(g, k, n)) == if t in g.calls[k].outputs[..n] && Allocates(g, k, t) then 1 else 0
  {
    if 0 < n {
      var outputs := g.calls[k].outputs;
      AllocCount(g, k, n - 1, t);
      assert CallValid(g, k);
      assert outputs[..n] == outputs[..n - 1] + [outputs[n - 1]];
      CountSnoc(Allocating, t, AllocOps(g, k, n - 1), Alloc(g.tensors[outputs[n - 1]].que, outputs[n - 1]));
    }
  }

  /** No other tensor of the same queue is freed by an input of call `k`. */
  ghost predicate AloneAt(g: Graph, k: nat, t: nat)
    requires Valid(g) && t < |g.tensors|
  {
    forall s | 0 <= s < |g.tensors| && s != t && g.tensors[s].que == g.tensors[t].que :: !FreesAt(g, k, s)
  }

  lemma {:induction false} FreeCount(g: Graph, k: nat, n: nat, t: nat)
    requires Valid(g) && k < |g.calls| && n <= |g.calls[k].inputs| && t < |g.tensors|
    requires FreesAt(g, k, t) ==> AloneAt(g, k, t)
    ensures var freed := t in g.calls[k].inputs[..n] && FreesAt(g, k, t);
            && Count(Freeing, t, FreeOps(g, k, n)) == (if freed then 1 else 0)
            && (FreesAt(g, k, t) ==> (g.tensors[t].que in FreedBy(FreeOps(g, k, n)) <==> freed))
  {
    if 0 < n {
      var inputs := g.calls[k].inputs;
      var s := inputs[n - 1];
      FreeCount(g, k, n - 1, t);
      assert CallValid(g, k);
      assert inputs[..n] == inputs[..n - 1] + [s];
      var before, op := FreeOps(g, k, n - 1), Free(g.tensors[s].que, s);
      CountSnoc(Freeing, t, before, op);
      assert (before + [op])[..|before + [op]| - 1] == before;
    }
  }

  /** No other output of call `k` on the same queue is freed unread. */
  predicate AloneUnread(g: Graph, k: nat, t: nat)
    requires t < |g.tensors|
  {
    forall s | 0 <= s < |g.tensors| && s != t && g.tensors[s].que == g.tensors[t].que && g.tensors[s].writer == k ::
      !FreedUnread(g.tensors[s])
  }

  lemma {:induction false} FreeUnusedCount(g: Graph, k: nat, n: nat, t: nat)
    requires Valid(g) && k < |g.calls| && n <= |g.calls[k].outputs| && t < |g.tensors|
    requires FreedUnread(g.tensors[t]) ==> AloneUnread(g, k, t)
    ensures var freed := t in g.calls[k].outputs[..n] && FreedUnread(g.tensors[t]);
            && Count(Freeing, t, FreeUnusedOps(g, k, n)) == (if freed then 1 else 0)
            && (FreedUnread(g.tensors[t]) ==> (g.tensors[t].que in FreedBy(FreeUnusedOps(g, k, n)) <==> freed))
  {
    if 0 < n {
      var outputs := g.calls[k].outputs;
      var s := outputs[n - 1];
      FreeUnusedCount(g, k, n - 1, t);
      assert CallValid(g, k);
      assert outputs[..n] == outputs[..n - 1] + [s];
      var before, op := FreeUnusedOps(g, k, n - 1), Free(g.tensors[s].que, s);
      CountSnoc(Freeing, t, before, op);
      assert (before + [op])[..|before + [op]| - 1] == before;
    }
  }

  // ---------- what the whole body emits for one tensor ----------

  /** The last call that touches `t`. */
  function EndOf(t: Tensor): nat {
    if t.readers == [] then t.writer else t.readers[|t.readers| - 1]
  }

  ghost predicate AllocatesInAll(g: Graph, t: nat)
    requires Valid(g) && t < |g.tensors|
  {
    assert TensorValid(g, t);
    Allocates(g, g.tensors[t].writer, t)
  }

  /** Whether `t` is freed at all: where it is read last, or where it is written if nobody reads it. */
  ghost predicate FreesInAll(g: Graph, t: nat)
    requires Valid(g) && t < |g.tensors|
  {
    assert TensorValid(g, t);
    if g.tensors[t].readers == [] then FreedUnread(g.tensors[t]) else FreedWhenRead(g, t)
  }

  /** The tensors of one queue are freed by different calls, which belong to some unit. */
  ghost predicate FreedApart(g: Graph, t: nat)
    requires Valid(g) && t < |g.tensors|
  {
    assert TensorValid(g, t);
    var tensor := g.tensors[t];
    assert tensor.readers != [] ==> EndOf(tensor) in tensor.readers;
    && g.calls[EndOf(tensor)].unit != NoUnit
    && (tensor.readers != [] && FreedWhenRead(g, t) ==> AloneAt(g, EndOf(tensor), t))
    && (FreedUnread(tensor) ==> AloneUnread(g, tensor.writer, t))
  }

  lemma CountOps(kind: Kind, t: nat, a: seq<Op>, b: seq<Op>, c: seq<Op>, d: seq<Op>, e: seq<Op>, f: seq<Op>, h: seq<Op>)
    ensures Count(kind, t, a + b + c + d + e + f + h)
         == Count(kind, t, a) + Count(kind, t, b) + Count(kind, t, c) + Count(kind, t, d) + Count(kind, t, e)
          + Count(kind, t, f) + Count(kind, t, h)
  {
    CountConcat(kind, t, a, b);
    CountConcat(kind, t, a + b, c);
    CountConcat(kind, t, a + b + c, d);
    CountConcat(kind, t, a + b + c + d, e);
    CountConcat(kind, t, a + b + c + d + e, f);
    CountConcat(kind, t, a + b + c + d + e + f, h);
  }

  lemma CallCount(g: Graph, k: nat, t: nat)
    requires Valid(g) && k < |g.calls| && t < |g.tensors| && FreedApart(g, t)
    ensures Count(Allocating, t, CallOps(g, k)) == if k == g.tensors[t].writer then Allocs(g, t) else 0
    ensures Count(Freeing, t, CallOps(g, k)) == if k == EndOf(g.tensors[t]) then Frees(g, t) else 0
  {
    var i, o := |g.calls[k].inputs|, |g.calls[k].outputs|;
    assert TensorValid(g, t) && CallValid(g, k);
    if g.calls[k].unit == NoUnit {
      return;
    }
    assert g.calls[k].inputs[..i] == g.calls[k].inputs && g.calls[k].outputs[..o] == g.calls[k].outputs;
    StepCounts(g, k, t);
    AllocCount(g, k, o, t);
    FreeCount(g, k, i, t);
    if g.tensors[t].writer == k { FreeUnusedCount(g, k, o, t); } else { FreeUnusedElsewhere(g, k, o, t); }
    CallOpsCount(Allocating, g, k, t);
    CallOpsCount(Freeing, g, k, t);
  }

  lemma CallOpsCount(kind: Kind, g: Graph, k: nat, t: nat)
    requires Valid(g) && k < |g.calls| && g.calls[k].unit != NoUnit
    ensures var i, o := |g.calls[k].inputs|, |g.calls[k].outputs|;
            Count(kind, t, CallOps(g, k))
            == Count(kind, t, WaitOps(g, k, i)) + Count(kind, t, AllocOps(g, k, o)) + Count(kind, t, ReadOps(g, k, i))
             + Count(kind, t, WriteOps(g, k, o)) + Count(kind, t, EnQueOps(g, k, o)) + Count(kind, t, FreeOps(g, k, i))
             + Count(kind, t, FreeUnusedOps(g, k, o))
  {
    var i, o := |g.calls[k].inputs|, |g.calls[k].outputs|;
    JoinSeven(WaitOps(g, k, i), AllocOps(g, k, o), ReadOps(g, k, i), WriteOps(g, k, o), EnQueOps(g, k, o),
              FreeOps(g, k, i), FreeUnusedOps(g, k, o));
    CountOps(kind, t, WaitOps(g, k, i), AllocOps(g, k, o), ReadOps(g, k, i), WriteOps(g, k, o),
             EnQueOps(g, k, o), FreeOps(g, k, i), FreeUnusedOps(g, k, o));
  }

  lemma {:induction false} FreeUnusedElsewhere(g: Graph, k: nat, n: nat, t: nat)
    requires Valid(g) && k < |g.calls| && n <= |g.calls[k].outputs| && t < |g.tensors| && g.tensors[t].writer != k
    ensures Count(Freeing, t, FreeUnusedOps(g, k, n)) == 0
  {
    if 0 < n {
      FreeUnusedElsewhere(g, k, n - 1, t);
      assert CallValid(g, k);
      var s := g.calls[k].outputs[n - 1];
      CountSnoc(Freeing, t, FreeUnusedOps(g, k, n - 1), Free(g.tensors[s].que, s));
    }
  }

  /** If only part `k` contributes, and `c`, then that is the count over all parts. */
  lemma {:induction false} JoinCount(kind: Kind, t: nat, parts: seq<seq<Op>>, k: nat, c: nat)
    requires forall i | 0 <= i < |parts| :: Count(kind, t, parts[i]) == if i == k then c else 0
    ensures Count(kind, t, Join(parts)) == if k < |parts| then c else 0
  {
    if parts != [] {
      var init := parts[..|parts| - 1];
      JoinCount(kind, t, init, k, c);
      CountConcat(kind, t, Join(init), parts[|parts| - 1]);
    }
  }

  lemma TraceCount(g: Graph, t: nat)
    requires Valid(g) && t < |g.tensors| && FreedApart(g, t)
    ensures Count(Allocating, t, Trace(g, |g.calls|)) == Allocs(g, t)
    ensures Count(Freeing, t, Trace(g, |g.calls|)) == Frees(g, t)
  {
    var parts, writer, end := CallTraces(g, |g.calls|), g.tensors[t].writer, EndOf(g.tensors[t]);
    EndInRange(g, t);
    forall k | 0 <= k < |g.calls|
      ensures Count(Allocating, t, parts[k]) == if k == writer then Allocs(g, t) else 0
      ensures Count(Freeing, t, parts[k]) == if k == end then Frees(g, t) else 0
    {
      CallCount(g, k, t);
    }
    JoinCount(Allocating, t, parts, writer, Allocs(g, t));
    JoinCount(Freeing, t, parts, end, Frees(g, t));
  }

  lemma EndInRange(g: Graph, t: nat)
    requires Valid(g) && t < |g.tensors|
    ensures g.tensors[t].writer < |g.calls| && EndOf(g.tensors[t]) < |g.calls|
  {
    assert TensorValid(g, t);
    assert g.tensors[t].readers != [] ==> EndOf(g.tensors[t]) in g.tensors[t].readers;
  }

  lemma TraceOwnQueues(g: Graph)
    requires Valid(g)
    ensures OwnQueues(g, Trace(g, |g.calls|))
  {
    forall k | 0 <= k < |g.calls| ensures OwnQueues(g, CallTraces(g, |g.calls|)[k]) {
      CallOwnQueues(g, k);
    }
    JoinOwnQueues(g, CallTraces(g, |g.calls|));
  }

  lemma {:induction false} JoinOwnQueues(g: Graph, parts: seq<seq<Op>>)
    requires forall i | 0 <= i < |parts| :: OwnQueues(g, parts[i])
    ensures OwnQueues(g, Join(parts))
  {
    if parts != [] {
      JoinOwnQueues(g, parts[..|parts| - 1]);
      assert OwnQueues(g, parts[|parts| - 1]);
    }
  }

  lemma OwnConcat(g: Graph, a: seq<Op>, b: seq<Op>)
    requires OwnQueues(g, a) && OwnQueues(g, b)
    ensures OwnQueues(g, a + b)
  {
  }

  lemma OwnSeven(g: Graph, a: seq<Op>, b: seq<Op>, c: seq<Op>, d: seq<Op>, e: seq<Op>, f: seq<Op>, h: seq<Op>)
    requires OwnQueues(g, a) && OwnQueues(g, b) && OwnQueues(g, c) && OwnQueues(g, d)
    requires OwnQueues(g, e) && OwnQueues(g, f) && OwnQueues(g, h)
    ensures OwnQueues(g, a + b + c + d + e + f + h)
  {
    OwnConcat(g, a, b);
    OwnConcat(g, a + b, c);
    OwnConcat(g, a + b + c, d);
    OwnConcat(g, a + b + c + d, e);
    OwnConcat(g, a + b + c + d + e, f);
    OwnConcat(g, a + b + c + d + e + f, h);
  }

  lemma CallOwnQueues(g: Graph, k: nat)
    requires Valid(g) && k < |g.calls|
    ensures OwnQueues(g, CallOps(g, k))
  {
    var i, o := |g.calls[k].inputs|, |g.calls[k].outputs|;
    if g.calls[k].unit != NoUnit {
      StepCounts(g, k, 0);
      JoinSeven(WaitOps(g, k, i), AllocOps(g, k, o), ReadOps(g, k, i), WriteOps(g, k, o), EnQueOps(g, k, o),
                FreeOps(g, k, i), FreeUnusedOps(g, k, o));
      OwnSeven(g, WaitOps(g, k, i), AllocOps(g, k, o), ReadOps(g, k, i), WriteOps(g, k, o), EnQueOps(g, k, o),
               FreeOps(g, k, i), FreeUnusedOps(g, k, o));
    }
  }

  // ---------- chains ----------

  /** Positions and units that the allocation handles; only loads share. */
  ghost predicate Supported(g: Graph, t: nat)
    requires Valid(g) && t < |g.tensors|
  {
    assert TensorValid(g, t);
    var tensor, unit := g.tensors[t], g.calls[g.tensors[t].writer].unit;
    && tensor.queued
    && (|| (unit == Mte2 && tensor.pos == VecIn)
        || (unit == Vector && (tensor.pos == VecOut || tensor.pos == VecCalc) && !Shared(tensor)))
    && (tensor.readers != [] ==> EndOf(tensor) in tensor.readers && g.calls[EndOf(tensor)].unit != NoUnit)
  }

  /** `s` shares with `p`. */
  predicate ShareLink(g: Graph, p: nat, s: nat)
    requires p < |g.tensors| && s < |g.tensors|
  {
    g.tensors[p].shareNext == Some(s) && g.tensors[s].sharePrev == Some(p) && g.tensors[p].writer <= g.tensors[s].writer
  }

  /** `s` takes over the queue after the last touch of `p`. */
  predicate ReuseLink(g: Graph, p: nat, s: nat)
    requires p < |g.tensors| && s < |g.tensors|
  {
    && g.tensors[p].reuseNext == Some(s) && g.tensors[s].reuseFrom == Some(p)
    && g.tensors[p].shareNext.None? && g.tensors[s].sharePrev.None?
    && g.tensors[p].writer < g.tensors[s].writer && EndOf(g.tensors[p]) <= g.tensors[s].writer
  }

  /** All tensors of a queue, in the order in which they are linked. */
  ghost predicate ChainOf(g: Graph, q: int, chain: seq<nat>) {
    && Valid(g) && chain != [] && Distinct(chain)
    && (forall t | 0 <= t < |g.tensors| :: g.tensors[t].que == q <==> t in chain)
    && (forall i {:trigger Linked(g, chain, i)} | 0 <= i < |chain| :: Linked(g, chain, i))
  }

  ghost predicate Linked(g: Graph, chain: seq<nat>, i: nat)
    requires Valid(g) && i < |chain|
  {
    var t := chain[i];
    && t < |g.tensors| && Supported(g, t)
    && (i == 0 ==> g.tensors[t].reuseFrom.None? && g.tensors[t].sharePrev.None?)
    && (i + 1 == |chain| ==> g.tensors[t].reuseNext.None? && g.tensors[t].shareNext.None?)
    && (i + 1 < |chain| ==> chain[i + 1] < |g.tensors|
                            && (ShareLink(g, t, chain[i + 1]) || ReuseLink(g, t, chain[i + 1])))
  }

  /** Later tensors of the chain are written after an earlier group is finished. */
  lemma {:induction false} LaterInChain(g: Graph, q: int, chain: seq<nat>, i: nat, j: nat)
    requires ChainOf(g, q, chain) && i < j < |chain|
    ensures chain[i] < |g.tensors| && chain[j] < |g.tensors| && g.tensors[chain[i]].writer <= g.tensors[chain[j]].writer
    ensures g.tensors[chain[i]].shareNext.None? ==>
              && g.tensors[chain[i]].writer < g.tensors[chain[j]].writer
              && EndOf(g.tensors[chain[i]]) <= g.tensors[chain[j]].writer
  {
    assert Linked(g, chain, j - 1) && Linked(g, chain, j);
    if i < j - 1 { LaterInChain(g, q, chain, i, j - 1); }
  }

  lemma ChainApart(g: Graph, q: int, chain: seq<nat>, i: nat)
    requires ChainOf(g, q, chain) && i < |chain|
    ensures chain[i] < |g.tensors| && FreedApart(g, chain[i])
  {
    var t := chain[i];
    assert Linked(g, chain, i);
    forall s | 0 <= s < |g.tensors| && s != t && g.tensors[s].que == q
      ensures g.tensors[t].readers != [] && FreesAt(g, EndOf(g.tensors[t]), t) ==> !FreesAt(g, EndOf(g.tensors[t]), s)
      ensures FreedUnread(g.tensors[t]) && g.tensors[s].writer == g.tensors[t].writer ==> !FreedUnread(g.tensors[s])
    {
      var j :| 0 <= j < |chain| && chain[j] == s;
      assert TensorValid(g, s) && TensorValid(g, t) && Linked(g, chain, j);
      if i < j { LaterInChain(g, q, chain, i, j); } else { LaterInChain(g, q, chain, j, i); }
    }
  }

  // ---------- links ----------

  ghost function Allocs(g: Graph, t: nat): nat
    requires Valid(g) && t < |g.tensors|
  {
    if AllocatesInAll(g, t) then 1 else 0
  }

  ghost function Frees(g: Graph, t: nat): nat
    requires Valid(g) && t < |g.tensors|
  {
    if FreesInAll(g, t) then 1 else 0
  }

  /** The successor writes in place if the predecessor is among the inputs of its call. */
  predicate WritesInPlace(g: Graph, p: nat, s: nat)
    requires s < |g.tensors| && g.tensors[s].writer < |g.calls|
  {
    p in g.calls[g.tensors[s].writer].inputs
  }

  /** The links on which the two sides disagree: a computed result overwritten in place by another one,
      a load whose queue a computed result takes over without writing in place, and an unread load or
      intermediate result before a load. */
  predicate Mismatch(g: Graph, p: nat, s: nat)
    requires p < |g.tensors| && s < |g.tensors| && g.tensors[s].writer < |g.calls|
  {
    match g.tensors[s].pos
    case VecIn => g.tensors[p].readers == [] && g.tensors[p].pos != VecOut
    case VecOut =>
      if g.tensors[p].pos == VecOut then WritesInPlace(g, p, s)
      else g.tensors[p].pos == VecIn && !WritesInPlace(g, p, s)
    case _ => false
  }

  lemma InPlaceIs(g: Graph, p: nat, s: nat)
    requires Valid(g) && p < |g.tensors| && s < |g.tensors| && ReuseLink(g, p, s)
    ensures g.tensors[s].writer < |g.calls|
    ensures InPlace(g, g.tensors[s].writer, s) <==> WritesInPlace(g, p, s)
  {
    assert TensorValid(g, s);
    var k := g.tensors[s].writer;
    assert CallValid(g, k);
    forall i | 0 <= i < |g.calls[k].inputs| ensures g.tensors[g.calls[k].inputs[i]].reuseNext == Some(s)
                                               <==> g.calls[k].inputs[i] == p {
      assert LinkedBothWays(g, g.calls[k].inputs[i], s);
    }
  }

  /** A reuse link is balanced exactly if it is none of the mismatching shapes. */
  lemma LinkBalanced(g: Graph, p: nat, s: nat)
    requires Valid(g) && p < |g.tensors| && s < |g.tensors|
    requires Supported(g, p) && Supported(g, s) && ReuseLink(g, p, s)
    ensures g.tensors[s].writer < |g.calls|
    ensures (FreesInAll(g, p) <==> AllocatesInAll(g, s)) <==> !Mismatch(g, p, s)
  {
    InPlaceIs(g, p, s);
    assert TensorValid(g, p) && TensorValid(g, s);
  }

  /** Inside a shared group nothing is freed or allocated. */
  lemma ShareBalanced(g: Graph, p: nat, s: nat)
    requires Valid(g) && p < |g.tensors| && s < |g.tensors|
    requires Supported(g, p) && Supported(g, s) && ShareLink(g, p, s)
    ensures !FreesInAll(g, p) && !AllocatesInAll(g, s)
  {
    assert TensorValid(g, p) && TensorValid(g, s);
  }

  lemma ChainEnds(g: Graph, q: int, chain: seq<nat>)
    requires ChainOf(g, q, chain)
    ensures chain[0] < |g.tensors| && AllocatesInAll(g, chain[0])
    ensures chain[|chain| - 1] < |g.tensors| && FreesInAll(g, chain[|chain| - 1])
  {
    var first := chain[0];
    assert Linked(g, chain, 0) && Linked(g, chain, |chain| - 1);
    assert TensorValid(g, first) && TensorValid(g, chain[|chain| - 1]);
    forall p | 0 <= p < |g.tensors| ensures g.tensors[p].reuseNext != Some(first) {
      assert LinkedBothWays(g, p, first);
    }
  }

  predicate InRange(g: Graph, chain: seq<nat>) {
    forall i | 0 <= i < |chain| :: chain[i] < |g.tensors|
  }

  /** Sum over the first `n` links: what the successors allocate minus what the predecessors free. */
  ghost function Imbalance(g: Graph, chain: seq<nat>, n: nat): int
    requires Valid(g) && InRange(g, chain) && n < |chain|
  {
    if n == 0 then 0 else Imbalance(g, chain, n - 1) + Allocs(g, chain[n]) - Frees(g, chain[n - 1])
  }

  lemma {:induction false} CountsAlongChain(g: Graph, chain: seq<nat>, ops: seq<Op>, n: nat)
    requires Valid(g) && InRange(g, chain) && 0 < n <= |chain| && Allocs(g, chain[0]) == 1
    requires forall i | 0 <= i < |chain| :: Count(Allocating, chain[i], ops) == Allocs(g, chain[i])
    requires forall i | 0 <= i < |chain| :: Count(Freeing, chain[i], ops) == Frees(g, chain[i])
    ensures CountAll(Allocating, chain[..n], ops) - CountAll(Freeing, chain[..n], ops)
         == 1 + Imbalance(g, chain, n - 1) - Frees(g, chain[n - 1])
  {
    assert chain[..n][..n - 1] == chain[..n - 1];
    if 1 < n { CountsAlongChain(g, chain, ops, n - 1); }
  }

  /** Over the whole body, a queue's operations are those on behalf of the tensors of its chain. */
  lemma QueueCounts(kind: Kind, g: Graph, q: int, chain: seq<nat>)
    requires ChainOf(g, q, chain)
    ensures CountOn(kind, q, Trace(g, |g.calls|)) == CountAll(kind, chain, Trace(g, |g.calls|))
  {
    var ops := Trace(g, |g.calls|);
    TraceOwnQueues(g);
    forall i | 0 <= i < |ops| && IsKind(kind, ops[i]) ensures ops[i].q == q <==> ops[i].t in chain {
      assert OwnQueue(g, ops[i]);
    }
    CountByTensor(kind, q, chain, ops);
  }

  lemma ChainCounts(g: Graph, q: int, chain: seq<nat>, i: nat)
    requires ChainOf(g, q, chain) && i < |chain|
    ensures chain[i] < |g.tensors|
    ensures Count(Allocating, chain[i], Trace(g, |g.calls|)) == Allocs(g, chain[i])
    ensures Count(Freeing, chain[i], Trace(g, |g.calls|)) == Frees(g, chain[i])
  {
    ChainApart(g, q, chain, i);
    TraceCount(g, chain[i]);
  }

  /** Over the whole body, allocations minus frees of a queue add up over the links of its chain. */
  lemma AllocsMinusFrees(g: Graph, q: int, chain: seq<nat>)
    requires ChainOf(g, q, chain)
    ensures InRange(g, chain)
    ensures CountOn(Allocating, q, Trace(g, |g.calls|)) - CountOn(Freeing, q, Trace(g, |g.calls|))
         == Imbalance(g, chain, |chain| - 1)
  {
    var ops := Trace(g, |g.calls|);
    QueueCounts(Allocating, g, q, chain);
    QueueCounts(Freeing, g, q, chain);
    forall i | 0 <= i < |chain|
      ensures chain[i] < |g.tensors|
      ensures Count(Allocating, chain[i], ops) == Allocs(g, chain[i]) && Count(Freeing, chain[i], ops) == Frees(g, chain[i])
    {
      ChainCounts(g, q, chain, i);
    }
    ChainEnds(g, q, chain);
    CountsAlongChain(g, chain, ops, |chain|);
    assert chain[..|chain|] == chain;
  }

  predicate NoMismatch(g: Graph, chain: seq<nat>) {
    forall i, j | 0 <= i < |chain| && j == i + 1 < |chain| ::
      chain[i] < |g.tensors| && chain[j] < |g.tensors| && g.tensors[chain[j]].writer < |g.calls|
      && (ReuseLink(g, chain[i], chain[j]) ==> !Mismatch(g, chain[i], chain[j]))
  }

  /** Without mismatching links a queue is freed as often as it is allocated. */
  lemma ChainConserves(g: Graph, q: int, chain: seq<nat>)
    requires ChainOf(g, q, chain)
    requires NoMismatch(g, chain)
    ensures CountOn(Allocating, q, Trace(g, |g.calls|)) == CountOn(Freeing, q, Trace(g, |g.calls|))
  {
    AllocsMinusFrees(g, q, chain);
    NoImbalance(g, q, chain, |chain| - 1);
  }

  lemma {:induction false} NoImbalance(g: Graph, q: int, chain: seq<nat>, n: nat)
    requires ChainOf(g, q, chain) && InRange(g, chain) && n < |chain|
    requires NoMismatch(g, chain)
    ensures Imbalance(g, chain, n) == 0
  {
    if 0 < n {
      NoImbalance(g, q, chain, n - 1);
      var p, s := chain[n - 1], chain[n];
      assert Linked(g, chain, n - 1) && Linked(g, chain, n);
      if ReuseLink(g, p, s) { LinkBalanced(g, p, s); } else { ShareBalanced(g, p, s); }
    }
  }

  // ---------- the mismatching links occur ----------

  /** A result overwritten in place by another one, a load whose queue a later result takes over, an unread load. */
  datatype Shape = OverwrittenResult | TakenOverLoad | UnreadLoad

  function Alone(pos: Position, queued: bool, que: int, writer: nat, readers: seq<nat>): Tensor {
    Tensor(pos, queued, que, writer, readers, None, None, None, None)
  }

  /** A small graph in which tensor 0 hands queue `q` on to the last tensor. */
  function Example(shape: Shape, q: int): Graph {
    match shape
    case OverwrittenResult =>
      Graph([Call(Vector, [], [0]), Call(Vector, [0], [1])],
            [Alone(VecOut, true, q, 0, [1]).(reuseNext := Some(1)), Alone(VecOut, true, q, 1, []).(reuseFrom := Some(0))])
    case TakenOverLoad =>
      Graph([Call(Mte2, [], [0]), Call(Vector, [0], [1]), Call(Vector, [1], [2])],
            [Alone(VecIn, true, q, 0, [1]).(reuseNext := Some(2)), Alone(VecCalc, false, q + 1, 1, [2]),
             Alone(VecOut, true, q, 2, []).(reuseFrom := Some(0))])
    case UnreadLoad =>
      Graph([Call(Mte2, [], [0]), Call(Mte2, [], [1])],
            [Alone(VecIn, true, q, 0, []).(reuseNext := Some(1)), Alone(VecIn, true, q, 1, []).(reuseFrom := Some(0))])
  }

  lemma ExampleCalls(shape: Shape, q: int, k: nat)
    requires k < |Example(shape, q).calls|
    ensures CallValid(Example(shape, q), k)
  {
  }

  lemma ExampleTensors(shape: Shape, q: int, t: nat)
    requires t < |Example(shape, q).tensors|
    ensures TensorValid(Example(shape, q), t)
  {
    match shape
    case OverwrittenResult =>
    case TakenOverLoad =>
    case UnreadLoad =>
  }

  lemma ExampleValid(shape: Shape, q: int)
    ensures Valid(Example(shape, q))
  {
    var g := Example(shape, q);
    forall k | 0 <= k < |g.calls| ensures CallValid(g, k) {
      ExampleCalls(shape, q, k);
    }
    forall t | 0 <= t < |g.tensors| ensures TensorValid(g, t) {
      ExampleTensors(shape, q, t);
    }
  }

  lemma ExampleLink(shape: Shape, q: int)
    ensures var g := Example(shape, q);
            var s := |g.tensors| - 1;
            && Valid(g) && 0 < s && Supported(g, 0) && Supported(g, s) && ReuseLink(g, 0, s)
            && g.tensors[s].writer < |g.calls| && Mismatch(g, 0, s)
  {
    ExampleValid(shape, q);
  }

  lemma ExampleChain(shape: Shape, q: int)
    ensures ChainOf(Example(shape, q), q, [0, |Example(shape, q).tensors| - 1])
  {
    var g := Example(shape, q);
    var chain := [0, |g.tensors| - 1];
    ExampleLink(shape, q);
    assert Linked(g, chain, 0) && Linked(g, chain, 1);
  }

  /** Each mismatching shape occurs in a valid graph, and there the queue is not freed as often as it is allocated. */
  lemma MismatchesOccur(shape: Shape, q: int)
    ensures var g := Example(shape, q);
            var s := |g.tensors| - 1;
            && Valid(g) && 0 < s && Supported(g, 0) && Supported(g, s) && ReuseLink(g, 0, s)
            && g.tensors[s].writer < |g.calls| && Mismatch(g, 0, s)
            && CountOn(Allocating, q, Trace(g, |g.calls|)) != CountOn(Freeing, q, Trace(g, |g.calls|))
  {
    var g := Example(shape, q);
    var s := |g.tensors| - 1;
    ExampleLink(shape, q);
    ExampleChain(shape, q);
    AllocsMinusFrees(g, q, [0, s]);
    LinkBalanced(g, 0, s);
    assert Imbalance(g, [0, s], 1) == Imbalance(g, [0, s], 0) + Allocs(g, s) - Frees(g, 0);
  }
}
