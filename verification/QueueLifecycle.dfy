/**
 The life of one queue that is used by one group of tensors: allocate, write, enqueue,
 dequeue, read, free, each exactly once and in this order.
 */
module QueueLifecycle {
  import opened Options
  import opened QueueOps

  /** The tensors of queue `q`, from `head` to `last`; call `guard` dequeues and call `final` reads last. */
  datatype Use = Use(q: int, head: nat, last: nat, guard: nat, final: nat, out: bool)

  predicate Member(g: Graph, u: Use, t: nat) {
    t < |g.tensors| && g.tensors[t].que == u.q
  }

  /** One group without reuse, written before it is read, on units that take part in the protocol. */
  ghost predicate MemberOk(g: Graph, u: Use, t: nat)
    requires Valid(g) && Member(g, u, t) && Member(g, u, u.head) && Member(g, u, u.last)
  {
    var tensor := g.tensors[t];
    assert TensorValid(g, t);
    && tensor.queued && tensor.reuseFrom.None? && tensor.reuseNext.None?
    && (tensor.sharePrev.None? <==> t == u.head) && (tensor.shareNext.None? <==> t == u.last)
    && g.tensors[u.head].writer <= tensor.writer <= g.tensors[u.last].writer
    && tensor.readers != [] && (u.head == u.last ==> t == u.head)
    && (forall r | r in tensor.readers :: r <= u.final && (g.calls[r].unit == Vector || g.calls[r].unit == Mte2))
    && tensor.pos == (if u.out then VecOut else VecIn)
    && g.calls[tensor.writer].unit == (if u.out then Vector else Mte2)
  }

  /** Who dequeues: the first reader, the first reader on the MTE unit, or the one reader of a shared group. */
  ghost predicate GuardOk(g: Graph, u: Use)
    requires Valid(g) && Member(g, u, u.head) && u.guard < |g.calls|
  {
    var readers := g.tensors[u.head].readers;
    assert TensorValid(g, u.head);
    if u.out then
      u.guard in readers && g.calls[u.guard].unit == Mte2 && forall r | r in readers && g.calls[r].unit == Mte2 :: u.guard <= r
    else if u.head == u.last then
      readers != [] && u.guard == readers[0]
    else
      g.calls[u.guard].unit == Vector && forall t: nat, r | Member(g, u, t) && r in g.tensors[t].readers :: r == u.guard
  }

  /** A tensor loaded for a reader, a tensor computed for a store, or a group of loads for one vector call. */
  ghost predicate Regular(g: Graph, u: Use) {
    && Valid(g) && Member(g, u, u.head) && Member(g, u, u.last) && u.guard < |g.calls|
    && (u.out ==> u.head == u.last)
    && (forall t {:trigger MemberOk(g, u, t)} | Member(g, u, t) :: MemberOk(g, u, t))
    && GuardOk(g, u)
    && IsLastRead(u.final, g.tensors[u.last])
  }

  // ---------- the protocol ----------

  datatype Phase = Idle | Writing | Queued | Ready | Done | Broken

  /** Only a vector call may read a computed tensor that waits in the queue. */
  function Next(g: Graph, u: Use, p: Phase, op: Op): Phase {
    match op
    case Alloc(q, _) => if q != u.q then p else if p == Idle then Writing else Broken
    case Write(t) => if !Member(g, u, t) || p == Writing then p else Broken
    case EnQue(q, _) => if q != u.q then p else if p == Writing then Queued else Broken
    case DeQue(q, _) => if q != u.q then p else if p == Queued then Ready else Broken
    case Read(t, unit) =>
      if !Member(g, u, t) || p == Ready || (p == Queued && u.out && unit == Vector) then p else Broken
    case Free(q, _) => if q != u.q then p else if p == Ready then Done else Broken
  }

  function RunTo(g: Graph, u: Use, p: Phase, ops: seq<Op>, n: nat): Phase
    requires n <= |ops|
  {
    if n == 0 then p else Next(g, u, RunTo(g, u, p, ops, n - 1), ops[n - 1])
  }

  function RunPhases(g: Graph, u: Use, p: Phase, ops: seq<Op>): Phase {
    RunTo(g, u, p, ops, |ops|)
  }

  lemma {:induction false} RunToPrefix(g: Graph, u: Use, p: Phase, a: seq<Op>, b: seq<Op>, n: nat)
    requires n <= |a| && n <= |b| && forall i | 0 <= i < n :: a[i] == b[i]
    ensures RunTo(g, u, p, a, n) == RunTo(g, u, p, b, n)
  {
    if 0 < n { RunToPrefix(g, u, p, a, b, n - 1); }
  }

  lemma {:induction false} RunToConcat(g: Graph, u: Use, p: Phase, a: seq<Op>, b: seq<Op>, n: nat)
    requires n <= |b|
    ensures RunTo(g, u, p, a + b, |a| + n) == RunTo(g, u, RunPhases(g, u, p, a), b, n)
  {
    if n == 0 {
      RunToPrefix(g, u, p, a + b, a, |a|);
    } else {
      RunToConcat(g, u, p, a, b, n - 1);
    }
  }

  lemma RunPhasesConcat(g: Graph, u: Use, p: Phase, a: seq<Op>, b: seq<Op>)
    ensures RunPhases(g, u, p, a + b) == RunPhases(g, u, RunPhases(g, u, p, a), b)
  {
    RunToConcat(g, u, p, a, b, |b|);
  }

  lemma RunPhasesSnoc(g: Graph, u: Use, p: Phase, a: seq<Op>, op: Op)
    ensures RunPhases(g, u, p, a + [op]) == Next(g, u, RunPhases(g, u, p, a), op)
  {
    RunToPrefix(g, u, p, a + [op], a, |a|);
  }

  // ---------- who emits what for the queue ----------

  lemma {:induction false} UnitFirst(g: Graph, k: nat, readers: seq<nat>)
    requires k < |g.calls| && forall i | 0 <= i < |readers| :: readers[i] < |g.calls|
    requires forall i, j | 0 <= i < j < |readers| :: readers[i] <= readers[j]
    ensures IsUnitFirstRead(g, k, readers)
       <==> k in readers && forall r | r in readers && r < |g.calls| && g.calls[r].unit == g.calls[k].unit :: k <= r
  {
    if readers != [] && g.calls[readers[0]].unit != g.calls[k].unit {
      UnitFirst(g, k, readers[1..]);
      assert readers == [readers[0]] + readers[1..];
    }
  }

  /** A call dequeues exactly if it is the guard, and then for the head. */
  lemma WhoWaits(g: Graph, u: Use, k: nat, t: nat)
    requires Regular(g, u) && k < |g.calls| && Member(g, u, t)
    ensures Waits(g, k, t) <==> t == u.head && k == u.guard
  {
    assert MemberOk(g, u, t) && MemberOk(g, u, u.head);
    assert TensorValid(g, t);
    var readers := g.tensors[t].readers;
    assert readers[0] in readers;
    if u.out {
      UnitFirst(g, k, readers);
      assert !Shared(g.tensors[t]) && t == u.head;
    } else if u.head == u.last {
      assert !Shared(g.tensors[t]) && t == u.head;
    } else {
      assert readers[0] == u.guard;
      assert Shared(g.tensors[t]);
    }
  }

  lemma WhoAllocates(g: Graph, u: Use, k: nat, t: nat)
    requires Regular(g, u) && k < |g.calls| && Member(g, u, t) && g.tensors[t].writer == k
    ensures Allocates(g, k, t) <==> t == u.head
  {
    assert MemberOk(g, u, t);
    forall p | 0 <= p < |g.tensors| ensures g.tensors[p].reuseNext != Some(t) {
      assert LinkedBothWays(g, p, t);
    }
  }

  lemma WhoEnQues(g: Graph, u: Use, t: nat)
    requires Regular(g, u) && Member(g, u, t)
    ensures EnQues(g.tensors[t]) <==> t == u.last
  {
    assert MemberOk(g, u, t);
  }

  lemma WhoFrees(g: Graph, u: Use, k: nat, t: nat)
    requires Regular(g, u) && k < |g.calls| && Member(g, u, t)
    ensures FreesAt(g, k, t) <==> t == u.last && k == u.final
    ensures !FreedUnread(g.tensors[t])
  {
    assert MemberOk(g, u, t);
  }

  // ---------- the effect of each step ----------

  /** The last of `n` inputs adds a dequeue of our queue only if it is the head, for the first time, in the guard. */
  lemma WaitLast(g: Graph, u: Use, k: nat, n: nat)
    requires Regular(g, u) && k < |g.calls| && 0 < n <= |g.calls[k].inputs|
    ensures var t, before := g.calls[k].inputs[n - 1], WaitOps(g, k, n - 1);
            && t < |g.tensors|
            && (WaitOps(g, k, n) == before || WaitOps(g, k, n) == before + [DeQue(g.tensors[t].que, t)])
            && (g.tensors[t].que == u.q ==>
                  (WaitOps(g, k, n) != before <==> k == u.guard && t == u.head && t !in g.calls[k].inputs[..n - 1]))
  {
    var t := g.calls[k].inputs[n - 1];
    assert CallValid(g, k);
    if Member(g, u, t) { WhoWaits(g, u, k, t); }
  }

  lemma {:induction false} WaitPhase(g: Graph, u: Use, p: Phase, k: nat, n: nat)
    requires Regular(g, u) && k < |g.calls| && n <= |g.calls[k].inputs|
    ensures RunPhases(g, u, p, WaitOps(g, k, n))
         == if k == u.guard && u.head in g.calls[k].inputs[..n] then Next(g, u, p, DeQue(u.q, u.head)) else p
  {
    if 0 < n {
      var inputs := g.calls[k].inputs;
      var t := inputs[n - 1];
      WaitPhase(g, u, p, k, n - 1);
      WaitLast(g, u, k, n);
      assert inputs[..n] == inputs[..n - 1] + [t];
      RunPhasesSnoc(g, u, p, WaitOps(g, k, n - 1), DeQue(g.tensors[t].que, t));
    }
  }

  lemma {:induction false} AllocPhase(g: Graph, u: Use, p: Phase, k: nat, n: nat)
    requires Regular(g, u) && k < |g.calls| && n <= |g.calls[k].outputs|
    ensures RunPhases(g, u, p, AllocOps(g, k, n))
         == if u.head in g.calls[k].outputs[..n] then Next(g, u, p, Alloc(u.q, u.head)) else p
  {
    if 0 < n {
      var outputs := g.calls[k].outputs;
      var t := outputs[n - 1];
      assert CallValid(g, k);
      AllocPhase(g, u, p, k, n - 1);
      assert outputs[..n] == outputs[..n - 1] + [t];
      if Member(g, u, t) { WhoAllocates(g, u, k, t); }
      RunPhasesSnoc(g, u, p, AllocOps(g, k, n - 1), Alloc(g.tensors[t].que, t));
    }
  }

  lemma {:induction false} EnQuePhase(g: Graph, u: Use, p: Phase, k: nat, n: nat)
    requires Regular(g, u) && k < |g.calls| && n <= |g.calls[k].outputs|
    ensures RunPhases(g, u, p, EnQueOps(g, k, n))
         == if u.last in g.calls[k].outputs[..n] then Next(g, u, p, EnQue(u.q, u.last)) else p
  {
    if 0 < n {
      var outputs := g.calls[k].outputs;
      var t := outputs[n - 1];
      assert CallValid(g, k);
      EnQuePhase(g, u, p, k, n - 1);
      assert outputs[..n] == outputs[..n - 1] + [t];
      if Member(g, u, t) { WhoEnQues(g, u, t); }
      RunPhasesSnoc(g, u, p, EnQueOps(g, k, n - 1), EnQue(g.tensors[t].que, t));
    }
  }

  lemma FreedBySnoc(ops: seq<Op>, op: Op)
    ensures FreedBy(ops + [op]) == FreedBy(ops) + if op.Free? then {op.q} else {}
  {
    assert (ops + [op])[..|ops + [op]| - 1] == ops;
  }

  /** The last of `n` inputs adds a free of our queue only if it is the last tensor, in the final call, and the
      queue has not been freed yet. */
  lemma FreeLast(g: Graph, u: Use, k: nat, n: nat)
    requires Regular(g, u) && k < |g.calls| && 0 < n <= |g.calls[k].inputs|
    ensures var t, before := g.calls[k].inputs[n - 1], FreeOps(g, k, n - 1);
            && t < |g.tensors|
            && (FreeOps(g, k, n) == before || FreeOps(g, k, n) == before + [Free(g.tensors[t].que, t)])
            && (g.tensors[t].que == u.q ==>
                  (FreeOps(g, k, n) != before <==> k == u.final && t == u.last && u.q !in FreedBy(before)))
  {
    var t := g.calls[k].inputs[n - 1];
    assert CallValid(g, k);
    if Member(g, u, t) { WhoFrees(g, u, k, t); }
  }

  lemma {:induction false} FreePhase(g: Graph, u: Use, p: Phase, k: nat, n: nat)
    requires Regular(g, u) && k < |g.calls| && n <= |g.calls[k].inputs|
    ensures var freed := k == u.final && u.last in g.calls[k].inputs[..n];
            && RunPhases(g, u, p, FreeOps(g, k, n)) == (if freed then Next(g, u, p, Free(u.q, u.last)) else p)
            && (u.q in FreedBy(FreeOps(g, k, n)) <==> freed)
  {
    if 0 < n {
      var inputs := g.calls[k].inputs;
      var t := inputs[n - 1];
      FreePhase(g, u, p, k, n - 1);
      FreeLast(g, u, k, n);
      assert inputs[..n] == inputs[..n - 1] + [t];
      var before, op := FreeOps(g, k, n - 1), Free(g.tensors[t].que, t);
      RunPhasesSnoc(g, u, p, before, op);
      FreedBySnoc(before, op);
    }
  }

  lemma {:induction false} FreeUnusedPhase(g: Graph, u: Use, p: Phase, k: nat, n: nat)
    requires Regular(g, u) && k < |g.calls| && n <= |g.calls[k].outputs|
    ensures RunPhases(g, u, p, FreeUnusedOps(g, k, n)) == p
  {
    if 0 < n {
      var t := g.calls[k].outputs[n - 1];
      assert CallValid(g, k);
      FreeUnusedPhase(g, u, p, k, n - 1);
      if Member(g, u, t) { WhoFrees(g, u, k, t); }
      RunPhasesSnoc(g, u, p, FreeUnusedOps(g, k, n - 1), Free(g.tensors[t].que, t));
    }
  }

  lemma {:induction false} ReadPhase(g: Graph, u: Use, p: Phase, k: nat, n: nat)
    requires k < |g.calls| && n <= |g.calls[k].inputs|
    requires forall i | 0 <= i < |g.calls[k].inputs| && Member(g, u, g.calls[k].inputs[i]) ::
               p == Ready || (p == Queued && u.out && g.calls[k].unit == Vector)
    ensures RunPhases(g, u, p, ReadOps(g, k, n)) == p
  {
    if 0 < n {
      ReadPhase(g, u, p, k, n - 1);
      RunPhasesSnoc(g, u, p, ReadOps(g, k, n - 1), Read(g.calls[k].inputs[n - 1], g.calls[k].unit));
    }
  }

  lemma {:induction false} WritePhase(g: Graph, u: Use, p: Phase, k: nat, n: nat)
    requires k < |g.calls| && n <= |g.calls[k].outputs|
    requires forall i | 0 <= i < |g.calls[k].outputs| && Member(g, u, g.calls[k].outputs[i]) :: p == Writing
    ensures RunPhases(g, u, p, WriteOps(g, k, n)) == p
  {
    if 0 < n {
      WritePhase(g, u, p, k, n - 1);
      RunPhasesSnoc(g, u, p, WriteOps(g, k, n - 1), Write(g.calls[k].outputs[n - 1]));
    }
  }

  // ---------- the whole run ----------

  /** Where the queue stands before call `k`. */
  function PhaseAt(g: Graph, u: Use, k: nat): Phase
    requires Member(g, u, u.head) && Member(g, u, u.last)
  {
    if k <= g.tensors[u.head].writer then Idle
    else if k <= g.tensors[u.last].writer then Writing
    else if k <= u.guard then Queued
    else if k <= u.final then Ready
    else Done
  }

  /** First and last write, guard and final read come in this order, on working units. */
  lemma UseOrdered(g: Graph, u: Use)
    requires Regular(g, u)
    ensures g.tensors[u.head].writer <= g.tensors[u.last].writer < u.guard <= u.final < |g.calls|
    ensures u.head in g.calls[g.tensors[u.head].writer].outputs && u.last in g.calls[g.tensors[u.last].writer].outputs
    ensures u.head in g.calls[u.guard].inputs && u.last in g.calls[u.final].inputs
    ensures forall k | k == g.tensors[u.head].writer || k == g.tensors[u.last].writer || k == u.guard || k == u.final ::
              g.calls[k].unit != NoUnit
  {
    assert MemberOk(g, u, u.head) && MemberOk(g, u, u.last);
    assert TensorValid(g, u.head) && TensorValid(g, u.last);
    var first, last := g.tensors[u.head].readers[0], g.tensors[u.last].readers[0];
    assert first in g.tensors[u.head].readers && last in g.tensors[u.last].readers;
    assert u.final in g.tensors[u.last].readers;
  }

  /** A call that reads a member runs when the queue allows it. */
  lemma ReaderPhase(g: Graph, u: Use, k: nat, t: nat)
    requires Regular(g, u) && k < |g.calls| && Member(g, u, t) && t in g.calls[k].inputs
    ensures g.tensors[u.last].writer < k <= u.final
    ensures u.guard <= k || (u.out && g.calls[k].unit == Vector)
  {
    assert MemberOk(g, u, t) && TensorValid(g, t);
    UseOrdered(g, u);
    var readers := g.tensors[t].readers;
    assert k in readers;
    if !u.out && u.head == u.last {
      var i :| 0 <= i < |readers| && readers[i] == k;
      assert readers[0] <= readers[i];
    }
  }

  lemma WriterPhase(g: Graph, u: Use, k: nat, t: nat)
    requires Regular(g, u) && k < |g.calls| && Member(g, u, t) && t in g.calls[k].outputs
    ensures g.tensors[u.head].writer <= k <= g.tensors[u.last].writer
  {
    assert MemberOk(g, u, t);
    assert CallValid(g, k);
  }

  lemma OutputOf(g: Graph, k: nat, t: nat)
    requires Valid(g) && k < |g.calls| && t < |g.tensors|
    ensures t in g.calls[k].outputs <==> g.tensors[t].writer == k
  {
    assert CallValid(g, k) && TensorValid(g, t);
  }

  lemma CallPhase(g: Graph, u: Use, k: nat)
    requires Regular(g, u) && k < |g.calls|
    ensures RunPhases(g, u, PhaseAt(g, u, k), CallOps(g, k)) == PhaseAt(g, u, k + 1)
  {
    UseOrdered(g, u);
    if g.calls[k].unit != NoUnit {
      CallSteps(g, u, k);
    }
  }

  /** The phases a call goes through: waiting, allocating, enqueuing and freeing each happen in one call only. */
  lemma CallSteps(g: Graph, u: Use, k: nat)
    requires Regular(g, u) && k < |g.calls| && g.calls[k].unit != NoUnit
    ensures RunPhases(g, u, PhaseAt(g, u, k), CallOps(g, k)) == PhaseAt(g, u, k + 1)
  {
    var i, o := |g.calls[k].inputs|, |g.calls[k].outputs|;
    var p0, p1, p2, p3 := PhaseAt(g, u, k), AfterWait(g, u, k), AfterAlloc(g, u, k), AfterEnQue(g, u, k);
    WaitStep(g, u, k);
    AllocStep(g, u, k);
    AccessStep(g, u, k);
    EnQueStep(g, u, k);
    FreeStep(g, u, k);
    FreeUnusedPhase(g, u, PhaseAt(g, u, k + 1), k, o);
    JoinSeven(WaitOps(g, k, i), AllocOps(g, k, o), ReadOps(g, k, i), WriteOps(g, k, o), EnQueOps(g, k, o),
              FreeOps(g, k, i), FreeUnusedOps(g, k, o));
    Compose(g, u, p0, WaitOps(g, k, i), AllocOps(g, k, o), ReadOps(g, k, i), WriteOps(g, k, o), EnQueOps(g, k, o),
            FreeOps(g, k, i), FreeUnusedOps(g, k, o));
  }

  ghost function AfterWait(g: Graph, u: Use, k: nat): Phase
    requires Regular(g, u)
  {
    if k == u.guard then Ready else PhaseAt(g, u, k)
  }

  ghost function AfterAlloc(g: Graph, u: Use, k: nat): Phase
    requires Regular(g, u)
  {
    if k == g.tensors[u.head].writer then Writing else AfterWait(g, u, k)
  }

  ghost function AfterEnQue(g: Graph, u: Use, k: nat): Phase
    requires Regular(g, u)
  {
    if k == g.tensors[u.last].writer then Queued else AfterAlloc(g, u, k)
  }

  lemma WaitStep(g: Graph, u: Use, k: nat)
    requires Regular(g, u) && k < |g.calls|
    ensures RunPhases(g, u, PhaseAt(g, u, k), WaitOps(g, k, |g.calls[k].inputs|)) == AfterWait(g, u, k)
  {
    UseOrdered(g, u);
    WaitPhase(g, u, PhaseAt(g, u, k), k, |g.calls[k].inputs|);
    assert g.calls[k].inputs[..|g.calls[k].inputs|] == g.calls[k].inputs;
  }

  lemma AllocStep(g: Graph, u: Use, k: nat)
    requires Regular(g, u) && k < |g.calls|
    ensures RunPhases(g, u, AfterWait(g, u, k), AllocOps(g, k, |g.calls[k].outputs|)) == AfterAlloc(g, u, k)
  {
    UseOrdered(g, u);
    OutputOf(g, k, u.head);
    AllocPhase(g, u, AfterWait(g, u, k), k, |g.calls[k].outputs|);
    assert g.calls[k].outputs[..|g.calls[k].outputs|] == g.calls[k].outputs;
  }

  lemma AccessStep(g: Graph, u: Use, k: nat)
    requires Regular(g, u) && k < |g.calls|
    ensures RunPhases(g, u, AfterAlloc(g, u, k), ReadOps(g, k, |g.calls[k].inputs|)) == AfterAlloc(g, u, k)
    ensures RunPhases(g, u, AfterAlloc(g, u, k), WriteOps(g, k, |g.calls[k].outputs|)) == AfterAlloc(g, u, k)
  {
    UseOrdered(g, u);
    forall i | 0 <= i < |g.calls[k].inputs| && Member(g, u, g.calls[k].inputs[i])
      ensures AfterAlloc(g, u, k) == Ready || (AfterAlloc(g, u, k) == Queued && u.out && g.calls[k].unit == Vector)
    {
      ReaderPhase(g, u, k, g.calls[k].inputs[i]);
    }
    ReadPhase(g, u, AfterAlloc(g, u, k), k, |g.calls[k].inputs|);
    forall i | 0 <= i < |g.calls[k].outputs| && Member(g, u, g.calls[k].outputs[i])
      ensures AfterAlloc(g, u, k) == Writing
    {
      WriterPhase(g, u, k, g.calls[k].outputs[i]);
    }
    WritePhase(g, u, AfterAlloc(g, u, k), k, |g.calls[k].outputs|);
  }

  lemma EnQueStep(g: Graph, u: Use, k: nat)
    requires Regular(g, u) && k < |g.calls|
    ensures RunPhases(g, u, AfterAlloc(g, u, k), EnQueOps(g, k, |g.calls[k].outputs|)) == AfterEnQue(g, u, k)
  {
    UseOrdered(g, u);
    OutputOf(g, k, u.last);
    EnQuePhase(g, u, AfterAlloc(g, u, k), k, |g.calls[k].outputs|);
    assert g.calls[k].outputs[..|g.calls[k].outputs|] == g.calls[k].outputs;
  }

  lemma FreeStep(g: Graph, u: Use, k: nat)
    requires Regular(g, u) && k < |g.calls|
    ensures RunPhases(g, u, AfterEnQue(g, u, k), FreeOps(g, k, |g.calls[k].inputs|)) == PhaseAt(g, u, k + 1)
  {
    UseOrdered(g, u);
    FreePhase(g, u, AfterEnQue(g, u, k), k, |g.calls[k].inputs|);
    assert g.calls[k].inputs[..|g.calls[k].inputs|] == g.calls[k].inputs;
  }

  lemma {:induction false} Compose(g: Graph, u: Use, p: Phase, a: seq<Op>, b: seq<Op>, c: seq<Op>, d: seq<Op>,
                                   e: seq<Op>, f: seq<Op>, h: seq<Op>)
    ensures RunPhases(g, u, p, a + b + c + d + e + f + h)
         == RunPhases(g, u, RunPhases(g, u, RunPhases(g, u, RunPhases(g, u, RunPhases(g, u,
              RunPhases(g, u, RunPhases(g, u, p, a), b), c), d), e), f), h)
  {
    RunPhasesConcat(g, u, p, a, b);
    RunPhasesConcat(g, u, p, a + b, c);
    RunPhasesConcat(g, u, p, a + b + c, d);
    RunPhasesConcat(g, u, p, a + b + c + d, e);
    RunPhasesConcat(g, u, p, a + b + c + d + e, f);
    RunPhasesConcat(g, u, p, a + b + c + d + e + f, h);
  }

  /** If each part leads from one phase to the next, all of them together lead from the first to the last. */
  lemma {:induction false} JoinPhases(g: Graph, u: Use, parts: seq<seq<Op>>, phases: seq<Phase>)
    requires |phases| == |parts| + 1
    requires forall k | 0 <= k < |parts| :: RunPhases(g, u, phases[k], parts[k]) == phases[k + 1]
    ensures RunPhases(g, u, phases[0], Join(parts)) == phases[|parts|]
  {
    if parts != [] {
      var init := parts[..|parts| - 1];
      JoinPhases(g, u, init, phases[..|parts|]);
      RunPhasesConcat(g, u, phases[0], Join(init), parts[|parts| - 1]);
    }
  }

  function Phases(g: Graph, u: Use, n: nat): (phases: seq<Phase>)
    requires Member(g, u, u.head) && Member(g, u, u.last)
    ensures |phases| == n + 1 && forall k | 0 <= k <= n :: phases[k] == PhaseAt(g, u, k)
  {
    if n == 0 then [PhaseAt(g, u, 0)] else Phases(g, u, n - 1) + [PhaseAt(g, u, n)]
  }

  /** Over the whole body the queue runs through its life exactly once. */
  lemma QueueLivesOnce(g: Graph, u: Use)
    requires Regular(g, u)
    ensures RunPhases(g, u, Idle, Trace(g, |g.calls|)) == Done
  {
    var n := |g.calls|;
    var parts, phases := CallTraces(g, n), Phases(g, u, n);
    forall k | 0 <= k < n ensures RunPhases(g, u, phases[k], parts[k]) == phases[k + 1] {
      CallPhase(g, u, k);
    }
    JoinPhases(g, u, parts, phases);
    UseOrdered(g, u);
  }

  // ---------- what a finished protocol means ----------

  /** The operations on queue `q`, without accesses. */
  function QueueOpsOf(q: int, ops: seq<Op>): seq<Op> {
    if ops == [] then []
    else
      var last := ops[|ops| - 1];
      QueueOpsOf(q, ops[..|ops| - 1]) + if OnQueue(q, last) then [last] else []
  }

  predicate OnQueue(q: int, op: Op) {
    (op.Alloc? || op.EnQue? || op.DeQue? || op.Free?) && op.q == q
  }

  /** The operations that have led to a phase. */
  predicate History(u: Use, p: Phase, ops: seq<Op>) {
    match p
    case Idle => ops == []
    case Writing => |ops| == 1 && ops[0].Alloc?
    case Queued => |ops| == 2 && ops[0].Alloc? && ops[1].EnQue?
    case Ready => |ops| == 3 && ops[0].Alloc? && ops[1].EnQue? && ops[2].DeQue?
    case Done => |ops| == 4 && ops[0].Alloc? && ops[1].EnQue? && ops[2].DeQue? && ops[3].Free?
    case Broken => true
  }

  lemma {:induction false} PhaseHistory(g: Graph, u: Use, ops: seq<Op>)
    ensures History(u, RunPhases(g, u, Idle, ops), QueueOpsOf(u.q, ops))
  {
    if ops != [] {
      var init := ops[..|ops| - 1];
      PhaseHistory(g, u, init);
      RunPhasesSnoc(g, u, Idle, init, ops[|ops| - 1]);
      assert ops == init + [ops[|ops| - 1]];
    }
  }

  lemma {:induction false} BrokenForever(g: Graph, u: Use, ops: seq<Op>, n: nat)
    requires n <= |ops|
    ensures RunTo(g, u, Broken, ops, n) == Broken
  {
    if 0 < n { BrokenForever(g, u, ops, n - 1); }
  }

  /** Whatever a finished run does, it writes and reads only where the protocol allows it. */
  lemma AccessesInPhase(g: Graph, u: Use, ops: seq<Op>, i: nat)
    requires RunPhases(g, u, Idle, ops) == Done && i < |ops|
    ensures var before := RunPhases(g, u, Idle, ops[..i]);
            && (ops[i].Write? && Member(g, u, ops[i].t) ==> before == Writing)
            && (ops[i].Read? && Member(g, u, ops[i].t) ==>
                  before == Ready || (before == Queued && u.out && ops[i].unit == Vector))
  {
    var rest := ops[i + 1..];
    assert ops == ops[..i] + [ops[i]] + rest;
    RunPhasesSnoc(g, u, Idle, ops[..i], ops[i]);
    RunPhasesConcat(g, u, Idle, ops[..i] + [ops[i]], rest);
    BrokenForever(g, u, rest, |rest|);
  }

  /** One Alloc, one EnQue, one DeQue and one Free; every write lies between the first two,
      and every read between DeQue and Free, or after EnQue for a vector call on a computed tensor. */
  lemma LifecycleInOrder(g: Graph, u: Use, i: nat)
    requires Regular(g, u) && i < |Trace(g, |g.calls|)|
    ensures var ops := Trace(g, |g.calls|);
            var before := RunPhases(g, u, Idle, ops[..i]);
            && |QueueOpsOf(u.q, ops)| == 4 && History(u, Done, QueueOpsOf(u.q, ops))
            && History(u, before, QueueOpsOf(u.q, ops[..i]))
            && (ops[i].Write? && Member(g, u, ops[i].t) ==> before == Writing)
            && (ops[i].Read? && Member(g, u, ops[i].t) ==>
                  before == Ready || (before == Queued && u.out && ops[i].unit == Vector))
  {
    var ops := Trace(g, |g.calls|);
    QueueLivesOnce(g, u);
    PhaseHistory(g, u, ops);
    PhaseHistory(g, u, ops[..i]);
    AccessesInPhase(g, u, ops, i);
  }
}
