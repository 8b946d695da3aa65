/**
 Which tensors share a slot of a queue, which queue they get, and in which order their slot is filled.
 Loads share if they feed one and the same call; a call may ask for contiguous inputs, which numbers them.
 Together this gives every share group either no orders at all or all orders, once each.
 */
module ShareGroups {
  import opened ShareOffsets

  /** Output of a node; `readers` lists the reading node once per edge. Nodes are named by their position. */
  datatype Tensor = Tensor(vecIn: bool, reusable: bool, canReuseOthers: bool, level: nat, bytes: nat,
                           writer: nat, readers: seq<nat>)

  datatype Call = Call(prefersContiguous: bool, inputs: seq<nat>)

  datatype Graph = Graph(calls: seq<Call>, tensors: seq<Tensor>)

  /** Tensors are listed in the order of their writers and read later; a node that writes to VecIn has one output. */
  ghost predicate Valid(g: Graph) {
    && (forall k, i | 0 <= k < |g.calls| && 0 <= i < |g.calls[k].inputs| :: InputValid(g, k, i))
    && (forall t | 0 <= t < |g.tensors| :: TensorValid(g, t))
    && (forall t, u | 0 <= t < u < |g.tensors| :: InOrder(g, t, u))
  }

  ghost predicate InputValid(g: Graph, k: nat, i: nat)
    requires k < |g.calls| && i < |g.calls[k].inputs|
  {
    g.calls[k].inputs[i] < |g.tensors| && k in g.tensors[g.calls[k].inputs[i]].readers
  }

  ghost predicate TensorValid(g: Graph, t: nat)
    requires t < |g.tensors|
  {
    forall r | r in g.tensors[t].readers :: g.tensors[t].writer < r < |g.calls| && t in g.calls[r].inputs
  }

  predicate InOrder(g: Graph, t: nat, u: nat)
    requires t < |g.tensors| && u < |g.tensors|
  {
    && g.tensors[t].writer <= g.tensors[u].writer
    && (g.tensors[t].vecIn || g.tensors[u].vecIn ==> g.tensors[t].writer < g.tensors[u].writer)
  }

  // ---------- reuse ids ----------

  /** A tensor may share if exactly one edge leads out of its node. */
  predicate Shareable(t: Tensor) {
    t.vecIn && |t.readers| == 1 && t.reusable
  }

  predicate Sharing(t: Tensor, u: Tensor) {
    Shareable(t) && Shareable(u) && t.readers[0] == u.readers[0]
  }

  /** Numbers the tensors; equal numbers mean that a slot is shared. */
  method AllocateReuseId(tensors: seq<Tensor>) returns (ids: seq<nat>)
    ensures |ids| == |tensors|
    ensures forall i, j | 0 <= i < j < |ids| :: ids[i] == ids[j] <==> Sharing(tensors[i], tensors[j])
  {
    ids := [];
    var reuseId := 0;
    var outIdToReuseId: map<nat, nat> := map[];
    while |ids| < |tensors|
      invariant |ids| <= |tensors|
      invariant forall i | 0 <= i < |ids| :: ids[i] < reuseId
      invariant forall c | c in outIdToReuseId :: outIdToReuseId[c] < reuseId
      invariant forall i | 0 <= i < |ids| && Shareable(tensors[i]) ::
                  tensors[i].readers[0] in outIdToReuseId && outIdToReuseId[tensors[i].readers[0]] == ids[i]
      invariant forall i, c | 0 <= i < |ids| && c in outIdToReuseId && ids[i] == outIdToReuseId[c] ::
                  Shareable(tensors[i]) && tensors[i].readers[0] == c
      invariant forall c, d | c in outIdToReuseId && d in outIdToReuseId && outIdToReuseId[c] == outIdToReuseId[d] :: c == d
      invariant forall i, j | 0 <= i < j < |ids| :: ids[i] == ids[j] <==> Sharing(tensors[i], tensors[j])
    {
      var t := tensors[|ids|];
      if !Shareable(t) {
        ids, reuseId := ids + [reuseId], reuseId + 1;
      } else if t.readers[0] in outIdToReuseId {
        ids := ids + [outIdToReuseId[t.readers[0]]];
      } else {
        outIdToReuseId := outIdToReuseId[t.readers[0] := reuseId];
        ids, reuseId := ids + [reuseId], reuseId + 1;
      }
    }
  }

  // ---------- queues ----------

  /** Tensors with one reuse id; no end means that the memory is never given back. */
  datatype TensorGroup = TensorGroup(id: nat, start: nat, end: End, reusable: bool, canReuseOthers: bool, level: nat)

  datatype End = At(node: nat) | Never

  function LastReader(t: Tensor, n: nat): (m: nat)
    requires n <= |t.readers|
    ensures t.writer <= m && forall i | 0 <= i < n :: t.readers[i] <= m
  {
    if n == 0 then t.writer
    else
      var m := LastReader(t, n - 1);
      if t.readers[n - 1] > m then t.readers[n - 1] else m
  }

  function EndOf(t: Tensor): End {
    if t.reusable then At(LastReader(t, |t.readers|)) else Never
  }

  function Later(a: End, b: End): End {
    if a.Never? || b.Never? then Never else if a.node < b.node then b else a
  }

  predicate IsLifetimeOverlap(a: TensorGroup, b: TensorGroup) {
    a.end.Never? || b.end.Never? || !(a.end.node < b.start || b.end.node < a.start)
  }

  /** The group is alive from the write of the tensor to its last read. */
  predicate Covers(group: TensorGroup, t: Tensor) {
    group.start <= t.writer && (group.end.At? ==> forall i | 0 <= i < |t.readers| :: t.readers[i] <= group.end.node)
  }

  /** Each tensor on VecIn has a group with its reuse id that covers it; no two groups have the same id. */
  ghost predicate Grouped(tensors: seq<Tensor>, ids: seq<nat>, n: nat, groups: seq<TensorGroup>, table: map<nat, nat>)
    requires n <= |tensors| == |ids|
  {
    && (forall id | id in table :: table[id] < |groups| && groups[table[id]].id == id)
    && (forall a | 0 <= a < |groups| :: groups[a].id in table && table[groups[a].id] == a)
    && (forall t | 0 <= t < n && tensors[t].vecIn :: ids[t] in table && Covers(groups[table[ids[t]]], tensors[t]))
  }

  function Merged(group: TensorGroup, t: Tensor): TensorGroup {
    var flags := t.reusable == group.reusable && t.canReuseOthers == group.canReuseOthers;
    TensorGroup(group.id, if t.writer < group.start then t.writer else group.start, Later(group.end, EndOf(t)),
                flags && group.reusable, flags && group.canReuseOthers,
                if t.level > group.level then t.level else group.level)
  }

  lemma MergedCovers(group: TensorGroup, t: Tensor, u: Tensor)
    ensures Covers(Merged(group, t), t)
    ensures Covers(group, u) ==> Covers(Merged(group, t), u)
  {
  }

  lemma MergeStep(tensors: seq<Tensor>, ids: seq<nat>, n: nat, groups: seq<TensorGroup>, table: map<nat, nat>)
    requires n < |tensors| == |ids| && Grouped(tensors, ids, n, groups, table) && ids[n] in table
    ensures var a := table[ids[n]];
            Grouped(tensors, ids, n + 1, groups[a := Merged(groups[a], tensors[n])], table)
  {
    var a := table[ids[n]];
    forall u | 0 <= u <= n && tensors[u].vecIn && ids[u] == ids[n]
      ensures Covers(Merged(groups[a], tensors[n]), tensors[u])
    {
      MergedCovers(groups[a], tensors[n], tensors[u]);
    }
  }

  lemma NewGroupStep(tensors: seq<Tensor>, ids: seq<nat>, n: nat, groups: seq<TensorGroup>, table: map<nat, nat>,
                     group: TensorGroup)
    requires n < |tensors| == |ids| && Grouped(tensors, ids, n, groups, table) && ids[n] !in table
    requires group.id == ids[n] && Covers(group, tensors[n])
    ensures Grouped(tensors, ids, n + 1, groups + [group], table[ids[n] := |groups|])
  {
    var groups', table' := groups + [group], table[ids[n] := |groups|];
    forall t | 0 <= t <= n && tensors[t].vecIn ensures ids[t] in table' && Covers(groups'[table'[ids[t]]], tensors[t]) {
      if t < n { assert ids[t] in table; }
    }
  }

  /** The groups of the tensors on VecIn, in the order of their starts. */
  method MergeTensorByGroupId(tensors: seq<Tensor>, ids: seq<nat>) returns (groups: seq<TensorGroup>, table: map<nat, nat>)
    requires |ids| == |tensors| && forall t, u | 0 <= t < u < |tensors| :: tensors[t].writer <= tensors[u].writer
    ensures Grouped(tensors, ids, |tensors|, groups, table)
    ensures forall a, b | 0 <= a < b < |groups| :: groups[a].start <= groups[b].start
  {
    groups, table := [], map[];
    var n := 0;
    while n < |tensors|
      invariant 0 <= n <= |tensors| && Grouped(tensors, ids, n, groups, table)
      invariant forall a, b | 0 <= a < b < |groups| :: groups[a].start <= groups[b].start
      invariant forall a, t | 0 <= a < |groups| && n <= t < |tensors| :: groups[a].start <= tensors[t].writer
    {
      var t := tensors[n];
      if t.vecIn {
        if ids[n] in table {
          var a := table[ids[n]];
          MergeStep(tensors, ids, n, groups, table);
          groups := groups[a := Merged(groups[a], t)];
        } else {
          var group := TensorGroup(ids[n], t.writer, EndOf(t), t.reusable, t.canReuseOthers, t.level);
          NewGroupStep(tensors, ids, n, groups, table, group);
          table := table[ids[n] := |groups|];
          groups := groups + [group];
        }
      }
      n := n + 1;
    }
  }

  /** The groups of a queue, by their index, and its size level. */
  datatype Block = Block(level: nat, members: seq<nat>)

  const DB_REUSE_THRESHOLD := 2

  predicate Fits(groups: seq<TensorGroup>, block: Block, k: nat)
    requires k < |groups|
  {
    forall a | a in block.members :: a < |groups| && groups[a].reusable && !IsLifetimeOverlap(groups[k], groups[a])
  }

  function Distance(a: nat, b: nat): nat {
    if a < b then b - a else a - b
  }

  /** The fitting block of the closest level; the one used last only if there is no other, and enough blocks. */
  method SelectBestMemoryBlock(groups: seq<TensorGroup>, k: nat, last: int, blocks: seq<Block>) returns (best: int)
    requires k < |groups|
    ensures best == -1 || (0 <= best < |blocks| && Fits(groups, blocks[best], k))
    ensures best != -1 && best != last ==> forall b | 0 <= b < |blocks| && b != last && Fits(groups, blocks[b], k) ::
              Distance(blocks[best].level, groups[k].level) <= Distance(blocks[b].level, groups[k].level)
    ensures best == -1 || best == last ==> forall b | 0 <= b < |blocks| && b != last :: !Fits(groups, blocks[b], k)
    ensures best == last && best != -1 ==> |blocks| > DB_REUSE_THRESHOLD
    ensures best == -1 && 0 <= last < |blocks| && |blocks| > DB_REUSE_THRESHOLD ==> !Fits(groups, blocks[last], k)
  {
    best := -1;
    var onlyLast := false;
    var b := 0;
    while b < |blocks|
      invariant 0 <= b <= |blocks|
      invariant best == -1 || (0 <= best < b && best != last && Fits(groups, blocks[best], k))
      invariant forall c | 0 <= c < b && c != last && Fits(groups, blocks[c], k) ::
                  best != -1 && Distance(blocks[best].level, groups[k].level) <= Distance(blocks[c].level, groups[k].level)
      invariant onlyLast <==> 0 <= last < b && Fits(groups, blocks[last], k)
    {
      if Fits(groups, blocks[b], k) {
        if b == last {
          onlyLast := true;
        } else if best == -1
               || Distance(blocks[b].level, groups[k].level) < Distance(blocks[best].level, groups[k].level) {
          best := b;
        }
      }
      b := b + 1;
    }
    if best == -1 && onlyLast && |blocks| > DB_REUSE_THRESHOLD {
      best := last;
    }
  }

  /** Block `b` holds exactly the groups that got queue `b`. */
  ghost predicate BlockOf(blocks: seq<Block>, ques: seq<nat>, b: nat)
    requires b < |blocks|
  {
    forall a: nat :: a in blocks[b].members <==> a < |ques| && ques[a] == b
  }

  /** Gives every group a queue; groups of one queue are never alive together. */
  method AllocForTQue(groups: seq<TensorGroup>) returns (ques: seq<nat>)
    ensures |ques| == |groups|
    ensures forall a, b | 0 <= a < b < |groups| && ques[a] == ques[b] :: !IsLifetimeOverlap(groups[a], groups[b])
  {
    ques := [];
    var blocks: seq<Block> := [];
    var last := -1;
    while |ques| < |groups|
      invariant |ques| <= |groups|
      invariant forall a | 0 <= a < |ques| :: ques[a] < |blocks|
      invariant forall b | 0 <= b < |blocks| :: BlockOf(blocks, ques, b)
      invariant forall a, b | 0 <= a < b < |ques| && ques[a] == ques[b] :: !IsLifetimeOverlap(groups[a], groups[b])
    {
      var k := |ques|;
      var best := -1;
      if groups[k].canReuseOthers {
        best := SelectBestMemoryBlock(groups, k, last, blocks);
        last := if best != -1 then best else |blocks|;
      }
      ghost var before := blocks;
      if best == -1 {
        best := |blocks|;
        blocks := blocks + [Block(groups[k].level, [k])];
      } else {
        var block := blocks[best];
        assert BlockOf(blocks, ques, best);
        blocks := blocks[best := Block(if groups[k].level > block.level then groups[k].level else block.level,
                                       block.members + [k])];
      }
      BlocksStep(before, blocks, ques, best);
      ques := ques + [best];
    }
  }

  /** The next group joins block `best`, which may be a new one. */
  lemma BlocksStep(before: seq<Block>, blocks: seq<Block>, ques: seq<nat>, best: nat)
    requires forall b | 0 <= b < |before| :: BlockOf(before, ques, b)
    requires forall a | 0 <= a < |ques| :: ques[a] < |before|
    requires best < |blocks| && |before| <= |blocks| && (best < |before| || best == |before| == |blocks| - 1)
    requires |before| == |blocks| || best == |before|
    requires forall b | 0 <= b < |before| && b != best :: blocks[b] == before[b]
    requires blocks[best].members == (if best < |before| then before[best].members else []) + [|ques|]
    ensures forall b | 0 <= b < |blocks| :: BlockOf(blocks, ques + [best], b)
  {
    forall b | 0 <= b < |blocks| ensures BlockOf(blocks, ques + [best], b) {
      if b < |before| { assert BlockOf(before, ques, b); }
    }
  }

  /** What the allocation guarantees about the tensors on VecIn. */
  ghost predicate Allocated(g: Graph, ids: seq<nat>, ques: seq<nat>) {
    && |ids| == |ques| == |g.tensors|
    && (forall t, u | 0 <= t < u < |ids| :: ids[t] == ids[u] <==> Sharing(g.tensors[t], g.tensors[u]))
    && (forall t, u | 0 <= t < u < |ids| :: KeptApart(g, ids, ques, t, u))
  }

  /** Tensors that share are in one queue; others in that queue are never read by one call. */
  predicate KeptApart(g: Graph, ids: seq<nat>, ques: seq<nat>, t: nat, u: nat)
    requires t < |g.tensors| == |ids| == |ques| && u < |g.tensors|
  {
    g.tensors[t].vecIn && g.tensors[u].vecIn ==>
      && (ids[t] == ids[u] ==> ques[t] == ques[u])
      && (ques[t] == ques[u] && ids[t] != ids[u] ==> !ReadTogether(g, t, u))
  }

  predicate ReadTogether(g: Graph, t: nat, u: nat)
    requires t < |g.tensors| && u < |g.tensors|
  {
    exists k :: 0 <= k < |g.calls| && t in g.calls[k].inputs && u in g.calls[k].inputs
  }

  /** Groups with a common reader are alive together. */
  lemma ReadersOverlap(g: Graph, t: nat, u: nat, a: TensorGroup, b: TensorGroup)
    requires Valid(g) && t < |g.tensors| && u < |g.tensors| && ReadTogether(g, t, u)
    requires Covers(a, g.tensors[t]) && Covers(b, g.tensors[u])
    ensures IsLifetimeOverlap(a, b)
  {
    var k :| 0 <= k < |g.calls| && t in g.calls[k].inputs && u in g.calls[k].inputs;
    var i :| 0 <= i < |g.calls[k].inputs| && g.calls[k].inputs[i] == t;
    var j :| 0 <= j < |g.calls[k].inputs| && g.calls[k].inputs[j] == u;
    assert InputValid(g, k, i) && InputValid(g, k, j);
    assert TensorValid(g, t) && TensorValid(g, u);
  }

  /** Reuse ids and queues of all tensors; a tensor outside VecIn keeps queue 0 here. */
  method AllocateWithinGroup(g: Graph) returns (ids: seq<nat>, ques: seq<nat>)
    requires Valid(g)
    ensures Allocated(g, ids, ques)
  {
    ids := AllocateReuseId(g.tensors);
    forall t, u | 0 <= t < u < |g.tensors| ensures g.tensors[t].writer <= g.tensors[u].writer {
      assert InOrder(g, t, u);
    }
    var groups, table := MergeTensorByGroupId(g.tensors, ids);
    var groupQues := AllocForTQue(groups);
    ques := [];
    while |ques| < |g.tensors|
      invariant |ques| <= |g.tensors|
      invariant forall t | 0 <= t < |ques| && g.tensors[t].vecIn :: ques[t] == groupQues[table[ids[t]]]
    {
      ques := ques + [if g.tensors[|ques|].vecIn then groupQues[table[ids[|ques|]]] else 0];
    }
    forall t, u | 0 <= t < u < |ids| ensures KeptApart(g, ids, ques, t, u) {
      if g.tensors[t].vecIn && g.tensors[u].vecIn && ques[t] == ques[u] && ids[t] != ids[u] {
        var a, b := table[ids[t]], table[ids[u]];
        assert !IsLifetimeOverlap(groups[a], groups[b]);
        if ReadTogether(g, t, u) { ReadersOverlap(g, t, u, groups[a], groups[b]); }
      }
    }
  }

  // ---------- orders ----------

  /** The call may have contiguous inputs: different nodes wrote them, all to VecIn, and all in one queue. */
  predicate Contiguous(g: Graph, ques: seq<nat>, k: nat)
    requires k < |g.calls|
  {
    var inputs := g.calls[k].inputs;
    && (forall i | 0 <= i < |inputs| :: inputs[i] < |g.tensors| && inputs[i] < |ques|)
    && DistinctWriters(g, inputs) && OneQueue(ques, inputs)
    && forall i | 0 <= i < |inputs| :: g.tensors[inputs[i]].vecIn
  }

  predicate Numbers(g: Graph, ques: seq<nat>, k: nat)
    requires k < |g.calls|
  {
    g.calls[k].prefersContiguous && Contiguous(g, ques, k)
  }

  function IndexOf(s: seq<nat>, t: nat): (i: nat)
    requires t in s
    ensures i < |s| && s[i] == t && forall j | 0 <= j < i :: s[j] != t
  {
    if s[0] == t then 0 else 1 + IndexOf(s[1..], t)
  }

  lemma InputsKnown(g: Graph, k: nat)
    requires Valid(g) && k < |g.calls|
    ensures forall i | 0 <= i < |g.calls[k].inputs| :: g.calls[k].inputs[i] < |g.tensors|
  {
    forall i | 0 <= i < |g.calls[k].inputs| ensures g.calls[k].inputs[i] < |g.tensors| {
      assert InputValid(g, k, i);
    }
  }

  predicate DistinctWriters(g: Graph, inputs: seq<nat>)
    requires forall i | 0 <= i < |inputs| :: inputs[i] < |g.tensors|
  {
    forall i, j | 0 <= i < j < |inputs| :: g.tensors[inputs[i]].writer != g.tensors[inputs[j]].writer
  }

  method AreAllInputDistinct(g: Graph, inputs: seq<nat>) returns (distinct: bool)
    requires forall i | 0 <= i < |inputs| :: inputs[i] < |g.tensors|
    ensures distinct <==> DistinctWriters(g, inputs)
  {
    var seen: set<nat> := {};
    var i := 0;
    while i < |inputs|
      invariant 0 <= i <= |inputs|
      invariant forall j | 0 <= j < i :: g.tensors[inputs[j]].writer in seen
      invariant forall w | w in seen :: exists j :: 0 <= j < i && g.tensors[inputs[j]].writer == w
      invariant forall a, b | 0 <= a < b < i :: g.tensors[inputs[a]].writer != g.tensors[inputs[b]].writer
    {
      var writer := g.tensors[inputs[i]].writer;
      if writer in seen {
        return false;
      }
      seen := seen + {writer};
      i := i + 1;
    }
    distinct := true;
  }

  predicate OneQueue(ques: seq<nat>, inputs: seq<nat>)
    requires forall i | 0 <= i < |inputs| :: inputs[i] < |ques|
  {
    inputs != [] && forall i | 0 <= i < |inputs| :: ques[inputs[i]] == ques[inputs[0]]
  }

  method IsShareInputs(ques: seq<nat>, inputs: seq<nat>) returns (share: bool)
    requires forall i | 0 <= i < |inputs| :: inputs[i] < |ques|
    ensures share <==> OneQueue(ques, inputs)
  {
    var queueIds: set<nat> := {};
    var i := 0;
    while i < |inputs|
      invariant 0 <= i <= |inputs|
      invariant forall j | 0 <= j < i :: ques[inputs[j]] in queueIds
      invariant forall q | q in queueIds :: exists j :: 0 <= j < i && ques[inputs[j]] == q
    {
      queueIds := queueIds + {ques[inputs[i]]};
      i := i + 1;
    }
    share := |queueIds| == 1;
    if inputs != [] {
      OneElement(queueIds, ques[inputs[0]]);
    }
  }

  lemma OneElement(s: set<nat>, x: nat)
    requires x in s
    ensures |s| == 1 <==> forall y | y in s :: y == x
  {
    assert s == {x} + (s - {x});
  }

  /** Numbers the inputs of a call in their order, if they can be contiguous. */
  method RequireContiguousInputBufs(g: Graph, ques: seq<nat>, k: nat, orders: array<int>)
    requires Valid(g) && k < |g.calls| && |ques| == |g.tensors| == orders.Length
    modifies orders
    ensures forall t: nat | t < orders.Length ::
              orders[t] == if Contiguous(g, ques, k) && t in g.calls[k].inputs then IndexOf(g.calls[k].inputs, t)
                           else old(orders[t])
  {
    var inputs := g.calls[k].inputs;
    InputsKnown(g, k);
    var distinct := AreAllInputDistinct(g, inputs);
    if !distinct {
      return;
    }
    if exists i :: 0 <= i < |inputs| && !g.tensors[inputs[i]].vecIn {
      return;
    }
    var share := IsShareInputs(ques, inputs);
    if !share {
      return;
    }
    var i := 0;
    while i < |inputs|
      invariant 0 <= i <= |inputs|
      invariant forall t: nat | t < orders.Length ::
                  orders[t] == if t in inputs[..i] then IndexOf(inputs, t) else old(orders[t])
    {
      assert IndexOf(inputs, inputs[i]) == i;
      orders[inputs[i]] := i;
      i := i + 1;
    }
    assert inputs[..i] == inputs;
  }

  /** The order that the last numbering call among the first `n` gave to tensor `t`, or -1. */
  function OrderOf(g: Graph, ques: seq<nat>, t: nat, n: nat): int
    requires n <= |g.calls|
  {
    if n == 0 then -1
    else if Numbers(g, ques, n - 1) && t in g.calls[n - 1].inputs then IndexOf(g.calls[n - 1].inputs, t)
    else OrderOf(g, ques, t, n - 1)
  }

  /** The part of the construction that numbers inputs, call by call. */
  method OrderInputs(g: Graph, ques: seq<nat>) returns (orders: array<int>)
    requires Valid(g) && |ques| == |g.tensors|
    ensures fresh(orders) && orders.Length == |g.tensors|
    ensures forall t: nat | t < orders.Length :: orders[t] == OrderOf(g, ques, t, |g.calls|)
  {
    orders := new int[|g.tensors|](_ => -1);
    var k := 0;
    while k < |g.calls|
      invariant 0 <= k <= |g.calls|
      invariant forall t: nat | t < orders.Length :: orders[t] == OrderOf(g, ques, t, k)
    {
      if g.calls[k].prefersContiguous {
        RequireContiguousInputBufs(g, ques, k, orders);
      }
      k := k + 1;
    }
  }

  // ---------- the share groups ----------

  /** The tensors on VecIn with one reuse id, in load order. */
  function Members(g: Graph, ids: seq<nat>, id: nat, n: nat): (m: seq<nat>)
    requires n <= |ids| == |g.tensors|
    ensures forall t: nat :: t in m <==> t < n && g.tensors[t].vecIn && ids[t] == id
    ensures forall i | 0 <= i < |m| :: m[i] < n
    ensures forall i, j | 0 <= i < j < |m| :: m[i] < m[j]
  {
    if n == 0 then []
    else Members(g, ids, id, n - 1) + if g.tensors[n - 1].vecIn && ids[n - 1] == id then [n - 1] else []
  }

  /** The share group as its offsets are defined: order and bytes of each member. */
  function GroupOf(g: Graph, ques: seq<nat>, m: seq<nat>): (group: seq<Share>)
    requires forall i | 0 <= i < |m| :: m[i] < |g.tensors|
    ensures |group| == |m|
    ensures forall i | 0 <= i < |m| :: group[i] == Share(OrderOf(g, ques, m[i], |g.calls|), g.tensors[m[i]].bytes)
  {
    seq(|m|, i requires 0 <= i < |m| => Share(OrderOf(g, ques, m[i], |g.calls|), g.tensors[m[i]].bytes))
  }

  /** Only the one call that reads a tensor can have numbered it. */
  lemma {:induction false} OrderBySoleReader(g: Graph, ques: seq<nat>, t: nat, c: nat, n: nat)
    requires Valid(g) && t < |g.tensors| && g.tensors[t].readers == [c] && n <= |g.calls|
    ensures c < |g.calls| && t in g.calls[c].inputs
    ensures OrderOf(g, ques, t, n) == if c < n && Numbers(g, ques, c) then IndexOf(g.calls[c].inputs, t) else -1
  {
    assert TensorValid(g, t) && c in g.tensors[t].readers;
    if 0 < n {
      OrderBySoleReader(g, ques, t, c, n - 1);
      if t in g.calls[n - 1].inputs {
        var i :| 0 <= i < |g.calls[n - 1].inputs| && g.calls[n - 1].inputs[i] == t;
        assert InputValid(g, n - 1, i);
      }
    }
  }

  /** All members of a share group are read by one call, once. */
  lemma SoleReader(g: Graph, ids: seq<nat>, ques: seq<nat>, m: seq<nat>, id: nat)
    requires Valid(g) && Allocated(g, ids, ques) && m == Members(g, ids, id, |g.tensors|) && 2 <= |m|
    ensures m[0] < |g.tensors| && Shareable(g.tensors[m[0]])
    ensures forall i | 0 <= i < |m| :: m[i] < |g.tensors| && g.tensors[m[i]].readers == [g.tensors[m[0]].readers[0]]
  {
    assert forall i | 0 <= i < |m| :: m[i] in m;
    assert ids[m[0]] == ids[m[1]] && Sharing(g.tensors[m[0]], g.tensors[m[1]]);
    forall i | 0 <= i < |m| ensures g.tensors[m[i]].readers == [g.tensors[m[0]].readers[0]] {
      if 0 < i { assert Sharing(g.tensors[m[0]], g.tensors[m[i]]); }
    }
  }

  /** Two inputs of a call that can have contiguous inputs share. */
  lemma ContiguousShares(g: Graph, ids: seq<nat>, ques: seq<nat>, c: nat, i: nat, j: nat)
    requires Allocated(g, ids, ques) && c < |g.calls| && Contiguous(g, ques, c)
    requires i < |g.calls[c].inputs| && j < |g.calls[c].inputs|
    ensures ids[g.calls[c].inputs[i]] == ids[g.calls[c].inputs[j]]
  {
    var t, u := g.calls[c].inputs[i], g.calls[c].inputs[j];
    assert ReadTogether(g, t, u) && ReadTogether(g, u, t);
    assert ques[t] == ques[u];
    if t < u {
      assert KeptApart(g, ids, ques, t, u);
    } else if u < t {
      assert KeptApart(g, ids, ques, u, t);
    }
  }

  /** If the reader can have contiguous inputs, the group is all of its inputs. */
  lemma GroupIsInputs(g: Graph, ids: seq<nat>, ques: seq<nat>, m: seq<nat>, id: nat, c: nat)
    requires Allocated(g, ids, ques) && m == Members(g, ids, id, |g.tensors|) && m != []
    requires c < |g.calls| && Contiguous(g, ques, c) && m[0] in g.calls[c].inputs
    ensures forall t :: t in g.calls[c].inputs ==> t in m
  {
    var inputs := g.calls[c].inputs;
    assert m[0] in m;
    var j := IndexOf(inputs, m[0]);
    forall t | t in inputs ensures t in m {
      var i := IndexOf(inputs, t);
      ContiguousShares(g, ids, ques, c, i, j);
      assert inputs[i] == t && inputs[j] == m[0];
    }
  }

  function Elements(s: seq<nat>): (r: set<nat>)
    ensures forall x :: x in r <==> x in s
  {
    if s == [] then {} else assert s == s[..|s| - 1] + [s[|s| - 1]]; Elements(s[..|s| - 1]) + {s[|s| - 1]}
  }

  lemma {:induction false} DistinctSize(s: seq<nat>)
    requires forall i, j | 0 <= i < j < |s| :: s[i] != s[j]
    ensures |Elements(s)| == |s|
  {
    if s != [] { DistinctSize(s[..|s| - 1]); }
  }

  lemma SameSize(a: seq<nat>, b: seq<nat>)
    requires forall i, j | 0 <= i < j < |a| :: a[i] != a[j]
    requires forall i, j | 0 <= i < j < |b| :: b[i] != b[j]
    requires forall x :: x in a <==> x in b
    ensures |a| == |b|
  {
    DistinctSize(a);
    DistinctSize(b);
    assert Elements(a) == Elements(b);
  }

  /** All members are inputs of the one reader `c`, and have their places there as orders if it numbers them. */
  ghost predicate NumberedBy(g: Graph, ques: seq<nat>, m: seq<nat>, c: nat) {
    && c < |g.calls|
    && forall i | 0 <= i < |m| ::
         && m[i] < |g.tensors| && m[i] in g.calls[c].inputs
         && OrderOf(g, ques, m[i], |g.calls|) == if Numbers(g, ques, c) then IndexOf(g.calls[c].inputs, m[i]) else -1
  }

  lemma MembersNumbered(g: Graph, ids: seq<nat>, ques: seq<nat>, m: seq<nat>, id: nat)
    requires Valid(g) && Allocated(g, ids, ques) && m == Members(g, ids, id, |g.tensors|) && 2 <= |m|
    ensures Shareable(g.tensors[m[0]]) && NumberedBy(g, ques, m, g.tensors[m[0]].readers[0])
  {
    SoleReader(g, ids, ques, m, id);
    var c := g.tensors[m[0]].readers[0];
    forall i | 0 <= i < |m|
      ensures c < |g.calls| && m[i] in g.calls[c].inputs
      ensures OrderOf(g, ques, m[i], |g.calls|) == if Numbers(g, ques, c) then IndexOf(g.calls[c].inputs, m[i]) else -1
    {
      OrderBySoleReader(g, ques, m[i], c, |g.calls|);
    }
  }

  lemma NumberedIsPermuted(g: Graph, ques: seq<nat>, m: seq<nat>, c: nat)
    requires NumberedBy(g, ques, m, c) && Numbers(g, ques, c)
    requires forall i, j | 0 <= i < j < |m| :: m[i] != m[j]
    requires forall t :: t in g.calls[c].inputs ==> t in m
    ensures Permuted(GroupOf(g, ques, m))
  {
    assert forall t :: t in m ==> t in g.calls[c].inputs;
    SameSize(m, g.calls[c].inputs);
  }

  /** A share group is numbered completely if its reader numbers its inputs, and not at all otherwise. */
  lemma GroupsAreUniform(g: Graph, ids: seq<nat>, ques: seq<nat>, m: seq<nat>, id: nat)
    requires Valid(g) && Allocated(g, ids, ques) && m == Members(g, ids, id, |g.tensors|) && 2 <= |m|
    ensures Shareable(g.tensors[m[0]]) && g.tensors[m[0]].readers[0] < |g.calls|
    ensures if Numbers(g, ques, g.tensors[m[0]].readers[0]) then Permuted(GroupOf(g, ques, m))
            else Unordered(GroupOf(g, ques, m))
  {
    MembersNumbered(g, ids, ques, m, id);
    var c := g.tensors[m[0]].readers[0];
    if Numbers(g, ques, c) {
      GroupIsInputs(g, ids, ques, m, id, c);
      NumberedIsPermuted(g, ques, m, c);
    }
  }

  /** Whatever the graph: the tensors of every share group lie within their queue without overlap. */
  lemma SharedSlotsApart(g: Graph, ids: seq<nat>, ques: seq<nat>, m: seq<nat>, id: nat, q: Queue, k: nat, size: nat,
                         i: nat, j: nat)
    requires Valid(g) && Allocated(g, ids, ques) && m == Members(g, ids, id, |g.tensors|)
    requires i < |m| && j < |m| && i != j
    requires k < |q.groups| && q.groups[k] == SizesOf(GroupOf(g, ques, m))
    requires (forall x: nat | Demand(q, x) :: x <= size) && size < WORD
    ensures var group := GroupOf(g, ques, m);
            var after := RunGroup(group, |group|);
            after.Some? && |after.value.offsets| == |group| && Apart(group, after.value.offsets, size, i, j)
  {
    GroupsAreUniform(g, ids, ques, m, id);
    PackedWithoutOverlap(GroupOf(g, ques, m), q, k, size, i, j);
  }
}
