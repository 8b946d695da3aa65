/**
 Calls, the tensors they write, and the links that thread tensors of one queue or
 buffer together in node order; a ghost constant records the place of a tensor in that
 order. `reuseFrom`/`reuseNext` join the last user of a queue (with another reuse id) or
 of a buffer to the next one; `sharePrev`/`shareNext` join tensors of one queue with the
 same reuse id.
 */
module TensorLinks {
  import opened LoopPaths

  datatype AllocType = Global | Queue | Buffer | Other

  /** The attributes of an output that decide its links. */
  datatype TensorAttr = TensorAttr(id: int, alloc: AllocType, queId: int, bufId: int, reuseId: int)

  /** A call knows its node, its innermost loop axis, and how many loops are open around it. */
  class ApiCall {
    const node: nat
    const axis: AxisId
    const depth: nat
    var outputs: seq<ApiTensor>
    var inputs: seq<ApiTensor?>

    constructor (node: nat, axis: AxisId, depth: nat)
      ensures this.node == node && this.axis == axis && this.depth == depth && outputs == [] && inputs == []
    {
      this.node, this.axis, this.depth, outputs, inputs := node, axis, depth, [], [];
    }
  }

  class ApiTensor {
    const attr: TensorAttr
    const write: ApiCall
    ghost const place: nat
    var reuseFrom: ApiTensor?
    var reuseNext: ApiTensor?
    var sharePrev: ApiTensor?
    var shareNext: ApiTensor?
    var readers: seq<ApiCall>

    constructor (attr: TensorAttr, write: ApiCall, ghost place: nat)
      ensures this.attr == attr && this.write == write && this.place == place && Unlinked() && readers == []
    {
      this.attr, this.write, this.place := attr, write, place;
      reuseFrom, reuseNext, sharePrev, shareNext, readers := null, null, null, null, [];
    }

    function CurrentLinks(): Links
      reads this
    {
      Links(sharePrev, shareNext, reuseFrom, reuseNext)
    }

    predicate Unlinked()
      reads this
    {
      CurrentLinks() == Links(null, null, null, null)
    }
  }

  // ---------- which tensors belong together ----------

  datatype Kind = Share | Que | Buf

  datatype Key = NoKey | Key(a: int, b: int)

  function KeyOf(kind: Kind, t: ApiTensor): Key {
    match kind
    case Share => if t.attr.alloc == Queue then Key(t.attr.queId, t.attr.reuseId) else NoKey
    case Que => if t.attr.alloc == Queue then Key(t.attr.queId, 0) else NoKey
    case Buf => if t.attr.alloc == Buffer then Key(t.attr.bufId, 0) else NoKey
  }

  predicate Together(kind: Kind, t: ApiTensor, u: ApiTensor) {
    KeyOf(kind, t) != NoKey && KeyOf(kind, t) == KeyOf(kind, u)
  }

  /** The greatest index below `n` with the given key, or -1. */
  function LastWith(kind: Kind, outs: seq<ApiTensor>, n: nat, key: Key): (j: int)
    requires n <= |outs|
    ensures -1 <= j < n
    ensures 0 <= j ==> KeyOf(kind, outs[j]) == key
    ensures forall i | j < i < n :: KeyOf(kind, outs[i]) != key
  {
    if n == 0 then -1
    else if KeyOf(kind, outs[n - 1]) == key then n - 1
    else LastWith(kind, outs, n - 1, key)
  }

  /** The least index in `i + 1 .. n` that belongs together with `i`, or -1. */
  function NextOf(kind: Kind, outs: seq<ApiTensor>, n: nat, i: nat): (k: int)
    requires i < n <= |outs|
    ensures k == -1 || i < k < n
    ensures 0 <= k ==> Together(kind, outs[i], outs[k])
    ensures forall m | i < m < (if 0 <= k then k else n) :: !Together(kind, outs[i], outs[m])
  {
    if n == i + 1 then -1
    else
      var k := NextOf(kind, outs, n - 1, i);
      if 0 <= k then k
      else if Together(kind, outs[i], outs[n - 1]) then n - 1
      else -1
  }

  function PrevOf(kind: Kind, outs: seq<ApiTensor>, i: nat): int
    requires i < |outs|
  {
    if KeyOf(kind, outs[i]) == NoKey then -1 else LastWith(kind, outs, i, KeyOf(kind, outs[i]))
  }

  // ---------- what the links should be ----------

  function At(outs: seq<ApiTensor>, j: int): ApiTensor?
    requires -1 <= j < |outs|
  {
    if j < 0 then null else outs[j]
  }

  /** A queue is handed on only between different reuse ids. */
  function AcrossReuse(outs: seq<ApiTensor>, i: nat, j: int): ApiTensor?
    requires i < |outs| && -1 <= j < |outs|
  {
    if 0 <= j && outs[j].attr.reuseId == outs[i].attr.reuseId then null else At(outs, j)
  }

  function ReuseFrom(outs: seq<ApiTensor>, i: nat): ApiTensor?
    requires i < |outs|
  {
    if outs[i].attr.alloc == Queue then AcrossReuse(outs, i, PrevOf(Que, outs, i))
    else At(outs, PrevOf(Buf, outs, i))
  }

  function ReuseNext(outs: seq<ApiTensor>, i: nat): ApiTensor?
    requires i < |outs|
  {
    if outs[i].attr.alloc == Queue then AcrossReuse(outs, i, NextOf(Que, outs, |outs|, i))
    else At(outs, NextOf(Buf, outs, |outs|, i))
  }

  /** The four links of a tensor. */
  datatype Links = Links(sharePrev: ApiTensor?, shareNext: ApiTensor?, reuseFrom: ApiTensor?, reuseNext: ApiTensor?)

  function Expected(outs: seq<ApiTensor>, i: nat): Links
    requires i < |outs|
  {
    Links(At(outs, PrevOf(Share, outs, i)), At(outs, NextOf(Share, outs, |outs|, i)),
          ReuseFrom(outs, i), ReuseNext(outs, i))
  }

  ghost predicate AllLinked(outs: seq<ApiTensor>)
    reads outs
  {
    forall i {:trigger LinkedAt(outs, i)} | 0 <= i < |outs| :: LinkedAt(outs, i)
  }

  ghost predicate LinkedAt(outs: seq<ApiTensor>, i: nat)
    requires i < |outs|
    reads outs
  {
    outs[i].place == i && outs[i].CurrentLinks() == Expected(outs, i)
  }

  // ---------- chains ----------

  lemma PlacesKnown(outs: seq<ApiTensor>)
    requires AllLinked(outs)
    ensures forall i | 0 <= i < |outs| :: outs[i].place == i
  {
    forall i | 0 <= i < |outs| ensures outs[i].place == i {
      assert LinkedAt(outs, i);
    }
  }

  lemma PrevNextInverse(kind: Kind, outs: seq<ApiTensor>, i: nat, j: nat)
    requires i < |outs| && j < |outs|
    ensures PrevOf(kind, outs, i) == j <==> NextOf(kind, outs, |outs|, j) == i
  {
  }

  /** Both pairs of links are inverse to each other, and they lead from earlier to later outputs. */
  lemma LinksAreInverse(outs: seq<ApiTensor>, i: nat, j: nat)
    requires AllLinked(outs) && i < |outs| && j < |outs|
    ensures outs[i].sharePrev == outs[j] <==> outs[j].shareNext == outs[i]
    ensures outs[i].reuseFrom == outs[j] <==> outs[j].reuseNext == outs[i]
    ensures outs[i].sharePrev == outs[j] || outs[i].reuseFrom == outs[j] ==> j < i
  {
    PlacesKnown(outs);
    PrevNextInverse(Share, outs, i, j);
    PrevNextInverse(ReuseKind(outs[i]), outs, i, j);
    assert LinkedAt(outs, i) && LinkedAt(outs, j);
  }

  /** The indices from `i` on with the given key, in order. */
  function MembersFrom(outs: seq<ApiTensor>, i: nat, key: Key): seq<nat>
    requires i <= |outs|
    decreases |outs| - i
  {
    if i == |outs| then []
    else (if KeyOf(Share, outs[i]) == key then [i] else []) + MembersFrom(outs, i + 1, key)
  }

  lemma {:induction false} SkipToMember(outs: seq<ApiTensor>, i: nat, k: nat, key: Key)
    requires i <= k <= |outs|
    requires forall m | i <= m < k :: KeyOf(Share, outs[m]) != key
    ensures MembersFrom(outs, i, key) == MembersFrom(outs, k, key)
    decreases k - i
  {
    if i < k { SkipToMember(outs, i + 1, k, key); }
  }

  lemma ShareNextOf(outs: seq<ApiTensor>, i: nat)
    requires AllLinked(outs) && i < |outs|
    ensures outs[i].shareNext == At(outs, NextOf(Share, outs, |outs|, i))
    ensures outs[i].sharePrev == At(outs, PrevOf(Share, outs, i))
  {
    assert LinkedAt(outs, i);
  }

  /** `chain` lists the tensors that `shareNext` leads through, up to its end. */
  ghost predicate Chains(outs: seq<ApiTensor>, chain: seq<nat>)
    reads outs
  {
    && chain != [] && (forall m | 0 <= m < |chain| :: chain[m] < |outs|)
    && (forall m | 0 <= m < |chain| - 1 :: outs[chain[m]].shareNext == outs[chain[m + 1]])
    && outs[chain[|chain| - 1]].shareNext == null
  }

  lemma ChainsLonger(outs: seq<ApiTensor>, i: nat, rest: seq<nat>)
    requires i < |outs| && Chains(outs, rest) && outs[i].shareNext == outs[rest[0]]
    ensures Chains(outs, [i] + rest)
  {
  }

  lemma MembersStep(outs: seq<ApiTensor>, i: nat, k: int)
    requires i < |outs| && outs[i].attr.alloc == Queue && k == NextOf(Share, outs, |outs|, i)
    ensures MembersFrom(outs, i, KeyOf(Share, outs[i]))
         == [i] + if k < 0 then [] else MembersFrom(outs, k, KeyOf(Share, outs[k]))
  {
    SkipToMember(outs, i + 1, if k < 0 then |outs| else k, KeyOf(Share, outs[i]));
  }

  lemma {:induction false} MembersChain(outs: seq<ApiTensor>, i: nat)
    requires AllLinked(outs) && i < |outs| && outs[i].attr.alloc == Queue
    ensures Chains(outs, MembersFrom(outs, i, KeyOf(Share, outs[i])))
    ensures MembersFrom(outs, i, KeyOf(Share, outs[i]))[0] == i
    decreases |outs| - i
  {
    var k := NextOf(Share, outs, |outs|, i);
    ShareNextOf(outs, i);
    MembersStep(outs, i, k);
    if 0 <= k {
      MembersChain(outs, k);
      ChainsLonger(outs, i, MembersFrom(outs, k, KeyOf(Share, outs[k])));
    }
  }

  /** From its first tensor, a share chain runs through exactly the outputs with one queue id and reuse id. */
  lemma ShareChainIsGroup(outs: seq<ApiTensor>, i: nat)
    requires AllLinked(outs) && i < |outs| && outs[i].attr.alloc == Queue && outs[i].sharePrev == null
    ensures Chains(outs, MembersFrom(outs, 0, KeyOf(Share, outs[i])))
    ensures MembersFrom(outs, 0, KeyOf(Share, outs[i]))[0] == i
  {
    ShareNextOf(outs, i);
    MembersChain(outs, i);
    SkipToMember(outs, 0, i, KeyOf(Share, outs[i]));
  }

  // ---------- adding one output ----------

  lemma {:induction false} LastWithAppend(kind: Kind, outs: seq<ApiTensor>, u: ApiTensor, n: nat, key: Key)
    requires n <= |outs|
    ensures LastWith(kind, outs + [u], n, key) == LastWith(kind, outs, n, key)
  {
    if 0 < n { LastWithAppend(kind, outs, u, n - 1, key); }
  }

  lemma LastWithNew(kind: Kind, outs: seq<ApiTensor>, u: ApiTensor, key: Key)
    ensures LastWith(kind, outs + [u], |outs| + 1, key)
         == if KeyOf(kind, u) == key then |outs| else LastWith(kind, outs, |outs|, key)
  {
    LastWithAppend(kind, outs, u, |outs|, key);
    assert (outs + [u])[|outs|] == u;
  }

  lemma {:induction false} NextOfAppend(kind: Kind, outs: seq<ApiTensor>, u: ApiTensor, n: nat, i: nat)
    requires i < n <= |outs|
    ensures NextOf(kind, outs + [u], n, i) == NextOf(kind, outs, n, i)
  {
    if i + 1 < n { NextOfAppend(kind, outs, u, n - 1, i); }
  }

  /** Only the last tensor that belongs together with a new one gets a successor from it. */
  lemma NextAfterAppend(kind: Kind, outs: seq<ApiTensor>, u: ApiTensor, i: nat)
    requires i < |outs|
    ensures var last := if KeyOf(kind, u) == NoKey then -1 else LastWith(kind, outs, |outs|, KeyOf(kind, u));
            NextOf(kind, outs + [u], |outs| + 1, i) == if i == last then |outs| else NextOf(kind, outs, |outs|, i)
  {
    NextOfAppend(kind, outs, u, |outs|, i);
  }

  lemma PrevAfterAppend(kind: Kind, outs: seq<ApiTensor>, u: ApiTensor, i: nat)
    requires i <= |outs|
    ensures PrevOf(kind, outs + [u], i)
         == if i < |outs| then PrevOf(kind, outs, i)
            else if KeyOf(kind, u) == NoKey then -1 else LastWith(kind, outs, |outs|, KeyOf(kind, u))
  {
    LastWithAppend(kind, outs, u, i, KeyOf(kind, (outs + [u])[i]));
  }

  /** The index of the last tensor that belongs together with `u`, or -1. */
  function LastFor(kind: Kind, outs: seq<ApiTensor>, u: ApiTensor): (j: int)
    ensures -1 <= j < |outs|
  {
    if KeyOf(kind, u) == NoKey then -1 else LastWith(kind, outs, |outs|, KeyOf(kind, u))
  }

  function ReuseKind(u: ApiTensor): Kind {
    if u.attr.alloc == Queue then Que else Buf
  }

  /** The index of the output that hands its queue or buffer on to `u`, or -1. */
  function HandsOn(outs: seq<ApiTensor>, u: ApiTensor): (j: int)
    ensures -1 <= j < |outs|
  {
    var j := LastFor(ReuseKind(u), outs, u);
    if 0 <= j && u.attr.alloc == Queue && outs[j].attr.reuseId == u.attr.reuseId then -1 else j
  }

  lemma ShareAppend(outs: seq<ApiTensor>, u: ApiTensor, i: nat)
    requires i < |outs|
    ensures Expected(outs + [u], i).sharePrev == Expected(outs, i).sharePrev
    ensures Expected(outs + [u], i).shareNext == if i == LastFor(Share, outs, u) then u else Expected(outs, i).shareNext
    ensures i == LastFor(Share, outs, u) ==> Expected(outs, i).shareNext == null
  {
    PrevAfterAppend(Share, outs, u, i);
    NextAfterAppend(Share, outs, u, i);
  }

  lemma ReuseFromAppend(outs: seq<ApiTensor>, u: ApiTensor, i: nat)
    requires i < |outs|
    ensures ReuseFrom(outs + [u], i) == ReuseFrom(outs, i)
  {
    PrevAfterAppend(ReuseKind(outs[i]), outs, u, i);
  }

  lemma ReuseNextAppend(outs: seq<ApiTensor>, u: ApiTensor, i: nat)
    requires i < |outs|
    ensures ReuseNext(outs + [u], i) == if i == HandsOn(outs, u) then u else ReuseNext(outs, i)
    ensures i == HandsOn(outs, u) ==> ReuseNext(outs, i) == null
  {
    var kind := ReuseKind(outs[i]);
    NextAfterAppend(kind, outs, u, i);
    if i == LastFor(kind, outs, u) {
      assert KeyOf(kind, outs[i]) == KeyOf(kind, u) != NoKey;
      assert NextOf(kind, outs, |outs|, i) == -1;
    }
  }

  /** A new output takes over from its predecessors; only their links change, and those were not set before. */
  lemma ExpectedAppend(outs: seq<ApiTensor>, u: ApiTensor, i: nat)
    requires i < |outs|
    ensures Expected(outs + [u], i)
         == Links(Expected(outs, i).sharePrev,
                  if i == LastFor(Share, outs, u) then u else Expected(outs, i).shareNext,
                  Expected(outs, i).reuseFrom,
                  if i == HandsOn(outs, u) then u else Expected(outs, i).reuseNext)
    ensures i == LastFor(Share, outs, u) ==> Expected(outs, i).shareNext == null
    ensures i == HandsOn(outs, u) ==> Expected(outs, i).reuseNext == null
  {
    ShareAppend(outs, u, i);
    ReuseFromAppend(outs, u, i);
    ReuseNextAppend(outs, u, i);
  }

  lemma ExpectedNew(outs: seq<ApiTensor>, u: ApiTensor)
    ensures Expected(outs + [u], |outs|)
         == Links(At(outs, LastFor(Share, outs, u)), null, At(outs, HandsOn(outs, u)), null)
  {
    PrevAfterAppend(Share, outs, u, |outs|);
    PrevAfterAppend(ReuseKind(u), outs, u, |outs|);
  }

  /** A table maps each queue or buffer to its last user. */
  ghost predicate TableOf(m: map<int, ApiTensor>, kind: Kind, outs: seq<ApiTensor>) {
    forall q {:trigger EntryOf(m, kind, outs, q)} :: EntryOf(m, kind, outs, q)
  }

  ghost predicate EntryOf(m: map<int, ApiTensor>, kind: Kind, outs: seq<ApiTensor>, q: int) {
    var j := LastWith(kind, outs, |outs|, Key(q, 0));
    (q in m <==> 0 <= j) && (q in m ==> m[q] == outs[j])
  }

  ghost predicate ShareTableOf(m: map<(int, int), ApiTensor>, outs: seq<ApiTensor>) {
    forall q, r {:trigger ShareEntryOf(m, outs, q, r)} :: ShareEntryOf(m, outs, q, r)
  }

  ghost predicate ShareEntryOf(m: map<(int, int), ApiTensor>, outs: seq<ApiTensor>, q: int, r: int) {
    var j := LastWith(Share, outs, |outs|, Key(q, r));
    ((q, r) in m <==> 0 <= j) && ((q, r) in m ==> m[(q, r)] == outs[j])
  }

  lemma TableAppend(m: map<int, ApiTensor>, kind: Kind, outs: seq<ApiTensor>, u: ApiTensor)
    requires TableOf(m, kind, outs) && kind != Share
    ensures TableOf(if KeyOf(kind, u) == NoKey then m else m[KeyOf(kind, u).a := u], kind, outs + [u])
  {
    var m' := if KeyOf(kind, u) == NoKey then m else m[KeyOf(kind, u).a := u];
    forall q ensures EntryOf(m', kind, outs + [u], q) {
      LastWithNew(kind, outs, u, Key(q, 0));
      assert EntryOf(m, kind, outs, q);
    }
  }

  lemma ShareTableAppend(m: map<(int, int), ApiTensor>, outs: seq<ApiTensor>, u: ApiTensor)
    requires ShareTableOf(m, outs)
    ensures ShareTableOf(if u.attr.alloc == Queue then m[(u.attr.queId, u.attr.reuseId) := u] else m, outs + [u])
  {
    var m' := if u.attr.alloc == Queue then m[(u.attr.queId, u.attr.reuseId) := u] else m;
    forall q, r ensures ShareEntryOf(m', outs + [u], q, r) {
      LastWithNew(Share, outs, u, Key(q, r));
      assert ShareEntryOf(m, outs, q, r);
    }
  }

  /** The tables that the builder keeps while it goes through the nodes. */
  class LinkTable {
    var queLastUse: map<int, ApiTensor>
    var queLastShare: map<(int, int), ApiTensor>
    var bufLastUse: map<int, ApiTensor>

    constructor ()
      ensures Valid([])
    {
      queLastUse, queLastShare, bufLastUse := map[], map[], map[];
    }

    ghost predicate TablesMatch(outs: seq<ApiTensor>)
      reads this
    {
      TableOf(queLastUse, Que, outs) && ShareTableOf(queLastShare, outs) && TableOf(bufLastUse, Buf, outs)
    }

    /** The tables and all links are as they should be after the outputs `outs`. */
    ghost predicate Valid(outs: seq<ApiTensor>)
      reads this, outs
    {
      TablesMatch(outs) && AllLinked(outs)
    }

    /** Looks up the tensor that shares with a new output, and the last user of its queue or buffer. */
    method Predecessors(ghost outs: seq<ApiTensor>, out: ApiTensor) returns (share: ApiTensor?, last: ApiTensor?)
      requires TablesMatch(outs)
      ensures share == At(outs, LastFor(Share, outs, out))
      ensures last == At(outs, LastFor(ReuseKind(out), outs, out))
    {
      share, last := null, null;
      if out.attr.alloc == Queue {
        var q, r := out.attr.queId, out.attr.reuseId;
        assert ShareEntryOf(queLastShare, outs, q, r) && EntryOf(queLastUse, Que, outs, q);
        if (q, r) in queLastShare {
          share := queLastShare[(q, r)];
        }
        if q in queLastUse {
          last := queLastUse[q];
        }
      } else if out.attr.alloc == Buffer {
        assert EntryOf(bufLastUse, Buf, outs, out.attr.bufId);
        if out.attr.bufId in bufLastUse {
          last := bufLastUse[out.attr.bufId];
        }
      }
    }

    method UpdateQueTable(ghost outs: seq<ApiTensor>, out: ApiTensor)
      requires TableOf(queLastUse, Que, outs)
      modifies `queLastUse
      ensures TableOf(queLastUse, Que, outs + [out])
    {
      TableAppend(queLastUse, Que, outs, out);
      if out.attr.alloc == Queue {
        queLastUse := queLastUse[out.attr.queId := out];
      }
    }

    method UpdateShareTable(ghost outs: seq<ApiTensor>, out: ApiTensor)
      requires ShareTableOf(queLastShare, outs)
      modifies `queLastShare
      ensures ShareTableOf(queLastShare, outs + [out])
    {
      ShareTableAppend(queLastShare, outs, out);
      if out.attr.alloc == Queue {
        queLastShare := queLastShare[(out.attr.queId, out.attr.reuseId) := out];
      }
    }

    method UpdateBufTable(ghost outs: seq<ApiTensor>, out: ApiTensor)
      requires TableOf(bufLastUse, Buf, outs)
      modifies `bufLastUse
      ensures TableOf(bufLastUse, Buf, outs + [out])
    {
      TableAppend(bufLastUse, Buf, outs, out);
      if out.attr.alloc == Buffer {
        bufLastUse := bufLastUse[out.attr.bufId := out];
      }
    }

    /** Makes a new output the last user of its queue or buffer. */
    method UpdateTables(ghost outs: seq<ApiTensor>, out: ApiTensor)
      requires TablesMatch(outs)
      modifies `queLastUse, `queLastShare, `bufLastUse
      ensures TablesMatch(outs + [out])
    {
      UpdateQueTable(outs, out);
      UpdateShareTable(outs, out);
      UpdateBufTable(outs, out);
    }

    /** Links a new output to its predecessors. */
    method Register(ghost outs: seq<ApiTensor>, out: ApiTensor)
      requires Valid(outs) && out.place == |outs| && out.Unlinked()
      modifies this, outs, out
      ensures Valid(outs + [out])
      ensures forall t | t in outs || t == out :: t.readers == old(t.readers)
    {
      var share, last := Predecessors(outs, out);
      UpdateTables(outs, out);
      LinkBoth(outs, out, share, last);
    }
  }

  method LinkShare(ghost outs: seq<ApiTensor>, out: ApiTensor, prev: ApiTensor?)
    requires out.place == |outs| && prev == At(outs, LastFor(Share, outs, out))
    requires forall i | 0 <= i < |outs| :: outs[i].place == i
    modifies outs, out
    ensures out.CurrentLinks() == old(out.CurrentLinks()).(sharePrev := if prev == null then old(out.sharePrev) else prev)
    ensures forall i | 0 <= i < |outs| ::
              outs[i].CurrentLinks() == old(outs[i].CurrentLinks()).(
                shareNext := if i == LastFor(Share, outs, out) then out else old(outs[i].shareNext))
    ensures forall t | t in outs || t == out :: t.readers == old(t.readers)
  {
    if prev != null {
      prev.shareNext := out;
      out.sharePrev := prev;
    }
  }

  /** Hands a queue or buffer on from its last user; a queue only between different reuse ids. */
  method LinkReuse(ghost outs: seq<ApiTensor>, out: ApiTensor, last: ApiTensor?)
    requires out.place == |outs| && last == At(outs, LastFor(ReuseKind(out), outs, out))
    requires forall i | 0 <= i < |outs| :: outs[i].place == i
    modifies outs, out
    ensures out.CurrentLinks() == old(out.CurrentLinks()).(
              reuseFrom := if HandsOn(outs, out) < 0 then old(out.reuseFrom) else At(outs, HandsOn(outs, out)))
    ensures forall i | 0 <= i < |outs| ::
              outs[i].CurrentLinks() == old(outs[i].CurrentLinks()).(
                reuseNext := if i == HandsOn(outs, out) then out else old(outs[i].reuseNext))
    ensures forall t | t in outs || t == out :: t.readers == old(t.readers)
  {
    if last != null && (out.attr.alloc != Queue || last.attr.reuseId != out.attr.reuseId) {
      last.reuseNext := out;
      out.reuseFrom := last;
    }
  }

  method LinkBoth(ghost outs: seq<ApiTensor>, out: ApiTensor, share: ApiTensor?, last: ApiTensor?)
    requires AllLinked(outs) && out.place == |outs| && out.Unlinked()
    requires share == At(outs, LastFor(Share, outs, out)) && last == At(outs, LastFor(ReuseKind(out), outs, out))
    modifies outs, out
    ensures AllLinked(outs + [out])
    ensures forall t | t in outs || t == out :: t.readers == old(t.readers)
  {
    PlacesKnown(outs);
    LinkShare(outs, out, share);
    LinkReuse(outs, out, last);
    ExpectedNew(outs, out);
    forall i | 0 <= i <= |outs| ensures LinkedAt(outs + [out], i) {
      if i < |outs| {
        ExpectedAppend(outs, out, i);
        assert old(LinkedAt(outs, i));
      }
    }
  }
}
