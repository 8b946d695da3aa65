/**
 The wiring of one call: its inputs become the tensors of their first producers, which list the call as a
 reader once per input, and its outputs are created and linked.
 */
module CallWiring {
  import opened Options
  import opened LoopPaths
  import opened TensorLinks

  predicate Refused(attr: TensorAttr) {
    attr.alloc == Queue && (attr.queId == ID_NONE || attr.reuseId == ID_NONE)
  }

  /** None of the first `k` outputs is refused. */
  predicate AllowedTo(attrs: seq<TensorAttr>, k: nat)
    requires k <= |attrs|
  {
    k == 0 || (AllowedTo(attrs, k - 1) && !Refused(attrs[k - 1]))
  }

  lemma {:induction false} AllowedAll(attrs: seq<TensorAttr>, k: nat)
    requires k <= |attrs|
    ensures AllowedTo(attrs, k) <==> forall i | 0 <= i < k :: !Refused(attrs[i])
  {
    if 0 < k { AllowedAll(attrs, k - 1); }
  }

  lemma {:induction false} AllowedPrefix(attrs: seq<TensorAttr>, k: nat, n: nat)
    requires k <= n <= |attrs| && AllowedTo(attrs, n)
    ensures AllowedTo(attrs, k)
  {
    if k < n { AllowedPrefix(attrs, k, n - 1); }
  }

  /** All inputs have been produced, and no output is refused. */
  predicate Wirable(inputs: seq<Option<int>>, attrs: seq<TensorAttr>, produced: set<int>) {
    (forall i | i in inputs && i.Some? :: i.value in produced) && (forall a | a in attrs :: !Refused(a))
  }

  lemma WirableIs(inputs: seq<Option<int>>, attrs: seq<TensorAttr>, produced: set<int>)
    ensures Wirable(inputs, attrs, produced)
       <==> (forall i | 0 <= i < |inputs| && inputs[i].Some? :: inputs[i].value in produced) && AllowedTo(attrs, |attrs|)
  {
    AllowedAll(attrs, |attrs|);
  }

  /** The tensor ids among the first `k` outputs. */
  function Ids(attrs: seq<TensorAttr>, k: nat): set<int>
    requires k <= |attrs|
  {
    if k == 0 then {} else Ids(attrs, k - 1) + {attrs[k - 1].id}
  }

  // ---------- producers ----------

  /** The first of the first `n` outputs with the given tensor id, or -1. */
  function FirstOf(outs: seq<ApiTensor>, n: nat, id: int): (j: int)
    requires n <= |outs|
    ensures -1 <= j < n
    ensures 0 <= j ==> outs[j].attr.id == id
    ensures forall i | 0 <= i < (if 0 <= j then j else n) :: outs[i].attr.id != id
  {
    if n == 0 then -1
    else
      var j := FirstOf(outs, n - 1, id);
      if 0 <= j then j else if outs[n - 1].attr.id == id then n - 1 else -1
  }

  function Producer(outs: seq<ApiTensor>, id: int): ApiTensor? {
    At(outs, FirstOf(outs, |outs|, id))
  }

  /** The tensor that an input stands for; an absent input stays absent. */
  function InputFor(outs: seq<ApiTensor>, input: Option<int>): ApiTensor? {
    if input.None? then null else Producer(outs, input.value)
  }

  /** All inputs are the tensors they stand for, and only absent ones are missing. */
  predicate InputsFor(outs: seq<ApiTensor>, inputs: seq<Option<int>>, ins: seq<ApiTensor?>) {
    |ins| == |inputs| && forall i | 0 <= i < |ins| ::
      ins[i] == InputFor(outs, inputs[i]) && (ins[i] == null ==> inputs[i].None?)
  }

  /** The table maps each tensor id to its first producer. */
  ghost predicate ProducersAre(producers: map<int, ApiTensor>, outs: seq<ApiTensor>) {
    forall id {:trigger ProducerEntry(producers, outs, id)} :: ProducerEntry(producers, outs, id)
  }

  ghost predicate ProducerEntry(producers: map<int, ApiTensor>, outs: seq<ApiTensor>, id: int) {
    (id in producers <==> Producer(outs, id) != null) && (id in producers ==> producers[id] == Producer(outs, id))
  }

  lemma {:induction false} FirstOfAppend(outs: seq<ApiTensor>, u: ApiTensor, n: nat, id: int)
    requires n <= |outs|
    ensures FirstOf(outs + [u], n, id) == FirstOf(outs, n, id)
  {
    if 0 < n { FirstOfAppend(outs, u, n - 1, id); }
  }

  lemma ProducersAppend(producers: map<int, ApiTensor>, outs: seq<ApiTensor>, u: ApiTensor)
    requires ProducersAre(producers, outs)
    ensures ProducersAre(if u.attr.id in producers then producers else producers[u.attr.id := u], outs + [u])
  {
    var producers' := if u.attr.id in producers then producers else producers[u.attr.id := u];
    forall id ensures ProducerEntry(producers', outs + [u], id) {
      FirstOfAppend(outs, u, |outs|, id);
      assert ProducerEntry(producers, outs, id) && ProducerEntry(producers, outs, u.attr.id);
      assert (outs + [u])[|outs|] == u;
    }
  }

  // ---------- readers ----------

  /** The call, once for each of its first `n` inputs that is tensor `t`. */
  function SlotsOf(call: ApiCall, ins: seq<ApiTensor?>, n: nat, t: ApiTensor): seq<ApiCall>
    requires n <= |ins|
  {
    if n == 0 then [] else SlotsOf(call, ins, n - 1, t) + if ins[n - 1] == t then [call] else []
  }

  lemma {:induction false} SlotsPrefix(call: ApiCall, ins: seq<ApiTensor?>, x: ApiTensor?, n: nat, t: ApiTensor)
    requires n <= |ins|
    ensures SlotsOf(call, ins + [x], n, t) == SlotsOf(call, ins, n, t)
  {
    if 0 < n { SlotsPrefix(call, ins, x, n - 1, t); }
  }

  lemma SlotsAppend(call: ApiCall, ins: seq<ApiTensor?>, x: ApiTensor?, t: ApiTensor)
    ensures SlotsOf(call, ins + [x], |ins| + 1, t) == SlotsOf(call, ins, |ins|, t) + if x == t then [call] else []
  {
    SlotsPrefix(call, ins, x, |ins|, t);
  }

  lemma {:induction false} NoSlots(call: ApiCall, ins: seq<ApiTensor?>, n: nat, t: ApiTensor)
    requires n <= |ins| && forall i | 0 <= i < n :: ins[i] != t
    ensures SlotsOf(call, ins, n, t) == []
  {
    if 0 < n { NoSlots(call, ins, n - 1, t); }
  }

  /** The calls that read tensor `t`, each once per input slot, in order. */
  function ReadersOf(calls: seq<ApiCall>, ins: seq<seq<ApiTensor?>>, n: nat, t: ApiTensor): seq<ApiCall>
    requires n <= |calls| && n <= |ins|
  {
    if n == 0 then [] else ReadersOf(calls, ins, n - 1, t) + SlotsOf(calls[n - 1], ins[n - 1], |ins[n - 1]|, t)
  }

  lemma {:induction false} ReadersPrefix(calls: seq<ApiCall>, ins: seq<seq<ApiTensor?>>, c: ApiCall, x: seq<ApiTensor?>,
                                         n: nat, t: ApiTensor)
    requires n <= |calls| == |ins|
    ensures ReadersOf(calls + [c], ins + [x], n, t) == ReadersOf(calls, ins, n, t)
  {
    if 0 < n { ReadersPrefix(calls, ins, c, x, n - 1, t); }
  }

  lemma ReadersAppend(calls: seq<ApiCall>, ins: seq<seq<ApiTensor?>>, c: ApiCall, x: seq<ApiTensor?>, t: ApiTensor)
    requires |calls| == |ins|
    ensures ReadersOf(calls + [c], ins + [x], |calls| + 1, t) == ReadersOf(calls, ins, |calls|, t) + SlotsOf(c, x, |x|, t)
  {
    ReadersPrefix(calls, ins, c, x, |calls|, t);
  }

  lemma {:induction false} NoReaders(calls: seq<ApiCall>, ins: seq<seq<ApiTensor?>>, n: nat, t: ApiTensor)
    requires n <= |calls| && n <= |ins| && forall k, i | 0 <= k < n && 0 <= i < |ins[k]| :: ins[k][i] != t
    ensures ReadersOf(calls, ins, n, t) == []
  {
    if 0 < n {
      NoReaders(calls, ins, n - 1, t);
      NoSlots(calls[n - 1], ins[n - 1], |ins[n - 1]|, t);
    }
  }

  // ---------- inputs ----------

  /** One input; its tensor lists the call as a reader. Fails on an input nobody has produced. */
  method ConnectInput(call: ApiCall, input: Option<int>, producers: map<int, ApiTensor>, ghost outs: seq<ApiTensor>)
    returns (ok: bool)
    requires AllLinked(outs) && ProducersAre(producers, outs)
    modifies call`inputs, outs
    ensures ok <==> (input.Some? ==> input.value in producers)
    ensures AllLinked(outs)
    ensures call.inputs == old(call.inputs) + if ok then [InputFor(outs, input)] else []
    ensures ok && input.Some? ==> InputFor(outs, input) != null
    ensures forall t | t in outs :: t.readers == old(t.readers) + if ok && InputFor(outs, input) == t then [call] else []
  {
    ok := true;
    if input.None? {
      call.inputs := call.inputs + [null];
    } else {
      assert ProducerEntry(producers, outs, input.value);
      if input.value !in producers {
        return false;
      }
      var tensor := producers[input.value];
      tensor.readers := tensor.readers + [call];
      call.inputs := call.inputs + [tensor];
      forall i | 0 <= i < |outs| ensures LinkedAt(outs, i) {
        assert old(LinkedAt(outs, i));
      }
    }
  }

  /** Appends the call to the readers of each input, in order. */
  method ConnectInputs(call: ApiCall, inputs: seq<Option<int>>, producers: map<int, ApiTensor>, ghost outs: seq<ApiTensor>)
    returns (ok: bool)
    requires AllLinked(outs) && call.inputs == [] && ProducersAre(producers, outs)
    modifies call`inputs, outs
    ensures ok <==> forall i | 0 <= i < |inputs| && inputs[i].Some? :: inputs[i].value in producers
    ensures AllLinked(outs)
    ensures ok ==> InputsFor(outs, inputs, call.inputs)
    ensures forall t | t in outs :: t.readers == old(t.readers) + SlotsOf(call, call.inputs, |call.inputs|, t)
  {
    ok := true;
    var k := 0;
    while k < |inputs|
      invariant 0 <= k == |call.inputs| <= |inputs| && AllLinked(outs)
      invariant forall i | 0 <= i < k && inputs[i].Some? :: inputs[i].value in producers
      invariant forall i | 0 <= i < k ::
                  call.inputs[i] == InputFor(outs, inputs[i]) && (call.inputs[i] == null ==> inputs[i].None?)
      invariant forall t | t in outs :: t.readers == old(t.readers) + SlotsOf(call, call.inputs, |call.inputs|, t)
    {
      ghost var before := call.inputs;
      ok := ConnectInput(call, inputs[k], producers, outs);
      if !ok {
        assert before + [] == before;
        return;
      }
      forall t | t in outs ensures t.readers == old(t.readers) + SlotsOf(call, call.inputs, |call.inputs|, t) {
        SlotsAppend(call, before, InputFor(outs, inputs[k]), t);
      }
      k := k + 1;
    }
  }

  // ---------- outputs ----------

  /** `outs'` extends `outs` by new outputs of the call with the first `k` of the given attributes. */
  twostate predicate Grown(outs: seq<ApiTensor>, new outs': seq<ApiTensor>, new call: ApiCall, attrs: seq<TensorAttr>, k: nat)
  {
    && k <= |attrs| && |outs'| == |outs| + k && outs'[..|outs|] == outs
    && (forall i | |outs| <= i < |outs'| :: fresh(outs'[i]))
    && OutputsAre(call, attrs, |outs|, outs')
  }

  predicate OutputsAre(call: ApiCall, attrs: seq<TensorAttr>, n: nat, outs: seq<ApiTensor>) {
    forall i {:trigger OutputAt(call, attrs, n, outs, i)} | n <= i < |outs| :: OutputAt(call, attrs, n, outs, i)
  }

  /** Output `i` has its attributes from the list, which starts at output `n`, and was written by the call. */
  predicate OutputAt(call: ApiCall, attrs: seq<TensorAttr>, n: nat, outs: seq<ApiTensor>, i: nat) {
    n <= i < |outs| && i - n < |attrs| && outs[i].attr == attrs[i - n] && outs[i].write == call
  }

  /** Nobody reads the outputs from `n` on. */
  ghost predicate Unread(outs: seq<ApiTensor>, n: nat)
    reads outs
  {
    forall i {:trigger UnreadAt(outs, i)} | n <= i < |outs| :: UnreadAt(outs, i)
  }

  ghost predicate UnreadAt(outs: seq<ApiTensor>, i: nat)
    requires i < |outs|
    reads outs
  {
    outs[i].readers == []
  }

  /** Creates one output; the first producer of a tensor id stays its producer. */
  method AddOutput(call: ApiCall, attr: TensorAttr, table: LinkTable, producers: map<int, ApiTensor>,
                   ghost outs: seq<ApiTensor>)
    returns (tensor: ApiTensor, producers': map<int, ApiTensor>)
    requires table.Valid(outs) && ProducersAre(producers, outs) && !Refused(attr)
    modifies call`outputs, table, outs
    ensures fresh(tensor) && tensor.attr == attr && tensor.write == call && tensor.readers == []
    ensures call.outputs == old(call.outputs) + [tensor]
    ensures table.Valid(outs + [tensor])
    ensures producers'.Keys == producers.Keys + {attr.id} && ProducersAre(producers', outs + [tensor])
    ensures forall t | t in outs :: t.readers == old(t.readers)
  {
    tensor := new ApiTensor(attr, call, |outs|);
    call.outputs := call.outputs + [tensor];
    table.Register(outs, tensor);
    ProducersAppend(producers, outs, tensor);
    producers' := if attr.id in producers then producers else producers[attr.id := tensor];
  }

  /** The call has made the outputs behind the first `n`, and nobody reads them. */
  ghost predicate MadeBy(call: ApiCall, outs: seq<ApiTensor>, n: nat)
    reads call, outs
  {
    n <= |outs| && call.outputs == outs[n..] && Unread(outs, n)
  }

  lemma MadeUnread(call: ApiCall, outs: seq<ApiTensor>, n: nat)
    requires MadeBy(call, outs, n)
    ensures forall i | 0 <= i < |outs[n..]| :: outs[n..][i].readers == []
  {
    forall i | 0 <= i < |outs[n..]| ensures outs[n..][i].readers == [] {
      assert UnreadAt(outs, n + i);
    }
  }

  lemma SuffixAppend(outs: seq<ApiTensor>, n: nat, t: ApiTensor)
    requires n <= |outs|
    ensures (outs + [t])[n..] == outs[n..] + [t]
  {
  }

  /** Creates and links the next output of a call, behind those it has made already. */
  method AddNextOutput(call: ApiCall, attrs: seq<TensorAttr>, k: nat, table: LinkTable, producers: map<int, ApiTensor>,
                       ghost n: nat, ghost outs: seq<ApiTensor>)
    returns (producers': map<int, ApiTensor>, ghost tensor: ApiTensor)
    requires k < |attrs| && !Refused(attrs[k]) && |outs| == n + k
    requires table.Valid(outs) && ProducersAre(producers, outs)
    requires MadeBy(call, outs, n) && OutputsAre(call, attrs, n, outs)
    modifies call`outputs, table, outs
    ensures fresh(tensor) && table.Valid(outs + [tensor])
    ensures MadeBy(call, outs + [tensor], n) && OutputsAre(call, attrs, n, outs + [tensor])
    ensures producers'.Keys == producers.Keys + {attrs[k].id} && ProducersAre(producers', outs + [tensor])
    ensures forall t | t in outs :: t.readers == old(t.readers)
  {
    var out;
    out, producers' := AddOutput(call, attrs[k], table, producers, outs);
    tensor := out;
    SuffixAppend(outs, n, tensor);
    forall i | n <= i < |outs| + 1
      ensures OutputAt(call, attrs, n, outs + [tensor], i) && UnreadAt(outs + [tensor], i)
    {
      if i < |outs| {
        assert OutputAt(call, attrs, n, outs, i) && old(UnreadAt(outs, i));
        assert outs[i] in outs;
      }
    }
  }

  /** Creates and links the outputs of a call, up to the first that is refused. */
  method AddOutputs(call: ApiCall, attrs: seq<TensorAttr>, table: LinkTable, producers: map<int, ApiTensor>,
                    ghost outs: seq<ApiTensor>)
    returns (ok: bool, producers': map<int, ApiTensor>, ghost outs': seq<ApiTensor>)
    requires table.Valid(outs) && ProducersAre(producers, outs) && call.outputs == []
    modifies call`outputs, table, outs
    ensures ok <==> AllowedTo(attrs, |attrs|)
    ensures ok ==> table.Valid(outs') && Grown(outs, outs', call, attrs, |attrs|) && MadeBy(call, outs', |outs|)
    ensures ok ==> producers'.Keys == producers.Keys + Ids(attrs, |attrs|) && ProducersAre(producers', outs')
    ensures forall t | t in outs :: t.readers == old(t.readers)
  {
    ok, producers', outs' := true, producers, outs;
    var k := 0;
    while k < |attrs|
      invariant 0 <= k <= |attrs| && table.Valid(outs') && Grown(outs, outs', call, attrs, k)
      invariant MadeBy(call, outs', |outs|)
      invariant AllowedTo(attrs, k)
      invariant producers'.Keys == producers.Keys + Ids(attrs, k) && ProducersAre(producers', outs')
      invariant forall t | t in outs :: t.readers == old(t.readers)
    {
      if Refused(attrs[k]) {
        if AllowedTo(attrs, |attrs|) { AllowedPrefix(attrs, k + 1, |attrs|); }
        return false, producers', outs';
      }
      ghost var tensor;
      producers', tensor := AddNextOutput(call, attrs, k, table, producers', |outs|, outs');
      outs' := outs' + [tensor];
      k := k + 1;
    }
  }

  /** Connects the inputs of a new call, then creates its outputs. */
  method WireCall(call: ApiCall, inputs: seq<Option<int>>, attrs: seq<TensorAttr>, table: LinkTable,
                  producers: map<int, ApiTensor>, ghost outs: seq<ApiTensor>)
    returns (ok: bool, producers': map<int, ApiTensor>, ghost outs': seq<ApiTensor>)
    requires call.inputs == [] && call.outputs == []
    requires table.Valid(outs) && ProducersAre(producers, outs)
    modifies call`inputs, call`outputs, table, outs
    ensures ok <==> Wirable(inputs, attrs, producers.Keys)
    ensures ok ==> InputsFor(outs, inputs, call.inputs)
    ensures ok ==> forall t | t in outs :: t.readers == old(t.readers) + SlotsOf(call, call.inputs, |call.inputs|, t)
    ensures ok ==> table.Valid(outs') && Grown(outs, outs', call, attrs, |attrs|) && MadeBy(call, outs', |outs|)
    ensures ok ==> producers'.Keys == producers.Keys + Ids(attrs, |attrs|) && ProducersAre(producers', outs')
  {
    WirableIs(inputs, attrs, producers.Keys);
    producers', outs' := producers, outs;
    ok := ConnectInputs(call, inputs, producers, outs);
    if ok {
      ok, producers', outs' := AddOutputs(call, attrs, table, producers, outs);
    }
  }
}
