/**
 Offsets of the tensors that share one slot of a queue. The generator emits, tensor by
 tensor in load order, statements over one base variable and one constant per position;
 running them must place every tensor behind exactly the tensors ordered before it.
 */
module ShareOffsets {
  import opened Options

  /** A tensor of a share group in load order; its order is -1 if no call asked for contiguous inputs. */
  datatype Share = Share(order: int, bytes: nat)

  // ---------- the emitted statements ----------

  datatype Var = Base | Part(k: int)

  datatype Expr = Zero | Copy(v: Var) | Sum(v: Var, bytes: nat)

  /** `Place` binds the next tensor to the queue's memory at the current value of the base variable. */
  datatype Stmt = Declare(v: Var, e: Expr) | Assign(v: Var, e: Expr) | Place

  /** The variables in scope, and the offsets of the tensors placed so far. */
  datatype State = State(env: map<Var, nat>, offsets: seq<nat>)

  const WORD: nat := 0x1_0000_0000

  /** The emitted variables have 32 bits. */
  function Wrap(x: nat): (w: nat)
    ensures w < WORD && (x < WORD ==> w == x)
  {
    if x < WORD then x else Wrap(x - WORD)
  }

  const START := State(map[], [])

  function Eval(env: map<Var, nat>, e: Expr): Option<nat> {
    match e
    case Zero => Some(0)
    case Copy(v) => if v in env then Some(env[v]) else None
    case Sum(v, bytes) => if v in env then Some(Wrap(env[v] + bytes)) else None
  }

  /** `None` for a variable that is declared twice or used before its declaration. */
  function Step(s: State, stmt: Stmt): Option<State> {
    match stmt
    case Declare(v, e) =>
      var x := Eval(s.env, e);
      if v in s.env || x.None? then None else Some(s.(env := s.env[v := x.value]))
    case Assign(v, e) =>
      var x := Eval(s.env, e);
      if v !in s.env || x.None? then None else Some(s.(env := s.env[v := x.value]))
    case Place =>
      if Base !in s.env then None else Some(s.(offsets := s.offsets + [s.env[Base]]))
  }

  function Run(s: State, stmts: seq<Stmt>): Option<State> {
    if stmts == [] then Some(s)
    else
      var before := Run(s, stmts[..|stmts| - 1]);
      if before.None? then None else Step(before.value, stmts[|stmts| - 1])
  }

  lemma {:induction false} RunConcat(s: State, a: seq<Stmt>, b: seq<Stmt>)
    requires Run(s, a).Some?
    ensures Run(s, a + b) == Run(Run(s, a).value, b)
    decreases |b|
  {
    if b == [] {
      assert a + b == a;
    } else {
      var init := b[..|b| - 1];
      assert (a + b)[..|a + b| - 1] == a + init;
      RunConcat(s, a, init);
    }
  }

  /** Running two last statements is two steps. */
  lemma {:induction false} RunLastTwo(s: State, a: seq<Stmt>, x: Stmt, y: Stmt)
    requires Run(s, a).Some? && Step(Run(s, a).value, x).Some?
    ensures Run(s, a + [x] + [y]) == Step(Step(Run(s, a).value, x).value, y)
    ensures a + [x] + [y] == a + ([x] + [y])
  {
    RunConcat(s, a, [x]);
    RunOne(Run(s, a).value, x);
    RunConcat(s, a + [x], [y]);
    RunOne(Step(Run(s, a).value, x).value, y);
  }

  lemma {:induction false} RunOne(s: State, stmt: Stmt)
    ensures Run(s, [stmt]) == Step(s, stmt)
  {
    assert [stmt][..0] == [];
    assert Run(s, []) == Some(s);
  }

  // ---------- what is emitted ----------

  /** The greatest order among the first `n` tensors, or -1. */
  function MaxOrder(group: seq<Share>, n: nat): (m: int)
    requires n <= |group|
    ensures -1 <= m && forall j | 0 <= j < n :: group[j].order <= m
  {
    if n == 0 then -1
    else
      var m := MaxOrder(group, n - 1);
      if group[n - 1].order > m then group[n - 1].order else m
  }

  /** The bytes of all tensors with order `o`. */
  function BytesOf(group: seq<Share>, o: int): nat {
    if group == [] then 0
    else
      var last := group[|group| - 1];
      BytesOf(group[..|group| - 1], o) + if last.order == o then last.bytes else 0
  }

  function PartBefore(k: int): Var {
    if k - 1 > 0 then Part(k - 1) else Base
  }

  /** One constant for each position from `first` to `last`; position 0 needs none. */
  function PartDefs(group: seq<Share>, first: int, last: int): seq<Stmt>
    decreases last - first
  {
    if last < first then []
    else if last == 0 then PartDefs(group, first, -1)
    else PartDefs(group, first, last - 1) + [PartDef(group, last)]
  }

  function PartDef(group: seq<Share>, k: int): Stmt {
    Declare(Part(k), Sum(PartBefore(k), BytesOf(group, k - 1)))
  }

  /** What is emitted before tensor `i` is bound. */
  function OutputStmts(group: seq<Share>, i: nat): seq<Stmt>
    requires i < |group|
  {
    var o := group[i].order;
    (if i == 0 then [Declare(Base, Zero)] else []) +
    (if |group| == 1 || (o == -1 && i == 0) then []
     else if o == -1 then [Assign(Base, Sum(Base, group[i - 1].bytes))]
     else PartDefs(group, MaxOrder(group, i) + 1, o) + [AssignOffset(o)])
  }

  function AssignOffset(o: int): Stmt {
    Assign(Base, if o > 0 then Copy(Part(o)) else Zero)
  }

  /** Emits and binds the first `n` tensors, one after the other. */
  function RunGroup(group: seq<Share>, n: nat): Option<State>
    requires n <= |group|
  {
    if n == 0 then Some(START)
    else
      var before := RunGroup(group, n - 1);
      if before.None? then None else Run(before.value, OutputStmts(group, n - 1) + [Place])
  }

  predicate HasOrder(group: seq<Share>, o: int) {
    exists j :: 0 <= j < |group| && group[j].order == o
  }

  predicate Distinct(group: seq<Share>) {
    forall i, j | 0 <= i < j < |group| :: group[i].order != group[j].order || group[i].order == -1
  }

  /** Which tensor has which order: the tensors before `i` from the nearest on, then those from `i` on. */
  method OrderTable(group: seq<Share>, i: nat) returns (table: map<int, nat>)
    requires i < |group|
    ensures forall o :: o in table <==> HasOrder(group, o)
    ensures forall o | o in table :: table[o] < |group| && group[table[o]].order == o
  {
    table := map[];
    var j: int := i - 1;
    while 0 <= j
      invariant -1 <= j < i
      invariant forall m | j < m < i :: group[m].order in table
      invariant forall o | o in table :: table[o] < |group| && group[table[o]].order == o
    {
      if group[j].order !in table {
        table := table[group[j].order := j];
      }
      j := j - 1;
    }
    j := i;
    while j < |group|
      invariant i <= j <= |group|
      invariant forall m | 0 <= m < j :: group[m].order in table
      invariant forall o | o in table :: table[o] < |group| && group[table[o]].order == o
    {
      if group[j].order !in table {
        table := table[group[j].order := j];
      }
      j := j + 1;
    }
  }

  lemma {:induction false} MaxOrderIs(group: seq<Share>, n: nat, m: int)
    requires n <= |group| && -1 <= m && forall j | 0 <= j < n :: -1 <= group[j].order <= m
    requires m == -1 || exists j | 0 <= j < n :: group[j].order == m
    ensures MaxOrder(group, n) == m
  {
    if 0 < n {
      if group[n - 1].order == m {
        var k := MaxOrder(group, n - 1);
        MaxOrderReached(group, n - 1);
      } else {
        MaxOrderIs(group, n - 1, m);
      }
    }
  }

  lemma {:induction false} MaxOrderReached(group: seq<Share>, n: nat)
    requires n <= |group|
    ensures MaxOrder(group, n) != -1 ==> exists j | 0 <= j < n :: group[j].order == MaxOrder(group, n)
  {
    if 0 < n { MaxOrderReached(group, n - 1); }
  }

  method PrevMaxOrder(group: seq<Share>, i: nat) returns (prevMax: int)
    requires i < |group| && forall s | s in group :: -1 <= s.order
    ensures prevMax == MaxOrder(group, i)
  {
    prevMax := -1;
    var j: int := i - 1;
    while 0 <= j
      invariant -1 <= j < i && -1 <= prevMax
      invariant forall m | j < m < i :: group[m].order <= prevMax
      invariant prevMax != -1 ==> exists m | j < m < i :: group[m].order == prevMax
    {
      if group[j].order > prevMax {
        prevMax := group[j].order;
      }
      j := j - 1;
    }
    MaxOrderIs(group, i, prevMax);
  }

  /** Every position from the last one defined up to that of tensor `i` belongs to a tensor. */
  predicate NoGap(group: seq<Share>, i: nat)
    requires i < |group|
  {
    forall o | MaxOrder(group, i) <= o < group[i].order && o != -1 :: HasOrder(group, o)
  }

  /** Fails only where a position before the tensor belongs to nobody. */
  method DefineShareOffsets(group: seq<Share>, i: nat) returns (out: Option<seq<Stmt>>)
    requires i < |group| && Distinct(group) && forall s | s in group :: -1 <= s.order
    ensures out.Some? <==> NoGap(group, i)
    ensures out.Some? ==> out.value == PartDefs(group, MaxOrder(group, i) + 1, group[i].order)
  {
    var orderToTensor := OrderTable(group, i);
    var prevMax := PrevMaxOrder(group, i);
    var stmts := [];
    var k := prevMax + 1;
    while k <= group[i].order
      invariant prevMax < k && (k <= group[i].order + 1 || k == prevMax + 1)
      invariant forall o | prevMax <= o < k - 1 && o != -1 :: HasOrder(group, o)
      invariant stmts == PartDefs(group, prevMax + 1, k - 1)
    {
      if k != 0 {
        if k - 1 !in orderToTensor {
          return None;
        }
        var prev := orderToTensor[k - 1];
        BytesOfOnly(group, prev);
        stmts := stmts + [Declare(Part(k), Sum(PartBefore(k), group[prev].bytes))];
      }
      k := k + 1;
    }
    out := Some(stmts);
  }

  /** What one output of a share group emits before it is bound. */
  method AllocShareOutputs(group: seq<Share>, i: nat) returns (out: Option<seq<Stmt>>)
    requires i < |group| && Distinct(group) && forall s | s in group :: -1 <= s.order
    ensures out.Some? ==> out.value == OutputStmts(group, i)
    ensures out.Some? <==> |group| == 1 || group[i].order == -1 || NoGap(group, i)
  {
    var stmts := [];
    if i == 0 {
      stmts := stmts + [Declare(Base, Zero)];
    }
    if |group| != 1 {
      if group[i].order == -1 {
        if i != 0 {
          stmts := stmts + [Assign(Base, Sum(Base, group[i - 1].bytes))];
        }
      } else {
        var defs := DefineShareOffsets(group, i);
        if defs.None? {
          return None;
        }
        stmts := stmts + defs.value;
        stmts := stmts + [AssignOffset(group[i].order)];
      }
    }
    out := Some(stmts);
  }

  // ---------- what the offsets should be ----------

  /** The bytes of all tensors ordered below `o`. */
  function Below(group: seq<Share>, o: int): nat {
    if group == [] then 0
    else
      var last := group[|group| - 1];
      Below(group[..|group| - 1], o) + if last.order < o then last.bytes else 0
  }

  function Total(group: seq<Share>): nat {
    if group == [] then 0 else Total(group[..|group| - 1]) + group[|group| - 1].bytes
  }

  /** The orders are 0, 1, ... up to the size of the group, each used once. */
  predicate Permuted(group: seq<Share>) {
    && (forall i | 0 <= i < |group| :: 0 <= group[i].order < |group|)
    && forall i, j | 0 <= i < j < |group| :: group[i].order != group[j].order
  }

  lemma {:induction false} BelowStep(group: seq<Share>, o: int)
    ensures Below(group, o + 1) == Below(group, o) + BytesOf(group, o)
  {
    if group != [] { BelowStep(group[..|group| - 1], o); }
  }

  lemma {:induction false} BelowMonotone(group: seq<Share>, o: int, p: int)
    requires o <= p
    ensures Below(group, o) <= Below(group, p)
  {
    if group != [] { BelowMonotone(group[..|group| - 1], o, p); }
  }

  lemma {:induction false} BelowEnds(group: seq<Share>, n: int)
    requires forall s | s in group :: 0 <= s.order < n
    ensures Below(group, 0) == 0 && Below(group, n) == Total(group)
  {
    if group != [] { BelowEnds(group[..|group| - 1], n); }
  }

  lemma {:induction false} BytesOfNone(group: seq<Share>, o: int)
    requires !HasOrder(group, o)
    ensures BytesOf(group, o) == 0
  {
    if group != [] {
      var init := group[..|group| - 1];
      assert group[|group| - 1].order != o;
      assert forall j | 0 <= j < |init| :: init[j] == group[j];
      BytesOfNone(init, o);
    }
  }

  lemma {:induction false} BytesOfOnly(group: seq<Share>, i: nat)
    requires i < |group| && forall j | 0 <= j < |group| && j != i :: group[j].order != group[i].order || group[i].order == -1
    requires group[i].order != -1
    ensures BytesOf(group, group[i].order) == group[i].bytes
  {
    var init := group[..|group| - 1];
    assert forall j | 0 <= j < |init| :: init[j] == group[j];
    if i == |init| {
      BytesOfNone(init, group[i].order);
    } else {
      BytesOfOnly(init, i);
    }
  }

  function Orders(group: seq<Share>): set<int> {
    if group == [] then {} else Orders(group[..|group| - 1]) + {group[|group| - 1].order}
  }

  function NatsBelow(n: nat): (s: set<int>)
    ensures |s| == n && forall o :: o in s <==> 0 <= o < n
  {
    if n == 0 then {} else NatsBelow(n - 1) + {n - 1}
  }

  lemma {:induction false} OrdersAre(group: seq<Share>)
    ensures forall o :: o in Orders(group) <==> HasOrder(group, o)
    ensures (forall i, j | 0 <= i < j < |group| :: group[i].order != group[j].order) ==> |Orders(group)| == |group|
  {
    if group != [] {
      var init := group[..|group| - 1];
      OrdersAre(init);
      forall o ensures o in Orders(group) <==> HasOrder(group, o) {
        if HasOrder(init, o) {
          var j :| 0 <= j < |init| && init[j].order == o;
          assert group[j].order == o;
        }
        if o == group[|group| - 1].order { assert HasOrder(group, o); }
        if HasOrder(group, o) && o != group[|group| - 1].order {
          var j :| 0 <= j < |group| && group[j].order == o;
          assert init[j].order == o;
        }
      }
    }
  }

  lemma {:induction false} SubsetOfSameSize(a: set<int>, b: set<int>)
    requires a <= b && |a| == |b|
    ensures a == b
  {
    assert b == a + (b - a);
    assert |b - a| == 0;
  }

  /** A permutation leaves no position out. */
  lemma {:induction false} EveryOrder(group: seq<Share>, o: nat)
    requires Permuted(group) && o < |group|
    ensures HasOrder(group, o)
  {
    OrdersAre(group);
    assert Orders(group) <= NatsBelow(|group|);
    SubsetOfSameSize(Orders(group), NatsBelow(|group|));
  }

  // ---------- running the statements ----------

  lemma {:induction false} WrapSum(x: nat, y: nat)
    ensures Wrap(Wrap(x) + y) == Wrap(x + y)
  {
    if WORD <= x { WrapSum(x - WORD, y); }
  }

  /** The offsets that positions 0 to `n` should have. */
  function Offsets(group: seq<Share>, n: nat): (r: seq<nat>)
    ensures |r| == n + 1 && forall k | 0 <= k <= n :: r[k] == Wrap(Below(group, k))
  {
    if n == 0 then [Wrap(Below(group, 0))] else Offsets(group, n - 1) + [Wrap(Below(group, n))]
  }

  /** Each offset follows from the one before; the first is 0. */
  predicate OffsetsOf(group: seq<Share>, offsets: seq<nat>) {
    && |offsets| == |group| + 1 && offsets[0] == 0
    && forall k | 0 < k < |offsets| :: offsets[k] == Wrap(offsets[k - 1] + BytesOf(group, k - 1))
  }

  lemma {:induction false} OffsetsNext(group: seq<Share>, offsets: seq<nat>, k: nat)
    requires 0 < k < |offsets| && forall i | 0 <= i < |offsets| :: offsets[i] == Wrap(Below(group, i))
    ensures offsets[k] == Wrap(offsets[k - 1] + BytesOf(group, k - 1))
  {
    BelowStep(group, k - 1);
    WrapSum(Below(group, k - 1), BytesOf(group, k - 1));
  }

  lemma {:induction false} OffsetsStep(group: seq<Share>)
    requires forall s | s in group :: 0 <= s.order < |group|
    ensures OffsetsOf(group, Offsets(group, |group|))
  {
    BelowEnds(group, |group|);
    var offsets := Offsets(group, |group|);
    forall k | 0 < k < |offsets| ensures offsets[k] == Wrap(offsets[k - 1] + BytesOf(group, k - 1)) {
      OffsetsNext(group, offsets, k);
    }
  }

  /** Constants 1 to `m` are declared, and each holds the offset of its position. */
  predicate PartsDeclared(offsets: seq<nat>, env: map<Var, nat>, m: int) {
    && Base in env && m < |offsets|
    && (forall v | v in env :: v == Base || 1 <= v.k <= m)
    && forall k | 1 <= k <= m :: Part(k) in env && env[Part(k)] == offsets[k]
  }

  /** One more constant: the bytes below its position. */
  lemma {:induction false} RunPart(group: seq<Share>, offsets: seq<nat>, s: State, k: nat)
    requires OffsetsOf(group, offsets) && 0 < k <= |group| && PartsDeclared(offsets, s.env, k - 1)
    requires k == 1 ==> s.env[Base] == 0
    ensures var after := Step(s, PartDef(group, k));
            && after.Some? && after.value.offsets == s.offsets && PartsDeclared(offsets, after.value.env, k)
            && after.value.env[Base] == s.env[Base]
  {
  }

  lemma {:induction false} RunParts(group: seq<Share>, offsets: seq<nat>, s: State, first: int, last: int)
    requires OffsetsOf(group, offsets) && last <= |group|
    requires 0 <= first && PartsDeclared(offsets, s.env, first - 1)
    requires first <= 1 ==> s.env[Base] == 0
    ensures var after := Run(s, PartDefs(group, first, last));
            && after.Some? && after.value.offsets == s.offsets
            && PartsDeclared(offsets, after.value.env, if last < first then first - 1 else last)
            && after.value.env[Base] == s.env[Base]
    decreases last - first
  {
    if last == 0 || last < first {
      assert PartDefs(group, first, last) == [];
    } else {
      RunParts(group, offsets, s, first, last - 1);
      var before := Run(s, PartDefs(group, first, last - 1)).value;
      RunConcat(s, PartDefs(group, first, last - 1), [PartDef(group, last)]);
      RunOne(before, PartDef(group, last));
      RunPart(group, offsets, before, last);
    }
  }

  /** The first `i` tensors have the offsets of their positions. */
  predicate PlacedSoFar(group: seq<Share>, offsets: seq<nat>, i: nat, placed: seq<nat>)
    requires i <= |group| && Permuted(group) && |offsets| == |group| + 1
  {
    |placed| == i && forall j | 0 <= j < i :: placed[j] == offsets[group[j].order]
  }

  ghost predicate Packed(group: seq<Share>, offsets: seq<nat>, i: nat, s: State)
    requires i <= |group| && Permuted(group) && |offsets| == |group| + 1
  {
    && PartsDeclared(offsets, s.env, MaxOrder(group, i))
    && s.env[Base] == (if i == 0 then 0 else offsets[group[i - 1].order])
    && PlacedSoFar(group, offsets, i, s.offsets)
  }

  /** Assigning the offset of tensor `i` and binding it there. */
  lemma {:induction false} AssignAndPlace(group: seq<Share>, offsets: seq<nat>, s: State, i: nat, m: int)
    requires Permuted(group) && OffsetsOf(group, offsets) && i < |group| && m == MaxOrder(group, i + 1)
    requires PartsDeclared(offsets, s.env, m) && PlacedSoFar(group, offsets, i, s.offsets)
    ensures var next := Step(s, AssignOffset(group[i].order));
            && next.Some? && Step(next.value, Place).Some?
            && Packed(group, offsets, i + 1, Step(next.value, Place).value)
  {
    var o := group[i].order;
    AssignValue(offsets, s, o, m);
    assert PartsDeclared(offsets, s.env[Base := offsets[o]], m);
  }

  lemma {:induction false} AssignValue(offsets: seq<nat>, s: State, o: int, m: int)
    requires 0 <= o <= m && PartsDeclared(offsets, s.env, m) && offsets[0] == 0
    ensures Step(s, AssignOffset(o)) == Some(s.(env := s.env[Base := offsets[o]]))
  {
  }

  /** As long as no constant is declared, the base is still 0. */
  lemma {:induction false} BaseStillZero(group: seq<Share>, offsets: seq<nat>, i: nat, s: State)
    requires Permuted(group) && OffsetsOf(group, offsets) && i <= |group|
    requires Packed(group, offsets, i, s) && MaxOrder(group, i) <= 0
    ensures s.env[Base] == 0
  {
  }

  /** The statements of an output of an ordered group, without the declaration of the base. */
  function OrderedStmts(group: seq<Share>, i: nat): seq<Stmt>
    requires i < |group|
  {
    PartDefs(group, MaxOrder(group, i) + 1, group[i].order) + [AssignOffset(group[i].order)]
  }

  lemma {:induction false} RunOutput(group: seq<Share>, offsets: seq<nat>, i: nat, s: State)
    requires Permuted(group) && OffsetsOf(group, offsets) && i < |group| && Packed(group, offsets, i, s)
    ensures var after := Run(s, OrderedStmts(group, i) + [Place]);
            after.Some? && Packed(group, offsets, i + 1, after.value)
  {
    var o, m := group[i].order, MaxOrder(group, i);
    var defs := PartDefs(group, m + 1, o);
    if m <= 0 { BaseStillZero(group, offsets, i, s); }
    RunParts(group, offsets, s, m + 1, o);
    AssignAndPlace(group, offsets, Run(s, defs).value, i, if o < m + 1 then m else o);
    RunLastTwo(s, defs, AssignOffset(o), Place);
  }

  const DECLARED := State(map[Base := 0], [])

  lemma {:induction false} RunFirst(rest: seq<Stmt>)
    ensures Run(START, [Declare(Base, Zero)] + rest + [Place]) == Run(DECLARED, rest + [Place])
  {
    RunOne(START, Declare(Base, Zero));
    RunConcat(START, [Declare(Base, Zero)], rest + [Place]);
    assert [Declare(Base, Zero)] + rest + [Place] == [Declare(Base, Zero)] + (rest + [Place]);
  }

  lemma {:induction false} RunGroupStep(group: seq<Share>, n: nat, stmts: seq<Stmt>)
    requires n < |group| && RunGroup(group, n).Some? && OutputStmts(group, n) == stmts
    ensures RunGroup(group, n + 1) == Run(RunGroup(group, n).value, stmts + [Place])
  {
  }

  lemma {:induction false} FirstPacked(group: seq<Share>, offsets: seq<nat>)
    requires Permuted(group) && OffsetsOf(group, offsets) && 1 < |group|
    ensures RunGroup(group, 1).Some? && Packed(group, offsets, 1, RunGroup(group, 1).value)
  {
    assert RunGroup(group, 0) == Some(START);
    RunGroupStep(group, 0, [Declare(Base, Zero)] + OrderedStmts(group, 0));
    RunFirst(OrderedStmts(group, 0));
    assert Packed(group, offsets, 0, DECLARED);
    RunOutput(group, offsets, 0, DECLARED);
  }

  /** The first `n` tensors run without error and are packed. */
  ghost predicate RunsPacked(group: seq<Share>, offsets: seq<nat>, n: nat)
    requires n <= |group| && Permuted(group) && |offsets| == |group| + 1
  {
    RunGroup(group, n).Some? && Packed(group, offsets, n, RunGroup(group, n).value)
  }

  lemma {:induction false} NextPacked(group: seq<Share>, offsets: seq<nat>, n: nat)
    requires Permuted(group) && OffsetsOf(group, offsets) && 0 < n < |group| && RunsPacked(group, offsets, n)
    ensures RunsPacked(group, offsets, n + 1)
  {
    RunOutput(group, offsets, n, RunGroup(group, n).value);
    LaterStmts(group, n);
    RunGroupStep(group, n, OrderedStmts(group, n));
  }

  lemma {:induction false} LaterStmts(group: seq<Share>, n: nat)
    requires Permuted(group) && 0 < n < |group|
    ensures OutputStmts(group, n) == OrderedStmts(group, n)
  {
    assert [] + OrderedStmts(group, n) == OrderedStmts(group, n);
  }

  lemma {:induction false} GroupPacked(group: seq<Share>, offsets: seq<nat>, n: nat)
    requires Permuted(group) && OffsetsOf(group, offsets) && 1 < |group| && n < |group|
    ensures RunsPacked(group, offsets, n + 1)
  {
    if n == 0 {
      FirstPacked(group, offsets);
    } else {
      GroupPacked(group, offsets, n - 1);
      NextPacked(group, offsets, n);
    }
  }

  /** Whatever the load order: every variable is declared once and before its use, and every tensor is
      placed behind exactly those ordered before it. */
  lemma {:induction false} OrderedOffsets(group: seq<Share>)
    requires Permuted(group) && 2 <= |group|
    ensures var after := RunGroup(group, |group|);
            && after.Some? && |after.value.offsets| == |group|
            && forall i | 0 <= i < |group| :: after.value.offsets[i] == Wrap(Below(group, group[i].order))
  {
    OffsetsStep(group);
    GroupPacked(group, Offsets(group, |group|), |group| - 1);
  }

  /** The emitter never stumbles over such a group. */
  lemma {:induction false} OrderedNeverFails(group: seq<Share>, i: nat)
    requires Permuted(group) && i < |group|
    ensures Distinct(group) && NoGap(group, i)
  {
    forall k | 0 <= k < group[i].order ensures HasOrder(group, k) {
      EveryOrder(group, k);
    }
  }

  predicate Unordered(group: seq<Share>) {
    forall s | s in group :: s.order == -1
  }

  lemma TotalStep(group: seq<Share>, n: nat)
    requires n < |group|
    ensures Total(group[..n + 1]) == Total(group[..n]) + group[n].bytes
  {
    assert group[..n + 1][..n] == group[..n];
  }

  lemma UnorderedStmts(group: seq<Share>, n: nat)
    requires Unordered(group) && n < |group|
    ensures OutputStmts(group, n)
         == if n == 0 then [Declare(Base, Zero)] else [Assign(Base, Sum(Base, group[n - 1].bytes))]
  {
    assert group[n] in group;
  }

  lemma FirstUnordered(group: seq<Share>)
    requires Unordered(group) && group != []
    ensures RunGroup(group, 1) == Some(State(map[Base := 0], [0]))
  {
    assert RunGroup(group, 0) == Some(START);
    UnorderedStmts(group, 0);
    RunGroupStep(group, 0, [Declare(Base, Zero)]);
    RunPair(START, Declare(Base, Zero), Place);
    assert Step(START, Declare(Base, Zero)) == Some(DECLARED);
    assert DECLARED.offsets + [0] == [0];
  }

  /** One more tensor without an order: the base moves past the one before. */
  lemma NextUnordered(group: seq<Share>, n: nat, s: State)
    requires Unordered(group) && 0 < n < |group| && RunGroup(group, n) == Some(s)
    ensures RunGroup(group, n + 1) == Run(s, [Assign(Base, Sum(Base, group[n - 1].bytes))] + [Place])
  {
    UnorderedStmts(group, n);
    RunGroupStep(group, n, [Assign(Base, Sum(Base, group[n - 1].bytes))]);
  }

  /** Without orders the base variable keeps a running sum. */
  lemma {:induction false} UnorderedOffsets(group: seq<Share>, n: nat)
    requires Unordered(group) && 0 < n <= |group|
    ensures RunGroup(group, n) == Some(State(map[Base := Wrap(Total(group[..n - 1]))], RunningSums(group, n)))
  {
    if n == 1 {
      FirstUnordered(group);
      assert Total(group[..0]) == 0 && RunningSums(group, 0) == [] && Wrap(0) == 0;
    } else {
      UnorderedOffsets(group, n - 1);
      var x := Wrap(Total(group[..n - 2]));
      NextUnordered(group, n - 1, State(map[Base := x], RunningSums(group, n - 1)));
      AddAndPlace(x, group[n - 2].bytes, RunningSums(group, n - 1));
      WrapSum(Total(group[..n - 2]), group[n - 2].bytes);
      TotalStep(group, n - 2);
    }
  }

  lemma {:induction false} AddAndPlace(x: nat, bytes: nat, offsets: seq<nat>)
    ensures Run(State(map[Base := x], offsets), [Assign(Base, Sum(Base, bytes))] + [Place])
         == Some(State(map[Base := Wrap(x + bytes)], offsets + [Wrap(x + bytes)]))
  {
    RunPair(State(map[Base := x], offsets), Assign(Base, Sum(Base, bytes)), Place);
    assert map[Base := x][Base := Wrap(x + bytes)] == map[Base := Wrap(x + bytes)];
  }

  lemma {:induction false} RunPair(s: State, x: Stmt, y: Stmt)
    requires Step(s, x).Some?
    ensures Run(s, [x] + [y]) == Step(Step(s, x).value, y)
  {
    RunLastTwo(s, [], x, y);
    assert [] + [x] + [y] == [x] + [y];
  }

  /** Each tensor sits behind all those loaded before it. */
  function RunningSums(group: seq<Share>, n: nat): seq<nat>
    requires n <= |group|
  {
    if n == 0 then [] else RunningSums(group, n - 1) + [Wrap(Total(group[..n - 1]))]
  }

  lemma {:induction false} RunningSumsAt(group: seq<Share>, n: nat, i: nat)
    requires i < n <= |group|
    ensures |RunningSums(group, n)| == n && RunningSums(group, n)[i] == Wrap(Total(group[..i]))
  {
    if i < n - 1 {
      RunningSumsAt(group, n - 1, i);
    } else if 0 < i {
      RunningSumsAt(group, n - 1, 0);
    }
  }

  lemma {:induction false} TotalPrefix(group: seq<Share>, i: nat, j: nat)
    requires i < j <= |group|
    ensures Total(group[..i]) + group[i].bytes <= Total(group[..j])
  {
    TotalStep(group, j - 1);
    if i < j - 1 { TotalPrefix(group, i, j - 1); }
  }

  // ---------- slots and the size of the queue ----------

  /** The slots of two tensors do not overlap, and all slots end within the bytes of the group. */
  lemma {:induction false} SlotsDisjoint(group: seq<Share>, i: nat, j: nat)
    requires Permuted(group) && i < |group| && j < |group| && group[i].order < group[j].order
    ensures Below(group, group[i].order) + group[i].bytes <= Below(group, group[j].order)
    ensures Below(group, group[j].order) + group[j].bytes <= Total(group)
  {
    BytesOfOnly(group, i);
    BytesOfOnly(group, j);
    BelowStep(group, group[i].order);
    BelowStep(group, group[j].order);
    BelowMonotone(group, group[i].order + 1, group[j].order);
    BelowMonotone(group, group[j].order + 1, |group|);
    BelowEnds(group, |group|);
  }

  /** A queue: the sizes of its merge scopes, its single tensors, and its groups by reuse id. */
  datatype Queue = Queue(scopes: seq<nat>, singles: seq<nat>, groups: seq<seq<nat>>)

  function SumOf(sizes: seq<nat>): nat {
    if sizes == [] then 0 else SumOf(sizes[..|sizes| - 1]) + sizes[|sizes| - 1]
  }

  predicate Demand(q: Queue, x: nat) {
    || x in q.scopes || x in q.singles
    || exists g :: 0 <= g < |q.groups| && 1 < |q.groups[g]| && x == SumOf(q.groups[g])
  }

  /** The size reserved for a queue: the greatest of its scopes, tensors and groups of several tensors. */
  method LocalTQueAlloc(q: Queue) returns (size: nat)
    ensures forall x: nat | Demand(q, x) :: x <= size
    ensures size == 0 || Demand(q, size)
  {
    size := 0;
    var i := 0;
    while i < |q.scopes|
      invariant 0 <= i <= |q.scopes| && (size == 0 || Demand(q, size))
      invariant forall j | 0 <= j < i :: q.scopes[j] <= size
    {
      size := if q.scopes[i] > size then q.scopes[i] else size;
      i := i + 1;
    }
    i := 0;
    while i < |q.singles|
      invariant 0 <= i <= |q.singles| && (size == 0 || Demand(q, size))
      invariant forall j | 0 <= j < |q.scopes| :: q.scopes[j] <= size
      invariant forall j | 0 <= j < i :: q.singles[j] <= size
    {
      size := if q.singles[i] > size then q.singles[i] else size;
      i := i + 1;
    }
    i := 0;
    while i < |q.groups|
      invariant 0 <= i <= |q.groups| && (size == 0 || Demand(q, size))
      invariant forall j | 0 <= j < |q.scopes| :: q.scopes[j] <= size
      invariant forall j | 0 <= j < |q.singles| :: q.singles[j] <= size
      invariant forall j | 0 <= j < i && 1 < |q.groups[j]| :: SumOf(q.groups[j]) <= size
    {
      if 1 < |q.groups[i]| {
        var sum := GroupSize(q.groups[i]);
        size := if sum > size then sum else size;
      }
      i := i + 1;
    }
  }

  method GroupSize(sizes: seq<nat>) returns (sum: nat)
    ensures sum == SumOf(sizes)
  {
    sum := 0;
    var i := 0;
    while i < |sizes|
      invariant 0 <= i <= |sizes| && sum == SumOf(sizes[..i])
    {
      assert sizes[..i + 1][..i] == sizes[..i];
      sum := sum + sizes[i];
      i := i + 1;
    }
    assert sizes[..i] == sizes;
  }

  function SizesOf(group: seq<Share>): seq<nat> {
    if group == [] then [] else SizesOf(group[..|group| - 1]) + [group[|group| - 1].bytes]
  }

  lemma {:induction false} SumIsTotal(group: seq<Share>)
    ensures SumOf(SizesOf(group)) == Total(group) && |SizesOf(group)| == |group|
  {
    if group != [] { SumIsTotal(group[..|group| - 1]); }
  }

  lemma {:induction false} BelowPlusOwn(group: seq<Share>, i: nat)
    requires Permuted(group) && i < |group|
    ensures Below(group, group[i].order) + group[i].bytes <= Total(group)
  {
    BytesOfOnly(group, i);
    BelowStep(group, group[i].order);
    BelowMonotone(group, group[i].order + 1, |group|);
    BelowEnds(group, |group|);
  }

  /** The slots of tensors `i` and `j` lie within `size` bytes and do not overlap. */
  predicate Apart(group: seq<Share>, offsets: seq<nat>, size: nat, i: nat, j: nat)
    requires i < |group| && j < |group| && |offsets| == |group|
  {
    && offsets[i] + group[i].bytes <= size && offsets[j] + group[j].bytes <= size
    && (offsets[i] + group[i].bytes <= offsets[j] || offsets[j] + group[j].bytes <= offsets[i])
  }

  lemma {:induction false} OrderedApart(group: seq<Share>, i: nat, j: nat)
    requires Permuted(group) && 2 <= |group| && i < |group| && j < |group| && i != j && Total(group) < WORD
    ensures var after := RunGroup(group, |group|);
            after.Some? && |after.value.offsets| == |group| && Apart(group, after.value.offsets, Total(group), i, j)
  {
    OrderedOffsets(group);
    BelowPlusOwn(group, i);
    BelowPlusOwn(group, j);
    if group[i].order < group[j].order {
      SlotsDisjoint(group, i, j);
    } else {
      SlotsDisjoint(group, j, i);
    }
  }

  lemma {:induction false} UnorderedApart(group: seq<Share>, i: nat, j: nat)
    requires Unordered(group) && 2 <= |group| && i < |group| && j < |group| && i != j && Total(group) < WORD
    ensures var after := RunGroup(group, |group|);
            after.Some? && |after.value.offsets| == |group| && Apart(group, after.value.offsets, Total(group), i, j)
  {
    assert group[..|group|] == group;
    UnorderedOffsets(group, |group|);
    RunningSumsAt(group, |group|, i);
    RunningSumsAt(group, |group|, j);
    TotalPrefix(group, i, |group|);
    TotalPrefix(group, j, |group|);
    if i < j { TotalPrefix(group, i, j); } else { TotalPrefix(group, j, i); }
  }

  /** If the queue is smaller than 2^32 bytes, all tensors of a group lie within it without overlap,
      whether they are ordered or not. */
  lemma {:induction false} PackedWithoutOverlap(group: seq<Share>, q: Queue, g: nat, size: nat, i: nat, j: nat)
    requires Permuted(group) || Unordered(group)
    requires 2 <= |group| && i < |group| && j < |group| && i != j
    requires g < |q.groups| && q.groups[g] == SizesOf(group)
    requires (forall x: nat | Demand(q, x) :: x <= size) && size < WORD
    ensures var after := RunGroup(group, |group|);
            after.Some? && |after.value.offsets| == |group| && Apart(group, after.value.offsets, size, i, j)
  {
    SumIsTotal(group);
    assert Demand(q, Total(group));
    if Permuted(group) { OrderedApart(group, i, j); } else { UnorderedApart(group, i, j); }
  }
}
