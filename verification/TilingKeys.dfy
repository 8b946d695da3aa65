/**
 Tiling keys. Three generators number the ways to choose one implementation per group by
 the same depth-first product: the kernel's branches, the host's search for a key, and the
 table of kernel types. The kernel skips fallback results and drops empty groups; the host
 does neither.
 */
module TilingKeys {
  import opened Arithmetic
  import opened Options

  /** An implementation of a group of a result; `workspace` tells whether its graph has a workspace node. */
  datatype Pick = Pick(result: nat, group: nat, impl: nat, workspace: bool)

  /** A schedule result lists for each group which implementations have a workspace node. */
  datatype Result = Result(fallback: bool, groupParallel: bool, groups: seq<seq<bool>>)

  // ---------- depth-first products ----------

  function PrependAll(x: Pick, tails: seq<seq<Pick>>): (r: seq<seq<Pick>>)
    ensures |r| == |tails| && forall i | 0 <= i < |tails| :: r[i] == [x] + tails[i]
  {
    if tails == [] then [] else PrependAll(x, tails[..|tails| - 1]) + [[x] + tails[|tails| - 1]]
  }

  /** `n * w`, by repeated addition. */
  function Times(n: nat, w: nat): nat {
    if n == 0 then 0 else Times(n - 1, w) + w
  }

  lemma {:induction false} TimesIs(n: nat, w: nat)
    ensures Times(n, w) == n * w
  {
    if 0 < n {
      TimesIs(n - 1, w);
    }
  }

  /** The first `n` elements of `xs`, each followed by every tail. */
  function Spread(xs: seq<Pick>, n: nat, tails: seq<seq<Pick>>): (r: seq<seq<Pick>>)
    requires n <= |xs|
    ensures |r| == Times(n, |tails|)
  {
    if n == 0 then [] else Spread(xs, n - 1, tails) + PrependAll(xs[n - 1], tails)
  }

  function Size(groups: seq<seq<Pick>>): nat {
    if groups == [] then 1 else Times(|groups[0]|, Size(groups[1..]))
  }

  /** All ways to choose one element per group, in depth-first order. */
  function Product(groups: seq<seq<Pick>>): (r: seq<seq<Pick>>)
    ensures |r| == Size(groups)
  {
    if groups == [] then [[]] else Spread(groups[0], |groups[0]|, Product(groups[1..]))
  }

  // ---------- the numbering ----------

  /** One index per group, each within its group. */
  predicate InRange(groups: seq<seq<Pick>>, ks: seq<int>) {
    |ks| == |groups| && forall j | 0 <= j < |ks| :: 0 <= ks[j] < |groups[j]|
  }

  /** The indices as digits, the first group most significant. */
  function MixedRadix(groups: seq<seq<Pick>>, ks: seq<int>): (n: int)
    requires InRange(groups, ks)
  {
    if groups == [] then 0
    else
      assert InRange(groups[1..], ks[1..]);
      Times(ks[0], Size(groups[1..])) + MixedRadix(groups[1..], ks[1..])
  }

  function Chosen(groups: seq<seq<Pick>>, ks: seq<int>): (r: seq<Pick>)
    requires InRange(groups, ks)
    ensures |r| == |groups| && forall j | 0 <= j < |r| :: r[j] == groups[j][ks[j]]
  {
    if groups == [] then []
    else
      assert InRange(groups[1..], ks[1..]);
      [groups[0][ks[0]]] + Chosen(groups[1..], ks[1..])
  }

  lemma {:induction false} SpreadAt(xs: seq<Pick>, n: nat, tails: seq<seq<Pick>>, k: nat, m: nat)
    requires k < n <= |xs| && m < |tails|
    ensures Times(k, |tails|) + m < Times(n, |tails|)
    ensures Spread(xs, n, tails)[Times(k, |tails|) + m] == [xs[k]] + tails[m]
  {
    if k < n - 1 {
      SpreadAt(xs, n - 1, tails, k, m);
    }
  }

  /** A choice stands at the place that its indices spell, the first group most significant. */
  lemma {:induction false} ProductAt(groups: seq<seq<Pick>>, ks: seq<int>)
    requires InRange(groups, ks)
    ensures 0 <= MixedRadix(groups, ks) < Size(groups)
    ensures Product(groups)[MixedRadix(groups, ks)] == Chosen(groups, ks)
  {
    if groups != [] {
      assert InRange(groups[1..], ks[1..]);
      ProductAt(groups[1..], ks[1..]);
      SpreadAt(groups[0], |groups[0]|, Product(groups[1..]), ks[0], MixedRadix(groups[1..], ks[1..]));
    }
  }

  lemma FirstDigit(n: nat, l: nat, w: nat)
    requires n < Times(l, w)
    ensures 0 < w && n / w < l && n == Times(n / w, w) + n % w
  {
    TimesIs(l, w);
    DivLess(n, w, l);
    TimesIs(n / w, w);
  }

  /** The indices of the choice at place `n`. */
  function IndicesAt(groups: seq<seq<Pick>>, n: nat): (ks: seq<int>)
    requires n < Size(groups)
    ensures InRange(groups, ks) && MixedRadix(groups, ks) == n
  {
    if groups == [] then []
    else
      var w := Size(groups[1..]);
      FirstDigit(n, |groups[0]|, w);
      [n / w] + IndicesAt(groups[1..], n % w)
  }

  // ---------- the recursive generators ----------

  datatype Numbered = Numbered(key: nat, choice: seq<Pick>)

  /** The first `n` tails behind the choice `current`, numbered from `key` on. */
  function EmittedTo(key: nat, current: seq<Pick>, tails: seq<seq<Pick>>, n: nat): (r: seq<Numbered>)
    requires n <= |tails|
    ensures |r| == n
  {
    if n == 0 then [] else EmittedTo(key, current, tails, n - 1) + [Numbered(key + n - 1, current + tails[n - 1])]
  }

  function Emitted(key: nat, current: seq<Pick>, tails: seq<seq<Pick>>): (r: seq<Numbered>)
    ensures |r| == |tails|
  {
    EmittedTo(key, current, tails, |tails|)
  }

  lemma {:induction false} EmittedToAt(key: nat, current: seq<Pick>, tails: seq<seq<Pick>>, n: nat, i: nat)
    requires i < n <= |tails|
    ensures EmittedTo(key, current, tails, n)[i] == Numbered(key + i, current + tails[i])
  {
    if i < n - 1 { EmittedToAt(key, current, tails, n - 1, i); }
  }

  lemma EmittedAt(key: nat, current: seq<Pick>, tails: seq<seq<Pick>>, i: nat)
    requires i < |tails|
    ensures Emitted(key, current, tails)[i] == Numbered(key + i, current + tails[i])
  {
    EmittedToAt(key, current, tails, |tails|, i);
  }

  lemma EmittedConcat(key: nat, current: seq<Pick>, a: seq<seq<Pick>>, b: seq<seq<Pick>>)
    ensures Emitted(key, current, a + b) == Emitted(key, current, a) + Emitted(key + |a|, current, b)
  {
    var l, r := Emitted(key, current, a + b), Emitted(key, current, a) + Emitted(key + |a|, current, b);
    forall i | 0 <= i < |a| + |b| ensures l[i] == r[i] {
      EmittedAt(key, current, a + b, i);
      if i < |a| { EmittedAt(key, current, a, i); } else { EmittedAt(key + |a|, current, b, i - |a|); }
    }
  }

  /** An element pushed to the choice or prepended to every tail makes no difference. */
  lemma {:induction false} EmittedPush(key: nat, current: seq<Pick>, x: Pick, tails: seq<seq<Pick>>)
    ensures Emitted(key, current, PrependAll(x, tails)) == Emitted(key, current + [x], tails)
  {
    var a, b := Emitted(key, current, PrependAll(x, tails)), Emitted(key, current + [x], tails);
    forall i | 0 <= i < |tails| ensures a[i] == b[i] {
      EmittedAt(key, current, PrependAll(x, tails), i);
      EmittedAt(key, current + [x], tails, i);
      assert current + ([x] + tails[i]) == current + [x] + tails[i];
    }
  }

  /** The state that the recursive generators share: the choice so far, the next key, and what was emitted. */
  class Generator {
    var current: seq<Pick>
    var tilingKey: nat
    var out: seq<Numbered>

    constructor ()
      ensures current == [] && tilingKey == 0 && out == []
    {
      current, tilingKey, out := [], 0, [];
    }

    /** Emits all ways to complete the current choice from group `depth` on. */
    method Append(groups: seq<seq<Pick>>, depth: nat)
      requires depth <= |groups|
      modifies this
      ensures current == old(current)
      ensures tilingKey == old(tilingKey) + Size(groups[depth..])
      ensures out == old(out) + Emitted(old(tilingKey), old(current), Product(groups[depth..]))
      decreases |groups| - depth
    {
      if depth == |groups| {
        EmitLeaf(tilingKey, current);
        out := out + [Numbered(tilingKey, current)];
        tilingKey := tilingKey + 1;
        return;
      }
      ghost var tails := Product(groups[depth + 1..]);
      ghost var start := Progress(current, tilingKey, out);
      NothingEmitted(groups[depth], tails, start);
      var i := 0;
      while i < |groups[depth]|
        invariant 0 <= i <= |groups[depth]| && current == start.current
        invariant EmittedFor(groups[depth], i, tails, start, Progress(current, tilingKey, out))
      {
        ghost var here := Progress(current, tilingKey, out);
        current := current + [groups[depth][i]];
        Append(groups, depth + 1);
        current := current[..|current| - 1];
        EmittedOneMore(groups[depth], i, tails, start, here);
        i := i + 1;
      }
      AllEmitted(groups, depth, start, Progress(current, tilingKey, out));
    }
  }

  datatype Progress = Progress(current: seq<Pick>, key: nat, out: seq<Numbered>)

  /** What is emitted for the first `i` elements of a group; to be unfolded only where `Spread` is mentioned. */
  ghost predicate EmittedFor(xs: seq<Pick>, i: nat, tails: seq<seq<Pick>>, start: Progress, now: Progress) {
    forall n {:trigger Spread(xs, n, tails)} | 0 <= n == i <= |xs| ::
      var done := Spread(xs, n, tails);
      now.key == start.key + |done| && now.out == start.out + Emitted(start.key, start.current, done)
  }

  lemma NothingEmitted(xs: seq<Pick>, tails: seq<seq<Pick>>, start: Progress)
    ensures EmittedFor(xs, 0, tails, start, start)
  {
    assert start.out + [] == start.out;
  }

  lemma EmittedOneMore(xs: seq<Pick>, i: nat, tails: seq<seq<Pick>>, start: Progress, here: Progress)
    requires i < |xs| && EmittedFor(xs, i, tails, start, here) && here.current == start.current
    ensures EmittedFor(xs, i + 1, tails, start,
              Progress(here.current, here.key + |tails|, here.out + Emitted(here.key, here.current + [xs[i]], tails)))
  {
    EmitStep(xs, i, tails, start.current, start.key, start.out);
  }

  lemma AllEmitted(groups: seq<seq<Pick>>, depth: nat, start: Progress, now: Progress)
    requires depth < |groups|
    requires EmittedFor(groups[depth], |groups[depth]|, Product(groups[depth + 1..]), start, now)
    ensures now.key == start.key + Size(groups[depth..])
    ensures now.out == start.out + Emitted(start.key, start.current, Product(groups[depth..]))
  {
    assert groups[depth..][1..] == groups[depth + 1..];
    var done := Spread(groups[depth], |groups[depth]|, Product(groups[depth + 1..]));
    assert done == Product(groups[depth..]);
  }

  lemma EmitLeaf(key: nat, current: seq<Pick>)
    ensures Emitted(key, current, [[]]) == [Numbered(key, current)]
  {
    EmittedAt(key, current, [[]], 0);
    assert current + [] == current;
  }

  lemma EmitStep(xs: seq<Pick>, i: nat, tails: seq<seq<Pick>>, prefix: seq<Pick>, key: nat, before: seq<Numbered>)
    requires i < |xs|
    ensures var done, next := Spread(xs, i, tails), Spread(xs, i + 1, tails);
            && |next| == |done| + |tails|
            && before + Emitted(key, prefix, done) + Emitted(key + |done|, prefix + [xs[i]], tails)
               == before + Emitted(key, prefix, next)
  {
    var done := Spread(xs, i, tails);
    EmittedConcat(key, prefix, done, PrependAll(xs[i], tails));
    EmittedPush(key + |done|, prefix, xs[i], tails);
    Associate(before, Emitted(key, prefix, done), Emitted(key + |done|, prefix + [xs[i]], tails));
  }

  lemma Associate(a: seq<Numbered>, b: seq<Numbered>, c: seq<Numbered>)
    ensures a + b + c == a + (b + c)
  {
  }

  // ---------- what each side enumerates ----------

  /** The first `n` implementations of a group. */
  function Picks(result: nat, group: nat, impls: seq<bool>, n: nat): (r: seq<Pick>)
    requires n <= |impls|
    ensures |r| == n && forall k | 0 <= k < n :: r[k] == Pick(result, group, k, impls[k])
  {
    if n == 0 then [] else Picks(result, group, impls, n - 1) + [Pick(result, group, n - 1, impls[n - 1])]
  }

  /** The host keeps every group. */
  function HostGroups(i: nat, r: Result, n: nat): (gs: seq<seq<Pick>>)
    requires n <= |r.groups|
    ensures |gs| == n && forall j | 0 <= j < n :: gs[j] == Picks(i, j, r.groups[j], |r.groups[j]|)
  {
    if n == 0 then [] else HostGroups(i, r, n - 1) + [Picks(i, n - 1, r.groups[n - 1], |r.groups[n - 1]|)]
  }

  /** The kernel drops empty groups. */
  function KernelGroups(i: nat, r: Result, n: nat): seq<seq<Pick>>
    requires n <= |r.groups|
  {
    if n == 0 then []
    else if r.groups[n - 1] == [] then KernelGroups(i, r, n - 1)
    else KernelGroups(i, r, n - 1) + [Picks(i, n - 1, r.groups[n - 1], |r.groups[n - 1]|)]
  }

  function HostChoices(i: nat, r: Result): seq<seq<Pick>> {
    Product(HostGroups(i, r, |r.groups|))
  }

  /** The kernel skips fallback results. */
  function KernelChoices(i: nat, r: Result): seq<seq<Pick>> {
    if r.fallback then [] else Product(KernelGroups(i, r, |r.groups|))
  }

  /** What each side lists, result by result. */
  function HostParts(plan: seq<Result>, n: nat): (parts: seq<seq<seq<Pick>>>)
    requires n <= |plan|
    ensures |parts| == n
  {
    if n == 0 then [] else HostParts(plan, n - 1) + [HostChoices(n - 1, plan[n - 1])]
  }

  function KernelParts(plan: seq<Result>, n: nat): (parts: seq<seq<seq<Pick>>>)
    requires n <= |plan|
    ensures |parts| == n
  {
    if n == 0 then [] else KernelParts(plan, n - 1) + [KernelChoices(n - 1, plan[n - 1])]
  }

  lemma {:induction false} PartsAt(plan: seq<Result>, n: nat, i: nat)
    requires i < n <= |plan|
    ensures HostParts(plan, n)[i] == HostChoices(i, plan[i]) && KernelParts(plan, n)[i] == KernelChoices(i, plan[i])
  {
    if i < n - 1 { PartsAt(plan, n - 1, i); }
  }

  /** All parts from `i` on, in a row. */
  function Flat(parts: seq<seq<seq<Pick>>>, i: nat): seq<seq<Pick>>
    requires i <= |parts|
    decreases |parts| - i
  {
    if i == |parts| then [] else parts[i] + Flat(parts, i + 1)
  }

  /** The choices of all results; a choice's key is its place. */
  function HostKeys(plan: seq<Result>): seq<seq<Pick>> {
    Flat(HostParts(plan, |plan|), 0)
  }

  function KernelKeys(plan: seq<Result>): seq<seq<Pick>> {
    Flat(KernelParts(plan, |plan|), 0)
  }

  /** How many choices the parts before `i` have. */
  function Base(parts: seq<seq<seq<Pick>>>, i: nat): nat
    requires i <= |parts|
  {
    if i == 0 then 0 else Base(parts, i - 1) + |parts[i - 1]|
  }

  lemma {:induction false} FlatAt(parts: seq<seq<seq<Pick>>>, i: nat, j: nat, n: nat)
    requires i <= j < |parts| && n < |parts[j]|
    ensures 0 <= Base(parts, j) - Base(parts, i) + n < |Flat(parts, i)|
    ensures Flat(parts, i)[Base(parts, j) - Base(parts, i) + n] == parts[j][n]
    decreases j - i
  {
    if i < j {
      FlatAt(parts, i + 1, j, n);
    }
  }

  lemma FlatStep(parts: seq<seq<seq<Pick>>>, i: nat, done: seq<seq<Pick>>)
    requires i < |parts| && done + Flat(parts, i) == Flat(parts, 0)
    ensures done + parts[i] + Flat(parts, i + 1) == Flat(parts, 0)
  {
    AssociateChoices(done, parts[i], Flat(parts, i + 1));
  }

  lemma AssociateChoices(a: seq<seq<Pick>>, b: seq<seq<Pick>>, c: seq<seq<Pick>>)
    ensures a + b + c == a + (b + c)
  {
  }

  // ---------- the generators for a whole plan ----------

  method CollectGroups(i: nat, r: Result, dropEmpty: bool) returns (groups: seq<seq<Pick>>)
    ensures groups == if dropEmpty then KernelGroups(i, r, |r.groups|) else HostGroups(i, r, |r.groups|)
  {
    groups := [];
    var j := 0;
    while j < |r.groups|
      invariant 0 <= j <= |r.groups|
      invariant groups == if dropEmpty then KernelGroups(i, r, j) else HostGroups(i, r, j)
    {
      if !dropEmpty || r.groups[j] != [] {
        groups := groups + [Picks(i, j, r.groups[j], |r.groups[j]|)];
      }
      j := j + 1;
    }
  }

  /** All choices of one result, numbered from `key` on. */
  method EmitResult(groups: seq<seq<Pick>>, key: nat) returns (leaves: seq<Numbered>, next: nat)
    ensures leaves == Emitted(key, [], Product(groups)) && next == key + |Product(groups)|
  {
    var g := new Generator();
    g.tilingKey := key;
    g.Append(groups, 0);
    assert groups[0..] == groups && [] + Emitted(key, [], Product(groups)) == Emitted(key, [], Product(groups));
    leaves, next := g.out, g.tilingKey;
  }

  /** The kernel's branches: for each key the implementations it calls. */
  method EmitKernelBranches(plan: seq<Result>) returns (branches: seq<Numbered>)
    ensures branches == Emitted(0, [], KernelKeys(plan))
  {
    branches := [];
    ghost var parts, done := KernelParts(plan, |plan|), [];
    var tilingKey: nat := 0;
    var i := 0;
    assert [] + Flat(parts, 0) == Flat(parts, 0);
    while i < |plan|
      invariant 0 <= i <= |plan| && tilingKey == |done|
      invariant done + Flat(parts, i) == Flat(parts, 0) && branches == Emitted(0, [], done)
    {
      FlatStep(parts, i, done);
      EmittedConcat(0, [], done, parts[i]);
      var leaves;
      leaves, tilingKey := EmitKernelResult(plan, i, tilingKey, parts[i]);
      branches := branches + leaves;
      done := done + parts[i];
      i := i + 1;
    }
    assert done + [] == done;
  }

  /** One result of the kernel; a fallback is skipped. */
  method EmitKernelResult(plan: seq<Result>, i: nat, key: nat, ghost part: seq<seq<Pick>>)
    returns (leaves: seq<Numbered>, next: nat)
    requires i < |plan| && part == KernelParts(plan, |plan|)[i]
    ensures leaves == Emitted(key, [], part) && next == key + |part|
  {
    PartsAt(plan, |plan|, i);
    if plan[i].fallback {
      return [], key;
    }
    var groups := CollectGroups(i, plan[i], true);
    leaves, next := EmitResult(groups, key);
  }

  method EmitHostResult(plan: seq<Result>, i: nat, key: nat, ghost part: seq<seq<Pick>>)
    returns (leaves: seq<Numbered>, next: nat)
    requires i < |plan| && part == HostParts(plan, |plan|)[i]
    ensures leaves == Emitted(key, [], part) && next == key + |part|
  {
    PartsAt(plan, |plan|, i);
    var groups := CollectGroups(i, plan[i], false);
    leaves, next := EmitResult(groups, key);
  }

  /** The blocks of the search have the keys from the base of their result on. */
  predicate SearchBlocks(parts: seq<seq<seq<Pick>>>, blocks: seq<seq<Numbered>>) {
    |blocks| <= |parts| && forall i {:trigger BlockAt(parts, blocks, i)} | 0 <= i < |blocks| :: BlockAt(parts, blocks, i)
  }

  predicate BlockAt(parts: seq<seq<seq<Pick>>>, blocks: seq<seq<Numbered>>, i: nat)
    requires i < |blocks| && i < |parts|
  {
    blocks[i] == Emitted(Base(parts, i), [], parts[i])
  }

  lemma SearchBlocksStep(parts: seq<seq<seq<Pick>>>, blocks: seq<seq<Numbered>>, leaves: seq<Numbered>)
    requires SearchBlocks(parts, blocks) && |blocks| < |parts|
    requires leaves == Emitted(Base(parts, |blocks|), [], parts[|blocks|])
    ensures SearchBlocks(parts, blocks + [leaves])
  {
    var all := blocks + [leaves];
    forall i | 0 <= i < |all| ensures BlockAt(parts, all, i) {
      if i < |blocks| { assert BlockAt(parts, blocks, i); }
    }
  }

  /** The host's search: for each result its conditions and the keys they return. */
  method GenMulGroupFindBestTilingKey(plan: seq<Result>) returns (blocks: seq<seq<Numbered>>)
    ensures |blocks| == |plan| && SearchBlocks(HostParts(plan, |plan|), blocks)
  {
    ghost var parts := HostParts(plan, |plan|);
    var tilingKey: nat := 0;
    blocks := [];
    var i := 0;
    while i < |plan|
      invariant 0 <= i <= |plan| && |blocks| == i && tilingKey == Base(parts, i) && SearchBlocks(parts, blocks)
    {
      var leaves;
      leaves, tilingKey := EmitHostResult(plan, i, tilingKey, parts[i]);
      SearchBlocksStep(parts, blocks, leaves);
      blocks := blocks + [leaves];
      i := i + 1;
    }
  }

  predicate AnyGroupParallel(plan: seq<Result>) {
    exists i :: 0 <= i < |plan| && plan[i].groupParallel
  }

  method CanUseTilingKey(plan: seq<Result>) returns (can: bool)
    ensures can == !AnyGroupParallel(plan)
  {
    var i := 0;
    while i < |plan|
      invariant 0 <= i <= |plan| && forall j | 0 <= j < i :: !plan[j].groupParallel
    {
      if plan[i].groupParallel {
        return false;
      }
      i := i + 1;
    }
    can := true;
  }

  /** Which kernels are generated with keys: not those for Inductor, and none with parallel groups or a fallback. */
  predicate UsesTilingKeys(plan: seq<Result>, inductor: bool) {
    !AnyGroupParallel(plan) && !inductor && forall r | r in plan :: !r.fallback
  }

  method HasFallback(plan: seq<Result>) returns (has: bool)
    ensures has <==> exists r | r in plan :: r.fallback
  {
    has := false;
    var i := 0;
    while i < |plan|
      invariant 0 <= i <= |plan| && forall r | r in plan[..i] :: !r.fallback
    {
      if plan[i].fallback {
        return true;
      }
      i := i + 1;
    }
  }

  /** The branches on the key, or nothing where the kernel reads the decision from the tiling data instead. */
  method GenKernelFuncByTilingKey(plan: seq<Result>, inductor: bool) returns (branches: Option<seq<Numbered>>)
    ensures branches.Some? <==> UsesTilingKeys(plan, inductor)
    ensures branches.Some? ==> branches.value == Emitted(0, [], KernelKeys(plan))
  {
    var can := CanUseTilingKey(plan);
    var fallback := HasFallback(plan);
    branches := None;
    if can && !inductor && !fallback {
      var emitted := EmitKernelBranches(plan);
      branches := Some(emitted);
    }
  }

  /** The number of keys, multiplied and added up without enumerating; one if keys cannot be used. */
  method CalcTilingKeyCount(plan: seq<Result>) returns (count: nat)
    ensures count == if AnyGroupParallel(plan) then 1 else |HostKeys(plan)|
  {
    var can := CanUseTilingKey(plan);
    if !can {
      return 1;
    }
    ghost var parts := HostParts(plan, |plan|);
    count := 0;
    var i := 0;
    while i < |plan|
      invariant 0 <= i <= |plan| && count + |Flat(parts, i)| == |Flat(parts, 0)|
    {
      var perResult := CountPart(plan, i, parts[i]);
      count := count + perResult;
      i := i + 1;
    }
  }

  method CountPart(plan: seq<Result>, i: nat, ghost part: seq<seq<Pick>>) returns (count: nat)
    requires i < |plan| && part == HostParts(plan, |plan|)[i]
    ensures count == |part|
  {
    PartsAt(plan, |plan|, i);
    count := CountChoices(i, plan[i]);
  }

  method CountChoices(i: nat, r: Result) returns (count: nat)
    ensures count == |HostChoices(i, r)|
  {
    ghost var gs := HostGroups(i, r, |r.groups|);
    count := 1;
    var j := 0;
    while j < |r.groups|
      invariant 0 <= j <= |r.groups| && count == Size(gs[..j])
    {
      SizeSnoc(gs[..j], gs[j]);
      assert gs[..j] + [gs[j]] == gs[..j + 1];
      count := count * |r.groups[j]|;
      j := j + 1;
    }
    assert gs[..j] == gs;
  }

  lemma {:induction false} SizeSnoc(groups: seq<seq<Pick>>, last: seq<Pick>)
    ensures Size(groups + [last]) == Size(groups) * |last|
  {
    if groups == [] {
      TimesIs(|last|, 1);
    } else {
      SizeSnoc(groups[1..], last);
      assert (groups + [last])[1..] == groups[1..] + [last];
      SizeAssociates(|groups[0]|, Size(groups[1..]), |last|);
    }
  }

  lemma SizeAssociates(l: nat, w: nat, n: nat)
    ensures Times(l, w * n) == Times(l, w) * n
  {
    TimesIs(l, w * n);
    TimesIs(l, w);
    MulAssociates(l, w, n);
  }

  /** Whether any chosen implementation has a workspace node. */
  predicate AnyWorkspace(choice: seq<Pick>) {
    exists i :: 0 <= i < |choice| && choice[i].workspace
  }

  /** The kernel types: for each key whether its choice has a workspace node. */
  method EmitKernelTypes(plan: seq<Result>) returns (types: seq<bool>)
    ensures |types| == |HostKeys(plan)|
    ensures forall key | 0 <= key < |types| :: types[key] == AnyWorkspace(HostKeys(plan)[key])
  {
    types := [];
    ghost var parts, done := HostParts(plan, |plan|), [];
    var tilingKey: nat := 0;
    var i := 0;
    assert [] + Flat(parts, 0) == Flat(parts, 0);
    while i < |plan|
      invariant 0 <= i <= |plan| && |types| == |done| && done + Flat(parts, i) == Flat(parts, 0)
      invariant forall key | 0 <= key < |types| :: types[key] == AnyWorkspace(done[key])
    {
      FlatStep(parts, i, done);
      ghost var key := tilingKey;
      var leaves;
      leaves, tilingKey := EmitHostResult(plan, i, tilingKey, parts[i]);
      var more := TypesOf(leaves, key, parts[i]);
      types := types + more;
      done := done + parts[i];
      i := i + 1;
    }
    assert done + [] == done;
  }

  method TypesOf(leaves: seq<Numbered>, ghost key: nat, ghost choices: seq<seq<Pick>>) returns (types: seq<bool>)
    requires leaves == Emitted(key, [], choices)
    ensures |types| == |choices|
    ensures forall k | 0 <= k < |types| :: types[k] == AnyWorkspace(choices[k])
  {
    types := [];
    var k := 0;
    while k < |leaves|
      invariant 0 <= k <= |leaves| && |types| == k
      invariant forall j | 0 <= j < k :: types[j] == AnyWorkspace(choices[j])
    {
      EmittedAt(key, [], choices, k);
      assert leaves[k].choice == choices[k];
      var has := HasWorkspace(leaves[k].choice);
      types := types + [has];
      k := k + 1;
    }
  }

  method HasWorkspace(choice: seq<Pick>) returns (has: bool)
    ensures has == AnyWorkspace(choice)
  {
    has := false;
    var i := 0;
    while i < |choice|
      invariant 0 <= i <= |choice| && forall j | 0 <= j < i :: !choice[j].workspace
    {
      if choice[i].workspace {
        return true;
      }
      i := i + 1;
    }
  }

  // ---------- when both sides agree ----------

  predicate HasEmptyGroup(r: Result) {
    exists j :: 0 <= j < |r.groups| && r.groups[j] == []
  }

  /** Every result has a group; otherwise the host would emit a condition without terms. */
  predicate Compilable(plan: seq<Result>) {
    forall i | 0 <= i < |plan| :: plan[i].groups != []
  }

  lemma {:induction false} SizeOfEmpty(groups: seq<seq<Pick>>, j: nat)
    requires j < |groups| && groups[j] == []
    ensures Size(groups) == 0
  {
    TimesIs(|groups[0]|, Size(groups[1..]));
    if 0 < j { SizeOfEmpty(groups[1..], j - 1); }
  }

  lemma {:induction false} SizeOfOthers(groups: seq<seq<Pick>>)
    requires forall j | 0 <= j < |groups| :: groups[j] != []
    ensures Size(groups) != 0
  {
    if groups != [] {
      SizeOfOthers(groups[1..]);
      TimesIs(|groups[0]|, Size(groups[1..]));
    }
  }

  lemma {:induction false} KernelGroupsNonEmpty(i: nat, r: Result, n: nat)
    requires n <= |r.groups|
    ensures forall j | 0 <= j < |KernelGroups(i, r, n)| :: KernelGroups(i, r, n)[j] != []
  {
    if 0 < n { KernelGroupsNonEmpty(i, r, n - 1); }
  }

  lemma {:induction false} KernelGroupsAll(i: nat, r: Result, n: nat)
    requires n <= |r.groups| && forall j | 0 <= j < n :: r.groups[j] != []
    ensures KernelGroups(i, r, n) == HostGroups(i, r, n)
  {
    if 0 < n { KernelGroupsAll(i, r, n - 1); }
  }

  lemma {:induction false} KernelGroupsFrom(i: nat, r: Result, n: nat)
    requires n <= |r.groups|
    ensures forall j, k | 0 <= j < |KernelGroups(i, r, n)| && 0 <= k < |KernelGroups(i, r, n)[j]| ::
              KernelGroups(i, r, n)[j][k].result == i
  {
    if 0 < n { KernelGroupsFrom(i, r, n - 1); }
  }

  /** For one result, the two sides list the same choices exactly if it is a fallback with an empty group
      or no fallback and without empty groups; otherwise one side lists nothing, and the other something. */
  lemma ResultAgrees(i: nat, r: Result)
    ensures (r.fallback <==> HasEmptyGroup(r)) ==> KernelChoices(i, r) == HostChoices(i, r)
    ensures r.fallback && !HasEmptyGroup(r) ==> KernelChoices(i, r) == [] && HostChoices(i, r) != []
    ensures !r.fallback && HasEmptyGroup(r) ==> KernelChoices(i, r) != [] && HostChoices(i, r) == []
  {
    var gs, ks := HostGroups(i, r, |r.groups|), KernelGroups(i, r, |r.groups|);
    KernelGroupsNonEmpty(i, r, |r.groups|);
    SizeOfOthers(ks);
    if HasEmptyGroup(r) {
      var j :| 0 <= j < |r.groups| && r.groups[j] == [];
      SizeOfEmpty(gs, j);
    } else {
      SizeOfOthers(gs);
      KernelGroupsAll(i, r, |r.groups|);
    }
  }

  /** All picks of a choice are from result `i`. */
  predicate From(choice: seq<Pick>, i: nat) {
    forall j | 0 <= j < |choice| :: choice[j].result == i
  }

  lemma ChoiceFrom(i: nat, groups: seq<seq<Pick>>, n: nat)
    requires n < Size(groups)
    requires forall j, k | 0 <= j < |groups| && 0 <= k < |groups[j]| :: groups[j][k].result == i
    ensures |Product(groups)[n]| == |groups| && From(Product(groups)[n], i)
  {
    ProductAt(groups, IndicesAt(groups, n));
  }

  /** Each part holds choices of its own result. */
  predicate FromTheirs(parts: seq<seq<seq<Pick>>>) {
    forall i, n | 0 <= i < |parts| && 0 <= n < |parts[i]| :: From(parts[i][n], i)
  }

  lemma PartsFromTheirs(plan: seq<Result>)
    requires Compilable(plan)
    ensures FromTheirs(HostParts(plan, |plan|)) && FromTheirs(KernelParts(plan, |plan|))
    ensures NoEmptyChoice(HostParts(plan, |plan|))
  {
    var host, kernel := HostParts(plan, |plan|), KernelParts(plan, |plan|);
    forall i, n | 0 <= i < |host| && 0 <= n < |host[i]| ensures From(host[i][n], i) && host[i][n] != [] {
      PartsAt(plan, |plan|, i);
      ChoiceFrom(i, HostGroups(i, plan[i], |plan[i].groups|), n);
    }
    forall i, n | 0 <= i < |kernel| && 0 <= n < |kernel[i]| ensures From(kernel[i][n], i) {
      PartsAt(plan, |plan|, i);
      KernelGroupsFrom(i, plan[i], |plan[i].groups|);
      ChoiceFrom(i, KernelGroups(i, plan[i], |plan[i].groups|), n);
    }
  }

  predicate NoEmptyChoice(parts: seq<seq<seq<Pick>>>) {
    forall k, n | 0 <= k < |parts| && 0 <= n < |parts[k]| :: parts[k][n] != []
  }

  lemma FlatHead(parts: seq<seq<seq<Pick>>>, i: nat)
    requires i < |parts|
    ensures parts[i] != [] ==> Flat(parts, i) != [] && Flat(parts, i)[0] == parts[i][0]
    ensures parts[i] == [] ==> Flat(parts, i) == Flat(parts, i + 1)
  {
  }

  /** The first choice from result `i` on comes from result `i` or a later one. */
  lemma {:induction false} FirstResult(parts: seq<seq<seq<Pick>>>, i: nat)
    requires FromTheirs(parts) && i <= |parts| && Flat(parts, i) != []
    ensures var choice := Flat(parts, i)[0];
            && (choice != [] ==> i <= choice[0].result)
            && (NoEmptyChoice(parts) ==> choice != [])
    decreases |parts| - i
  {
    FlatHead(parts, i);
    if parts[i] != [] {
      assert From(parts[i][0], i);
    } else {
      FirstResult(parts, i + 1);
    }
  }

  lemma ResultsDiffer(x: seq<Pick>, y: seq<Pick>, i: nat)
    requires From(x, i) && (x != [] || y != []) && (y != [] ==> i < y[0].result)
    ensures x != y
  {
  }

  /** If one side lists something for result `i` and the other does not, they differ from there on. */
  lemma OneSided(a: seq<seq<seq<Pick>>>, b: seq<seq<seq<Pick>>>, i: nat)
    requires |a| == |b| && FromTheirs(a) && FromTheirs(b) && i < |a|
    requires a[i] == [] && b[i] != [] && (NoEmptyChoice(a) || NoEmptyChoice(b))
    ensures Flat(a, i) != Flat(b, i)
  {
    FlatHead(a, i);
    FlatHead(b, i);
    var rest := Flat(a, i + 1);
    if rest != [] {
      FirstResult(a, i + 1);
      assert From(b[i][0], i) && (NoEmptyChoice(b) ==> b[i][0] != []);
      ResultsDiffer(b[i][0], rest[0], i);
    }
  }

  /** From result `i` on, two sides that list the same or of which one lists nothing agree exactly if they do
      for every result. */
  lemma {:induction false} PartsAgree(a: seq<seq<seq<Pick>>>, b: seq<seq<seq<Pick>>>, i: nat)
    requires |a| == |b| && FromTheirs(a) && FromTheirs(b) && i <= |a|
    requires NoEmptyChoice(b)
    requires forall k | 0 <= k < |a| :: a[k] == b[k] || a[k] == [] || b[k] == []
    ensures Flat(a, i) == Flat(b, i) <==> forall k | i <= k < |a| :: a[k] == b[k]
    decreases |a| - i
  {
    if i < |a| {
      if a[i] == b[i] {
        PartsAgree(a, b, i + 1);
        SameTail(a[i], Flat(a, i + 1), Flat(b, i + 1));
      } else if a[i] == [] {
        OneSided(a, b, i);
      } else {
        OneSided(b, a, i);
      }
    }
  }

  lemma SameTail(a: seq<seq<Pick>>, b: seq<seq<Pick>>, c: seq<seq<Pick>>)
    ensures a + b == a + c <==> b == c
  {
    assert (a + b)[|a|..] == b && (a + c)[|a|..] == c;
  }

  /** The two enumerations are the same exactly if every result is skipped by both or by neither: a fallback
      that has an empty group, or no fallback and no empty group. */
  lemma EnumerationsAgree(plan: seq<Result>)
    requires Compilable(plan)
    ensures KernelKeys(plan) == HostKeys(plan) <==> forall i | 0 <= i < |plan| :: plan[i].fallback <==> HasEmptyGroup(plan[i])
  {
    var a, b := KernelParts(plan, |plan|), HostParts(plan, |plan|);
    PartsFromTheirs(plan);
    forall i | 0 <= i < |plan|
      ensures a[i] == b[i] <==> (plan[i].fallback <==> HasEmptyGroup(plan[i]))
      ensures a[i] == b[i] || a[i] == [] || b[i] == []
    {
      PartsAt(plan, |plan|, i);
      ResultAgrees(i, plan[i]);
    }
    PartsAgree(a, b, 0);
  }

  /** Whenever the kernel is generated with keys, both sides enumerate the same, as long as no group is empty. */
  lemma SidesAgree(plan: seq<Result>, inductor: bool)
    requires Compilable(plan) && UsesTilingKeys(plan, inductor)
    ensures KernelKeys(plan) == HostKeys(plan) <==> forall i | 0 <= i < |plan| :: !HasEmptyGroup(plan[i])
  {
    EnumerationsAgree(plan);
  }

  // ---------- finding the key ----------

  /** What the tiling has decided: a result, and for each group of each result an implementation. */
  datatype Tiling = Tiling(graphKey: int, groupKeys: seq<seq<int>>)

  /** The tiling has a field for every group. */
  predicate Matches(plan: seq<Result>, t: Tiling) {
    |t.groupKeys| == |plan| && forall i | 0 <= i < |plan| :: |t.groupKeys[i]| == |plan[i].groups|
  }

  predicate Holds(t: Tiling, p: Pick) {
    p.result < |t.groupKeys| && p.group < |t.groupKeys[p.result]| && t.groupKeys[p.result][p.group] == p.impl
  }

  predicate AllHold(t: Tiling, choice: seq<Pick>) {
    forall j | 0 <= j < |choice| :: Holds(t, choice[j])
  }

  /** The key of the first of the branches up to `n` whose conditions all hold, or -1. */
  function Search(t: Tiling, block: seq<Numbered>, n: nat): int
    requires n <= |block|
  {
    if n == 0 then -1
    else if Search(t, block, n - 1) != -1 then Search(t, block, n - 1)
    else if AllHold(t, block[n - 1].choice) then block[n - 1].key
    else -1
  }

  /** Running the generated search. */
  function FindBestTilingKey(t: Tiling, blocks: seq<seq<Numbered>>): int {
    if 0 <= t.graphKey < |blocks| then Search(t, blocks[t.graphKey], |blocks[t.graphKey]|) else -1
  }

  lemma {:induction false} SearchOnly(t: Tiling, block: seq<Numbered>, n: nat, m: int)
    requires n <= |block|
    requires forall j | 0 <= j < |block| :: AllHold(t, block[j].choice) <==> j == m
    ensures Search(t, block, n) == if 0 <= m < n then block[m].key else -1
  {
    if 0 < n { SearchOnly(t, block, n - 1, m); }
  }

  lemma PickIs(i: nat, r: Result, j: nat, x: int)
    requires j < |r.groups| && 0 <= x < |r.groups[j]|
    ensures var gs := HostGroups(i, r, |r.groups|);
            x < |gs[j]| && gs[j][x].result == i && gs[j][x].group == j && gs[j][x].impl == x
  {
  }

  /** A choice of result `i` holds exactly if it is the one that the tiling has decided on. */
  lemma OnlyChosenHolds(plan: seq<Result>, t: Tiling, i: nat, n: nat)
    requires Matches(plan, t) && i < |plan|
    requires n < |HostChoices(i, plan[i])|
    ensures var gs, ks := HostGroups(i, plan[i], |plan[i].groups|), t.groupKeys[i];
            AllHold(t, HostChoices(i, plan[i])[n]) <==> InRange(gs, ks) && n == MixedRadix(gs, ks)
  {
    var gs, ks := HostGroups(i, plan[i], |plan[i].groups|), t.groupKeys[i];
    var found := IndicesAt(gs, n);
    ProductAt(gs, found);
    var choice := Product(gs)[n];
    assert choice == Chosen(gs, found);
    if AllHold(t, choice) {
      forall j | 0 <= j < |ks| ensures ks[j] == found[j] {
        assert Holds(t, choice[j]);
        PickIs(i, plan[i], j, found[j]);
      }
      assert ks == found;
    }
    if InRange(gs, ks) && n == MixedRadix(gs, ks) {
      ProductAt(gs, ks);
      forall j | 0 <= j < |choice| ensures Holds(t, choice[j]) {
        PickIs(i, plan[i], j, ks[j]);
      }
    }
  }

  /** What the search is to return: the base of the result plus the mixed-radix number of the chosen
      implementations; -1 if the tiling names no result or no implementation of some group. */
  function KeyOf(plan: seq<Result>, t: Tiling): int
    requires Matches(plan, t)
  {
    if !(0 <= t.graphKey < |plan|) then -1
    else
      var i: nat := t.graphKey;
      var gs := HostGroups(i, plan[i], |plan[i].groups|);
      if InRange(gs, t.groupKeys[i]) then Base(HostParts(plan, |plan|), i) + MixedRadix(gs, t.groupKeys[i]) else -1
  }

  lemma SearchFinds(plan: seq<Result>, t: Tiling, blocks: seq<seq<Numbered>>)
    requires Matches(plan, t) && |blocks| == |plan| && SearchBlocks(HostParts(plan, |plan|), blocks)
    ensures FindBestTilingKey(t, blocks) == KeyOf(plan, t)
  {
    if 0 <= t.graphKey < |plan| {
      var i: nat := t.graphKey;
      PartsAt(plan, |plan|, i);
      assert BlockAt(HostParts(plan, |plan|), blocks, i);
      SearchBlock(plan, t, i, blocks[i], Base(HostParts(plan, |plan|), i));
    }
  }

  lemma SearchBlock(plan: seq<Result>, t: Tiling, i: nat, block: seq<Numbered>, base: nat)
    requires Matches(plan, t) && i < |plan| && block == Emitted(base, [], HostChoices(i, plan[i]))
    ensures var gs, ks := HostGroups(i, plan[i], |plan[i].groups|), t.groupKeys[i];
            Search(t, block, |block|) == if InRange(gs, ks) then base + MixedRadix(gs, ks) else -1
  {
    var gs, ks := HostGroups(i, plan[i], |plan[i].groups|), t.groupKeys[i];
    var m := if InRange(gs, ks) then MixedRadix(gs, ks) else -1;
    if InRange(gs, ks) { ProductAt(gs, ks); }
    forall j | 0 <= j < |block|
      ensures AllHold(t, block[j].choice) <==> j == m
      ensures block[j].key == base + j
    {
      EmittedAt(base, [], HostChoices(i, plan[i]), j);
      assert block[j].choice == HostChoices(i, plan[i])[j];
      OnlyChosenHolds(plan, t, i, j);
    }
    SearchOnly(t, block, |block|, m);
  }

  /** The tiling names a result, and for each of its groups an implementation. */
  predicate Decided(plan: seq<Result>, t: Tiling) {
    && Matches(plan, t) && 0 <= t.graphKey < |plan|
    && forall j | 0 <= j < |plan[t.graphKey].groups| :: 0 <= t.groupKeys[t.graphKey][j] < |plan[t.graphKey].groups[j]|
  }

  /** In a kernel with keys, the key that the host finds is the branch that calls exactly the chosen
      implementations, one for each group. */
  lemma HostFindsKernelBranch(plan: seq<Result>, inductor: bool, t: Tiling, blocks: seq<seq<Numbered>>)
    requires Compilable(plan) && UsesTilingKeys(plan, inductor) && forall i | 0 <= i < |plan| :: !HasEmptyGroup(plan[i])
    requires Decided(plan, t) && |blocks| == |plan| && SearchBlocks(HostParts(plan, |plan|), blocks)
    ensures var key, i := FindBestTilingKey(t, blocks), t.graphKey;
            && 0 <= key < |KernelKeys(plan)|
            && |KernelKeys(plan)[key]| == |plan[i].groups|
            && forall j | 0 <= j < |plan[i].groups| ::
                 KernelKeys(plan)[key][j] == Pick(i, j, t.groupKeys[i][j], plan[i].groups[j][t.groupKeys[i][j]])
  {
    var i: nat := t.graphKey;
    var gs, ks := HostGroups(i, plan[i], |plan[i].groups|), t.groupKeys[i];
    SearchFinds(plan, t, blocks);
    DecidedInRange(plan, t);
    KeyNamesChoice(plan, t, gs);
    SidesAgree(plan, inductor);
    assert HostKeys(plan)[KeyOf(plan, t)] == Chosen(gs, ks);
  }

  lemma DecidedInRange(plan: seq<Result>, t: Tiling)
    requires Decided(plan, t)
    ensures InRange(HostGroups(t.graphKey, plan[t.graphKey], |plan[t.graphKey].groups|), t.groupKeys[t.graphKey])
  {
  }

  lemma ChoiceAtKey(parts: seq<seq<seq<Pick>>>, i: nat, gs: seq<seq<Pick>>, ks: seq<int>)
    requires i < |parts| && parts[i] == Product(gs) && InRange(gs, ks)
    ensures var key := Base(parts, i) + MixedRadix(gs, ks);
            0 <= key < |Flat(parts, 0)| && Flat(parts, 0)[key] == Chosen(gs, ks)
  {
    ProductAt(gs, ks);
    FlatAt(parts, 0, i, MixedRadix(gs, ks));
  }

  lemma KeyOfDecided(plan: seq<Result>, t: Tiling, gs: seq<seq<Pick>>)
    requires Decided(plan, t)
    requires gs == HostGroups(t.graphKey, plan[t.graphKey], |plan[t.graphKey].groups|) && InRange(gs, t.groupKeys[t.graphKey])
    ensures KeyOf(plan, t) == Base(HostParts(plan, |plan|), t.graphKey) + MixedRadix(gs, t.groupKeys[t.graphKey])
  {
  }

  lemma KeyNamesChoice(plan: seq<Result>, t: Tiling, gs: seq<seq<Pick>>)
    requires Decided(plan, t)
    requires gs == HostGroups(t.graphKey, plan[t.graphKey], |plan[t.graphKey].groups|) && InRange(gs, t.groupKeys[t.graphKey])
    ensures var key := KeyOf(plan, t);
            0 <= key < |HostKeys(plan)| && HostKeys(plan)[key] == Chosen(gs, t.groupKeys[t.graphKey])
  {
    KeyOfDecided(plan, t, gs);
    PartsAt(plan, |plan|, t.graphKey);
    ChoiceAtKey(HostParts(plan, |plan|), t.graphKey, gs, t.groupKeys[t.graphKey]);
  }

  /** No two choices of a result are the same. */
  lemma NoRepeatsWithin(i: nat, r: Result, m: nat, n: nat)
    requires m < |HostChoices(i, r)| && n < |HostChoices(i, r)| && HostChoices(i, r)[m] == HostChoices(i, r)[n]
    ensures m == n
  {
    var gs := HostGroups(i, r, |r.groups|);
    var a, b := IndicesAt(gs, m), IndicesAt(gs, n);
    ProductAt(gs, a);
    ProductAt(gs, b);
    var choice := HostChoices(i, r)[m];
    assert choice == Chosen(gs, a) == Chosen(gs, b);
    forall j | 0 <= j < |gs| ensures a[j] == b[j] {
      assert choice[j] == gs[j][a[j]] == gs[j][b[j]];
      PickIs(i, r, j, a[j]);
      PickIs(i, r, j, b[j]);
    }
    assert a == b;
  }

  /** Where a key lies: its result, and its place among the choices of the result. */
  lemma {:induction false} LocateKey(parts: seq<seq<seq<Pick>>>, i: nat, n: nat) returns (j: nat, m: nat)
    requires i <= |parts| && n < |Flat(parts, i)|
    ensures i <= j < |parts| && m < |parts[j]| && Base(parts, j) - Base(parts, i) + m == n
    ensures Flat(parts, i)[n] == parts[j][m]
    decreases |parts| - i
  {
    if n < |parts[i]| {
      j, m := i, n;
    } else {
      j, m := LocateKey(parts, i + 1, n - |parts[i]|);
    }
  }

  /** No two keys of the host stand for the same choice. */
  lemma NoRepeats(plan: seq<Result>, m: nat, n: nat)
    requires Compilable(plan) && m < |HostKeys(plan)| && n < |HostKeys(plan)| && HostKeys(plan)[m] == HostKeys(plan)[n]
    ensures m == n
  {
    var parts: seq<seq<seq<Pick>>> := HostParts(plan, |plan|);
    PartsFromTheirs(plan);
    var i, a := LocateKey(parts, 0, m);
    var j, b := LocateKey(parts, 0, n);
    var choice: seq<Pick> := parts[i][a];
    assert From(choice, i) && From(choice, j) && choice != [];
    assert choice[0].result == i == j;
    PartsAt(plan, |plan|, i);
    NoRepeatsWithin(i, plan[i], a, b);
  }
}
