/**
 Loop axes of a generated kernel and the indices they decode to.

 An axis is an original axis, the outer half of a split (its inner half has the
 given size), or a merge of axes. `Split(Original(n), t)` is a tile split,
 `Split(Merged(..), b)` a block split; both may nest. The value of an axis at run
 time together with the values of the inner loops below it names one coordinate
 of every original axis.
 */
module AxisCoverage {
  import opened Arithmetic

  datatype Axis =
    | Original(size: nat)
    | Split(from: Axis, inner: nat)
    | Merged(parts: seq<Axis>)

  /** Every inner half has a positive size: the kernel divides by it. */
  predicate WellFormed(a: Axis) {
    match a
    case Original(_) => true
    case Split(from, inner) => 0 < inner && WellFormed(from)
    case Merged(parts) => forall p | p in parts :: WellFormed(p)
  }

  // ---------- sizes, as the emitted constants define them ----------

  function AxisSize(a: Axis): nat
    requires WellFormed(a)
    decreases a, 0
  {
    match a
    case Original(n) => n
    case Split(from, inner) => LoopSize(from) / inner
    case Merged(parts) => Volume(parts)
  }

  function TailSize(a: Axis): nat
    requires WellFormed(a) && a.Split?
  {
    LoopSize(a.from) % a.inner
  }

  function LoopSize(a: Axis): nat
    requires WellFormed(a)
    decreases a, 1
  {
    match a
    case Original(n) => n
    case Split(from, inner) => LoopSize(from) / inner + if 0 < LoopSize(from) % inner then 1 else 0
    case Merged(parts) => Volume(parts)
  }

  function Volume(parts: seq<Axis>): nat
    requires forall p | p in parts :: WellFormed(p)
    decreases parts
  {
    if parts == [] then 1 else LoopSize(parts[0]) * Volume(parts[1..])
  }

  /** Size of the inner loop while the outer half has value `o`: the tail only past the full tiles. */
  function ActualSize(a: Axis, o: nat): nat
    requires WellFormed(a) && a.Split?
  {
    if o < AxisSize(a) then a.inner else TailSize(a)
  }

  // ---------- iterations ----------

  /** Number of inner loops under `a`. */
  function Inners(a: Axis): nat {
    match a
    case Original(_) => 0
    case Split(from, _) => 1 + Inners(from)
    case Merged(parts) => InnersOf(parts)
  }

  function InnersOf(parts: seq<Axis>): nat
    decreases parts
  {
    if parts == [] then 0 else Inners(parts[0]) + InnersOf(parts[1..])
  }

  /** Number of original axes under `a`. */
  function Rank(a: Axis): nat {
    match a
    case Original(_) => 1
    case Split(from, _) => Rank(from)
    case Merged(parts) => RankOf(parts)
  }

  function RankOf(parts: seq<Axis>): nat
    decreases parts
  {
    if parts == [] then 0 else Rank(parts[0]) + RankOf(parts[1..])
  }

  /** The value the kernel gives to the first part of a merged axis with value `idx`. */
  function Digit(parts: seq<Axis>, idx: nat): nat
    requires parts != [] && forall p | p in parts :: WellFormed(p)
    requires 0 < Volume(parts)
  {
    idx / Volume(parts[1..]) % LoopSize(parts[0])
  }

  /** The loops below `a` execute with `a == idx` and inner loop values `inner` (outermost first). */
  predicate Runs(a: Axis, idx: nat, inner: seq<nat>)
    requires WellFormed(a)
    decreases a, 1
  {
    && idx < LoopSize(a)
    && match a
       case Original(_) => inner == []
       case Split(from, size) =>
         && inner != []
         && inner[0] < ActualSize(a, idx)
         && Runs(from, idx * size + inner[0], inner[1..])
       case Merged(parts) => RunsAll(parts, idx, inner)
  }

  predicate RunsAll(parts: seq<Axis>, idx: nat, inner: seq<nat>)
    requires forall p | p in parts :: WellFormed(p)
    decreases parts, 0
  {
    if parts == [] then inner == []
    else
      && Inners(parts[0]) <= |inner|
      && 0 < Volume(parts)
      && Runs(parts[0], Digit(parts, idx), inner[..Inners(parts[0])])
      && RunsAll(parts[1..], idx, inner[Inners(parts[0])..])
  }

  /** The coordinates of the original axes that one execution of the loops touches. */
  function Coordinates(a: Axis, idx: nat, inner: seq<nat>): seq<nat>
    requires WellFormed(a) && Runs(a, idx, inner)
    decreases a, 1
  {
    match a
    case Original(_) => [idx]
    case Split(from, size) => Coordinates(from, idx * size + inner[0], inner[1..])
    case Merged(parts) => CoordinatesOf(parts, idx, inner)
  }

  function CoordinatesOf(parts: seq<Axis>, idx: nat, inner: seq<nat>): seq<nat>
    requires forall p | p in parts :: WellFormed(p)
    requires RunsAll(parts, idx, inner)
    decreases parts, 0
  {
    if parts == [] then []
    else Coordinates(parts[0], Digit(parts, idx), inner[..Inners(parts[0])])
         + CoordinatesOf(parts[1..], idx, inner[Inners(parts[0])..])
  }

  // ---------- the box of original coordinates ----------

  predicate InBox(a: Axis, x: seq<nat>)
    decreases a, 1
  {
    match a
    case Original(n) => |x| == 1 && x[0] < n
    case Split(from, _) => InBox(from, x)
    case Merged(parts) => InBoxOf(parts, x)
  }

  predicate InBoxOf(parts: seq<Axis>, x: seq<nat>)
    decreases parts, 0
  {
    if parts == [] then x == []
    else Rank(parts[0]) <= |x| && InBox(parts[0], x[..Rank(parts[0])]) && InBoxOf(parts[1..], x[Rank(parts[0])..])
  }

  /** Where the coordinate `x` is computed: the value of `a`, and the inner loop values. */
  function Locate(a: Axis, x: seq<nat>): (nat, seq<nat>)
    requires WellFormed(a) && InBox(a, x)
    decreases a, 1
  {
    match a
    case Original(_) => (x[0], [])
    case Split(from, size) =>
      var (k, inner) := Locate(from, x);
      (k / size, [k % size] + inner)
    case Merged(parts) => LocateOf(parts, x)
  }

  function LocateOf(parts: seq<Axis>, x: seq<nat>): (nat, seq<nat>)
    requires forall p | p in parts :: WellFormed(p)
    requires InBoxOf(parts, x)
    decreases parts, 0
  {
    if parts == [] then (0, [])
    else
      var (d, inner) := Locate(parts[0], x[..Rank(parts[0])]);
      var (k, rest) := LocateOf(parts[1..], x[Rank(parts[0])..]);
      (d * Volume(parts[1..]) + k, inner + rest)
  }

  // ---------- one split ----------

  /** The tail rule is exact: outer value and inner value range over precisely the values of the split axis. */
  lemma SplitIsExact(a: Axis, o: nat, i: nat)
    requires WellFormed(a) && a.Split?
    ensures o < LoopSize(a) && i < ActualSize(a, o) <==> i < a.inner && o * a.inner + i < LoopSize(a.from)
  {
    var l, s := LoopSize(a.from), a.inner;
    DivModParts(l, s);
    var q: nat, r: nat := l / s, l % s;
    TileRange(l, s, q, r, o, i);
  }

  // ---------- digits ----------

  /** The executions of the parts see a merged value only modulo their volume. */
  lemma {:induction false} RunsAllModulo(parts: seq<Axis>, idx: nat, k: nat, inner: seq<nat>)
    requires forall p | p in parts :: WellFormed(p)
    requires 0 < Volume(parts) && k == idx % Volume(parts)
    ensures RunsAll(parts, idx, inner) == RunsAll(parts, k, inner)
    ensures RunsAll(parts, idx, inner) ==> CoordinatesOf(parts, idx, inner) == CoordinatesOf(parts, k, inner)
    decreases parts
  {
    if parts != [] {
      var l, w := LoopSize(parts[0]), Volume(parts[1..]);
      DigitOfMod(idx, l, w);
      assert Digit(parts, idx) == Digit(parts, k);
      ModOfMod(idx, l, w);
      if Inners(parts[0]) <= |inner| {
        RunsAllModulo(parts[1..], idx, idx % w, inner[Inners(parts[0])..]);
        RunsAllModulo(parts[1..], k, idx % w, inner[Inners(parts[0])..]);
      }
    }
  }

  lemma ModOfMod(n: nat, l: nat, w: nat)
    requires 0 < l && 0 < w
    ensures 0 < l * w && n % (l * w) % w == n % w
  {
    var q, r := n / (l * w), n % (l * w);
    assert n == q * (l * w) + r;
    MulAssociates(q, l, w);
    RemainderOfShift(q * l, r, w);
  }

  // ---------- every coordinate is computed ----------

  lemma SplitRuns(a: Axis, o: nat, i: nat, k: nat, inner: seq<nat>)
    requires WellFormed(a) && a.Split? && i < a.inner && k == o * a.inner + i
    requires Runs(a.from, k, inner)
    ensures Runs(a, o, [i] + inner) && Coordinates(a, o, [i] + inner) == Coordinates(a.from, k, inner)
  {
    SplitIsExact(a, o, i);
    assert ([i] + inner)[1..] == inner;
  }

  lemma LocateSplit(a: Axis, x: seq<nat>, k: nat, inner: seq<nat>)
    requires WellFormed(a) && a.Split? && InBox(a, x)
    requires Locate(a.from, x) == (k, inner) && Runs(a.from, k, inner)
    ensures Locate(a, x) == (k / a.inner, [k % a.inner] + inner)
    ensures Runs(a, Locate(a, x).0, Locate(a, x).1)
    ensures Coordinates(a, Locate(a, x).0, Locate(a, x).1) == Coordinates(a.from, k, inner)
  {
    DivModParts(k, a.inner);
    var o: nat, i: nat := k / a.inner, k % a.inner;
    SplitRuns(a, o, i, k, inner);
  }

  lemma {:induction false} LocateRuns(a: Axis, x: seq<nat>)
    requires WellFormed(a) && InBox(a, x)
    ensures Runs(a, Locate(a, x).0, Locate(a, x).1)
    ensures |Locate(a, x).1| == Inners(a)
    ensures Coordinates(a, Locate(a, x).0, Locate(a, x).1) == x
    decreases a, 1
  {
    match a
    case Original(_) =>
    case Split(from, s) =>
      LocateRuns(from, x);
      LocateSplit(a, x, Locate(from, x).0, Locate(from, x).1);
    case Merged(parts) => LocateOfRuns(parts, x);
  }

  lemma {:induction false} LocateOfRuns(parts: seq<Axis>, x: seq<nat>)
    requires forall p | p in parts :: WellFormed(p)
    requires InBoxOf(parts, x)
    ensures LocateOf(parts, x).0 < Volume(parts)
    ensures RunsAll(parts, LocateOf(parts, x).0, LocateOf(parts, x).1)
    ensures |LocateOf(parts, x).1| == InnersOf(parts)
    ensures CoordinatesOf(parts, LocateOf(parts, x).0, LocateOf(parts, x).1) == x
    decreases parts, 0
  {
    if parts != [] {
      var r, l, w := Rank(parts[0]), LoopSize(parts[0]), Volume(parts[1..]);
      LocateRuns(parts[0], x[..r]);
      LocateOfRuns(parts[1..], x[r..]);
      var (d, inner) := Locate(parts[0], x[..r]);
      var (k, rest) := LocateOf(parts[1..], x[r..]);
      var idx := d * w + k;
      MulAddLess(d, k, l, w);
      DivModUnique(idx, w, d, k);
      DivModUnique(d, l, 0, d);
      assert Digit(parts, idx) == d;
      assert (inner + rest)[..Inners(parts[0])] == inner && (inner + rest)[Inners(parts[0])..] == rest;
      RunsAllModulo(parts[1..], idx, k, rest);
      assert x == x[..r] + x[r..];
    }
  }

  // ---------- and by one iteration only ----------

  lemma {:induction false} RunsLocate(a: Axis, idx: nat, inner: seq<nat>)
    requires WellFormed(a) && Runs(a, idx, inner)
    ensures |inner| == Inners(a)
    ensures |Coordinates(a, idx, inner)| == Rank(a)
    ensures InBox(a, Coordinates(a, idx, inner))
    ensures Locate(a, Coordinates(a, idx, inner)) == (idx, inner)
    decreases a, 1
  {
    match a
    case Original(_) =>
    case Split(from, s) =>
      RunsLocate(from, idx * s + inner[0], inner[1..]);
      SplitIsExact(a, idx, inner[0]);
      DivModUnique(idx * s + inner[0], s, idx, inner[0]);
      assert [inner[0]] + inner[1..] == inner;
    case Merged(parts) =>
      RunsAllLocate(parts, idx, inner);
      DivModUnique(idx, Volume(parts), 0, idx);
  }

  lemma LocateOfParts(parts: seq<Axis>, x0: seq<nat>, x1: seq<nat>)
    requires parts != [] && forall p | p in parts :: WellFormed(p)
    requires |x0| == Rank(parts[0]) && InBox(parts[0], x0) && InBoxOf(parts[1..], x1)
    ensures InBoxOf(parts, x0 + x1)
    ensures LocateOf(parts, x0 + x1).0
         == Locate(parts[0], x0).0 * Volume(parts[1..]) + LocateOf(parts[1..], x1).0
    ensures LocateOf(parts, x0 + x1).1 == Locate(parts[0], x0).1 + LocateOf(parts[1..], x1).1
  {
    assert (x0 + x1)[..Rank(parts[0])] == x0 && (x0 + x1)[Rank(parts[0])..] == x1;
  }

  lemma RunsAllShape(parts: seq<Axis>, idx: nat, inner: seq<nat>)
    requires forall p | p in parts :: WellFormed(p)
    requires RunsAll(parts, idx, inner)
    ensures 0 < Volume(parts)
    ensures parts == [] ==> inner == []
    ensures parts != [] ==>
              var n := Inners(parts[0]);
              && n <= |inner| && inner == inner[..n] + inner[n..]
              && Runs(parts[0], Digit(parts, idx), inner[..n])
              && RunsAll(parts[1..], idx, inner[n..])
              && CoordinatesOf(parts, idx, inner)
              == Coordinates(parts[0], Digit(parts, idx), inner[..n]) + CoordinatesOf(parts[1..], idx, inner[n..])
  {
    if parts == [] {
      assert Volume(parts) == 1;
    } else {
      var n := Inners(parts[0]);
      assert inner == inner[..n] + inner[n..];
    }
  }

  lemma {:induction false} RunsAllLocate(parts: seq<Axis>, idx: nat, inner: seq<nat>)
    requires forall p | p in parts :: WellFormed(p)
    requires RunsAll(parts, idx, inner)
    ensures 0 < Volume(parts)
    ensures |inner| == InnersOf(parts)
    ensures |CoordinatesOf(parts, idx, inner)| == RankOf(parts)
    ensures InBoxOf(parts, CoordinatesOf(parts, idx, inner))
    ensures LocateOf(parts, CoordinatesOf(parts, idx, inner)) == (idx % Volume(parts), inner)
    decreases parts, 0
  {
    RunsAllShape(parts, idx, inner);
    if parts == [] {
      DivModUnique(idx, 1, idx, 0);
    } else {
      var n := Inners(parts[0]);
      var x0 := Coordinates(parts[0], Digit(parts, idx), inner[..n]);
      var x1 := CoordinatesOf(parts[1..], idx, inner[n..]);
      RunsLocate(parts[0], Digit(parts, idx), inner[..n]);
      RunsAllLocate(parts[1..], idx, inner[n..]);
      LocateOfParts(parts, x0, x1);
      VolumeDigit(parts, idx);
    }
  }

  lemma VolumeDigit(parts: seq<Axis>, idx: nat)
    requires parts != [] && forall p | p in parts :: WellFormed(p)
    requires 0 < Volume(parts)
    ensures 0 < Volume(parts[1..])
    ensures Digit(parts, idx) * Volume(parts[1..]) + idx % Volume(parts[1..]) == idx % Volume(parts)
  {
    HornerStep(idx, LoopSize(parts[0]), Volume(parts[1..]));
  }

  // ---------- distribution over the cores ----------

  /** A launch on `cores` blocks; `offset` is the first block of a group that runs in parallel with others. */
  datatype Launch = Launch(cores: nat, blockDim: nat, groupParallel: bool, offset: nat) {
    /** What the host guarantees: every block it asks for exists. */
    predicate Fits() { blockDim <= cores && offset <= cores }

    /** The block takes part: the early return, or the block range test of the group. */
    predicate Selected(core: nat) {
      && core < cores
      && if groupParallel then
           if cores < offset + blockDim then offset <= core || core < offset + blockDim - cores
           else offset <= core && core - offset < blockDim
         else core < blockDim
    }

    /** The block number after the rotation by `offset`. */
    function Number(core: nat): nat
      requires Fits() && Selected(core)
    {
      if !groupParallel then core
      else if offset <= core then core - offset
      else core + cores - offset
    }

    /** The block that gets a number. */
    function CoreOf(v: nat): nat
      requires Fits() && v < blockDim
    {
      if !groupParallel then v
      else if offset + v < cores then offset + v
      else offset + v - cores
    }
  }

  /** Rotation and range test give the blocks of a group the numbers 0 .. blockDim - 1, once each. */
  lemma RotationIsExact(launch: Launch, core: nat, v: nat)
    requires launch.Fits()
    ensures launch.Selected(core) && launch.Number(core) == v <==> v < launch.blockDim && core == launch.CoreOf(v)
  {
  }

  /** Block `core` executes the body with inner loop values `inner`, at coordinates `x`. */
  ghost predicate Executes(root: Axis, launch: Launch, core: nat, inner: seq<nat>, x: seq<nat>)
    requires WellFormed(root) && launch.Fits() && 0 < LoopSize(root)
  {
    && launch.Selected(core)
    && var idx := launch.Number(core) % LoopSize(root);
       Runs(root, idx, inner) && Coordinates(root, idx, inner) == x
  }

  ghost predicate ExactlyOnce(root: Axis, launch: Launch)
    requires WellFormed(root) && launch.Fits() && 0 < LoopSize(root)
  {
    && (forall x | InBox(root, x) :: exists core, inner :: Executes(root, launch, core, inner, x))
    && (forall x, core, inner | Executes(root, launch, core, inner, x) :: InBox(root, x))
    && (forall x, core, inner, core', inner'
          | Executes(root, launch, core, inner, x) && Executes(root, launch, core', inner', x)
          :: core == core' && inner == inner')
  }

  /** Each coordinate is computed exactly once if and only if the launch asks for one block per outer iteration. */
  lemma CoverageIsExact(root: Axis, launch: Launch)
    requires WellFormed(root) && launch.Fits() && 0 < LoopSize(root)
    ensures ExactlyOnce(root, launch) <==> launch.blockDim == LoopSize(root)
  {
    if launch.blockDim == LoopSize(root) {
      EveryCoordinate(root, launch);
      OneIteration(root, launch);
    } else if launch.blockDim < LoopSize(root) {
      TooFewBlocks(root, launch);
    } else {
      TooManyBlocks(root, launch);
    }
  }

  lemma EveryCoordinate(root: Axis, launch: Launch)
    requires WellFormed(root) && launch.Fits() && 0 < LoopSize(root) == launch.blockDim
    ensures forall x | InBox(root, x) :: exists core, inner :: Executes(root, launch, core, inner, x)
  {
    forall x | InBox(root, x) ensures exists core, inner :: Executes(root, launch, core, inner, x) {
      LocateRuns(root, x);
      var (idx, inner) := Locate(root, x);
      RotationIsExact(launch, launch.CoreOf(idx), idx);
      DivModUnique(idx, LoopSize(root), 0, idx);
      assert Executes(root, launch, launch.CoreOf(idx), inner, x);
    }
  }

  lemma ExecutesLocate(root: Axis, launch: Launch, core: nat, inner: seq<nat>, x: seq<nat>)
    requires WellFormed(root) && launch.Fits() && 0 < LoopSize(root)
    requires Executes(root, launch, core, inner, x)
    ensures InBox(root, x) && Locate(root, x) == (launch.Number(core) % LoopSize(root), inner)
    ensures launch.Number(core) < launch.blockDim && core == launch.CoreOf(launch.Number(core))
  {
    RunsLocate(root, launch.Number(core) % LoopSize(root), inner);
    RotationIsExact(launch, core, launch.Number(core));
  }

  lemma OneIteration(root: Axis, launch: Launch)
    requires WellFormed(root) && launch.Fits() && 0 < LoopSize(root) == launch.blockDim
    ensures forall x, core, inner | Executes(root, launch, core, inner, x) :: InBox(root, x)
    ensures forall x, core, inner, core', inner'
              | Executes(root, launch, core, inner, x) && Executes(root, launch, core', inner', x)
              :: core == core' && inner == inner'
  {
    forall x, core, inner | Executes(root, launch, core, inner, x)
      ensures InBox(root, x) && Locate(root, x) == (launch.Number(core), inner)
      ensures core == launch.CoreOf(Locate(root, x).0)
    {
      ExecutesLocate(root, launch, core, inner, x);
      DivModUnique(launch.Number(core), LoopSize(root), 0, launch.Number(core));
    }
  }

  lemma SplitStart(a: Axis, idx: nat)
    requires WellFormed(a) && a.Split? && idx < LoopSize(a)
    ensures 0 < ActualSize(a, idx) && idx * a.inner + 0 < LoopSize(a.from)
  {
    assert 0 < ActualSize(a, idx);
    SplitIsExact(a, idx, 0);
  }

  /** Some iteration of the inner loops exists under every value of an axis. */
  lemma {:induction false} SomeInner(a: Axis, idx: nat)
    requires WellFormed(a) && idx < LoopSize(a)
    ensures exists inner: seq<nat> :: |inner| == Inners(a) && Runs(a, idx, inner)
    decreases a, 1
  {
    match a
    case Original(_) =>
      var inner: seq<nat> := [];
      assert |inner| == Inners(a) && Runs(a, idx, inner);
    case Split(from, s) =>
      SplitStart(a, idx);
      SomeInner(from, idx * s + 0);
      var rest: seq<nat> :| |rest| == Inners(from) && Runs(from, idx * s + 0, rest);
      SplitRuns(a, idx, 0, idx * s + 0, rest);
      assert Runs(a, idx, [0] + rest);
    case Merged(parts) =>
      SomeInnerOf(parts, idx);
      var inner: seq<nat> :| |inner| == InnersOf(parts) && RunsAll(parts, idx, inner);
      assert Runs(a, idx, inner);
  }

  lemma {:induction false} SomeInnerOf(parts: seq<Axis>, idx: nat)
    requires forall p | p in parts :: WellFormed(p)
    requires 0 < Volume(parts)
    ensures exists inner: seq<nat> :: |inner| == InnersOf(parts) && RunsAll(parts, idx, inner)
    decreases parts, 0
  {
    if parts == [] {
      var inner: seq<nat> := [];
      assert |inner| == InnersOf(parts) && RunsAll(parts, idx, inner);
    } else {
      SomeInner(parts[0], Digit(parts, idx));
      SomeInnerOf(parts[1..], idx);
      var first: seq<nat> :| |first| == Inners(parts[0]) && Runs(parts[0], Digit(parts, idx), first);
      var rest: seq<nat> :| |rest| == InnersOf(parts[1..]) && RunsAll(parts[1..], idx, rest);
      var inner := first + rest;
      assert inner[..Inners(parts[0])] == first && inner[Inners(parts[0])..] == rest;
      assert |inner| == InnersOf(parts) && RunsAll(parts, idx, inner);
    }
  }

  /** With fewer blocks than outer iterations, some coordinate is not computed. */
  lemma TooFewBlocks(root: Axis, launch: Launch)
    requires WellFormed(root) && launch.Fits() && launch.blockDim < LoopSize(root)
    ensures !ExactlyOnce(root, launch)
  {
    var idx := launch.blockDim;
    SomeInner(root, idx);
    var inner: seq<nat> :| |inner| == Inners(root) && Runs(root, idx, inner);
    var x := Coordinates(root, idx, inner);
    RunsLocate(root, idx, inner);
    forall core, inner' ensures !Executes(root, launch, core, inner', x) {
      if Executes(root, launch, core, inner', x) {
        ExecutesLocate(root, launch, core, inner', x);
        DivModUnique(launch.Number(core), LoopSize(root), 0, launch.Number(core));
      }
    }
  }

  /** With more blocks, some coordinate is computed by two of them. */
  lemma TooManyBlocks(root: Axis, launch: Launch)
    requires WellFormed(root) && launch.Fits() && 0 < LoopSize(root) < launch.blockDim
    ensures !ExactlyOnce(root, launch)
  {
    var l := LoopSize(root);
    SomeInner(root, 0);
    var inner: seq<nat> :| |inner| == Inners(root) && Runs(root, 0, inner);
    var x := Coordinates(root, 0, inner);
    RotationIsExact(launch, launch.CoreOf(0), 0);
    RotationIsExact(launch, launch.CoreOf(l), l);
    DivModUnique(0, l, 0, 0);
    DivModUnique(l, l, 1, 0);
    assert Executes(root, launch, launch.CoreOf(0), inner, x);
    assert Executes(root, launch, launch.CoreOf(l), inner, x);
  }
}
