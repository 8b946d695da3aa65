/**
 The barrier protocol of a fused kernel with cube and vector cores. The generator
 emits a program around the cube stage and one around the vector stage; which
 branches a core takes depends on its kind, its block index and the tiling data.
 */
module CvFusion {
  import opened Options
  import opened Barriers

  /** Static shapes bake macros into the kernel, dynamic shapes read tiling data (0: no limit). */
  datatype Config =
    | Static(mixDefined: bool, aicMacro: Option<nat>, aivMacro: Option<nat>)
    | Dynamic(mixMode: nat, aicNum: nat, aivNum: nat)

  datatype Core = Core(aic: bool, blockIdx: nat)

  datatype Cond = IsAic | IsAiv | MixModeDefined | MixModeIs(m: nat) | AicNumGiven | AivNumGiven | BeyondAic | BeyondAiv

  /** The emitted statements that matter here; `If` covers run-time tests and `#ifdef` alike. */
  datatype Code =
    | End
    | Work(stage: Stage, next: Code)
    | Sync(aivOnly: bool, next: Code)
    | Return
    | If(cond: Cond, thn: Code, els: Code, next: Code)

  function AicLimit(cfg: Config): Option<nat> {
    match cfg
    case Static(_, aic, _) => aic
    case Dynamic(_, aic, _) => if aic != 0 then Some(aic) else None
  }

  function AivLimit(cfg: Config): Option<nat> {
    match cfg
    case Static(_, _, aiv) => aiv
    case Dynamic(_, _, aiv) => if aiv != 0 then Some(aiv) else None
  }

  predicate Beyond(limit: Option<nat>, blockIdx: nat) {
    limit.Some? && limit.value <= blockIdx
  }

  predicate Holds(cond: Cond, cfg: Config, core: Core) {
    match cond
    case IsAic => core.aic
    case IsAiv => !core.aic
    case MixModeDefined => cfg.Static? && cfg.mixDefined
    case MixModeIs(m) => cfg.Dynamic? && cfg.mixMode == m
    case AicNumGiven => AicLimit(cfg).Some?
    case AivNumGiven => AivLimit(cfg).Some?
    case BeyondAic => Beyond(AicLimit(cfg), core.blockIdx)
    case BeyondAiv => Beyond(AivLimit(cfg), core.blockIdx)
  }

  datatype Outcome = Outcome(actions: seq<Action>, returned: bool)

  function Then(first: Outcome, second: Outcome): Outcome {
    if first.returned then first else Outcome(first.actions + second.actions, second.returned)
  }

  /** What a core does when it runs the code, up to an early return. */
  function Exec(code: Code, cfg: Config, core: Core): Outcome {
    match code
    case End => Outcome([], false)
    case Work(stage, next) => Then(Outcome([Do(stage)], false), Exec(next, cfg, core))
    case Sync(aivOnly, next) => Then(Outcome([SyncAll(aivOnly)], false), Exec(next, cfg, core))
    case Return => Outcome([], true)
    case If(cond, thn, els, next) =>
      Then(if Holds(cond, cfg, core) then Exec(thn, cfg, core) else Exec(els, cfg, core), Exec(next, cfg, core))
  }

  function ExecAll(parts: seq<Code>, cfg: Config, core: Core): Outcome {
    if parts == [] then Outcome([], false)
    else Then(Exec(parts[0], cfg, core), ExecAll(parts[1..], cfg, core))
  }

  // ---------- the emitters ----------

  function SyncAndReturnBeyondAic(): Code {
    If(BeyondAic, Sync(false, Return), End, End)
  }

  function GenCubeCommonFuncForAIC(): Code {
    If(IsAic, If(AicNumGiven, SyncAndReturnBeyondAic(), End, Work(Cube, Sync(false, End))), End, End)
  }

  function GenCubeCommonFuncForAICMix(): Code {
    If(AicNumGiven, If(IsAic, SyncAndReturnBeyondAic(), End, End), End,
       Work(Cube, If(IsAic, Sync(false, End), End, End)))
  }

  function GenCubeCommonFuncForAIVMixDynamic(): Code {
    Work(Cube, Sync(true, End))
  }

  function VectorWork(emptyTensor: bool): Code {
    if emptyTensor then End else Work(Vector, End)
  }

  function ReturnBeyondAiv(next: Code): Code {
    If(AivNumGiven, If(BeyondAiv, Return, End, End), End, next)
  }

  function GenCubeCommonFuncForAIV(emptyTensor: bool): Code {
    If(IsAiv, Sync(false, ReturnBeyondAiv(VectorWork(emptyTensor))), End, End)
  }

  function GenCubeCommonFuncForAIVDynamic(emptyTensor: bool): Code {
    If(IsAiv,
       If(MixModeIs(2), Sync(true, End), Sync(false, End), ReturnBeyondAiv(VectorWork(emptyTensor))),
       End, End)
  }

  function CubePart(dynamic: bool): Code {
    if dynamic then
      If(MixModeIs(1), GenCubeCommonFuncForAICMix(),
         If(MixModeIs(2), GenCubeCommonFuncForAIVMixDynamic(), GenCubeCommonFuncForAIC(), End), End)
    else
      If(MixModeDefined, GenCubeCommonFuncForAICMix(), GenCubeCommonFuncForAIC(), End)
  }

  function VectorPart(dynamic: bool, emptyTensor: bool): Code {
    if dynamic then GenCubeCommonFuncForAIVDynamic(emptyTensor) else GenCubeCommonFuncForAIV(emptyTensor)
  }

  function CubeGroups(groups: seq<bool>): nat {
    if groups == [] then 0 else CubeGroups(groups[..|groups| - 1]) + if groups[|groups| - 1] then 1 else 0
  }

  /** One program per group, those of the cube groups in front. */
  predicate CubeGroupsFirst(groups: seq<bool>, dynamic: bool, emptyTensor: bool, parts: seq<Code>) {
    && CubeGroups(groups) <= |groups| == |parts|
    && forall k | 0 <= k < |parts| ::
         parts[k] == if k < CubeGroups(groups) then CubePart(dynamic) else VectorPart(dynamic, emptyTensor)
  }

  /** Emits one program per group; the program of a cube group goes to the front. */
  method GenCubeCommonFuncOfCVFusion(groups: seq<bool>, dynamic: bool, emptyTensor: bool) returns (parts: seq<Code>)
    ensures CubeGroupsFirst(groups, dynamic, emptyTensor, parts)
  {
    parts := [];
    var j := 0;
    while j < |groups|
      invariant 0 <= j <= |groups|
      invariant CubeGroupsFirst(groups[..j], dynamic, emptyTensor, parts)
    {
      assert groups[..j + 1][..j] == groups[..j];
      if groups[j] {
        parts := [CubePart(dynamic)] + parts;
      } else {
        parts := parts + [VectorPart(dynamic, emptyTensor)];
      }
      j := j + 1;
    }
    assert groups[..j] == groups;
  }

  // ---------- the program of one core ----------

  function Program(cfg: Config, emptyTensor: bool, core: Core): seq<Action> {
    ExecAll([CubePart(cfg.Dynamic?), VectorPart(cfg.Dynamic?, emptyTensor)], cfg, core).actions
  }

  /** With one group of each kind, in whichever order, the emitted programs are the ones that `Program` runs. */
  lemma OneGroupOfEach(groups: seq<bool>, cfg: Config, emptyTensor: bool, core: Core, parts: seq<Code>)
    requires |groups| == 2 && groups[0] != groups[1]
    requires CubeGroupsFirst(groups, cfg.Dynamic?, emptyTensor, parts)
    ensures ExecAll(parts, cfg, core).actions == Program(cfg, emptyTensor, core)
  {
    assert groups[..1][..0] == [] && groups[..1][0] == groups[0];
    assert CubeGroups(groups[..1]) == if groups[0] then 1 else 0;
    assert parts == [CubePart(cfg.Dynamic?), VectorPart(cfg.Dynamic?, emptyTensor)];
  }

  /** Mode 2 runs on vector cores only, mode 1 runs the cube stage on both kinds of core. */
  predicate AivOnlyMode(cfg: Config) { cfg.Dynamic? && cfg.mixMode == 2 }

  predicate MixMode(cfg: Config) {
    match cfg
    case Static(mix, _, _) => mix
    case Dynamic(mode, _, _) => mode == 1
  }

  /** The same program, written down per core instead of branch by branch. */
  function Expected(cfg: Config, emptyTensor: bool, core: Core): seq<Action> {
    var barrier := [SyncAll(AivOnlyMode(cfg))];
    var vector := if emptyTensor || Beyond(AivLimit(cfg), core.blockIdx) then [] else [Do(Vector)];
    if AivOnlyMode(cfg) then [Do(Cube)] + barrier + if core.aic then [] else barrier + vector
    else if core.aic then
      (if Beyond(AicLimit(cfg), core.blockIdx) then [] else [Do(Cube)]) + barrier
    else (if MixMode(cfg) then [Do(Cube)] else []) + barrier + vector
  }

  lemma ExecAic(cfg: Config, core: Core)
    ensures Exec(GenCubeCommonFuncForAIC(), cfg, core)
         == if !core.aic then Outcome([], false)
            else if Beyond(AicLimit(cfg), core.blockIdx) then Outcome([SyncAll(false)], true)
            else Outcome([Do(Cube), SyncAll(false)], false)
  {
    var work := Work(Cube, Sync(false, End));
    assert Exec(Sync(false, End), cfg, core) == Outcome([SyncAll(false)], false);
    assert Exec(work, cfg, core) == Outcome([Do(Cube), SyncAll(false)], false);
    ExecBeyondAic(cfg, core);
    assert Exec(If(AicNumGiven, SyncAndReturnBeyondAic(), End, work), cfg, core)
        == if Beyond(AicLimit(cfg), core.blockIdx) then Outcome([SyncAll(false)], true)
           else Outcome([Do(Cube), SyncAll(false)], false);
  }

  lemma ExecBeyondAic(cfg: Config, core: Core)
    ensures Exec(SyncAndReturnBeyondAic(), cfg, core)
         == if Beyond(AicLimit(cfg), core.blockIdx) then Outcome([SyncAll(false)], true) else Outcome([], false)
  {
    assert Exec(Sync(false, Return), cfg, core) == Outcome([SyncAll(false)], true);
  }

  lemma ExecAicMix(cfg: Config, core: Core)
    ensures Exec(GenCubeCommonFuncForAICMix(), cfg, core)
         == if !core.aic then Outcome([Do(Cube)], false)
            else if Beyond(AicLimit(cfg), core.blockIdx) then Outcome([SyncAll(false)], true)
            else Outcome([Do(Cube), SyncAll(false)], false)
  {
    ExecBeyondAic(cfg, core);
    var tail := If(IsAic, Sync(false, End), End, End);
    assert Exec(Sync(false, End), cfg, core) == Outcome([SyncAll(false)], false);
    assert Exec(tail, cfg, core) == Outcome(if core.aic then [SyncAll(false)] else [], false);
    assert Exec(Work(Cube, tail), cfg, core)
        == Outcome(if core.aic then [Do(Cube), SyncAll(false)] else [Do(Cube)], false);
    assert Exec(If(IsAic, SyncAndReturnBeyondAic(), End, End), cfg, core)
        == if core.aic && Beyond(AicLimit(cfg), core.blockIdx) then Outcome([SyncAll(false)], true)
           else Outcome([], false);
  }

  lemma ExecAfterBarrier(cfg: Config, emptyTensor: bool, core: Core)
    ensures Exec(ReturnBeyondAiv(VectorWork(emptyTensor)), cfg, core).actions
         == if emptyTensor || Beyond(AivLimit(cfg), core.blockIdx) then [] else [Do(Vector)]
  {
    assert Exec(VectorWork(emptyTensor), cfg, core) == Outcome(if emptyTensor then [] else [Do(Vector)], false);
    assert Exec(If(BeyondAiv, Return, End, End), cfg, core)
        == Outcome([], Beyond(AivLimit(cfg), core.blockIdx));
  }

  lemma ExecVectorPart(cfg: Config, emptyTensor: bool, core: Core)
    ensures Exec(VectorPart(cfg.Dynamic?, emptyTensor), cfg, core).actions
         == if core.aic then [] else
              [SyncAll(AivOnlyMode(cfg))]
              + if emptyTensor || Beyond(AivLimit(cfg), core.blockIdx) then [] else [Do(Vector)]
  {
    ExecAfterBarrier(cfg, emptyTensor, core);
    var rest := ReturnBeyondAiv(VectorWork(emptyTensor));
    var sync := SyncAll(AivOnlyMode(cfg));
    if cfg.Dynamic? {
      var branch := If(MixModeIs(2), Sync(true, End), Sync(false, End), rest);
      assert Exec(Sync(true, End), cfg, core) == Outcome([SyncAll(true)], false);
      assert Exec(Sync(false, End), cfg, core) == Outcome([SyncAll(false)], false);
      assert Exec(branch, cfg, core) == Then(Outcome([sync], false), Exec(rest, cfg, core));
    } else {
      assert Exec(Sync(false, rest), cfg, core) == Then(Outcome([sync], false), Exec(rest, cfg, core));
    }
  }

  /** What a core does in the cube part. */
  function CubeActions(cfg: Config, core: Core): seq<Action> {
    if AivOnlyMode(cfg) then [Do(Cube), SyncAll(true)]
    else if core.aic then
      if Beyond(AicLimit(cfg), core.blockIdx) then [SyncAll(false)] else [Do(Cube), SyncAll(false)]
    else if MixMode(cfg) then [Do(Cube)] else []
  }

  lemma ExecAivMixDynamic(cfg: Config, core: Core)
    ensures Exec(GenCubeCommonFuncForAIVMixDynamic(), cfg, core) == Outcome([Do(Cube), SyncAll(true)], false)
  {
    assert Exec(Sync(true, End), cfg, core) == Outcome([SyncAll(true)], false);
  }

  lemma ExecCubePart(cfg: Config, core: Core)
    ensures Exec(CubePart(cfg.Dynamic?), cfg, core).returned ==> core.aic
    ensures Exec(CubePart(cfg.Dynamic?), cfg, core).actions == CubeActions(cfg, core)
  {
    var aic, mix, aiv := GenCubeCommonFuncForAIC(), GenCubeCommonFuncForAICMix(), GenCubeCommonFuncForAIVMixDynamic();
    ExecAic(cfg, core);
    ExecAicMix(cfg, core);
    ExecAivMixDynamic(cfg, core);
    if cfg.Dynamic? {
    } else {
    }
  }

  lemma ExecPair(first: Code, second: Code, cfg: Config, core: Core)
    ensures ExecAll([first, second], cfg, core).actions
         == Exec(first, cfg, core).actions
            + if Exec(first, cfg, core).returned then [] else Exec(second, cfg, core).actions
  {
    assert [first, second][1..] == [second];
    assert ExecAll([second], cfg, core).actions == Exec(second, cfg, core).actions;
  }

  /** The emitted branches give every core the program written down in `Expected`. */
  lemma ProgramIsExpected(cfg: Config, emptyTensor: bool, core: Core)
    ensures Program(cfg, emptyTensor, core) == Expected(cfg, emptyTensor, core)
  {
    ExecCubePart(cfg, core);
    ExecVectorPart(cfg, emptyTensor, core);
    ExecPair(CubePart(cfg.Dynamic?), VectorPart(cfg.Dynamic?, emptyTensor), cfg, core);
  }

  // ---------- the protocol over all runs ----------

  function CoreAt(cubes: nat, c: nat): Core {
    if c < cubes then Core(true, c) else Core(false, c - cubes)
  }

  /** `cubes` cube cores and `vectors` vector cores run the emitted kernel. */
  function Kernel(cfg: Config, emptyTensor: bool, cubes: nat, vectors: nat): System {
    System(cubes, seq(cubes + vectors, (c: nat) => Program(cfg, emptyTensor, CoreAt(cubes, c))))
  }

  function Rounds(cfg: Config): nat { if AivOnlyMode(cfg) then 2 else 1 }

  lemma SyncsOfExpected(p: seq<Action>, b: bool)
    requires |p| <= 4
    ensures Syncs(p, |p|, b)
         == (if 0 < |p| && p[0] == SyncAll(b) then 1 else 0) + (if 1 < |p| && p[1] == SyncAll(b) then 1 else 0)
          + (if 2 < |p| && p[2] == SyncAll(b) then 1 else 0) + (if 3 < |p| && p[3] == SyncAll(b) then 1 else 0)
    ensures Syncs(p, 0, b) == 0
    ensures 1 <= |p| ==> Syncs(p, 1, b) == if p[0] == SyncAll(b) then 1 else 0
    ensures 2 <= |p| ==> Syncs(p, 2, b) == Syncs(p, 1, b) + if p[1] == SyncAll(b) then 1 else 0
    ensures 3 <= |p| ==> Syncs(p, 3, b) == Syncs(p, 2, b) + if p[2] == SyncAll(b) then 1 else 0
  {
    if 1 <= |p| { assert Syncs(p, 1, b) == Syncs(p, 0, b) + if p[0] == SyncAll(b) then 1 else 0; }
    if 2 <= |p| { assert Syncs(p, 2, b) == Syncs(p, 1, b) + if p[1] == SyncAll(b) then 1 else 0; }
    if 3 <= |p| { assert Syncs(p, 3, b) == Syncs(p, 2, b) + if p[2] == SyncAll(b) then 1 else 0; }
  }

  lemma ExpectedBalanced(cfg: Config, emptyTensor: bool, core: Core)
    requires !AivOnlyMode(cfg) || !core.aic
    ensures var p, b := Expected(cfg, emptyTensor, core), AivOnlyMode(cfg);
            (forall a | a in p && a.SyncAll? :: a.aivOnly == b) && Syncs(p, |p|, b) == Rounds(cfg)
  {
    SyncsOfExpected(Expected(cfg, emptyTensor, core), AivOnlyMode(cfg));
  }

  lemma KernelBalanced(cfg: Config, emptyTensor: bool, cubes: nat, vectors: nat)
    ensures Balanced(Kernel(cfg, emptyTensor, cubes, vectors), AivOnlyMode(cfg), Rounds(cfg))
    ensures forall c | 0 <= c < cubes + vectors && Member(Kernel(cfg, emptyTensor, cubes, vectors), c, AivOnlyMode(cfg)) ::
              Staged(Kernel(cfg, emptyTensor, cubes, vectors).prog[c], AivOnlyMode(cfg))
  {
    var sys := Kernel(cfg, emptyTensor, cubes, vectors);
    forall c: nat | Member(sys, c, AivOnlyMode(cfg))
      ensures (forall a | a in sys.prog[c] && a.SyncAll? :: a.aivOnly == AivOnlyMode(cfg))
      ensures Syncs(sys.prog[c], |sys.prog[c]|, AivOnlyMode(cfg)) == Rounds(cfg)
      ensures Staged(sys.prog[c], AivOnlyMode(cfg))
    {
      ProgramIsExpected(cfg, emptyTensor, CoreAt(cubes, c));
      ExpectedBalanced(cfg, emptyTensor, CoreAt(cubes, c));
    }
  }

  lemma KernelOutsiders(cfg: Config, emptyTensor: bool, cubes: nat, vectors: nat)
    ensures OutsidersRunFree(Kernel(cfg, emptyTensor, cubes, vectors), AivOnlyMode(cfg))
  {
    var sys := Kernel(cfg, emptyTensor, cubes, vectors);
    forall d | 0 <= d < |sys.prog| && !Member(sys, d, AivOnlyMode(cfg))
      ensures forall a | a in sys.prog[d] && a.SyncAll? :: a.aivOnly
    {
      ProgramIsExpected(cfg, emptyTensor, CoreAt(cubes, d));
    }
  }

  /** Every run is finite, and one that cannot go on has finished every core, with equally many arrivals. */
  lemma EveryRunCompletes(cfg: Config, emptyTensor: bool, cubes: nat, vectors: nat, moves: seq<nat>, s: State)
    requires IsRun(Kernel(cfg, emptyTensor, cubes, vectors), moves, s)
    ensures |moves| <= Remaining(Kernel(cfg, emptyTensor, cubes, vectors).prog, Start(Kernel(cfg, emptyTensor, cubes, vectors)))
    ensures Stuck(Kernel(cfg, emptyTensor, cubes, vectors), s)
        ==> CompletesEvenly(Kernel(cfg, emptyTensor, cubes, vectors), s, AivOnlyMode(cfg), Rounds(cfg))
  {
    var sys := Kernel(cfg, emptyTensor, cubes, vectors);
    RunsEnd(sys, moves, s);
    if Stuck(sys, s) {
      KernelBalanced(cfg, emptyTensor, cubes, vectors);
      KernelOutsiders(cfg, emptyTensor, cubes, vectors);
      StuckMeansFinished(sys, moves, s, AivOnlyMode(cfg), Rounds(cfg));
    }
  }

  /** In every state of every run, a core that reaches the vector stage finds the cube stage finished everywhere. */
  ghost predicate Safe(sys: System) {
    forall moves, s, c: nat, d: nat |
      IsRun(sys, moves, s) && d < |s| && Reached(sys, s, c, Vector) :: AllDone(sys, s, d, Cube)
  }

  lemma NoVectorStage(cfg: Config, emptyTensor: bool, cubes: nat, vectors: nat, s: State, c: nat)
    requires Consistent(Kernel(cfg, emptyTensor, cubes, vectors), s)
    requires emptyTensor || vectors == 0
    ensures !Reached(Kernel(cfg, emptyTensor, cubes, vectors), s, c, Vector)
  {
    var sys := Kernel(cfg, emptyTensor, cubes, vectors);
    if c < |s| {
      ProgramIsExpected(cfg, emptyTensor, CoreAt(cubes, c));
      assert forall k | 0 <= k < |sys.prog[c]| :: sys.prog[c][k] != Do(Vector);
    }
  }

  lemma RunIsSafe(cfg: Config, emptyTensor: bool, cubes: nat, vectors: nat, moves: seq<nat>, s: State, c: nat, d: nat)
    requires !AivOnlyMode(cfg) || cubes == 0
    requires IsRun(Kernel(cfg, emptyTensor, cubes, vectors), moves, s) && d < |s|
    requires Reached(Kernel(cfg, emptyTensor, cubes, vectors), s, c, Vector)
    ensures AllDone(Kernel(cfg, emptyTensor, cubes, vectors), s, d, Cube)
  {
    var sys := Kernel(cfg, emptyTensor, cubes, vectors);
    KernelBalanced(cfg, emptyTensor, cubes, vectors);
    RunInStep(sys, moves, s, AivOnlyMode(cfg), Rounds(cfg));
    StagesSeparated(sys, s, AivOnlyMode(cfg), c, d);
  }

  /** The protocol is safe in every mode, except for mode 2 on a launch that also has cube cores. */
  lemma SafetyIsExact(cfg: Config, emptyTensor: bool, cubes: nat, vectors: nat)
    ensures Safe(Kernel(cfg, emptyTensor, cubes, vectors))
       <==> !(AivOnlyMode(cfg) && 0 < cubes && 0 < vectors && !emptyTensor)
  {
    var sys := Kernel(cfg, emptyTensor, cubes, vectors);
    if AivOnlyMode(cfg) && 0 < cubes && 0 < vectors && !emptyTensor {
      CubeCoresAreLeftBehind(cfg, cubes, vectors);
    } else {
      forall moves, s, c: nat, d: nat | IsRun(sys, moves, s) && d < |s| && Reached(sys, s, c, Vector)
        ensures AllDone(sys, s, d, Cube)
      {
        if emptyTensor || vectors == 0 {
          NoVectorStage(cfg, emptyTensor, cubes, vectors, s, c);
        } else {
          RunIsSafe(cfg, emptyTensor, cubes, vectors, moves, s, c, d);
        }
      }
    }
  }

  lemma CubeCoresAreLeftBehind(cfg: Config, cubes: nat, vectors: nat)
    requires AivOnlyMode(cfg) && 0 < cubes && 0 < vectors
    ensures !Safe(Kernel(cfg, false, cubes, vectors))
  {
    var sys := Kernel(cfg, false, cubes, vectors);
    KernelBalanced(cfg, false, cubes, vectors);
    assert RunTo(sys, []) == Some(Start(sys));
    var moves, s := MembersFinish(sys, [], Start(sys), true, 2);
    ProgramIsExpected(cfg, false, CoreAt(cubes, 0));
    ProgramIsExpected(cfg, false, CoreAt(cubes, cubes));
    assert sys.prog[cubes][3] == Do(Vector);
    assert Reached(sys, s, cubes, Vector);
    assert sys.prog[0][0] == Do(Cube) && s[0].pc == 0;
    assert !AllDone(sys, s, 0, Cube);
  }

  // ---------- the launch ----------

  const WORD := 0x1_0000_0000

  /** Who chooses the launch: the compiler for static shapes, the host code for Inductor, or the other host
      code. What they read off the tiling key of the cube stage is given. */
  datatype Host =
    | StaticHost(mixKey: bool)
    | InductorHost(aivOnlyKey: bool, mixKey: bool, blockIdxKey: bool)
    | TilingHost(mixKey: bool, blockIdxKey: bool)

  datatype Launch = Launch(cfg: Config, blockDim: nat)

  /** Host code computes in 32 bits, the compiler in unbounded numbers. */
  function Word(host: Host, x: nat): nat {
    if host.StaticHost? then x else x % WORD
  }

  function LaunchBlockDim(host: Host, cubeBlockDim: nat, vecBlockDim: nat): nat {
    if host.InductorHost? && host.aivOnlyKey then vecBlockDim
    else if Word(host, cubeBlockDim * 2) < vecBlockDim then Word(host, vecBlockDim + 1) / 2
    else cubeBlockDim
  }

  /** The number of blocks and the limits that the kernel is given. */
  function LaunchOf(host: Host, cubeBlockDim: nat, vecBlockDim: nat): Launch {
    var blockDim := LaunchBlockDim(host, cubeBlockDim, vecBlockDim);
    match host
    case StaticHost(mix) => Launch(Static(mix, Some(cubeBlockDim), Some(vecBlockDim)), blockDim)
    case InductorHost(aivOnly, mix, blockIdx) =>
      Launch(Dynamic(if aivOnly then 2 else if mix then 1 else 0, if blockIdx then blockDim else cubeBlockDim, vecBlockDim),
             blockDim)
    case TilingHost(mix, blockIdx) =>
      Launch(Dynamic(if mix then 1 else 0, if blockIdx then blockDim else cubeBlockDim, vecBlockDim), blockDim)
  }

  datatype KernelType = AivOnly | MixAicOneTwo

  /** The kernel type the generator declares: a kernel for Inductor is compiled per mode, and has no cube cores in mode 2. */
  function KernelTypeOf(host: Host, cfg: Config): KernelType {
    if host.InductorHost? && AivOnlyMode(cfg) then AivOnly else MixAicOneTwo
  }

  /** `n` blocks are `n` vector cores, or `n` cube cores with two vector cores each. */
  function VectorCores(kind: KernelType, n: nat): nat { if kind.AivOnly? then n else 2 * n }

  function CubeCores(kind: KernelType, n: nat): nat { if kind.AivOnly? then 0 else n }

  function Launched(host: Host, cubeBlockDim: nat, vecBlockDim: nat, emptyTensor: bool): System {
    var launch := LaunchOf(host, cubeBlockDim, vecBlockDim);
    var kind := KernelTypeOf(host, launch.cfg);
    Kernel(launch.cfg, emptyTensor, CubeCores(kind, launch.blockDim), VectorCores(kind, launch.blockDim))
  }

  /** Every launch is safe: only vector cores are started in mode 2. */
  lemma LaunchIsSafe(host: Host, cubeBlockDim: nat, vecBlockDim: nat, emptyTensor: bool)
    ensures Safe(Launched(host, cubeBlockDim, vecBlockDim, emptyTensor))
  {
    var launch := LaunchOf(host, cubeBlockDim, vecBlockDim);
    var kind := KernelTypeOf(host, launch.cfg);
    SafetyIsExact(launch.cfg, emptyTensor, CubeCores(kind, launch.blockDim), VectorCores(kind, launch.blockDim));
  }

  /** Core `c` has run through the stage. */
  ghost predicate Performed(sys: System, s: State, c: nat, stage: Stage)
    requires Consistent(sys, s)
  {
    c < |s| && exists k :: 0 <= k < s[c].pc && sys.prog[c][k] == Do(stage)
  }

  /** Vector core `i` has gone through the vector stage; in an AIV-only kernel it also does the work of the cube stage. */
  ghost predicate VectorServed(kind: KernelType, sys: System, s: State, i: nat)
    requires Consistent(sys, s)
  {
    Performed(sys, s, sys.cubes + i, Vector) && (kind.AivOnly? ==> Performed(sys, s, sys.cubes + i, Cube))
  }

  ghost predicate CubeServed(sys: System, s: State, i: nat)
    requires Consistent(sys, s)
  {
    i < sys.cubes && Performed(sys, s, i, Cube)
  }

  /** Every block below the limits has gone through its stage, on a core of its own. */
  ghost predicate AllServed(kind: KernelType, sys: System, s: State, cubeBlockDim: nat, vecBlockDim: nat)
    requires Consistent(sys, s)
  {
    && (forall i: nat | i < vecBlockDim :: VectorServed(kind, sys, s, i))
    && (kind.MixAicOneTwo? ==> forall i: nat | i < cubeBlockDim :: CubeServed(sys, s, i))
  }

  /** There is a core for every block below both limits. */
  predicate EnoughCores(host: Host, cubeBlockDim: nat, vecBlockDim: nat) {
    var launch := LaunchOf(host, cubeBlockDim, vecBlockDim);
    var kind := KernelTypeOf(host, launch.cfg);
    (kind.AivOnly? || cubeBlockDim <= launch.blockDim) && vecBlockDim <= VectorCores(kind, launch.blockDim)
  }

  /** The launch size covers both limits exactly as long as the host's arithmetic does not wrap around. */
  lemma EnoughCoresIs(host: Host, cubeBlockDim: nat, vecBlockDim: nat)
    requires host.StaticHost? || (cubeBlockDim < WORD && vecBlockDim < WORD)
    ensures EnoughCores(host, cubeBlockDim, vecBlockDim)
       <==> || host.StaticHost? || (host.InductorHost? && host.aivOnlyKey)
            || vecBlockDim <= cubeBlockDim * 2 % WORD
            || (cubeBlockDim < WORD / 2 && vecBlockDim < WORD - 1)
  {
  }

  lemma DoneAt(sys: System, s: State, c: nat, k: nat, stage: Stage)
    requires Consistent(sys, s) && c < |s| && !Unfinished(sys, s, c)
    requires k < |sys.prog[c]| && sys.prog[c][k] == Do(stage)
    ensures Performed(sys, s, c, stage)
  {
  }

  lemma FinishedVector(host: Host, cubeBlockDim: nat, vecBlockDim: nat, s: State, i: nat)
    requires Consistent(Launched(host, cubeBlockDim, vecBlockDim, false), s)
    requires i < vecBlockDim && EnoughCores(host, cubeBlockDim, vecBlockDim)
    requires !Unfinished(Launched(host, cubeBlockDim, vecBlockDim, false), s,
                         Launched(host, cubeBlockDim, vecBlockDim, false).cubes + i)
    ensures VectorServed(KernelTypeOf(host, LaunchOf(host, cubeBlockDim, vecBlockDim).cfg),
                         Launched(host, cubeBlockDim, vecBlockDim, false), s, i)
  {
    var sys, cfg := Launched(host, cubeBlockDim, vecBlockDim, false), LaunchOf(host, cubeBlockDim, vecBlockDim).cfg;
    var c := sys.cubes + i;
    ProgramIsExpected(cfg, false, CoreAt(sys.cubes, c));
    DoneAt(sys, s, c, |sys.prog[c]| - 1, Vector);
    if AivOnlyMode(cfg) { DoneAt(sys, s, c, 0, Cube); }
  }

  lemma FinishedCube(host: Host, cubeBlockDim: nat, vecBlockDim: nat, s: State, i: nat)
    requires Consistent(Launched(host, cubeBlockDim, vecBlockDim, false), s)
    requires i < cubeBlockDim && EnoughCores(host, cubeBlockDim, vecBlockDim)
    requires KernelTypeOf(host, LaunchOf(host, cubeBlockDim, vecBlockDim).cfg).MixAicOneTwo?
    requires !Unfinished(Launched(host, cubeBlockDim, vecBlockDim, false), s, i)
    ensures CubeServed(Launched(host, cubeBlockDim, vecBlockDim, false), s, i)
  {
    var sys, cfg := Launched(host, cubeBlockDim, vecBlockDim, false), LaunchOf(host, cubeBlockDim, vecBlockDim).cfg;
    ProgramIsExpected(cfg, false, CoreAt(sys.cubes, i));
    DoneAt(sys, s, i, 0, Cube);
  }

  /** If cores are missing, the first block without a core is never served. */
  lemma MissingCore(host: Host, cubeBlockDim: nat, vecBlockDim: nat, s: State)
    requires Consistent(Launched(host, cubeBlockDim, vecBlockDim, false), s)
    requires !EnoughCores(host, cubeBlockDim, vecBlockDim)
    ensures !AllServed(KernelTypeOf(host, LaunchOf(host, cubeBlockDim, vecBlockDim).cfg),
                       Launched(host, cubeBlockDim, vecBlockDim, false), s, cubeBlockDim, vecBlockDim)
  {
    var sys, launch := Launched(host, cubeBlockDim, vecBlockDim, false), LaunchOf(host, cubeBlockDim, vecBlockDim);
    var kind := KernelTypeOf(host, launch.cfg);
    var vectors := VectorCores(kind, launch.blockDim);
    if vectors < vecBlockDim {
      assert !VectorServed(kind, sys, s, vectors);
    } else {
      assert !CubeServed(sys, s, sys.cubes);
    }
  }

  /** Every finished run of a launch has served all blocks, exactly if there are cores for all of them. */
  lemma LaunchSuffices(host: Host, cubeBlockDim: nat, vecBlockDim: nat, moves: seq<nat>, s: State)
    requires IsRun(Launched(host, cubeBlockDim, vecBlockDim, false), moves, s)
    requires Stuck(Launched(host, cubeBlockDim, vecBlockDim, false), s)
    ensures AllServed(KernelTypeOf(host, LaunchOf(host, cubeBlockDim, vecBlockDim).cfg),
                      Launched(host, cubeBlockDim, vecBlockDim, false), s, cubeBlockDim, vecBlockDim)
       <==> EnoughCores(host, cubeBlockDim, vecBlockDim)
  {
    if EnoughCores(host, cubeBlockDim, vecBlockDim) {
      var sys, launch := Launched(host, cubeBlockDim, vecBlockDim, false), LaunchOf(host, cubeBlockDim, vecBlockDim);
      var kind := KernelTypeOf(host, launch.cfg);
      EveryRunCompletes(launch.cfg, false, CubeCores(kind, launch.blockDim), VectorCores(kind, launch.blockDim), moves, s);
      forall i: nat | i < vecBlockDim ensures VectorServed(kind, sys, s, i) {
        FinishedVector(host, cubeBlockDim, vecBlockDim, s, i);
      }
      forall i: nat | kind.MixAicOneTwo? && i < cubeBlockDim ensures CubeServed(sys, s, i) {
        FinishedCube(host, cubeBlockDim, vecBlockDim, s, i);
      }
    } else {
      MissingCore(host, cubeBlockDim, vecBlockDim, s);
    }
  }
}
