/**
 Cores that run straight-line programs and meet at `SyncAll` barriers, in every
 interleaving. The first `cubes` cores of a system are cube (AIC) cores, the others
 vector (AIV) cores.
 */
module Barriers {
  import opened Options

  datatype Stage = Cube | Vector

  /** `SyncAll(true)` joins the vector cores only, `SyncAll(false)` all cores. */
  datatype Action = Do(stage: Stage) | SyncAll(aivOnly: bool)

  datatype System = System(cubes: nat, prog: seq<seq<Action>>)

  /** A core has executed `pc` actions; when waiting, it has also arrived at the barrier at `pc`. */
  datatype Local = Local(pc: nat, waiting: bool)

  type State = seq<Local>

  predicate Consistent(sys: System, s: State) {
    && |s| == |sys.prog|
    && forall c | 0 <= c < |s| ::
         && s[c].pc <= |sys.prog[c]|
         && (s[c].waiting ==> s[c].pc < |sys.prog[c]| && sys.prog[c][s[c].pc].SyncAll?)
  }

  function Start(sys: System): (s: State)
    ensures Consistent(sys, s)
  {
    seq(|sys.prog|, c => Local(0, false))
  }

  predicate Unfinished(sys: System, s: State, c: nat)
    requires Consistent(sys, s)
  {
    c < |s| && s[c].pc < |sys.prog[c]|
  }

  /** Whether core `c` takes part in a barrier of the given kind. */
  predicate Member(sys: System, c: nat, aivOnly: bool) {
    c < |sys.prog| && (aivOnly ==> sys.cubes <= c)
  }

  /** Number of barriers of one kind among the first `n` actions. */
  function Syncs(p: seq<Action>, n: nat, aivOnly: bool): nat
    requires n <= |p|
  {
    if n == 0 then 0 else Syncs(p, n - 1, aivOnly) + if p[n - 1] == SyncAll(aivOnly) then 1 else 0
  }

  function Arrived(sys: System, s: State, c: nat, aivOnly: bool): nat
    requires Consistent(sys, s) && c < |s|
  {
    Syncs(sys.prog[c], s[c].pc, aivOnly) +
    if s[c].waiting && sys.prog[c][s[c].pc] == SyncAll(aivOnly) then 1 else 0
  }

  /** A waiting core may go on once every member has arrived as often as it has; a non-member does not wait. */
  ghost predicate Released(sys: System, s: State, c: nat)
    requires Consistent(sys, s) && c < |s| && s[c].waiting
  {
    var b := sys.prog[c][s[c].pc].aivOnly;
    Member(sys, c, b) ==>
      forall d | 0 <= d < |s| && Member(sys, d, b) :: Arrived(sys, s, c, b) <= Arrived(sys, s, d, b)
  }

  ghost predicate Enabled(sys: System, s: State, c: nat)
    requires Consistent(sys, s)
  {
    Unfinished(sys, s, c) && (s[c].waiting ==> Released(sys, s, c))
  }

  function Advance(sys: System, s: State, c: nat): (s': State)
    requires Consistent(sys, s) && Unfinished(sys, s, c)
    ensures Consistent(sys, s')
  {
    if !s[c].waiting && sys.prog[c][s[c].pc].SyncAll? then s[c := Local(s[c].pc, true)]
    else s[c := Local(s[c].pc + 1, false)]
  }

  /** A run is the list of cores that move; it reaches a state unless a move was not enabled. */
  ghost function RunTo(sys: System, moves: seq<nat>): (r: Option<State>)
    ensures r.Some? ==> Consistent(sys, r.value)
    decreases |moves|
  {
    if moves == [] then Some(Start(sys))
    else
      var before := RunTo(sys, moves[..|moves| - 1]);
      var c := moves[|moves| - 1];
      if before.Some? && Enabled(sys, before.value, c) then Some(Advance(sys, before.value, c)) else None
  }

  ghost predicate IsRun(sys: System, moves: seq<nat>, s: State) {
    RunTo(sys, moves) == Some(s)
  }

  // ---------- balanced systems ----------

  /** Members meet only barriers of one kind, all of them equally often. */
  ghost predicate Balanced(sys: System, aivOnly: bool, rounds: nat) {
    forall c | 0 <= c < |sys.prog| && Member(sys, c, aivOnly) ::
      && (forall a | a in sys.prog[c] && a.SyncAll? :: a.aivOnly == aivOnly)
      && Syncs(sys.prog[c], |sys.prog[c]|, aivOnly) == rounds
  }

  /** No member has passed a barrier that another member has not reached. */
  ghost predicate InStep(sys: System, s: State, aivOnly: bool) {
    && Consistent(sys, s)
    && forall c, d | 0 <= c < |s| && 0 <= d < |s| && Member(sys, c, aivOnly) && Member(sys, d, aivOnly) ::
         Syncs(sys.prog[c], s[c].pc, aivOnly) <= Arrived(sys, s, d, aivOnly)
  }

  lemma SyncsMonotone(p: seq<Action>, m: nat, n: nat, aivOnly: bool)
    requires m <= n <= |p|
    ensures Syncs(p, m, aivOnly) <= Syncs(p, n, aivOnly)
    ensures forall k | m <= k < n :: p[k] == SyncAll(aivOnly) ==> Syncs(p, m, aivOnly) < Syncs(p, n, aivOnly)
  {
    if m < n { SyncsMonotone(p, m, n - 1, aivOnly); }
  }

  lemma InStepPreserved(sys: System, s: State, c: nat, aivOnly: bool, rounds: nat)
    requires Balanced(sys, aivOnly, rounds) && InStep(sys, s, aivOnly) && Enabled(sys, s, c)
    ensures InStep(sys, Advance(sys, s, c), aivOnly)
  {
    var s' := Advance(sys, s, c);
    forall e, d | 0 <= e < |s| && 0 <= d < |s| && Member(sys, e, aivOnly) && Member(sys, d, aivOnly)
      ensures Syncs(sys.prog[e], s'[e].pc, aivOnly) <= Arrived(sys, s', d, aivOnly)
    {
      if e == c && s[c].waiting {
        assert sys.prog[c][s[c].pc] in sys.prog[c];
        assert Arrived(sys, s, c, aivOnly) <= Arrived(sys, s, d, aivOnly);
      }
    }
  }

  lemma {:induction false} RunInStep(sys: System, moves: seq<nat>, s: State, aivOnly: bool, rounds: nat)
    requires Balanced(sys, aivOnly, rounds) && IsRun(sys, moves, s)
    ensures InStep(sys, s, aivOnly)
    decreases |moves|
  {
    if moves != [] {
      var init, c := moves[..|moves| - 1], moves[|moves| - 1];
      var before := RunTo(sys, init).value;
      RunInStep(sys, init, before, aivOnly, rounds);
      InStepPreserved(sys, before, c, aivOnly, rounds);
    }
  }

  // ---------- progress ----------

  /** A core outside the barriers never waits. */
  ghost predicate OutsidersRunFree(sys: System, aivOnly: bool) {
    forall d | 0 <= d < |sys.prog| && !Member(sys, d, aivOnly) ::
      forall a | a in sys.prog[d] && a.SyncAll? :: a.aivOnly
  }

  /** The waiting member that has arrived least often, if every unfinished member waits. */
  lemma LeastWaiting(sys: System, s: State, aivOnly: bool, rounds: nat, n: nat, least: nat)
    requires Balanced(sys, aivOnly, rounds) && Consistent(sys, s)
    requires n <= |s| && Member(sys, least, aivOnly) && Unfinished(sys, s, least)
    requires forall d | 0 <= d < |s| && Member(sys, d, aivOnly) && Unfinished(sys, s, d) :: s[d].waiting
    requires forall d | n <= d < |s| && Member(sys, d, aivOnly) ::
               Arrived(sys, s, least, aivOnly) <= Arrived(sys, s, d, aivOnly)
    ensures exists c: nat :: Member(sys, c, aivOnly) && Enabled(sys, s, c)
    decreases n
  {
    if n == 0 {
      assert sys.prog[least][s[least].pc] in sys.prog[least];
      assert Enabled(sys, s, least);
    } else {
      var d := n - 1;
      var least' := if Member(sys, d, aivOnly) && Unfinished(sys, s, d)
                       && Arrived(sys, s, d, aivOnly) < Arrived(sys, s, least, aivOnly) then d else least;
      if Member(sys, d, aivOnly) && !Unfinished(sys, s, d) {
        ArrivedAtMost(sys, s, least', aivOnly);
        assert Arrived(sys, s, d, aivOnly) == rounds;
      }
      LeastWaiting(sys, s, aivOnly, rounds, n - 1, least');
    }
  }

  lemma ArrivedAtMost(sys: System, s: State, c: nat, aivOnly: bool)
    requires Consistent(sys, s) && c < |s|
    ensures Arrived(sys, s, c, aivOnly) <= Syncs(sys.prog[c], |sys.prog[c]|, aivOnly)
  {
    SyncsMonotone(sys.prog[c], s[c].pc, |sys.prog[c]|, aivOnly);
  }

  /** While a member is unfinished, some member can move, whatever the other cores do. */
  lemma MembersProgress(sys: System, s: State, aivOnly: bool, rounds: nat, c: nat)
    requires Balanced(sys, aivOnly, rounds) && Consistent(sys, s)
    requires Member(sys, c, aivOnly) && Unfinished(sys, s, c)
    ensures exists d: nat :: Member(sys, d, aivOnly) && Enabled(sys, s, d)
  {
    if d :| 0 <= d < |s| && Member(sys, d, aivOnly) && Unfinished(sys, s, d) && !s[d].waiting {
      assert Enabled(sys, s, d);
    } else {
      LeastWaiting(sys, s, aivOnly, rounds, |s|, c);
    }
  }

  /** No deadlock: every unfinished core implies that some core can move. */
  lemma NoDeadlock(sys: System, moves: seq<nat>, s: State, aivOnly: bool, rounds: nat, c: nat)
    requires Balanced(sys, aivOnly, rounds) && IsRun(sys, moves, s)
    requires Unfinished(sys, s, c)
    requires OutsidersRunFree(sys, aivOnly)
    ensures exists d: nat :: Enabled(sys, s, d)
  {
    if Member(sys, c, aivOnly) {
      MembersProgress(sys, s, aivOnly, rounds, c);
    } else {
      assert sys.prog[c][s[c].pc] in sys.prog[c];
      assert Enabled(sys, s, c);
    }
  }

  // ---------- every run ends ----------

  function Remaining(prog: seq<seq<Action>>, s: State): int
    requires |prog| == |s|
  {
    if s == [] then 0
    else 2 * (|prog[0]| - s[0].pc) - (if s[0].waiting then 1 else 0) + Remaining(prog[1..], s[1..])
  }

  lemma {:induction false} RemainingUpdate(prog: seq<seq<Action>>, s: State, c: nat, l: Local)
    requires |prog| == |s| && c < |s|
    ensures Remaining(prog, s[c := l]) - Remaining(prog, s)
         == 2 * (s[c].pc - l.pc) + (if s[c].waiting then 1 else 0) - (if l.waiting then 1 else 0)
  {
    if c > 0 {
      assert s[c := l][1..] == s[1..][c - 1 := l];
      RemainingUpdate(prog[1..], s[1..], c - 1, l);
    } else {
      assert s[c := l][1..] == s[1..];
    }
  }

  lemma {:induction false} RemainingNatural(prog: seq<seq<Action>>, s: State)
    requires |prog| == |s|
    requires forall c | 0 <= c < |s| :: s[c].pc <= |prog[c]| && (s[c].waiting ==> s[c].pc < |prog[c]|)
    ensures 0 <= Remaining(prog, s)
  {
    if s != [] {
      RemainingNatural(prog[1..], s[1..]);
    }
  }

  lemma {:induction false} RunLength(sys: System, moves: seq<nat>, s: State)
    requires IsRun(sys, moves, s)
    ensures |moves| + Remaining(sys.prog, s) <= Remaining(sys.prog, Start(sys))
    decreases |moves|
  {
    if moves != [] {
      var init, c := moves[..|moves| - 1], moves[|moves| - 1];
      var before := RunTo(sys, init).value;
      RunLength(sys, init, before);
      RemainingUpdate(sys.prog, before, c, s[c]);
    }
  }

  /** No run is longer than twice the program lengths together. */
  lemma RunsEnd(sys: System, moves: seq<nat>, s: State)
    requires IsRun(sys, moves, s)
    ensures |moves| <= Remaining(sys.prog, Start(sys))
  {
    RunLength(sys, moves, s);
    RemainingNatural(sys.prog, s);
  }

  lemma AdvanceShrinks(sys: System, s: State, c: nat)
    requires Consistent(sys, s) && Unfinished(sys, s, c)
    ensures 0 <= Remaining(sys.prog, Advance(sys, s, c)) < Remaining(sys.prog, s)
  {
    RemainingUpdate(sys.prog, s, c, Advance(sys, s, c)[c]);
    RemainingNatural(sys.prog, Advance(sys, s, c));
  }

  ghost predicate MembersDone(sys: System, s: State, s': State, aivOnly: bool)
    requires Consistent(sys, s) && Consistent(sys, s')
  {
    forall c | 0 <= c < |s| :: if Member(sys, c, aivOnly) then !Unfinished(sys, s', c) else s'[c] == s[c]
  }

  /** The members can run to their ends while the other cores stand still. */
  lemma {:induction false} MembersFinish(sys: System, moves: seq<nat>, s: State, aivOnly: bool, rounds: nat)
    returns (moves': seq<nat>, s': State)
    requires Balanced(sys, aivOnly, rounds) && IsRun(sys, moves, s)
    ensures IsRun(sys, moves', s') && MembersDone(sys, s, s', aivOnly)
    decreases Remaining(sys.prog, s)
  {
    if c: nat :| Member(sys, c, aivOnly) && Unfinished(sys, s, c) {
      MembersProgress(sys, s, aivOnly, rounds, c);
      var d: nat :| Member(sys, d, aivOnly) && Enabled(sys, s, d);
      var next := Advance(sys, s, d);
      AdvanceShrinks(sys, s, d);
      moves', s' := MembersFinish(sys, moves + [d], next, aivOnly, rounds);
      assert forall c | 0 <= c < |s| && c != d :: next[c] == s[c];
    } else {
      moves', s' := moves, s;
    }
  }

  ghost predicate Stuck(sys: System, s: State)
    requires Consistent(sys, s)
  {
    forall c: nat :: !Enabled(sys, s, c)
  }

  ghost predicate CompletesEvenly(sys: System, s: State, aivOnly: bool, rounds: nat)
    requires Consistent(sys, s)
  {
    forall c: nat | c < |sys.prog| ::
      !Unfinished(sys, s, c) && (Member(sys, c, aivOnly) ==> Arrived(sys, s, c, aivOnly) == rounds)
  }

  /** A run that cannot go on has finished all cores, and all members have arrived equally often. */
  lemma StuckMeansFinished(sys: System, moves: seq<nat>, s: State, aivOnly: bool, rounds: nat)
    requires Balanced(sys, aivOnly, rounds) && OutsidersRunFree(sys, aivOnly)
    requires IsRun(sys, moves, s) && Stuck(sys, s)
    ensures CompletesEvenly(sys, s, aivOnly, rounds)
  {
    forall c: nat | c < |sys.prog|
      ensures !Unfinished(sys, s, c) && (Member(sys, c, aivOnly) ==> Arrived(sys, s, c, aivOnly) == rounds)
    {
      if Unfinished(sys, s, c) {
        NoDeadlock(sys, moves, s, aivOnly, rounds, c);
      }
      assert s[c].pc == |sys.prog[c]|;
    }
  }

  // ---------- separation of the stages ----------

  ghost predicate Reached(sys: System, s: State, c: nat, stage: Stage)
    requires Consistent(sys, s)
  {
    c < |s| && exists k :: 0 <= k <= s[c].pc && k < |sys.prog[c]| && sys.prog[c][k] == Do(stage)
  }

  ghost predicate AllDone(sys: System, s: State, c: nat, stage: Stage)
    requires Consistent(sys, s) && c < |s|
  {
    forall k | 0 <= k < |sys.prog[c]| :: sys.prog[c][k] == Do(stage) ==> k < s[c].pc
  }

  /** The cube stage comes before the first barrier of a program, the vector stage after one. */
  ghost predicate Staged(p: seq<Action>, aivOnly: bool) {
    forall k | 0 <= k < |p| ::
      && (p[k] == Do(Cube) ==> Syncs(p, k, aivOnly) == 0)
      && (p[k] == Do(Vector) ==> 1 <= Syncs(p, k, aivOnly))
  }

  /** When a member reaches the vector stage, every member has finished the cube stage. */
  lemma StagesSeparated(sys: System, s: State, aivOnly: bool, c: nat, d: nat)
    requires InStep(sys, s, aivOnly)
    requires Member(sys, c, aivOnly) && Member(sys, d, aivOnly)
    requires Staged(sys.prog[c], aivOnly) && Staged(sys.prog[d], aivOnly)
    requires Reached(sys, s, c, Vector)
    ensures AllDone(sys, s, d, Cube)
  {
    var k :| 0 <= k <= s[c].pc && k < |sys.prog[c]| && sys.prog[c][k] == Do(Vector);
    SyncsMonotone(sys.prog[c], k, s[c].pc, aivOnly);
    assert 1 <= Arrived(sys, s, d, aivOnly);
    forall j | 0 <= j < |sys.prog[d]| && sys.prog[d][j] == Do(Cube) ensures j < s[d].pc {
      if s[d].pc <= j {
        SyncsMonotone(sys.prog[d], s[d].pc, j, aivOnly);
      }
    }
  }
}
