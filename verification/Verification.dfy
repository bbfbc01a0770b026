/** The verification state of a workspace, the command runs that feed it, and the
    gate that declares a task finished. */
module Verification {
  import opened Base

  const HISTORY_LIMIT := 50

  datatype Command = Command(id: string, required: bool)
  datatype Run = Run(commandId: string, ok: bool, startedAt: int)

  datatype State = State(
    commands: seq<Command>, enforced: bool, lastWriteAt: Option<int>, dirtyPaths: set<string>,
    lastRunByCommand: map<string, Run>, history: seq<Run>)

  const INITIAL := State([], false, None, {}, map[], [])

  predicate AnyRequired(commands: seq<Command>) {
    exists i :: 0 <= i < |commands| && commands[i].required
  }

  function SetCommands(s: State, commands: seq<Command>, enforced: bool): State {
    s.(commands := commands, enforced := enforced && AnyRequired(commands))
  }

  function MarkDirty(s: State, paths: set<string>, now: int): State {
    s.(lastWriteAt := Some(now), dirtyPaths := s.dirtyPaths + paths)
  }

  function RecordRun(s: State, run: Run): State {
    var history := [run] + s.history;
    s.(lastRunByCommand := s.lastRunByCommand[run.commandId := run],
       history := if |history| > HISTORY_LIMIT then history[..HISTORY_LIMIT] else history)
  }

  function MarkClean(s: State): State {
    s.(lastWriteAt := None, dirtyPaths := {})
  }

  datatype Standing = NeverRan | BeforeWrite | FailedAfter | PassedAfter

  /** How the latest run of a command stands to a write at `written`. */
  function StandingOf(runs: map<string, Run>, id: string, written: int): Standing {
    if id !in runs then NeverRan
    else if runs[id].startedAt <= written then BeforeWrite
    else if !runs[id].ok then FailedAfter else PassedAfter
  }

  function RequiredWith(s: State, commands: seq<Command>, written: int, standing: Standing): seq<Command> {
    if commands == [] then []
    else
      var c := commands[|commands| - 1];
      RequiredWith(s, commands[..|commands| - 1], written, standing)
      + if c.required && StandingOf(s.lastRunByCommand, c.id, written) == standing then [c] else []
  }

  datatype Evaluation = Evaluation(pending: seq<Command>, failed: seq<Command>, stale: seq<Command>)

  function Evaluate(s: State): Evaluation {
    if !s.enforced || s.lastWriteAt.None? then Evaluation([], [], [])
    else Evaluation(RequiredWith(s, s.commands, s.lastWriteAt.value, NeverRan),
                    RequiredWith(s, s.commands, s.lastWriteAt.value, FailedAfter),
                    RequiredWith(s, s.commands, s.lastWriteAt.value, BeforeWrite))
  }

  predicate Satisfied(s: State) {
    var e := Evaluate(s);
    e.pending == [] && e.failed == [] && e.stale == []
  }

  /** Recording a run and clearing the state if that satisfied it. */
  function RecordAndSettle(s: State, run: Run): State {
    var after := RecordRun(s, run);
    if Satisfied(after) then MarkClean(after) else after
  }

  class VerificationState {
    var commands: seq<Command>
    var enforced: bool
    var lastWriteAt: Option<int>
    var dirtyPaths: set<string>
    var lastRunByCommand: map<string, Run>
    var history: seq<Run>

    function Contents(): State
      reads this
    {
      State(commands, enforced, lastWriteAt, dirtyPaths, lastRunByCommand, history)
    }

    constructor ()
      ensures Contents() == INITIAL
    {
      commands, enforced, lastWriteAt, dirtyPaths, lastRunByCommand, history := [], false, None, {}, map[], [];
    }

    method Configure(commands: seq<Command>, enforced: bool)
      modifies this
      ensures Contents() == SetCommands(old(Contents()), commands, enforced)
    {
      this.commands := commands;
      this.enforced := enforced && AnyRequired(commands);
    }

    method Dirty(paths: set<string>, now: int)
      modifies this
      ensures Contents() == MarkDirty(old(Contents()), paths, now)
    {
      lastWriteAt := Some(now);
      dirtyPaths := dirtyPaths + paths;
    }

    method Record(run: Run)
      modifies this
      ensures Contents() == RecordRun(old(Contents()), run)
    {
      lastRunByCommand := lastRunByCommand[run.commandId := run];
      history := [run] + history;
      if |history| > HISTORY_LIMIT { history := history[..HISTORY_LIMIT]; }
    }

    method Assess() returns (satisfied: bool, e: Evaluation)
      ensures e == Evaluate(Contents())
      ensures satisfied <==> Satisfied(Contents())
    {
      if !enforced || lastWriteAt.None? { return true, Evaluation([], [], []); }
      var pending, failed, stale := [], [], [];
      for i := 0 to |commands|
        invariant pending == RequiredWith(Contents(), commands[..i], lastWriteAt.value, NeverRan)
        invariant failed == RequiredWith(Contents(), commands[..i], lastWriteAt.value, FailedAfter)
        invariant stale == RequiredWith(Contents(), commands[..i], lastWriteAt.value, BeforeWrite)
      {
        assert commands[..i + 1][..i] == commands[..i];
        var command := commands[i];
        if !command.required { continue; }
        if command.id !in lastRunByCommand { pending := pending + [command]; continue; }
        var run := lastRunByCommand[command.id];
        if run.startedAt <= lastWriteAt.value { stale := stale + [command]; continue; }
        if !run.ok { failed := failed + [command]; }
      }
      assert commands[..|commands|] == commands;
      return pending == [] && failed == [] && stale == [], Evaluation(pending, failed, stale);
    }

    method RecordThenAssess(run: Run)
      modifies this
      ensures Contents() == RecordAndSettle(old(Contents()), run)
    {
      Record(run);
      var satisfied, _ := Assess();
      if satisfied { lastWriteAt := None; dirtyPaths := {}; }
    }
  }

  // ------------------------------------------------ what evaluation means

  predicate PassedSince(s: State, c: Command, written: int) {
    c.required ==> StandingOf(s.lastRunByCommand, c.id, written) == PassedAfter
  }

  lemma {:induction false} RequiredWithMember(s: State, commands: seq<Command>, written: int, standing: Standing)
    ensures RequiredWith(s, commands, written, standing) == [] <==>
            forall i :: 0 <= i < |commands| && commands[i].required ==> StandingOf(s.lastRunByCommand, commands[i].id, written) != standing
  {
    if commands != [] {
      var n := |commands| - 1;
      RequiredWithMember(s, commands[..n], written, standing);
      if RequiredWith(s, commands, written, standing) == [] {
        forall i | 0 <= i < |commands| && commands[i].required ensures StandingOf(s.lastRunByCommand, commands[i].id, written) != standing {
          if i < n { assert commands[..n][i] == commands[i]; }
        }
      }
    }
  }

  /** Evaluation is satisfied exactly when nothing is enforced or pending, or the
      latest run of every required command started after the write and passed. */
  lemma SatisfiedExactly(s: State)
    ensures Satisfied(s) <==> (!s.enforced || s.lastWriteAt.None?
                               || forall i :: 0 <= i < |s.commands| ==> PassedSince(s, s.commands[i], s.lastWriteAt.value))
  {
    if s.enforced && s.lastWriteAt.Some? {
      RequiredWithMember(s, s.commands, s.lastWriteAt.value, NeverRan);
      RequiredWithMember(s, s.commands, s.lastWriteAt.value, FailedAfter);
      RequiredWithMember(s, s.commands, s.lastWriteAt.value, BeforeWrite);
    }
  }

  // ------------------------------------------------------- runs and the gate

  /** How the desktop answered: it refused or lost the command, or it exited. */
  datatype Outcome = Refused | Exited(passed: bool)

  /** `detected` commands are checks the project declares. */
  datatype Launch = Launch(commandId: string, detected: bool, at: int, outcome: Option<Outcome>)

  /** `launches` is every run ever started; `active` those still tracked. History:
      `written` is the last write of all, `intact` whether the command list and the
      enforced flag are still what they were at that write. */
  datatype System = System(v: State, launches: map<nat, Launch>, active: set<nat>, written: Option<int>, intact: bool)

  const START := System(INITIAL, map[], {}, None, true)

  datatype Op =
    | Configured(commands: seq<Command>, enforced: bool)
    | Wrote(paths: set<string>, now: int)
    | Launched(run: nat, commandId: string, detected: bool, now: int)
    | Settled(run: nat, outcome: Outcome)
    | Collected(run: nat)
    | Forgotten(run: nat)

  /** A settled run may be collected by the call that started it, by a poll, or by
      both. */
  predicate Enabled(s: System, op: Op) {
    match op
    case Configured(_, _) => true
    case Wrote(_, _) => true
    case Launched(run, _, _, _) => run !in s.launches
    case Settled(run, _) => run in s.launches && s.launches[run].outcome.None?
    case Collected(run) => run in s.launches && s.launches[run].outcome.Some?
    case Forgotten(run) => run in s.active
  }

  function Collect(s: System, run: nat): System
    requires Enabled(s, Collected(run))
  {
    var l := s.launches[run];
    var rest := s.(active := s.active - {run});
    if l.detected && l.outcome.value.Exited?
    then rest.(v := RecordAndSettle(s.v, Run(l.commandId, l.outcome.value.passed, l.at)))
    else rest
  }

  function Step(s: System, op: Op): System
    requires Enabled(s, op)
  {
    match op
    case Configured(commands, enforced) =>
      var v := SetCommands(s.v, commands, enforced);
      s.(v := v, intact := s.intact && v == s.v)
    case Wrote(paths, now) => s.(v := MarkDirty(s.v, paths, now), written := Some(now), intact := true)
    case Launched(run, id, detected, now) =>
      s.(launches := s.launches[run := Launch(id, detected, now, None)], active := s.active + {run})
    case Settled(run, outcome) => s.(launches := s.launches[run := s.launches[run].(outcome := Some(outcome))])
    case Collected(run) => Collect(s, run)
    case Forgotten(run) => s.(active := s.active - {run})
  }

  predicate RunFrom(s: System, ops: seq<Op>, t: System)
    decreases |ops|
  {
    if ops == [] then s == t else Enabled(s, ops[0]) && RunFrom(Step(s, ops[0]), ops[1..], t)
  }

  /** `finish_task`: nothing tracked is still running, and evaluation is satisfied. */
  predicate GateOpens(s: System) {
    (forall run :: run in s.active && run in s.launches ==> s.launches[run].outcome.Some?) && Satisfied(s.v)
  }

  /** Some run of this command started strictly after `time` and exited with success. */
  predicate Proven(launches: map<nat, Launch>, id: string, time: int) {
    exists run :: run in launches && launches[run].commandId == id && launches[run].at > time
                  && launches[run].outcome == Some(Exited(true))
  }

  predicate AllProven(s: System, time: int) {
    forall i :: 0 <= i < |s.v.commands| && s.v.commands[i].required ==> Proven(s.launches, s.v.commands[i].id, time)
  }

  /** A recorded run really happened as recorded. */
  predicate Genuine(launches: map<nat, Launch>, run: Run) {
    exists r :: r in launches && launches[r].commandId == run.commandId && launches[r].at == run.startedAt
                && launches[r].outcome == Some(Exited(run.ok))
  }

  predicate Inv(s: System) {
    && (forall id :: id in s.v.lastRunByCommand ==> s.v.lastRunByCommand[id].commandId == id && Genuine(s.launches, s.v.lastRunByCommand[id]))
    && (s.v.lastWriteAt.Some? ==> s.v.lastWriteAt == s.written)
    && (s.intact && s.v.enforced && s.written.Some? && s.v.lastWriteAt.None? ==> AllProven(s, s.written.value))
  }

  lemma ProvenStays(a: map<nat, Launch>, b: map<nat, Launch>, id: string, time: int)
    requires Proven(a, id, time)
    requires forall r :: r in a && a[r].outcome.Some? ==> r in b && b[r] == a[r]
    ensures Proven(b, id, time)
  {
  }

  lemma GenuineStays(a: map<nat, Launch>, b: map<nat, Launch>, run: Run)
    requires Genuine(a, run)
    requires forall r :: r in a && a[r].outcome.Some? ==> r in b && b[r] == a[r]
    ensures Genuine(b, run)
  {
  }

  lemma InvLaunches(s: System, launches: map<nat, Launch>, active: set<nat>)
    requires Inv(s)
    requires forall r :: r in s.launches && s.launches[r].outcome.Some? ==> r in launches && launches[r] == s.launches[r]
    ensures Inv(s.(launches := launches, active := active))
  {
    forall id | id in s.v.lastRunByCommand ensures Genuine(launches, s.v.lastRunByCommand[id]) {
      GenuineStays(s.launches, launches, s.v.lastRunByCommand[id]);
    }
    if s.written.Some? && AllProven(s, s.written.value) {
      forall i | 0 <= i < |s.v.commands| && s.v.commands[i].required ensures Proven(launches, s.v.commands[i].id, s.written.value) {
        ProvenStays(s.launches, launches, s.v.commands[i].id, s.written.value);
      }
    }
  }

  /** What satisfies an evaluation are genuine runs. */
  lemma SatisfiedIsProven(s: System)
    requires forall id :: id in s.v.lastRunByCommand ==> s.v.lastRunByCommand[id].commandId == id && Genuine(s.launches, s.v.lastRunByCommand[id])
    requires s.v.enforced && s.v.lastWriteAt.Some? && Satisfied(s.v)
    ensures AllProven(s, s.v.lastWriteAt.value)
  {
    SatisfiedExactly(s.v);
    forall i | 0 <= i < |s.v.commands| && s.v.commands[i].required ensures Proven(s.launches, s.v.commands[i].id, s.v.lastWriteAt.value) {
      assert PassedSince(s.v, s.v.commands[i], s.v.lastWriteAt.value);
      var run := s.v.lastRunByCommand[s.v.commands[i].id];
      assert Genuine(s.launches, run);
      var r :| r in s.launches && s.launches[r].commandId == run.commandId && s.launches[r].at == run.startedAt && s.launches[r].outcome == Some(Exited(run.ok));
      assert s.launches[r].at > s.v.lastWriteAt.value;
    }
  }

  lemma InvRecord(s: System, run: Run)
    requires Inv(s) && Genuine(s.launches, run)
    ensures Inv(s.(v := RecordAndSettle(s.v, run)))
  {
    var recorded := s.(v := RecordRun(s.v, run));
    if Satisfied(recorded.v) && s.v.enforced && s.v.lastWriteAt.Some? { SatisfiedIsProven(recorded); }
  }

  lemma InvStep(s: System, op: Op)
    requires Inv(s) && Enabled(s, op)
    ensures Inv(Step(s, op))
  {
    match op {
      case Configured(commands, enforced) =>
      case Wrote(paths, now) =>
      case Launched(run, id, detected, now) => InvLaunches(s, Step(s, op).launches, Step(s, op).active);
      case Settled(run, outcome) => InvLaunches(s, Step(s, op).launches, s.active);
      case Collected(run) =>
        var l := s.launches[run];
        InvLaunches(s, s.launches, s.active - {run});
        if l.detected && l.outcome.value.Exited? {
          assert Genuine(s.launches, Run(l.commandId, l.outcome.value.passed, l.at));
          InvRecord(s.(active := s.active - {run}), Run(l.commandId, l.outcome.value.passed, l.at));
        }
      case Forgotten(run) => InvLaunches(s, s.launches, s.active - {run});
    }
  }

  lemma {:induction false} InvRun(s: System, ops: seq<Op>, t: System)
    requires Inv(s) && RunFrom(s, ops, t)
    ensures Inv(t)
    decreases |ops|
  {
    if ops != [] {
      InvStep(s, ops[0]);
      InvRun(Step(s, ops[0]), ops[1..], t);
    }
  }

  /** Over every run: while commands and enforcement are as they were at the last
      write, the enforced gate opens only when every required command has a run that
      started strictly after that write and succeeded. */
  lemma GateNeedsProof(ops: seq<Op>, t: System)
    requires RunFrom(START, ops, t) && GateOpens(t)
    requires t.intact && t.v.enforced && t.written.Some?
    ensures AllProven(t, t.written.value)
  {
    InvRun(START, ops, t);
    if t.v.lastWriteAt.Some? { SatisfiedIsProven(t); }
  }

  /** Announcing commands never closes an open gate whose write is settled. */
  lemma AnnouncingKeepsTheGateOpen(t: System, later: seq<Command>)
    requires GateOpens(t) && t.v.lastWriteAt.None? && AnyRequired(later)
    ensures GateOpens(Announced(t, later)) && Announced(t, later).v.enforced
  {
    SatisfiedExactly(Announced(t, later).v);
  }

  /** And then it does open, once the latest runs are the successful ones and
      nothing is left running. */
  lemma GateOpensWhenProven(t: System)
    requires forall run :: run in t.active && run in t.launches ==> t.launches[run].outcome.Some?
    requires t.v.lastWriteAt.Some?
    requires forall i :: 0 <= i < |t.v.commands| ==> PassedSince(t.v, t.v.commands[i], t.v.lastWriteAt.value)
    ensures GateOpens(t)
  {
    SatisfiedExactly(t.v);
  }

  // -------------------------- what the gate proves of commands announced later

  function Ids(commands: seq<Command>): set<string> {
    set i | 0 <= i < |commands| && commands[i].required :: commands[i].id
  }

  /** The last write was made with these commands and this flag and is settled. */
  predicate Cleared(t: System, first: seq<Command>, enforced: bool) {
    && t.v.commands == first && t.v.enforced == (enforced && AnyRequired(first))
    && t.intact && t.written.Some? && t.v.lastWriteAt.None?
  }

  function Announced(t: System, later: seq<Command>): System {
    Step(t, Configured(later, true))
  }

  /** An open enforced gate is proof that every required command passed since `time`. */
  predicate OpenMeansProven(t: System, time: int) {
    GateOpens(t) && t.v.enforced ==> AllProven(t, time)
  }

  ghost predicate AlwaysProof(first: seq<Command>, enforced: bool, later: seq<Command>) {
    forall ops, t :: RunFrom(START, ops, t) && Cleared(t, first, enforced) ==> OpenMeansProven(Announced(t, later), t.written.value)
  }

  /** The ids whose success settling a write demands. */
  function Asked(first: seq<Command>, enforced: bool): set<string> {
    if enforced then Ids(first) else {}
  }

  lemma AskedWereProven(first: seq<Command>, enforced: bool, later: seq<Command>, ops: seq<Op>, t: System)
    requires Ids(later) <= Asked(first, enforced) && RunFrom(START, ops, t) && Cleared(t, first, enforced)
    ensures AllProven(Announced(t, later), t.written.value)
  {
    InvRun(START, ops, t);
    forall i | 0 <= i < |later| && later[i].required ensures Proven(t.launches, later[i].id, t.written.value) {
      assert later[i].id in Ids(later);
      var k :| 0 <= k < |first| && first[k].required && first[k].id == later[i].id;
      assert AllProven(t, t.written.value);
    }
  }

  lemma {:induction false} RunSnoc(s: System, ops: seq<Op>, t: System, op: Op)
    requires RunFrom(s, ops, t) && Enabled(t, op)
    ensures RunFrom(s, ops + [op], Step(t, op))
    decreases |ops|
  {
    if ops == [] {
      assert ([] + [op])[1..] == [];
    } else {
      RunSnoc(Step(s, ops[0]), ops[1..], t, op);
      assert (ops + [op])[1..] == ops[1..] + [op];
    }
  }

  /** The write at 0 is made, everything launched is over, and of the commands only
      the asked ones have passed, the first `n` of them for certain. */
  predicate Prepared(s: System, first: seq<Command>, enforced: bool, n: nat) {
    && n <= |first| && s.v.commands == first && s.v.enforced == (enforced && AnyRequired(first))
    && s.intact && s.written == Some(0) && s.active == {}
    && (forall r :: r in s.launches ==> r < n && OnlyAskedPassed(s.launches[r], first, enforced))
    && (s.v.lastWriteAt.Some? ==> s.v.lastWriteAt == Some(0) && !Satisfied(s.v))
    && (forall i :: 0 <= i < n ==> PassedSince(s.v, first[i], 0))
  }

  predicate OnlyAskedPassed(l: Launch, first: seq<Command>, enforced: bool) {
    l.outcome == Some(Exited(true)) ==> l.commandId in Asked(first, enforced)
  }

  /** Launch, exit and collection of one run. */
  function RunOnce(s: System, run: nat, id: string, passed: bool): System
    requires run !in s.launches
  {
    Step(Step(Step(s, Launched(run, id, true, 1)), Settled(run, Exited(passed))), Collected(run))
  }

  lemma RunOnceShape(s: System, run: nat, id: string, passed: bool)
    requires run !in s.launches && s.active == {}
    ensures RunOnce(s, run, id, passed)
            == s.(v := RecordAndSettle(s.v, Run(id, passed, 1)), launches := s.launches[run := Launch(id, true, 1, Some(Exited(passed)))])
  {
    var launched := Step(s, Launched(run, id, true, 1));
    assert launched.active - {run} == {};
    assert Step(launched, Settled(run, Exited(passed))).launches == s.launches[run := Launch(id, true, 1, Some(Exited(passed)))];
  }

  lemma RunOnceRuns(ops: seq<Op>, s: System, run: nat, id: string, passed: bool) returns (longer: seq<Op>)
    requires RunFrom(START, ops, s) && run !in s.launches
    ensures RunFrom(START, longer, RunOnce(s, run, id, passed))
  {
    var launched := Step(s, Launched(run, id, true, 1));
    var settled := Step(launched, Settled(run, Exited(passed)));
    RunSnoc(START, ops, s, Launched(run, id, true, 1));
    RunSnoc(START, ops + [Launched(run, id, true, 1)], launched, Settled(run, Exited(passed)));
    longer := ops + [Launched(run, id, true, 1)] + [Settled(run, Exited(passed))];
    RunSnoc(START, longer, settled, Collected(run));
    longer := longer + [Collected(run)];
  }

  lemma Written(first: seq<Command>, enforced: bool) returns (ops: seq<Op>, s: System)
    ensures RunFrom(START, ops, s) && s.v == State(first, enforced && AnyRequired(first), Some(0), {}, map[], [])
    ensures s.launches == map[] && s.active == {} && s.intact && s.written == Some(0)
  {
    var configured := Step(START, Configured(first, enforced));
    s := Step(configured, Wrote({}, 0));
    ops := [Configured(first, enforced), Wrote({}, 0)];
    assert ops[1..] == [Wrote({}, 0)];
    assert RunFrom(configured, ops[1..], s);
  }

  lemma PassOne(s: System, first: seq<Command>, n: nat)
    requires n < |first| && Prepared(s, first, true, n) && first[n].required
    ensures n !in s.launches && Prepared(RunOnce(s, n, first[n].id, true), first, true, n + 1)
  {
    var id := first[n].id;
    RunOnceShape(s, n, id, true);
    var t := RunOnce(s, n, id, true);
    assert id in Ids(first);
    forall i | 0 <= i < n + 1 ensures PassedSince(t.v, first[i], 0) {
      if i < n { assert PassedSince(s.v, first[i], 0); }
    }
  }

  lemma {:induction false} ReachPrepared(first: seq<Command>, n: nat) returns (ops: seq<Op>, s: System)
    requires n <= |first| && AnyRequired(first)
    ensures RunFrom(START, ops, s) && Prepared(s, first, true, n)
  {
    if n == 0 {
      ops, s := Written(first, true);
      SatisfiedExactly(s.v);
    } else {
      ops, s := ReachPrepared(first, n - 1);
      if first[n - 1].required {
        PassOne(s, first, n - 1);
        ops := RunOnceRuns(ops, s, n - 1, first[n - 1].id, true);
        s := RunOnce(s, n - 1, first[n - 1].id, true);
      }
    }
  }

  /** A run to a settled write in which nothing passed but what was asked for. */
  lemma ReachCleared(first: seq<Command>, enforced: bool) returns (ops: seq<Op>, t: System)
    ensures RunFrom(START, ops, t) && Cleared(t, first, enforced) && t.written == Some(0) && t.active == {}
    ensures forall r :: r in t.launches ==> OnlyAskedPassed(t.launches[r], first, enforced)
  {
    if enforced && AnyRequired(first) {
      ops, t := ReachPrepared(first, |first|);
      SatisfiedExactly(t.v);
    } else {
      var before: System;
      ops, before := Written(first, enforced);
      RunOnceShape(before, 0, "", false);
      ops := RunOnceRuns(ops, before, 0, "", false);
      t := RunOnce(before, 0, "", false);
    }
  }

  lemma UnaskedIsUnproven(first: seq<Command>, enforced: bool, later: seq<Command>, t: System, k: nat)
    requires Cleared(t, first, enforced) && t.written == Some(0) && t.active == {}
    requires forall r :: r in t.launches ==> OnlyAskedPassed(t.launches[r], first, enforced)
    requires k < |later| && later[k].required && later[k].id !in Asked(first, enforced)
    ensures !OpenMeansProven(Announced(t, later), 0)
  {
    var u := Announced(t, later);
    assert AnyRequired(later);
    SatisfiedExactly(u.v);
    assert !Proven(u.launches, later[k].id, 0);
    assert u.v.commands[k] == later[k];
  }

  /** When a write was settled under `first`, the open gate is proof for whatever is
      announced later, in every run, exactly if each command required then had been
      asked for: required by `first` while that was enforced. */
  lemma GateProvesExactly(first: seq<Command>, enforced: bool, later: seq<Command>)
    ensures AlwaysProof(first, enforced, later) <==> Ids(later) <= Asked(first, enforced)
  {
    if Ids(later) <= Asked(first, enforced) {
      forall ops, t | RunFrom(START, ops, t) && Cleared(t, first, enforced)
        ensures OpenMeansProven(Announced(t, later), t.written.value)
      {
        AskedWereProven(first, enforced, later, ops, t);
      }
    } else {
      var id :| id in Ids(later) && id !in Asked(first, enforced);
      var k: nat :| k < |later| && later[k].required && later[k].id == id;
      var ops, t := ReachCleared(first, enforced);
      UnaskedIsUnproven(first, enforced, later, t, k);
    }
  }

  lemma RunCons(s: System, op: Op, ops: seq<Op>, t: System)
    requires Enabled(s, op) && RunFrom(Step(s, op), ops, t)
    ensures RunFrom(s, [op] + ops, t)
  {
    assert ([op] + ops)[1..] == ops;
  }

  function AfterPassing(c: Command): System {
    var run := Run(c.id, true, 1);
    System(State([c], true, None, {}, map[c.id := run], [run]), map[0 := Launch(c.id, true, 1, Some(Exited(true)))], {}, Some(0), true)
  }

  function AfterWrite(c: Command): System {
    System(State([c], true, Some(0), {"a"}, map[], []), map[], {}, Some(0), true)
  }

  lemma ReachWrite(c: Command, ops: seq<Op>, t: System)
    requires c.required && RunFrom(AfterWrite(c), ops, t)
    ensures exists all :: RunFrom(START, all, t)
  {
    assert [c][0].required;
    var s1 := Step(START, Configured([c], true));
    assert Step(s1, Wrote({"a"}, 0)) == AfterWrite(c);
    RunCons(s1, Wrote({"a"}, 0), ops, t);
    RunCons(START, Configured([c], true), [Wrote({"a"}, 0)] + ops, t);
  }

  lemma ReachPassing(c: Command, ops: seq<Op>, t: System)
    requires c.required && RunFrom(AfterPassing(c), ops, t)
    ensures exists all :: RunFrom(START, all, t)
  {
    var s3 := Step(AfterWrite(c), Launched(0, c.id, true, 1));
    var s4 := Step(s3, Settled(0, Exited(true)));
    SatisfiedExactly(RecordRun(s4.v, Run(c.id, true, 1)));
    assert Step(s4, Collected(0)) == AfterPassing(c);
    RunCons(s4, Collected(0), ops, t);
    RunCons(s3, Settled(0, Exited(true)), [Collected(0)] + ops, t);
    var two := [Settled(0, Exited(true))] + ([Collected(0)] + ops);
    RunCons(AfterWrite(c), Launched(0, c.id, true, 1), two, t);
    ReachWrite(c, [Launched(0, c.id, true, 1)] + two, t);
  }

  ghost predicate OpenUnproven(t: System) {
    GateOpens(t) && t.v.enforced && t.written == Some(0) && !AllProven(t, 0)
  }

  /** The condition on the commands is needed: a required command announced after the
      others passed is not asked for before the next write. */
  lemma LateCommandIsNotAsked(early: Command, late: Command)
    requires early.required && late.required && early.id != late.id
    ensures exists ops, t :: RunFrom(START, ops, t) && OpenUnproven(t)
  {
    var op := Configured([early, late], true);
    var s := AfterPassing(early);
    var t := Step(s, op);
    assert [early, late][0].required && [early, late][1] == late;
    SatisfiedExactly(t.v);
    assert t.v.commands[1] == late && !Proven(t.launches, late.id, 0);
    assert OpenUnproven(t);
    RunCons(s, op, [], t);
    ReachPassing(early, [op] + [], t);
  }
}
